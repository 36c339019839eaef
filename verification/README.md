# HarmonyDB, verified

A Dafny model of HarmonyDB, a replicated key-value store, with proofs about its four connected parts:

- **Raft** (`repl/`). One node's state machine, first as functions on values (`RaftMachine`, `RaftLogs`),
  then as the mutable objects of the source, proved against them (`RaftNode.Raft`, `RaftLogs.RaftLog`,
  `Driver.Node`). `Cluster` puts any number of nodes on a network that keeps every message ever sent, so
  messages may be lost, delayed, reordered and duplicated. A step of a run is one Step, one Tick, or one whole
  Ready/persist/send/apply/Advance round. `RaftFacts` says what one step of one node can do, `Effects` what it does do:
  which answer it gives and when, whom it writes to, when it leads and when it commits (`RunEffects` over runs). The
  safety theorems over whole runs rest on the facts alone: election safety, entry identity, log matching, the position bound,
  exactly-once hand-off, commit by counting, agreement of what is applied. `Alignment` has the exact condition of Log
  Matching, `SmallRuns` three concrete runs, one from a proposal to its delivery on both nodes.
- **B+ tree** (`btree.go`, `node.go`). Pages as values with cells in arrival order, sorted offsets, the
  capacity behind the offsets slice and the stale cells a split leaves (`Pages`, `LeafPages`), trees of pages
  (`Trees`), what every put does to every answer and when the tree is a map (`TreeAnswers`), the order the design
  intends and when it lasts (`TreeRefinement`), a run that loses a key (`LostKeys`), and the mutable nodes and tree
  (`BTrees`). `Tables` is the reference map.
- **Formats and recovery** (`wal/wal.go`, the page codec of `node.go`, `replay.go`): `Binary`, `Wal`,
  `PageCodec`, `Replay`, and `Recoveries`, replay of the WAL that a node's own driver has written.
- **Apply path** (`db.go`, `scheduler/`, `wait.go`, `wait_time.go`, `generator.go`): `ApplyPath`, `Waiters`,
  `WaitTimes`, `Generators`. `Replicas` is the whole system: a cluster, an apply path on every node fed by what Raft
  delivers there, and an Id generator on every node.

The code departs from textbook Raft, and the model keeps every departure: followers append without truncation
or duplicate checks, votes do not compare logs, a successful response sets `matchIndex` to the leader's own last
index, and a leader takes any append for a proposal. Leader Completeness and State Machine Safety therefore do not
hold of it. Some results are stated for restricted runs, and each restriction is a predicate of the model:

- A **contiguous run** (`LogMatching.IsContiguousRun`): every entry-carrying append that a follower or
  candidate accepts came from a peer and continues its log exactly where it ends. A client's proposal that a follower
  refuses, as it does in any term but 0, does not matter.
- A run with a **sole leader** (`AppliedPrefixes.SoleLeader`): only one node ever leads, in however many terms.

What an operation must not do and what it must do are proved apart: votes are granted, successes are answered and
counted, commits are made, messages reach every peer, Puts and Gets return, and each of these exactly when it should.

Six properties are false of the code in general. Each is stated with its exact condition and a failing input:

- Log Matching (section 5.3 of the Raft paper): in any run it holds at every moment exactly if every accepted append is
  *aligned* (`Alignment.LogMatchingIffAligned`): its entries land at the positions they have in the sender's log, and a bare
  proposal, taken by a follower in term 0, is the only entry of its log and the only bare entry anywhere.
  In `SmallRuns.LogMatchingFails` a two-node cluster elects a leader and the network delivers its first append
  twice; the follower then has entry 1 of term 1 at positions 1 and 2. Where no bare proposal is taken, aligned runs
  are the contiguous ones (`Alignment.LogMatchingIffContiguous`); with one they need not be
  (`SmallRuns.BareProposalIsHarmless`).
- Every entry sits at the position its Id names: exactly in contiguous runs
  (`LogMatching.PositionsHoldIffContiguous`); the same run shows it fail.
- The tree is a map: exactly while no put *strands* a cell (`TreeAnswers.TreeIsMapIff`, over every sequence of puts from
  the empty tree). A put strands a cell if it splits its leaf and some stale cell of the leaf has a key from the new
  separator up to the next one; Get reached that cell until then and is sent to the new page from then on. The
  condition can be checked before the put. `LostKeys.LostKey` is a run of nineteen puts (10, 20, ..., 90, then 1 to 5,
  then 11 to 15), the last of which strands and loses 20. `TreeRefinement.ValidStrandsNothing` shows that it takes
  a tree that is out of order, `TreeRefinement.PutKeepsValidIff` which puts bring a tree out of order, and
  `TreeRefinement.TreeIsMapInRegime` that keys at or above the leftmost separator never do.
- A page keeps its live contents across encode and decode: exactly when its offsets are 0, 1, 2, ...
  (`PageCodec.LiveContentsSurviveIff`); two keys inserted in descending order do not survive
  (`PageCodec.DescendingInsertsAreScrambled`).
- Replay brings the stored `lastApplied` up to date: exactly when no entry was skipped (`Replay.ReplayCatchesUp`); with
  one skipped entry it never does (`Replay.SkippedEntryIsNeverCounted`).
- Waits are answered rightly for every deadline: exactly while triggers do not decrease
  (`WaitTimes.WaitRightIffMonotone`), since `Trigger` overwrites `lastTriggered` unconditionally; after triggers 5 and 3 a
  wait for 4 hangs (`WaitTimes.LateTriggerHangs`).

Choices that are Go's and not the program's are parameters: the order in which a map is ranged over (`order`)
and the wall clock. Lines marked `ghost` and the fields `issued`, `proposed`, `counted`, `handed`, `reached`,
`delivered`, `executed`, `received`, `queued` and `sent` are history kept for the proofs.

## Model

| member | source | states |
|---|---|---|
| RaftLogs.AppendKeepsBound | repl/log.go:47-52 | Appending a window of entries whose Ids start no later than just past the log keeps every Id at or below its position |
| RaftLogs.RaftLog.Append | repl/log.go:47-52 | The log grows by exactly these entries, with no truncation or duplicate check |
| RaftLogs.RaftLog.Term | repl/log.go:55-61 | The lookup stays inside the slice for every Id the log claims, and answers 0 beyond it |
| RaftLogs.RaftLog.CommittedEntries | repl/log.go:64-76 | Exactly the `commitIndex - lastApplied` entries in between, none dropped by the length guard |
| RaftLogs.RaftLog.MaybeCommit | repl/log.go:79-85 | Advances if and only if the index is above the old one and at most the last Id; otherwise nothing moves |
| RaftLogs.RaftLog.MarkAppliedTill | repl/log.go:88-92 | lastApplied only rises, nothing else moves |
| RaftLogs.RaftLog.MarkStableTill | repl/log.go:95-99 | stableIndex rises only to an index the log has reached |
| RaftLogs.RaftLog.VolatileEntries | repl/log.go:102-114 | Exactly the entries between stableIndex and the last Id |
| RaftMachine.NumberingKeepsBound | repl/sm.go:445-457 | A leader's renumbered proposals keep the position bound and raise the last index by their number |
| RaftMachine.CommitTarget | repl/sm.go:319-338 | The greatest index above commitIndex that a quorum covers with a current-term entry, or commitIndex when there is none |
| RaftNode.Raft.constructor | repl/sm.go:110-137 | A new node is a term-0 follower with an empty log, and valid |
| RaftNode.Raft.BecomeFollower | repl/sm.go:621-633 | Whole new state: term adopted, votes dropped, timer reset, log and recorded votes untouched |
| RaftNode.Raft.BecomeCandidate | repl/sm.go:635-645 | Whole new state: an empty ballot and a reset timer, everything else untouched |
| RaftNode.Raft.BecomeLeader | repl/sm.go:647-663 | Progress of every peer reset to (0, last + 1), records of non-peers kept, whatever the map order |
| RaftNode.Raft.Campaign | repl/sm.go:500-536 | Term up by one, own vote recorded, one request per peer in range order; a lone node leads at once |
| RaftNode.Raft.HandleVoteRequest | repl/sm.go:341-378 | Refines the vote function: later terms adopted, one candidate per term on record, logs not compared |
| RaftNode.Raft.HandleVoteResponse | repl/sm.go:395-431 | The counting loop counts exactly the granted votes; a quorum makes the node leader |
| RaftNode.Raft.HandleAppendEntries | repl/sm.go:199-242 | Refines the append function in all branches: stale term, failed consistency check, append and bounded commit |
| RaftNode.Raft.AcceptEntries | repl/sm.go:226-241 | Entries go on the end whatever is there; commit follows the leader up to the last Id; the response waits for persistence |
| RaftNode.Raft.HandleAppendResponse | repl/sm.go:272-317 | Success sets the sender's progress to the leader's own last index and counts; failure steps nextIndex back |
| RaftNode.Raft.CountReplicated | repl/sm.go:323-330 | The loop counts one plus exactly the progress records that cover the index |
| RaftNode.Raft.MaybeCommit | repl/sm.go:319-338 | commitIndex ends at the greatest committable index above the old one, or unchanged; no greater index is committable |
| RaftNode.Raft.Number | repl/sm.go:448-457 | Proposals take the current term and consecutive Ids after the last index |
| RaftNode.Raft.QueueAppends | repl/sm.go:459-495 | One append per peer: the slice from nextIndex to the end, with the term of the entry before it |
| RaftNode.Raft.Replicate | repl/sm.go:437-498 | Only a leader accepts; the log grows by the numbered proposals and the appends queued show the grown log |
| RaftNode.Raft.BroadcastHeartbeat | repl/sm.go:595-619 | One empty append per peer at its matchIndex, with that entry's term and the commit index |
| RaftNode.Raft.StepFollower | repl/sm.go:538-556 | Message dispatch of a follower, with the whole new state |
| RaftNode.Raft.StepCandidate | repl/sm.go:558-577 | Message dispatch of a candidate, with the whole new state |
| RaftNode.Raft.StepLeader | repl/sm.go:579-593 | Message dispatch of a leader: any append is taken for a proposal |
| RaftNode.Raft.Step | repl/sm.go:189-197 | From any valid state and any message, the object moves as the value-level Step does |
| RaftNode.Raft.Tick | repl/sm.go:665-699 | The timers fire a campaign or a heartbeat exactly at their timeouts |
| RaftNode.Raft.TakeReady | repl/sm.go:139-168 | A Ready is produced if and only if there is something to do, and takes both buffers and both entry ranges whole |
| RaftNode.Raft.Advance | repl/sm.go:170-180 | stableIndex and lastApplied move to the current last and commit index |
| RaftFacts.CampaignFacts | repl/sm.go:500-536 | A campaign loses no vote, entry or commit, and makes a leader only of a node alone in its quorum |
| RaftFacts.VoteRequestFacts | repl/sm.go:341-378 | No recorded vote is ever overwritten, and a granted response matches the record |
| RaftFacts.VoteResponseFacts | repl/sm.go:395-431 | Every vote a new leader counted is its own, was counted before in this term, or is in this message |
| RaftFacts.AppendEntriesFacts | repl/sm.go:199-242 | The log grows by nothing or by the message's entries, and commit stays within the leader's |
| RaftFacts.ReplicateFacts | repl/sm.go:437-498 | Every append queued is a slice of the grown log, and the entries gained are numbered in the leader's term |
| RaftFacts.AppendResponseFacts | repl/sm.go:272-338 | A leader's commit index moves only to the greatest committable index |
| RaftFacts.StepSatisfiesFacts | repl/sm.go:189-197 | For any role, state and admissible message, one Step keeps validity, grows monotonically, and explains every vote, entry, message and commit it adds |
| RaftFacts.TickSatisfiesFacts | repl/sm.go:665-699 | The same of a timer tick |
| Effects.QuorumIsMajority | repl/sm.go:332-333 | The quorum is the least number that is more than half of the cluster |
| Effects.VoteRequestDoes | repl/sm.go:341-393 | Whoever does not lead answers a vote request with one message, a grant if and only if the request is not stale and the vote of its term is free or the candidate's, whatever the logs; the term is quoted and a grant goes on record |
| Effects.VoteResponseDoes | repl/sm.go:395-431 | A candidate leads if and only if more than half of the cluster has granted, and then expects of every peer the entry after its last |
| Effects.AppendDoes | repl/sm.go:199-270 | A stale or unmatched append changes no log and gets a failure at once; any other is appended whole, moves the commit index to the sender's as far as the log reaches, and gets a success after persistence if it has entries |
| Effects.CountDoes | repl/sm.go:272-338 | After a success the record is the leader's own last index and no index above the commit index is left that a majority covers in the current term; after a failure the next index is one lower |
| Effects.ProposalDoes | repl/sm.go:437-498 | A leader appends each proposed command in order under the next Id, and every peer gets one append with everything from its next index on |
| Effects.HeartbeatDoes | repl/sm.go:595-619 | Every peer gets one empty append at its matched entry, with the commit index |
| Effects.CampaignDoes | repl/sm.go:500-536 | The next term, the own vote, and one request to every peer; a node alone leads at once |
| Effects.StepDoesIt | repl/sm.go:189-197 | Every Step of every valid node does what these say, and leaves the node as it was where its role has no use for the message |
| Effects.LeaderTickDoes | repl/sm.go:689-699 | A leader's tick sends the heartbeats at the timeout and only counts before |
| Effects.OtherTickDoes | repl/sm.go:665-687 | Any other node's tick campaigns at the timeout and only counts before |
| RunEffects.RunDoes | repl/raft.go:111-120 | In every run every delivered or proposed message is dealt with so |
| RunEffects.RequestsAreAnswered | repl/sm.go:341-393 | In every run a vote request to a node that does not lead is answered, and the answer is queued for the candidate |
| RunEffects.RepliesTellTheTruth | repl/sm.go:244-270 | In every run an append response waiting for persistence is a success and any other a refusal, and all that is queued is for a node of the cluster, replies to clients aside |
| RunEffects.DriverSendsAll | repl/raft.go:167-196 | In every run the driver sends the whole of both batches, replies to clients aside |
| Driver.Node.SaveToWAL | repl/raft.go:160-164 | The WAL grows by exactly these entries, in order |
| Driver.AddressedExactly | repl/raft.go:167-180 | A message to a known member goes out as often as it was to be sent, any other not at all |
| Driver.AddressedInOrder | repl/raft.go:167-180 | Messages go out in the order in which they were to be sent |
| Driver.Node.Send | repl/raft.go:167-196 | Exactly the messages addressed to known members go out; all of them if all are |
| Driver.Node.Turn | repl/raft.go:121-152 | One turn of the loop moves state, WAL and applier hand-off as a round of the cluster model, with both batches sent |
| Cluster.AdvanceHandsOver | repl/sm.go:139-180 | After a round, the WAL and the applied prefix reach exactly past what the Ready handed over |
| Cluster.NextSound | repl/raft.go:111-157 | Any enabled action of any node keeps every node's invariant, and no node loses terms, votes, entries or commits |
| Cluster.RunIsSound | repl/raft.go:111-157 | Every reachable state of a cluster of any size is sound: nodes valid, WAL and deliveries exact, every message vouched for by its sender |
| Cluster.RunGrows | repl/sm.go:199-241 | Terms, recorded votes, log prefixes and commit indexes only grow between any two moments of a run |
| ElectionSafety.ElectedIsUnique | repl/sm.go:341-378 | Majorities of recorded votes for one term name one candidate |
| ElectionSafety.RunIsFair | repl/sm.go:395-431 | In every run each counted vote is on the voter's record and each leader has a majority on record |
| ElectionSafety.ElectionSafety | repl/sm.go:341-431 | No two nodes are ever leader in the same term, at the same or at different moments (section 5.2 of the Raft paper) |
| EntryIdentity.NewKeysAreFresh | repl/sm.go:445-457 | Nothing issued so far anywhere has a key the leader is about to assign |
| EntryIdentity.NoKeyAssignedTwice | repl/sm.go:437-457 | In every run each (term, Id) pair is assigned at most once in the whole cluster |
| EntryIdentity.EntryIdentity | repl/sm.go:437-457 | Two entries with one term of at least 1 and one Id, in any logs or messages at any moments, are the same entry |
| EntryIdentity.OnlyProposedCommands | repl/sm.go:437-498 | No log or append ever holds a command that no client proposed |
| LogMatching.AcceptGivesPrefix | repl/sm.go:215-229 | A contiguous append that passes the consistency check makes the receiver's log a prefix of the sender's |
| LogMatching.DenseIffContiguous | repl/sm.go:215-229 | One accepted append keeps every entry at the position its Id names if and only if it is contiguous |
| LogMatching.PositionsHoldIffContiguous | repl/sm.go:199-241 | In a run, every entry of every log is at its own position at every moment if and only if the run is contiguous |
| Alignment.SamePositionSameEntry | repl/sm.go:215-229 | In agreeing logs two entries with one term of at least 1 at one position are one entry, which is what the check of a term at a position relies on |
| Alignment.AlignedGivesPrefix | repl/sm.go:215-229 | An aligned append that passes the consistency check makes the receiver's log a prefix of the sender's |
| Alignment.LogMatchingIffAligned | repl/sm.go:199-241 | In any run, Log Matching holds at every moment if and only if every accepted append and proposal is aligned |
| Alignment.LogMatchingIffContiguous | repl/sm.go:199-241 | In a run in which no follower or candidate takes a bare proposal, Log Matching holds at every moment if and only if the run is contiguous |
| SmallRuns.LogMatchingFails | repl/sm.go:226-229 | A concrete run of a two-node cluster, with one append delivered twice, ends with one (term, Id) at two positions of a log |
| SmallRuns.BareProposalIsHarmless | repl/sm.go:205-229 | A run in which a node takes one bare proposal in term 0 is not contiguous, and Log Matching holds throughout |
| SmallRuns.CommandIsDelivered | repl/raft.go:111-157 | A concrete contiguous run of a two-node cluster from start to a command in the WAL, committed and delivered on both nodes |
| LogMatching.LogMatching | repl/sm.go:199-241 | In every contiguous run, entries with the same Id and term sit at the same position and the logs agree up to it (section 5.3 of the Raft paper) |
| LogMatching.AppendsAreSlices | repl/sm.go:459-495 | In every run, each append ever queued or sent is a slice of its sender's log, with the right preceding term |
| CommitIndex.CommitIndexNeverFalls | repl/log.go:79-85 | No commit index decreases between any two moments of any run |
| CommitIndex.CommitsAreCounted | repl/sm.go:231-338 | No node exceeds the largest index a leader counted, and that value moves only to the greatest index a quorum covers in the current term (section 5.4.2 of the Raft paper) |
| AppliedPrefixes.PositionBoundHolds | repl/log.go:31-76 | In every run, duplicates and bare proposals included, the entry at position i has an Id of at most i, and lookups and hand-offs are in range and complete |
| AppliedPrefixes.ExactlyOnceHandOff | repl/raft.go:121-164 | In every run the WAL is exactly the log up to stableIndex, deliveries exactly the log up to lastApplied, and queued messages are sent once in queue order |
| AppliedPrefixes.RoundLeaves | repl/raft.go:121-152 | In every run a round leaves both buffers empty and everything committed delivered; the WAL then holds the whole log if and only if the last Id named the last position or the WAL held it all before |
| AppliedPrefixes.RoundCatchesUp | repl/raft.go:121-152 | So in a contiguous run a round leaves the whole log in the WAL |
| AppliedPrefixes.AppliedPrefixesAgree | repl/log.go:64-92 | In contiguous runs with a sole leader, every log is a prefix of the leader's and deliveries at any two nodes and moments are prefixes of one another |
| ElectionClock.TermCountsTimeouts | repl/sm.go:665-687 | k silent ticks raise the term by exactly (electionTick + k) / electionTimeout and leave the remainder on the clock |
| KeyOrder.Order | node.go:180-186 | bytes.Compare is a strict total order on keys |
| KeyOrder.InsertionPointSeparates | node.go:171-189 | On a list in order, repetitions allowed, the binary search ends between the keys at most and the keys at least the one sought |
| KeyOrder.InsertionPointIsRank | node.go:171-189 | Without repetitions it ends at the number of keys below the one sought |
| Pages.ResliceInBounds | node.go:148-154 | Re-slicing offsets one past the insertion place stays within the backing array, at the end of a split page included |
| Pages.InsertSorted | node.go:148-189 | A fresh key inserted at its rank keeps the live keys strictly sorted |
| Pages.CopyLeafCellsFacts | node.go:68-73 | The copied half has offsets 0, 1, 2, ... and exactly the upper live cells, in order |
| LeafPages.LookupFindsLive | node.go:205-213 | A scan over all cells of a page, stale ones included, hits the live cell of every live key |
| LeafPages.UpsertLeaf | btree.go:212-229 | One put into a leaf changes the answer for its own key only, keeps the live keys sorted and no key in two cells |
| LeafPages.SplitLeaf | node.go:63-90 | A split divides the live cells into two halves, neither empty nor full, around a separator; the left half still answers for every cell, the right half for exactly the keys that moved |
| TreeAnswers.SpanRouted | node.go:191-203 | Before a split, all keys from the new separator up to the next one are answered by the leaf that splits, however the tree came about |
| TreeAnswers.AddChildRoutes | node.go:191-203 | After a separator is added, exactly the keys from it up to the next one are sent to the new page; all others go where they went |
| TreeAnswers.ChildSplits | btree.go:257-294 | A child split panics exactly when the root already has 290 children, and otherwise leaves the two halves and the new routing |
| TreeAnswers.RootSplits | btree.go:235-256 | Splitting the root leaf leaves the two halves under a new internal root |
| TreeAnswers.PutPanicsIff | btree.go:271-306 | A put panics if and only if the root has 290 children, the key is new and its leaf has eight live cells |
| TreeAnswers.PutAnswers | btree.go:174-306 | Every put that returns keeps the tree well formed; it says for every key what Get answers afterwards |
| TreeAnswers.PutRefinesIff | btree.go:174-306 | A put that returns is a map update if and only if it strands no cell |
| TreeAnswers.StrandedIsLost | btree.go:212-269 | A stranded cell answered for its key before the put, and no page does afterwards |
| TreeAnswers.TreeIsMapIff | btree.go:174-210 | Over every sequence of puts from the empty tree, Get answers the last value put or not found at every moment if and only if no put strands a cell |
| TreeAnswers.TreeIsTable | btree.go:174-210 | While nothing is stranded, Get answers what the table made by the puts does |
| TreeRefinement.PutKeepsValidIff | btree.go:257-266 | A put keeps the tree in order if and only if it does not split the leftmost leaf at or below the leftmost separator |
| TreeRefinement.ValidStrandsNothing | btree.go:212-269 | From a tree in order no put strands a cell |
| TreeRefinement.ValidPutRefines | btree.go:174-306 | From a tree in order every put that returns is a map update, one that brings it out of order included |
| TreeRefinement.RegimeNeverMisplaces | btree.go:257-266 | A put at or above the leftmost separator of a tree with nothing below it misplaces no page |
| TreeRefinement.GetReturnsLiveCell | btree.go:188-210 | Whatever Get returns from a tree in order is the value of a live cell with that key |
| TreeRefinement.TreeIsMapInRegime | btree.go:174-210 | After any sequence of puts whose keys stay at or above the leftmost separator once the root is internal, the tree is in order and is a map |
| LostKeys.LostKey | node.go:191-203 | After the puts of 10, 20, ..., 90, 1 to 5 and 11 to 15 the key 20 is not found; it was before the last of them, and that one strands it |
| BTrees.Node.AppendInternalCell | node.go:119-125 | Refines the page value, with the capacity of the offsets slice |
| BTrees.Node.InsertInternalCell | node.go:127-135 | Opening a gap in the shared slice puts the new cell exactly at its place of the order |
| BTrees.Node.AppendLeafCell | node.go:137-146 | Refines the page value, with the capacity of the offsets slice |
| BTrees.Node.InsertLeafCell | node.go:148-162 | Both branches put the new cell at the same place, and neither re-slices beyond capacity |
| BTrees.Node.FindInsPointForKey | node.go:171-189 | Binary search on any list of live keys; on sorted ones it returns how many are below the key |
| BTrees.Node.FindChildPage | node.go:191-203 | Returns the cell of the last separator at or below the key, or cell 0 when there is none |
| BTrees.Node.FindLeafCell | node.go:205-213 | Returns the first cell with the key, live or stale, or none |
| BTrees.Node.Split | node.go:63-105 | Leaf or internal: leaves the lower half, moves the upper half in order, and returns the first key of the upper half |
| BTrees.BTree.constructor | btree.go:97-102 | A fresh tree is one empty root leaf at offset 0 |
| BTrees.BTree.Add | btree.go:134-138 | The page gets the next free offset and nothing else changes |
| BTrees.BTree.SetRootPage | btree.go:168-172 | The page is added and becomes the root |
| BTrees.BTree.Get | btree.go:184-210 | Returns what the tree value answers |
| BTrees.BTree.InsertLeaf | btree.go:212-269 | Moves the object tree exactly as the value-level insert does, splits and new roots included |
| BTrees.BTree.InsertInternal | btree.go:271-306 | Routes to a child, inserts there, and fails exactly when the root overflows |
| BTrees.BTree.Put | btree.go:174-182 | The object tree moves as the value tree from any tree puts can grow; a put that returns is a map update if and only if it strands no cell |
| Binary.Int64RoundTrip | wal/wal.go:129-134 | Any int64 survives eight little-endian bytes of two's complement |
| Binary.LittleEndian | wal/wal.go:129-147 | Fixed-width integers go least significant byte first |
| Wal.RecordBytes | wal/wal.go:128-159 | One record byte by byte: term, Id, three lengths, key, value, operation |
| Wal.RecordRoundTrip | wal/wal.go:63-163 | One record decodes to its entry and leaves exactly what followed it |
| Wal.FileRoundTrip | wal/wal.go:63-163 | Decoding the concatenated encodings of any list returns the list, request Ids aside |
| Wal.DecodesIffEncoding | wal/wal.go:63-123 | Bytes decode to a list if and only if they are that list's encoding |
| Wal.CutFile | wal/wal.go:63-123 | A file cut anywhere decodes if and only if the cut is on a record boundary, and then to the entries before it |
| Wal.EncodeLog | wal/wal.go:125-163 | The write loop produces the concatenation of the records |
| Wal.DecodeLogs | wal/wal.go:63-123 | The read loop accepts and returns exactly what the specification of the format does |
| Wal.LogManager.constructor | wal/wal.go:165-190 | Opening a decodable file loads its entries and leaves the file in step with them |
| Wal.LogManager.Append | wal/wal.go:192-203 | One record is added to the file and one entry to the list; they stay in step if the lengths fit 32 bits |
| Wal.LogManager.GetLog | wal/wal.go:274-285 | The entry at list position index - 1, or none outside 1..n |
| Wal.LogManager.GetLogsAfter | wal/wal.go:301-316 | The entries from list position index - 1 on, clamped at both ends |
| PageCodec.PageRoundTrip | node.go:231-453 | A page encodes if and only if its body and free-size field fit 4096 bytes; the result is one page long and decodes to the same kind and offsets, with the cells in offset order |
| PageCodec.LiveContentsSurviveIff | node.go:231-453 | A leaf or internal page read back from its encoding lists the same live cells in the same order if and only if its offsets were 0, 1, 2, ... |
| PageCodec.DescendingInsertsAreScrambled | node.go:231-289 | A page on which two keys were inserted in descending order, with values of up to 4069 bytes together, encodes and does not read back with the same live cells |
| PageCodec.LeafBytes | node.go:231-289 | A one-cell leaf byte by byte: kind, count, offset, sizes, key, value, free size, zeros |
| PageCodec.KindByte | node.go:352-367 | The first byte decides the kind; anything but a leaf's is read as an internal page |
| PageCodec.EncodePage | node.go:215-349 | The write loops produce the format, or an error when the page is too large |
| PageCodec.DecodePage | node.go:352-453 | The read loops accept and return exactly what the format does, for any bytes |
| Replay.ReplayWAL | replay.go:11-75 | The loop applies exactly the PUTs between lastApplied and lastCommit and updates the metadata only if it applied any |
| Replay.OnePut | replay.go:43-63 | An entry puts something if and only if it has a command whose operation is spelled PUT |
| Tables.FoldLookup | replay.go:43-58 | Applying puts leaves each key with its last value put, or as it was |
| Replay.ReplayCatchesUp | replay.go:25-72 | From a tree that reflects 1..lastApplied, replay reaches min(lastCommit, n); the stored lastApplied catches up if and only if nothing was skipped |
| Replay.ReplayIsIdempotent | replay.go:11-75 | Replaying any number of times leaves the tree of the first replay, even while lastApplied lags |
| Replay.SkippedEntryIsNeverCounted | replay.go:67-72 | With one committed entry that is skipped, the stored lastApplied stays at 0 after any number of replays |
| Replay.ReplayFromFile | wal/wal.go:205-221 | Recovery from the entries read back from disk equals recovery from the entries appended |
| Recoveries.WalIsNumbered | repl/raft.go:160-164 | In every contiguous run each node's WAL is numbered from 1 and is the first part of its log |
| Recoveries.NodeRecovers | replay.go:11-75 | In every contiguous run, on every node, one replay or many of its own WAL, from a tree that reflects any first part of it, leave the tree of everything committed that the WAL holds, read back from the file or not |
| WaitTimes.WaitTime.Wait | wait_time.go:32-49 | A reached deadline gets the closed channel, a pending one its own, a new one a fresh one |
| WaitTimes.WaitTime.Trigger | wait_time.go:54-66 | Closes and forgets exactly the pending channels at or below the deadline, in whatever map order |
| WaitTimes.WaitersWakeExactly | wait_time.go:32-66 | In every interleaving no channel is closed twice; with non-decreasing triggers a channel is closed if and only if its deadline was reached, and pending deadlines lie beyond the last trigger |
| WaitTimes.WaitRightIffLargest | wait_time.go:32-58 | At every moment of every interleaving, waits are answered rightly for every deadline if and only if the last trigger is the largest so far |
| WaitTimes.WaitRightIffMonotone | wait_time.go:32-58 | Over a whole interleaving they are answered rightly at every moment if and only if triggers do not decrease |
| WaitTimes.LateTriggerHangs | wait_time.go:54-58 | After triggers 5 and 3, a wait for 4 is handed a channel that is open although 4 was reached |
| Waiters.Waiter.Register | wait.go:41-50 | One open channel per Id, the same one for a repeated Id |
| Waiters.Waiter.Trigger | wait.go:31-39 | Closes the Id's channel and forgets it, or does nothing |
| Waiters.TriggerClosesOnlyOwn | wait.go:31-50 | Triggering an Id closes a registered channel if and only if it is that Id's own |
| Waiters.FifoScheduler.AddTask | scheduler/scheduler.go:43-50 | The task is queued behind all others |
| Waiters.FifoScheduler.NextTask | scheduler/scheduler.go:53-61 | Tasks leave exactly in the order they were added; an empty queue yields none |
| ApplyPath.TreeFollowsDelivery | db.go:114-141 | In every run the table is the fold of the executed entries, which are a prefix of what was delivered |
| ApplyPath.NextIdentified | db.go:145-175 | Whatever is delivered with a Put's Id is that Put's own command, delivered after it began |
| ApplyPath.AcknowledgedWritesAreRead | db.go:145-216 | A Put succeeds only after its own command was applied, and any later Get on the node returns its value or that of an entry applied later |
| ApplyPath.PutsReturnExactly | db.go:122-185 | In every run a Put returns if and only if the step that triggers its own command is over |
| ApplyPath.GetsWakeExactly | db.go:132-216 | In every run a Get reads the commit index of the last published batch and is let through if and only if a batch that reaches it is finished; no channel is closed twice |
| ApplyPath.FinishedIsExecuted | db.go:114-141 | In every run all entries of the finished batches have been executed, in order |
| ApplyPath.PutsCanReturn | db.go:114-185 | From every state of every run with the command of a pending Put delivered, the applier can go on until the Put returns |
| ApplyPath.GetsCanReturn | db.go:114-216 | From every state of every run any Get, begun or not, can go on until it is let through |
| Replicas.NextIdIsFresh | generator.go:40-59 | An Id about to be handed out is in no command proposed so far on any node |
| Replicas.DeliveredIsProposed | repl/raft.go:121-152 | Everything Raft delivers on a node is the command of a Put begun on some node |
| Replicas.BatchIsProposed | repl/raft.go:137-146 | The next batch on the apply channel holds commands of Puts only, and its commit index is not below the one before it |
| Replicas.SeenIsStep | db.go:114-175 | Whatever the system does, each node's apply path takes a step of its model: its assumptions on Ids and deliveries are met |
| Replicas.TableIsFold | db.go:114-141 | In every run each node's table is the fold of what it executed, the first of the commands Raft delivered there |
| Replicas.AcknowledgedWritesAreRead | db.go:114-216 | In every run of the whole system, on every node, a Put succeeds only after its own command was applied there, and any later Get there sees its value or a later one |
| Replicas.PutsReturnExactly | db.go:122-185 | In every run of the whole system, on every node, a Put returns if and only if the step that triggers its own command is over |
| Replicas.ReplicasAgree | db.go:114-141 | In contiguous runs with a sole leader, what two nodes executed are prefixes of one another, and equally many entries mean equal tables |
| Replicas.TablesHoldProposedValues | db.go:114-175 | In every run each key of each node's table has a value that some Put gave it |
| Replicas.GetsWakeExactly | db.go:132-216 | In every run of the whole system, on every node, read triggers do not decrease, so waiting Gets are let through exactly when their index is reached |
| Replicas.TreeServesReads | db.go:114-216 | The B+ tree grown by the executed puts answers every Get as the node's table does, while none of them strands a cell |
| Generators.Generator.Next | generator.go:51-55 | Hands out the next Id of the sequence and wraps the counter at 64 bits |
| Generators.NextAfter | generator.go:51-55 | Calls in a row hand out consecutive members of the sequence, through the 64-bit wrap |
| Generators.IdsRepeatEvery48Bits | generator.go:51-59 | Two Ids of one generator are equal if and only if their numbers are a multiple of 2^48 apart |
| Generators.ConsecutiveIdsDistinct | generator.go:51-59 | Any 2^48 Ids in a row are pairwise distinct |
| Generators.MembersNeverCollide | generator.go:40-59 | Generators with different member Ids never hand out a common Id, whatever their clocks |
| Generators.SuffixIsTime | generator.go:40-49 | A new generator counts from the low 40 bits of its creation time in milliseconds, shifted by one byte |
| Generators.RestartStaysDistinct | generator.go:20-31 | A member that restarts d milliseconds later repeats no Id if it had handed out at most 256 d of them |

## Left out

- TreeAnswers.PutAnswers: a root leaf, or one internal root over leaves. A root that overflows is reported as a failure, since the source splits it through a nil parent (btree.go:294-303).
- BTrees.BTree.Put: the pages a failing put leaves behind are not described, for the same reason.
- BTrees.BTree.Get: every page is in the cache, as in the source until a tree is reopened; a Get that races the applier's put is taken as one step before or after it.
- BTrees.Node.InsertLeafCell: the growth of a slice is doubling without Go's rounding up to size classes, which only adds room.
- RaftMachine.CommitTarget: runs downwards; the upward loop of the source is `RaftNode.Raft.MaybeCommit`, proved equal to it.
- RaftNode.Raft.Replicate: entries are values. The source renumbers the proposed entries in place; nothing else keeps them, because messages are serialized between nodes.
- RaftNode.Raft.Number: terms and Ids are unbounded integers; int64 overflow is not modelled.
- RaftNode.Raft.TakeReady: Ready and Advance belong to one step of a run. A second Ready before the first is consumed would fill the one-slot channel (repl/sm.go:163-164).
- LogMatching.LogMatching: contiguous runs only, because followers never truncate; `Alignment.LogMatchingIffAligned` has the condition for all runs.
- AppliedPrefixes.AppliedPrefixesAgree: contiguous runs with one leader only, because votes do not compare logs.
- Replicas.AcknowledgedWritesAreRead: for nodes whose Ids differ as uint16, which is what the generators are given, and up to 2^48 Puts on each, after which Ids repeat. A Put or Get that times out returns an error and no claim.
- Replicas.TreeServesReads: the tree is tied to the table for the executed puts; `ApplyPath` and `Replay` otherwise take the tree as the map it then is.
- ApplyPath.FinishedIsExecuted: the metadata that the applier stores after each batch (db.go:133-135) is not part of that model; `Recoveries.NodeRecovers` holds whatever first part of the WAL it names.
- Wal.LogManager.constructor: a file that does not decode makes the source panic, so it is a precondition here.
- Generators.Generator.Next: shifts and masks are written as multiplication and remainder, and the disjoint `|` as addition; the atomic add is one step.
- Restarts of a node's state machine: terms and votes are not persisted.
- Leader Completeness and State Machine Safety: not properties of this code.
- Commit on a single-node cluster: counting runs only on append responses, so it is never reached.
- Page flushing, dirty flags and reopening the tree (`storage.go`), `TruncateAfter` and `GetLastLogID` of the WAL, fsync timing.
- gRPC, HTTP, YAML bootstrap, loggers and generated protobuf code.
