/** The apply path of db.go as a step system: batches of committed entries arrive, a FIFO scheduler runs
    one applier job at a time, and client Puts and Gets wait on channels. Every entry is applied and
    its waiter triggered in two separate steps, and clients may act between any two steps. All that is
    asked of the rest of the system is that request Ids are fresh when a Put begins, here or on another
    node, that only commands of such Puts are delivered, and that the commit indexes of the batches do not
    decrease. */
module ApplyPath {
  import opened Types
  import opened Sets
  import opened Tables
  import opened Waiters
  import W = WaitTimes

  datatype Batch = Batch(entries: seq<Cmd>, commitIndex: int)

  /** A job in progress: `next` entries are finished, and `putDone` says whether the following one is
      already in the tree while its waiter has yet to be triggered; `published` that the commit index
      has been set while the read waiters have yet to be triggered. */
  datatype Job = Idle | Running(batch: Batch, next: nat, putDone: bool, published: bool)

  /** A Put that has registered its Id; `since` is how much had been delivered by then. */
  datatype PutCall = PutCall(id: nat, key: Bytes, value: Bytes, chan: int, since: nat) {
    function Command(): Cmd {
      Cmd(PUT, key, value, id)
    }
  }

  /** A Get first reads the commit index and then, in a second step, asks for a channel. */
  datatype GetCall = Reading(index: int) | Waiting(index: int, chan: int)

  /** `proposed`, `delivered`, `executed` and `received` are history: the command of every Put begun on any node,
      every entry handed over by Raft, in order, every entry put into the tree, in order, and every batch
      received. */
  datatype State = State(
    kv: Table, queue: seq<Batch>, job: Job, waiter: WaiterState, readers: W.WaitState, lastCommitIndex: int,
    puts: map<int, PutCall>, gets: map<int, GetCall>, proposed: set<Cmd>, delivered: seq<Cmd>, executed: seq<Cmd>,
    received: seq<Batch>)

  const INIT := State(map[], [], Idle, NEW_WAITER, W.NEW_WAIT_TIME, 0, map[], map[], {}, [], [], [])

  datatype Action =
    | Receive(batch: Batch)
    | StartJob
    | PutEntry
    | TriggerEntry
    | PublishCommit
    | FinishJob(order: seq<int>)
    | BeginPut(call: int, id: nat, key: Bytes, value: Bytes)
    | PutElsewhere(cmd: Cmd)
    | Elsewhere
    | EndPut(call: int)
    | BeginGet(call: int)
    | AskChannel(call: int)
    | EndGet(call: int, key: Bytes)

  /** The commit index after the first k batches. */
  function IndexAt(batches: seq<Batch>, k: nat): int
    requires k <= |batches|
  {
    if k == 0 then 0 else batches[k - 1].commitIndex
  }

  ghost predicate IsFresh(proposed: set<Cmd>, id: nat) {
    forall c | c in proposed :: c.requestId != id
  }

  ghost predicate Enabled(s: State, a: Action) {
    match a
    case Receive(batch) =>
      && IndexAt(s.received, |s.received|) <= batch.commitIndex
      && (forall i {:trigger batch.entries[i]} | 0 <= i < |batch.entries| :: batch.entries[i] in s.proposed)
    case StartJob => s.job.Idle? && |s.queue| > 0
    case PutEntry => s.job.Running? && s.job.next < |s.job.batch.entries| && !s.job.putDone
    case TriggerEntry => s.job.Running? && s.job.next < |s.job.batch.entries| && s.job.putDone
    case PublishCommit => s.job.Running? && s.job.next == |s.job.batch.entries| && !s.job.putDone && !s.job.published
    case FinishJob(order) =>
      && s.job.Running? && s.job.next == |s.job.batch.entries| && !s.job.putDone && s.job.published
      && W.IsWakeOrder(s.readers, s.job.batch.commitIndex, order)
    case BeginPut(call, id, _, _) => call !in s.puts && IsFresh(s.proposed, id)
    case PutElsewhere(cmd) => IsFresh(s.proposed, cmd.requestId)
    case Elsewhere => true
    case EndPut(call) => call in s.puts && s.puts[call].chan in s.waiter.closed
    case BeginGet(call) => call !in s.gets
    case AskChannel(call) => call in s.gets && s.gets[call].Reading?
    case EndGet(call, _) => call in s.gets && s.gets[call].Waiting? && W.IsClosed(s.readers, s.gets[call].chan)
  }

  function Received(s: State, batch: Batch): State {
    s.(queue := s.queue + [batch], delivered := s.delivered + batch.entries, received := s.received + [batch])
  }

  /** The Put registers its Id before it proposes. */
  function Begun(s: State, call: int, id: nat, key: Bytes, value: Bytes): State {
    var p := PutCall(id, key, value, ChanFor(s.waiter, id), |s.delivered|);
    s.(waiter := Registered(s.waiter, id), puts := s.puts[call := p], proposed := s.proposed + {p.Command()})
  }

  function Heard(s: State, cmd: Cmd): State {
    s.(proposed := s.proposed + {cmd})
  }

  function Next(s: State, a: Action): State
    requires Enabled(s, a)
  {
    match a
    case Receive(batch) => Received(s, batch)
    case StartJob => s.(job := Running(s.queue[0], 0, false, false), queue := s.queue[1..])
    case PutEntry =>
      var e := s.job.batch.entries[s.job.next];
      s.(kv := s.kv[e.key := e.value], executed := s.executed + [e], job := s.job.(putDone := true))
    case TriggerEntry =>
      var e := s.job.batch.entries[s.job.next];
      s.(waiter := Triggered(s.waiter, e.requestId), job := s.job.(next := s.job.next + 1, putDone := false))
    case PublishCommit => s.(lastCommitIndex := s.job.batch.commitIndex, job := s.job.(published := true))
    case FinishJob(order) => s.(job := Idle, readers := W.Triggered(s.readers, s.job.batch.commitIndex, order))
    case BeginPut(call, id, key, value) => Begun(s, call, id, key, value)
    case PutElsewhere(cmd) => Heard(s, cmd)
    case Elsewhere => s
    case EndPut(call) => s
    case BeginGet(call) => s.(gets := s.gets[call := Reading(s.lastCommitIndex)])
    case AskChannel(call) =>
      var index := s.gets[call].index;
      s.(readers := W.Waited(s.readers, index), gets := s.gets[call := Waiting(index, W.WaitChan(s.readers, index))])
    case EndGet(call, _) => s
  }

  /** What Get returns at the moment its channel lets it through. */
  function Answer(s: State, key: Bytes): Option<Bytes> {
    Lookup(s.kv, key)
  }

  ghost predicate IsRun(ss: seq<State>, acts: seq<Action>) {
    && |ss| == |acts| + 1
    && ss[0] == INIT
    && forall i {:trigger acts[i]} | 0 <= i < |acts| :: Enabled(ss[i], acts[i]) && ss[i + 1] == Next(ss[i], acts[i])
  }

  lemma RunExtends(ss: seq<State>, acts: seq<Action>, a: Action)
    requires IsRun(ss, acts) && Enabled(ss[|acts|], a)
    ensures IsRun(ss + [Next(ss[|acts|], a)], acts + [a])
  {
    hide Enabled, Next;
    var ss', acts' := ss + [Next(ss[|acts|], a)], acts + [a];
    forall i {:trigger acts'[i]} {:trigger ss'[i]} | 0 <= i < |acts'| ensures Enabled(ss'[i], acts'[i]) && ss'[i + 1] == Next(ss'[i], acts'[i]) {
      if i < |acts| {
        assert acts'[i] == acts[i];
      }
    }
  }

  // ---------- The tree is the fold of what was executed ----------

  function PairsOf(es: seq<Cmd>): seq<Pair> {
    seq(|es|, i requires 0 <= i < |es| => (es[i].key, es[i].value))
  }

  /** The entries of a sequence of batches. */
  function Queued(queue: seq<Batch>): seq<Cmd> {
    if queue == [] then [] else queue[0].entries + Queued(queue[1..])
  }

  /** Entries delivered and not yet in the tree: the rest of the running job, then the queue. */
  function Remaining(s: State): seq<Cmd> {
    (if s.job.Running? && s.job.next < |s.job.batch.entries|
     then s.job.batch.entries[s.job.next + (if s.job.putDone then 1 else 0)..] else [])
    + Queued(s.queue)
  }

  lemma {:induction false} QueuedAppend(queue: seq<Batch>, b: Batch)
    ensures Queued(queue + [b]) == Queued(queue) + b.entries
  {
    if queue == [] {
      assert Queued([b]) == b.entries + Queued([]);
    } else {
      assert (queue + [b])[1..] == queue[1..] + [b];
      QueuedAppend(queue[1..], b);
    }
  }

  ghost predicate InOrder(s: State) {
    && s.kv == Fold(map[], PairsOf(s.executed))
    && s.delivered == s.executed + Remaining(s) == Queued(s.received)
    && (s.job.Running? ==> s.job.next <= |s.job.batch.entries|)
    && (s.job.Running? && s.job.putDone ==>
          && s.job.next < |s.job.batch.entries|
          && s.executed != [] && s.executed[|s.executed| - 1] == s.job.batch.entries[s.job.next])
  }

  lemma PutEntryInOrder(s: State)
    requires InOrder(s) && Enabled(s, PutEntry)
    ensures InOrder(Next(s, PutEntry))
  {
    hide Queued, Fold;
    var s', es, k := Next(s, PutEntry), s.job.batch.entries, s.job.next;
    MoveOne(s.executed, es, k, Queued(s.queue));
    FoldAppend(s.executed, es[k]);
  }

  lemma MoveOne(before: seq<Cmd>, es: seq<Cmd>, k: nat, after: seq<Cmd>)
    requires k < |es|
    ensures before + (es[k..] + after) == (before + [es[k]]) + (es[k + 1..] + after)
  {}

  lemma FoldAppend(es: seq<Cmd>, e: Cmd)
    ensures Fold(map[], PairsOf(es + [e])) == Fold(map[], PairsOf(es))[e.key := e.value]
  {
    assert PairsOf(es + [e]) == PairsOf(es) + [(e.key, e.value)];
    assert (PairsOf(es) + [(e.key, e.value)])[..|es|] == PairsOf(es);
  }

  lemma StartJobInOrder(s: State)
    requires InOrder(s) && Enabled(s, StartJob)
    ensures InOrder(Next(s, StartJob))
  {
    assert Queued(s.queue) == s.queue[0].entries + Queued(s.queue[1..]);
    assert Remaining(Next(s, StartJob)) == Remaining(s);
  }

  lemma ReceivedInOrder(s: State, batch: Batch)
    requires InOrder(s)
    ensures InOrder(Received(s, batch))
  {
    hide Fold, Queued;
    QueuedAppend(s.queue, batch);
    QueuedAppend(s.received, batch);
    assert Remaining(Received(s, batch)) == Remaining(s) + batch.entries;
  }

  lemma ClientsKeepOrder(s: State, call: int, id: nat, key: Bytes, value: Bytes, cmd: Cmd)
    requires InOrder(s)
    ensures InOrder(Begun(s, call, id, key, value)) && InOrder(Heard(s, cmd))
  {
    hide Fold, Queued;
  }

  lemma NextInOrder(s: State, a: Action)
    requires InOrder(s) && Enabled(s, a)
    ensures InOrder(Next(s, a))
    ensures s.executed <= Next(s, a).executed && s.delivered <= Next(s, a).delivered
  {
    hide Registered, Triggered, W.Triggered, W.Waited, W.WaitChan, W.IsWakeOrder, Queued, Fold, IsFresh;
    match a {
      case Receive(batch) => ReceivedInOrder(s, batch);
      case StartJob => StartJobInOrder(s);
      case PutEntry => PutEntryInOrder(s);
      case _ => assert Remaining(Next(s, a)) == Remaining(s);
    }
  }

  // ---------- Request Ids name one command ----------

  /** Whatever is delivered with the Put's Id is its own command, delivered after it began. */
  ghost predicate Carries(delivered: seq<Cmd>, p: PutCall) {
    forall i {:trigger delivered[i]} | 0 <= i < |delivered| && delivered[i].requestId == p.id ::
      i >= p.since && delivered[i] == p.Command()
  }

  ghost predicate UniqueIds(proposed: set<Cmd>) {
    forall c, d | c in proposed && d in proposed && c.requestId == d.requestId :: c == d
  }

  ghost predicate Identified(s: State) {
    && UniqueIds(s.proposed)
    && (forall i {:trigger s.delivered[i]} | 0 <= i < |s.delivered| :: s.delivered[i] in s.proposed)
    && (forall c | c in s.puts ::
          s.puts[c].Command() in s.proposed && s.puts[c].since <= |s.delivered| && Carries(s.delivered, s.puts[c]))
  }

  lemma NextIdentified(s: State, a: Action)
    requires Identified(s) && Enabled(s, a)
    ensures Identified(Next(s, a))
  {
    hide Registered, Triggered, W.Triggered, W.Waited, W.WaitChan, W.IsWakeOrder, W.IsClosed;
  }

  // ---------- Puts wait for their own entry ----------

  /** The Put's own command, delivered after the call began, is in the tree. */
  ghost predicate AppliedAt(s: State, p: PutCall, i: int) {
    p.since <= i < |s.executed| && s.executed[i] == p.Command()
  }

  /** How many entries have been put into the tree and their waiters triggered. */
  function Triggerings(s: State): int {
    |s.executed| - (if s.job.Running? && s.job.putDone then 1 else 0)
  }

  ghost predicate PutDone(s: State, p: PutCall) {
    exists i :: AppliedAt(s, p, i) && i < Triggerings(s)
  }

  /** A Put's channel is open while it is registered, and closed exactly once the step that triggers its own
      command is over. */
  ghost predicate PutOK(s: State, p: PutCall) {
    && 0 <= p.chan < s.waiter.nextChan
    && (p.chan !in s.waiter.closed ==> p.id in s.waiter.chans && s.waiter.chans[p.id] == p.chan)
    && (p.chan in s.waiter.closed <==> PutDone(s, p))
  }

  ghost predicate Acknowledged(s: State) {
    && WaiterOK(s.waiter)
    && forall c | c in s.puts :: PutOK(s, s.puts[c])
  }

  lemma DoneForever(s: State, s': State, p: PutCall)
    requires s.executed <= s'.executed && Triggerings(s) <= Triggerings(s') && PutDone(s, p)
    ensures PutDone(s', p)
  {
    var i :| AppliedAt(s, p, i) && i < Triggerings(s);
    assert AppliedAt(s', p, i);
  }

  /** The step that triggers an entry lets through the Put whose entry it is, and no other. */
  lemma TriggerKeepsPut(s: State, p: PutCall)
    requires InOrder(s) && WaiterOK(s.waiter) && Enabled(s, TriggerEntry) && PutOK(s, p) && Carries(s.delivered, p)
    ensures PutOK(Next(s, TriggerEntry), p)
    ensures s.job.batch.entries[s.job.next].requestId == p.id ==> p.chan in Next(s, TriggerEntry).waiter.closed
  {
    hide Fold, Queued;
    var s', last := Next(s, TriggerEntry), |s.executed| - 1;
    assert s.executed[last] == s.delivered[last] == s.job.batch.entries[s.job.next];
    if PutDone(s, p) {
      DoneForever(s, s', p);
    } else {
      if s.executed[last].requestId == p.id {
        assert AppliedAt(s', p, last) && last < Triggerings(s');
      }
      forall i | AppliedAt(s', p, i) && i < Triggerings(s') ensures i == last {
        assert AppliedAt(s, p, i);
      }
    }
  }

  lemma NextKeepsPut(s: State, a: Action, p: PutCall)
    requires InOrder(s) && WaiterOK(s.waiter) && Enabled(s, a) && PutOK(s, p) && Carries(s.delivered, p)
    ensures PutOK(Next(s, a), p)
  {
    hide W.Triggered, W.Waited, W.WaitChan, W.IsWakeOrder, Fold, Queued;
    if a.TriggerEntry? {
      TriggerKeepsPut(s, p);
    } else {
      var s' := Next(s, a);
      NextInOrder(s, a);
      assert Triggerings(s') == Triggerings(s);
      forall i | i < Triggerings(s) ensures AppliedAt(s, p, i) <==> AppliedAt(s', p, i) {}
    }
  }

  lemma NextAcknowledged(s: State, a: Action)
    requires InOrder(s) && Identified(s) && Acknowledged(s) && Enabled(s, a)
    ensures Acknowledged(Next(s, a))
  {
    hide W.Triggered, W.Waited, W.WaitChan, W.IsWakeOrder, Fold, Queued, PutOK;
    var s' := Next(s, a);
    forall c | c in s'.puts ensures PutOK(s', s'.puts[c]) {
      if c in s.puts {
        assert s'.puts[c] == s.puts[c];
        NextKeepsPut(s, a, s.puts[c]);
      } else {
        NewPutOK(s, a);
      }
    }
  }

  lemma NewPutOK(s: State, a: Action)
    requires InOrder(s) && WaiterOK(s.waiter) && Enabled(s, a) && a.BeginPut?
    ensures PutOK(Next(s, a), Next(s, a).puts[a.call])
  {
    hide Fold, Queued;
    assert |s.executed| <= |s.delivered|;
  }

  // ---------- Gets wait for the index they read ----------

  /** How many batches are finished, and how many have had their commit index published. */
  function Finished(s: State): int {
    |s.received| - |s.queue| - (if s.job.Running? then 1 else 0)
  }

  function Published(s: State): int {
    Finished(s) + (if s.job.Running? && s.job.published then 1 else 0)
  }

  ghost predicate Ascending(bs: seq<Batch>) {
    && (forall i {:trigger bs[i]} | 0 <= i < |bs| :: 0 <= bs[i].commitIndex)
    && (forall i, j {:trigger bs[i], bs[j]} | 0 <= i <= j < |bs| :: bs[i].commitIndex <= bs[j].commitIndex)
  }

  /** Batches are worked off in order. */
  ghost predicate WorkedOff(s: State) {
    && 0 <= Finished(s) && s.queue == s.received[|s.received| - |s.queue|..]
    && (s.job.Running? ==> s.job.batch == s.received[Finished(s)])
  }

  /** The last trigger is that of the last finished batch, the index that Gets read that of the last published
      one. */
  ghost predicate IndexesInOrder(s: State) {
    && Ascending(s.received) && WorkedOff(s)
    && s.readers.lastTriggered == IndexAt(s.received, Finished(s))
    && s.lastCommitIndex == IndexAt(s.received, Published(s))
    && forall call | call in s.gets :: s.gets[call].index <= s.lastCommitIndex
  }

  /** So read waiters wake exactly when they should. */
  ghost predicate ReadersOK(s: State) {
    && IndexesInOrder(s)
    && W.WaitersOK(s.readers) && W.WaitersPrompt(s.readers)
    && forall call | call in s.gets && s.gets[call].Waiting? :: (s.gets[call].index, s.gets[call].chan) in s.readers.handed
  }

  lemma ReceivedReadersOK(s: State, batch: Batch)
    requires ReadersOK(s) && IndexAt(s.received, |s.received|) <= batch.commitIndex
    ensures ReadersOK(Received(s, batch))
  {
    hide W.WaitersOK, W.WaitersPrompt;
    ReceivedIndexes(s, batch);
  }

  lemma ReceivedIndexes(s: State, batch: Batch)
    requires IndexesInOrder(s) && IndexAt(s.received, |s.received|) <= batch.commitIndex
    ensures IndexesInOrder(Received(s, batch))
  {
    hide W.WaitersOK, W.WaitersPrompt;
    AscendingMore(s.received, batch);
    hide Ascending;
    var s' := Received(s, batch);
    assert s'.received[..|s.received|] == s.received && s'.received[|s.received|] == batch;
    assert s'.received[|s'.received| - |s'.queue|..] == s'.queue;
  }

  lemma AscendingMore(bs: seq<Batch>, b: Batch)
    requires Ascending(bs) && IndexAt(bs, |bs|) <= b.commitIndex
    ensures Ascending(bs + [b])
  {}

  lemma ClientsKeepReaders(s: State, call: int, id: nat, key: Bytes, value: Bytes, cmd: Cmd)
    requires ReadersOK(s)
    ensures ReadersOK(Begun(s, call, id, key, value)) && ReadersOK(Heard(s, cmd))
  {
    hide W.WaitersOK, W.WaitersPrompt, Ascending, Registered, ChanFor;
  }

  lemma StartKeepsIndexes(s: State)
    requires IndexesInOrder(s) && Enabled(s, StartJob)
    ensures IndexesInOrder(Next(s, StartJob))
  {
    hide Ascending;
    var s', from := Next(s, StartJob), |s.received| - |s.queue|;
    assert s.received[from] == s.queue[0] && s.received[from..][1..] == s.received[from + 1..];
  }

  lemma PublishKeepsIndexes(s: State)
    requires IndexesInOrder(s) && Enabled(s, PublishCommit)
    ensures IndexesInOrder(Next(s, PublishCommit))
  {
    var f := Finished(s);
    assert IndexAt(s.received, f) <= IndexAt(s.received, f + 1);
    hide Ascending;
  }

  lemma FinishKeepsIndexes(s: State, order: seq<int>)
    requires IndexesInOrder(s) && Enabled(s, FinishJob(order))
    ensures IndexesInOrder(Next(s, FinishJob(order)))
    ensures s.readers.lastTriggered <= s.job.batch.commitIndex
  {
    hide W.IsWakeOrder;
    var f := Finished(s);
    assert IndexAt(s.received, f) <= IndexAt(s.received, f + 1);
    hide Ascending;
  }

  lemma NextIndexesInOrder(s: State, a: Action)
    requires IndexesInOrder(s) && Enabled(s, a)
    ensures IndexesInOrder(Next(s, a))
    ensures a.FinishJob? ==> s.readers.lastTriggered <= s.job.batch.commitIndex
  {
    hide W.IsWakeOrder, W.IsClosed, Registered, Triggered, IsFresh, Ascending, W.Waited, W.Triggered, ChanFor;
    match a {
      case Receive(batch) => ReceivedIndexes(s, batch);
      case StartJob => StartKeepsIndexes(s);
      case PublishCommit => PublishKeepsIndexes(s);
      case FinishJob(order) => FinishKeepsIndexes(s, order);
      case AskChannel(call) => WaitKeepsTrigger(s.readers, s.gets[call].index);
      case _ => OthersKeepIndexes(s, a);
    }
  }

  lemma OthersKeepIndexes(s: State, a: Action)
    requires IndexesInOrder(s) && Enabled(s, a)
    requires !a.Receive? && !a.StartJob? && !a.PublishCommit? && !a.FinishJob? && !a.AskChannel?
    ensures IndexesInOrder(Next(s, a))
  {
    hide Registered, Triggered, IsFresh, Ascending, ChanFor;
    var s' := Next(s, a);
    assert s'.received == s.received && s'.queue == s.queue;
    hide IndexAt;
  }

  lemma WaitKeepsTrigger(w: W.WaitState, d: int)
    ensures W.Waited(w, d).lastTriggered == w.lastTriggered
  {}

  lemma NextReadersOK(s: State, a: Action)
    requires ReadersOK(s) && Enabled(s, a)
    ensures ReadersOK(Next(s, a))
  {
    hide W.WaitersOK, W.WaitersPrompt, W.IsWakeOrder, W.IsClosed, Registered, Triggered, IsFresh, WorkedOff, Ascending;
    NextIndexesInOrder(s, a);
    hide IndexesInOrder;
    match a {
      case Receive(batch) => ReceivedReadersOK(s, batch);
      case FinishJob(order) => WaitStep(s.readers, W.Triggers(s.job.batch.commitIndex, order));
      case AskChannel(call) => WaitStep(s.readers, W.Waits(s.gets[call].index));
      case _ =>
    }
  }

  lemma WaitStep(w: W.WaitState, e: W.Event)
    requires W.WaitersOK(w) && W.WaitersPrompt(w) && W.Possible(w, e) && (e.Triggers? ==> w.lastTriggered <= e.deadline)
    ensures W.WaitersOK(W.After(w, e)) && W.WaitersPrompt(W.After(w, e))
    ensures w.handed <= W.After(w, e).handed
  {
    W.AfterOK(w, e);
    W.AfterPrompt(w, e);
  }

  lemma {:induction false} RunOK(ss: seq<State>, acts: seq<Action>, i: nat)
    requires IsRun(ss, acts) && i < |ss|
    ensures InOrder(ss[i]) && Identified(ss[i]) && Acknowledged(ss[i]) && ReadersOK(ss[i])
  {
    hide Next, Enabled, InOrder, Acknowledged, Identified, ReadersOK;
    if i == 0 {
      InitOK();
    } else {
      RunOK(ss, acts, i - 1);
      NextInOrder(ss[i - 1], acts[i - 1]);
      NextIdentified(ss[i - 1], acts[i - 1]);
      NextReadersOK(ss[i - 1], acts[i - 1]);
      NextAcknowledged(ss[i - 1], acts[i - 1]);
    }
  }

  lemma InitOK()
    ensures InOrder(INIT) && Identified(INIT) && Acknowledged(INIT) && ReadersOK(INIT)
  {
    InitReadersOK();
    hide ReadersOK;
  }

  lemma InitReadersOK()
    ensures ReadersOK(INIT)
  {
    W.NewWaitTimeOK();
    hide W.WaitersOK, W.WaitersPrompt;
    InitIndexes();
    hide IndexesInOrder;
  }

  lemma InitIndexes()
    ensures IndexesInOrder(INIT)
  {}

  lemma {:induction false} HistoryGrows(ss: seq<State>, acts: seq<Action>, i: nat, j: nat)
    requires IsRun(ss, acts) && i <= j < |ss|
    ensures ss[i].executed <= ss[j].executed && ss[i].delivered <= ss[j].delivered
    decreases j
  {
    hide Next, Enabled, InOrder, Acknowledged;
    if i < j {
      HistoryGrows(ss, acts, i, j - 1);
      RunOK(ss, acts, j - 1);
      NextInOrder(ss[j - 1], acts[j - 1]);
    }
  }

  // ---------- The theorems ----------

  /** In every run the tree is the fold of the executed entries, and these are a prefix of what Raft
      delivered; nothing is skipped, repeated or reordered. */
  lemma TreeFollowsDelivery(ss: seq<State>, acts: seq<Action>, i: nat)
    requires IsRun(ss, acts) && i < |ss|
    ensures ss[i].kv == Fold(map[], PairsOf(ss[i].executed))
    ensures ss[i].executed <= ss[i].delivered
  {
    RunOK(ss, acts, i);
  }

  /** In every run: a Get reads the commit index of the last published batch, it is let through exactly when a
      batch that reaches that index has been finished, and no channel is closed twice. */
  lemma GetsWakeExactly(ss: seq<State>, acts: seq<Action>, i: nat, call: int)
    requires IsRun(ss, acts) && i < |ss| && call in ss[i].gets && ss[i].gets[call].Waiting?
    ensures 0 <= Finished(ss[i]) <= Published(ss[i]) <= |ss[i].received|
    ensures ss[i].lastCommitIndex == IndexAt(ss[i].received, Published(ss[i]))
    ensures W.IsClosed(ss[i].readers, ss[i].gets[call].chan) <==> ss[i].gets[call].index <= IndexAt(ss[i].received, Finished(ss[i]))
    ensures forall ch :: ss[i].readers.closings[ch] <= 1
  {
    RunOK(ss, acts, i);
    ReaderWakes(ss[i], call);
  }

  lemma ReaderWakes(s: State, call: int)
    requires ReadersOK(s) && call in s.gets && s.gets[call].Waiting?
    ensures 0 <= Finished(s) <= |s.received|
    ensures W.IsClosed(s.readers, s.gets[call].chan) <==> s.gets[call].index <= IndexAt(s.received, Finished(s))
    ensures forall ch :: s.readers.closings[ch] <= 1
  {
    var d, ch := s.gets[call].index, s.gets[call].chan;
    assert (d, ch) in s.readers.handed;
  }

  /** In every run: a Put's channel is closed, so that the call returns, exactly once the step that triggers its
      own command is over. */
  lemma PutsReturnExactly(ss: seq<State>, acts: seq<Action>, i: nat, call: int)
    requires IsRun(ss, acts) && i < |ss| && call in ss[i].puts
    ensures Enabled(ss[i], EndPut(call)) <==> PutDone(ss[i], ss[i].puts[call])
  {
    RunOK(ss, acts, i);
    assert PutOK(ss[i], ss[i].puts[call]);
  }

  lemma {:induction false} QueuedConcat(a: seq<Batch>, b: seq<Batch>)
    ensures Queued(a + b) == Queued(a) + Queued(b)
  {
    if a == [] {
      assert a + b == b;
    } else {
      assert (a + b)[1..] == a[1..] + b;
      QueuedConcat(a[1..], b);
    }
  }

  /** In every run: what has been executed is all of the finished batches and the first entries of the running
      one, so a Get that is let through sees every batch up to the index it read. */
  lemma FinishedIsExecuted(ss: seq<State>, acts: seq<Action>, i: nat)
    requires IsRun(ss, acts) && i < |ss|
    ensures 0 <= Finished(ss[i]) <= |ss[i].received| && Queued(ss[i].received[..Finished(ss[i])]) <= ss[i].executed
  {
    RunOK(ss, acts, i);
    FinishedFirst(ss[i]);
  }

  lemma FinishedFirst(s: State)
    requires InOrder(s) && IndexesInOrder(s)
    ensures 0 <= Finished(s) <= |s.received| && Queued(s.received[..Finished(s)]) <= s.executed
  {
    hide Queued, Fold, Ascending;
    var f := Finished(s);
    QueuedConcat(s.received[..f], s.received[f..]);
    assert s.received == s.received[..f] + s.received[f..];
    if s.job.Running? {
      assert s.received[f..] == [s.job.batch] + s.queue;
      QueuedConcat([s.job.batch], s.queue);
      QueuedOne(s.job.batch);
    }
    ShorterIsPrefix(Queued(s.received[..f]), Queued(s.received[f..]), s.executed, Remaining(s));
  }

  lemma ShorterIsPrefix(x: seq<Cmd>, more: seq<Cmd>, y: seq<Cmd>, rest: seq<Cmd>)
    requires x + more == y + rest && |x| <= |y|
    ensures x <= y
  {
    forall i | 0 <= i < |x| ensures x[i] == y[i] {
      assert (x + more)[i] == (y + rest)[i];
    }
  }

  lemma QueuedOne(b: Batch)
    ensures Queued([b]) == b.entries
  {
    assert Queued([b]) == b.entries + Queued([]);
  }

  /** The last executed entry for a key. */
  ghost predicate IsLatest(es: seq<Cmd>, key: Bytes, j: int) {
    0 <= j < |es| && es[j].key == key && forall k | j < k < |es| :: es[k].key != key
  }

  /** A table answers for a key that was put at place i with the last put at or after i. */
  lemma FoldIsLatest(es: seq<Cmd>, key: Bytes, i: nat) returns (j: nat)
    requires i < |es| && es[i].key == key
    ensures i <= j && IsLatest(es, key, j) && Lookup(Fold(map[], PairsOf(es)), key) == Some(es[j].value)
  {
    j := LastPutAt(PairsOf(es), key, i);
    FoldLookup(map[], PairsOf(es), key);
    assert forall k | j < k < |es| :: PairsOf(es)[k].0 == es[k].key;
  }

  /** A Put returns success only once its own command has been applied, delivered after the call began; and
      every Get on this node that returns after that sees, for the same key, the value of that entry or
      of one applied later. */
  lemma AcknowledgedWritesAreRead(ss: seq<State>, acts: seq<Action>, i: nat, j: nat)
    requires IsRun(ss, acts) && i < j < |acts|
    requires acts[i].EndPut? && acts[j].EndGet? && acts[i].call in ss[i].puts
    requires acts[j].key == ss[i].puts[acts[i].call].key
    ensures exists w, r :: AppliedAt(ss[i], ss[i].puts[acts[i].call], w) && w <= r
              && IsLatest(ss[j].executed, acts[j].key, r)
              && Answer(ss[j], acts[j].key) == Some(ss[j].executed[r].value)
  {
    hide Next, InOrder, Fold, Identified;
    var p := ss[i].puts[acts[i].call];
    RunOK(ss, acts, i);
    assert PutOK(ss[i], p) && Enabled(ss[i], acts[i]);
    var w :| AppliedAt(ss[i], p, w) && w < Triggerings(ss[i]);
    HistoryGrows(ss, acts, i, j);
    assert ss[j].executed[w].key == p.key;
    TreeFollowsDelivery(ss, acts, j);
    var r := FoldIsLatest(ss[j].executed, p.key, w);
  }

  // ---------- Nothing gets stuck ----------

  /** The steps the applier has still to take. */
  function Work(s: State): int {
    QueueWork(s.queue)
    + if s.job.Running?
      then 2 * (|s.job.batch.entries| - s.job.next) - (if s.job.putDone then 1 else 0) + (if s.job.published then 1 else 2)
      else 0
  }

  function QueueWork(queue: seq<Batch>): nat {
    if queue == [] then 0 else 2 * |queue[0].entries| + 3 + QueueWork(queue[1..])
  }

  lemma {:induction false} Listed(s: set<int>) returns (order: seq<int>)
    ensures forall d :: d in order <==> d in s
    ensures forall i, j | 0 <= i < j < |order| :: order[i] != order[j]
  {
    if s == {} {
      order := [];
    } else {
      PickOne(s);
      var d :| d in s;
      var rest := Listed(s - {d});
      order := rest + [d];
    }
  }

  lemma SomeWakeOrder(w: W.WaitState, t: int) returns (order: seq<int>)
    ensures W.IsWakeOrder(w, t, order)
  {
    order := Listed(set d | d in w.m && d <= t);
    assert forall i | 0 <= i < |order| :: order[i] in order;
  }

  /** While something is delivered and not finished the applier can take a step, and it gets closer to the end. */
  lemma NextStep(s: State) returns (a: Action)
    requires InOrder(s) && (s.job.Running? || s.queue != []) && (s.job.Running? && s.job.published ==> JobDone(s))
    ensures Enabled(s, a) && 0 <= Work(Next(s, a)) < Work(s)
    ensures Next(s, a).puts == s.puts && Next(s, a).gets == s.gets && Next(s, a).delivered == s.delivered && Next(s, a).received == s.received
    ensures Next(s, a).job.Running? && Next(s, a).job.published ==> JobDone(Next(s, a))
  {
    hide Fold, Queued;
    if s.job.Idle? {
      a := StartJob;
    } else if s.job.next < |s.job.batch.entries| {
      a := if s.job.putDone then TriggerEntry else PutEntry;
    } else if !s.job.published {
      a := PublishCommit;
    } else {
      var order := SomeWakeOrder(s.readers, s.job.batch.commitIndex);
      a := FinishJob(order);
    }
  }

  /** Only a job whose entries are all done publishes its commit index. */
  ghost predicate JobDone(s: State)
    requires s.job.Running?
  {
    s.job.next == |s.job.batch.entries| && !s.job.putDone
  }

  lemma {:induction false} PublishedIsDone(ss: seq<State>, acts: seq<Action>, i: nat)
    requires IsRun(ss, acts) && i < |ss|
    ensures ss[i].job.Running? && ss[i].job.published ==> JobDone(ss[i])
  {
    if i > 0 {
      PublishedIsDone(ss, acts, i - 1);
      PublishedStep(ss[i - 1], acts[i - 1]);
    }
  }

  lemma PublishedStep(s: State, a: Action)
    requires Enabled(s, a) && (s.job.Running? && s.job.published ==> JobDone(s))
    ensures Next(s, a).job.Running? && Next(s, a).job.published ==> JobDone(Next(s, a))
  {
    hide W.IsWakeOrder, W.IsClosed, Registered, Triggered, W.Waited, W.Triggered;
  }

  ghost predicate Drained(s: State) {
    s.job.Idle? && s.queue == []
  }

  /** From every state of every run the applier can finish everything that was delivered, whatever Puts and Gets
      are pending. */
  lemma {:induction false} Drains(ss: seq<State>, acts: seq<Action>) returns (ss': seq<State>, acts': seq<Action>)
    requires IsRun(ss, acts)
    ensures IsRun(ss', acts') && ss <= ss' && acts <= acts' && Drained(ss'[|acts'|])
    ensures var s, s' := ss[|acts|], ss'[|acts'|];
            s'.puts == s.puts && s'.gets == s.gets && s'.delivered == s.delivered && s'.received == s.received
    decreases Work(ss[|acts|])
  {
    hide InOrder, Enabled, Next, JobDone, Work;
    var s := ss[|acts|];
    if Drained(s) {
      ss', acts' := ss, acts;
    } else {
      RunOK(ss, acts, |acts|);
      PublishedIsDone(ss, acts, |acts|);
      var a := NextStep(s);
      RunExtends(ss, acts, a);
      ss', acts' := Drains(ss + [Next(s, a)], acts + [a]);
    }
  }

  /** So no Put whose command has been delivered, and no Get, is ever left waiting for good. */
  lemma PutsCanReturn(ss: seq<State>, acts: seq<Action>, call: int, d: nat) returns (ss': seq<State>, acts': seq<Action>)
    requires IsRun(ss, acts) && call in ss[|acts|].puts
    requires d < |ss[|acts|].delivered| && ss[|acts|].delivered[d].requestId == ss[|acts|].puts[call].id
    ensures IsRun(ss', acts') && ss <= ss' && acts <= acts' && call in ss'[|acts'|].puts && Enabled(ss'[|acts'|], EndPut(call))
  {
    hide Next, Enabled, IsRun;
    ss', acts' := Drains(ss, acts);
    LastState(ss', acts');
    RunOK(ss', acts', |acts'|);
    DrainedIsDone(ss'[|acts'|], call, d);
    PutsReturnExactly(ss', acts', |acts'|, call);
  }

  lemma LastState(ss: seq<State>, acts: seq<Action>)
    requires IsRun(ss, acts)
    ensures |acts| < |ss|
  {}

  lemma DrainedIsDone(s: State, call: int, d: nat)
    requires InOrder(s) && Identified(s) && Drained(s) && call in s.puts
    requires d < |s.delivered| && s.delivered[d].requestId == s.puts[call].id
    ensures PutDone(s, s.puts[call])
  {
    hide Fold;
    assert s.executed == s.delivered;
    assert Carries(s.delivered, s.puts[call]);
    assert AppliedAt(s, s.puts[call], d) && d < Triggerings(s);
  }

  lemma GetsCanReturn(ss: seq<State>, acts: seq<Action>, call: int, key: Bytes) returns (ss': seq<State>, acts': seq<Action>)
    requires IsRun(ss, acts)
    ensures IsRun(ss', acts') && ss <= ss' && acts <= acts' && call in ss'[|acts'|].gets && Enabled(ss'[|acts'|], EndGet(call, key))
  {
    hide Next, IsRun;
    var asked, askedActs := Asked(ss, acts, call);
    ss', acts' := Drains(asked, askedActs);
    LastState(ss', acts');
    RunOK(ss', acts', |acts'|);
    DrainedWakes(ss'[|acts'|], call);
  }

  /** A Get that has not begun begins, one that has read the commit index asks for its channel. */
  lemma Asked(ss: seq<State>, acts: seq<Action>, call: int) returns (ss': seq<State>, acts': seq<Action>)
    requires IsRun(ss, acts)
    ensures IsRun(ss', acts') && ss <= ss' && acts <= acts' && call in ss'[|acts'|].gets && ss'[|acts'|].gets[call].Waiting?
  {
    ss', acts' := ss, acts;
    if call !in ss[|acts|].gets {
      RunExtends(ss, acts, BeginGet(call));
      ss', acts' := ss + [Next(ss[|acts|], BeginGet(call))], acts + [BeginGet(call)];
    }
    var s := ss'[|acts'|];
    if s.gets[call].Reading? {
      RunExtends(ss', acts', AskChannel(call));
      ss', acts' := ss' + [Next(s, AskChannel(call))], acts' + [AskChannel(call)];
    }
  }

  lemma DrainedWakes(s: State, call: int)
    requires ReadersOK(s) && Drained(s) && call in s.gets && s.gets[call].Waiting?
    ensures W.IsClosed(s.readers, s.gets[call].chan)
  {
    hide W.WaitersOK, W.WaitersPrompt, W.IsClosed;
    ReaderWakes(s, call);
  }
}
