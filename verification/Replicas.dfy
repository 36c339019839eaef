/** The whole system, end to end: a Raft cluster, an apply path on every node that is fed by what Raft
    delivers there, and a request Id generator on every node. */
module Replicas {
  import opened Types
  import opened Tables
  import Wal
  import M = RaftMachine
  import C = Cluster
  import S = ElectionSafety
  import E = EntryIdentity
  import L = LogMatching
  import X = AppliedPrefixes
  import A = ApplyPath
  import G = Generators
  import W = WaitTimes
  import opened Waiters
  import T = Trees
  import TA = TreeAnswers

  /** `counts` is how many Ids each generator has handed out, `taken` how many batches each apply loop has taken
      over; `proposed` is history, the command of every Put begun anywhere. */
  datatype System = System(c: C.State, apps: map<int, A.State>, counts: map<int, nat>, taken: map<int, nat>, proposed: set<Cmd>)

  /** A Put begins (Id and registration), and its proposal reaches the node's own Raft later; the apply loop
      takes over the batches of the node's driver, one at a time. */
  datatype Action =
    | Raft(a: C.Action)
    | BeginPut(node: int, call: int, key: Bytes, value: Bytes)
    | Propose(node: int, cmd: Cmd, order: seq<int>)
    | HandOver(node: int)
    | Apply(node: int, step: A.Action)

  function Init(ids: set<int>): System {
    System(C.Init(ids), map i | i in ids :: A.INIT, map i | i in ids :: 0, map i | i in ids :: 0, {})
  }

  /** uint16(rn.ID) */
  function Member(n: int): nat {
    n % TWO_16
  }

  ghost predicate DistinctMembers(ids: set<int>) {
    forall m, n | m in ids && n in ids && m != n :: Member(m) != Member(n)
  }

  /** The k-th Id of node n, whose generator was created at clock[n]. */
  function Id(clock: map<int, nat>, n: int, k: nat): nat
    requires n in clock
  {
    G.NthId(G.NewGenerator(Member(n), clock[n]), k)
  }

  function RaftAction(a: Action): Option<C.Action> {
    match a
    case Raft(r) => Some(r)
    case Propose(n, cmd, order) => Some(C.Propose(n, [Some(cmd)], order))
    case _ => None
  }

  function CmdsOf(es: seq<Log>): seq<Cmd> {
    seq(|es|, k requires 0 <= k < |es| => Wal.CmdOf(es[k]))
  }

  function AsReceived(batches: seq<C.ToApply>): seq<A.Batch> {
    seq(|batches|, k requires 0 <= k < |batches| => A.Batch(CmdsOf(batches[k].entries), batches[k].commitIndex))
  }

  /** The next batch on the apply channel. */
  function NextBatch(s: System, n: int): A.Batch
    requires n in s.c.hosts && n in s.taken && s.taken[n] < |s.c.hosts[n].batches|
  {
    var b := s.c.hosts[n].batches[s.taken[n]];
    A.Batch(CmdsOf(b.entries), b.commitIndex)
  }

  predicate Internal(a: A.Action) {
    !a.Receive? && !a.BeginPut? && !a.PutElsewhere? && !a.Elsewhere?
  }

  /** Nothing is asked of Ids or of what is delivered: a generator hands out at most 2^48 Ids, clients propose
      only through Put, and the apply loop takes what the driver put on its channel. */
  ghost predicate Enabled(s: System, a: Action) {
    match a
    case Raft(r) => C.Enabled(s.c, r) && !r.Propose?
    case BeginPut(n, call, _, _) => n in s.apps && n in s.counts && call !in s.apps[n].puts && s.counts[n] < G.TWO_48
    case Propose(n, cmd, order) =>
      && C.Enabled(s.c, C.Propose(n, [Some(cmd)], order))
      && n in s.apps && exists call :: call in s.apps[n].puts && s.apps[n].puts[call].Command() == cmd
    case HandOver(n) => n in s.apps && n in s.c.hosts && n in s.taken && s.taken[n] < |s.c.hosts[n].batches|
    case Apply(n, step) => n in s.apps && Internal(step) && A.Enabled(s.apps[n], step)
  }

  function Next(clock: map<int, nat>, s: System, a: Action): System
    requires C.AllValid(s.c) && Enabled(s, a) && s.counts.Keys <= clock.Keys
  {
    match a
    case Raft(r) => s.(c := C.Next(s.c, r))
    case BeginPut(n, call, key, value) =>
      var cmd := Cmd(PUT, key, value, Id(clock, n, s.counts[n] + 1));
      System(s.c,
             map m | m in s.apps :: if m == n then A.Begun(s.apps[m], call, cmd.requestId, key, value) else A.Heard(s.apps[m], cmd),
             s.counts[n := s.counts[n] + 1], s.taken, s.proposed + {cmd})
    case Propose(n, cmd, order) => s.(c := C.Next(s.c, C.Propose(n, [Some(cmd)], order)))
    case HandOver(n) => s.(apps := s.apps[n := A.Received(s.apps[n], NextBatch(s, n))], taken := s.taken[n := s.taken[n] + 1])
    case Apply(n, step) => s.(apps := s.apps[n := A.Next(s.apps[n], step)])
  }

  /** A finite run. That node states are valid restricts nothing: RunOK proves it. */
  ghost predicate IsRun(ids: set<int>, clock: map<int, nat>, ss: seq<System>, acts: seq<Action>) {
    && |ss| == |acts| + 1 && ids <= clock.Keys
    && ss[0] == Init(ids)
    && forall i {:trigger acts[i]} | 0 <= i < |acts| :: Follows(clock, ss[i], acts[i], ss[i + 1])
  }

  ghost predicate Follows(clock: map<int, nat>, s: System, a: Action, s': System) {
    C.AllValid(s.c) && Enabled(s, a) && s.counts.Keys <= clock.Keys && s' == Next(clock, s, a)
  }

  // ---------- What every step keeps ----------

  ghost predicate HandedOut(clock: map<int, nat>, counts: map<int, nat>, id: nat) {
    exists n, k :: n in counts && n in clock && 1 <= k <= counts[n] && Id(clock, n, k) == id
  }

  /** The cluster is sound, every Id in use came from a generator, only commands of Puts are proposed, and each
      apply path is fed by its node and in order. */
  ghost predicate OK(ids: set<int>, clock: map<int, nat>, s: System) {
    && ClusterOK(ids, s.c)
    && s.apps.Keys == ids && s.counts.Keys == ids && s.taken.Keys == ids && ids <= clock.Keys
    && (forall n | n in ids :: s.counts[n] <= G.TWO_48)
    && (forall cmd | cmd in s.proposed :: HandedOut(clock, s.counts, cmd.requestId))
    && (forall x | x in s.c.proposed :: x.Some? && x.value in s.proposed)
    && (forall n | n in ids :: AppOK(s, n))
  }

  ghost predicate ClusterOK(ids: set<int>, c: C.State) {
    C.Sound(ids, c) && S.Fair(c) && E.Accounted(c)
  }

  ghost predicate AppOK(s: System, n: int)
    requires n in s.apps
  {
    && n in s.c.hosts && n in s.taken
    && s.apps[n].proposed == s.proposed
    && (forall call | call in s.apps[n].puts :: s.apps[n].puts[call].Command() in s.proposed)
    && Fed(s.c.hosts[n].batches, s.taken[n], s.apps[n])
    && A.InOrder(s.apps[n]) && A.ReadersOK(s.apps[n])
  }

  /** The apply path has received the first k batches and no more. */
  ghost predicate Fed(batches: seq<C.ToApply>, k: nat, a: A.State) {
    && k <= |batches|
    && a.delivered == CmdsOf(C.Handed(batches[..k]))
    && a.received == AsReceived(batches[..k])
  }

  lemma InitOK(ids: set<int>, clock: map<int, nat>)
    requires ids <= clock.Keys
    ensures OK(ids, clock, Init(ids))
  {
    hide ClusterOK, M.Valid, M.NewRaft;
    InitClusterOK(ids);
  }

  lemma InitClusterOK(ids: set<int>)
    ensures ClusterOK(ids, C.Init(ids))
  {
    hide C.Sound, S.Fair, E.Accounted, C.Init;
    C.InitSound(ids);
    S.InitFair(ids);
    E.InitAccounted(ids);
  }

  lemma ClusterNextOK(ids: set<int>, c: C.State, a: C.Action)
    requires ClusterOK(ids, c) && C.Enabled(c, a)
    ensures ClusterOK(ids, C.Next(c, a))
  {
    hide C.Next, C.Enabled, C.HostOK;
    C.NextSound(ids, c, a);
    S.NextFair(ids, c, a);
    E.NextAccounted(ids, c, a);
  }

  /** Raft steps extend what is delivered and add nothing to what is proposed but the action's own commands. */
  lemma ClusterNextDelivers(ids: set<int>, c: C.State, a: C.Action)
    requires C.Sound(ids, c) && C.Enabled(c, a)
    ensures var c' := C.Next(c, a);
            && c'.hosts.Keys == ids
            && (forall n | n in ids :: c.hosts[n].batches <= c'.hosts[n].batches)
            && (forall x | x in c'.proposed :: x in c.proposed || (a.Propose? && x in a.cmds))
  {
    hide C.HostOK, C.Moved;
  }

  lemma RaftNextOK(ids: set<int>, clock: map<int, nat>, s: System, a: Action)
    requires OK(ids, clock, s) && Enabled(s, a) && RaftAction(a).Some?
    ensures OK(ids, clock, Next(clock, s, a))
  {
    hide C.Next, C.Enabled, ClusterOK, HandedOut, AppOK, C.Sound, C.AllValid, A.Begun, A.Heard, A.Received, A.Next;
    var r := RaftAction(a).value;
    ClusterSound(ids, s.c);
    ClusterNextOK(ids, s.c, r);
    ClusterNextDelivers(ids, s.c, r);
    forall n | n in ids ensures AppOK(Next(clock, s, a), n) {
      RaftAppOK(s, C.Next(s.c, r), n);
    }
    PutsAreProposed(s, a);
  }

  lemma RaftAppOK(s: System, c: C.State, n: int)
    requires n in s.apps && AppOK(s, n) && n in c.hosts && s.c.hosts[n].batches <= c.hosts[n].batches
    ensures AppOK(s.(c := c), n)
  {
    hide A.InOrder, A.ReadersOK;
    assert c.hosts[n].batches[..s.taken[n]] == s.c.hosts[n].batches[..s.taken[n]];
  }

  /** A proposal's command is that of a Put on the same node. */
  lemma PutsAreProposed(s: System, a: Action)
    requires Enabled(s, a) && forall n | n in s.apps :: AppOK(s, n)
    ensures a.Propose? ==> a.cmd in s.proposed
  {
    hide C.Enabled;
  }

  lemma ClusterSound(ids: set<int>, c: C.State)
    requires ClusterOK(ids, c)
    ensures C.Sound(ids, c) && C.AllValid(c)
  {}

  /** An Id about to be handed out is in no command proposed so far. */
  lemma NextIdIsFresh(ids: set<int>, clock: map<int, nat>, s: System, n: int)
    requires OK(ids, clock, s) && DistinctMembers(ids) && n in ids && s.counts[n] < G.TWO_48
    ensures A.IsFresh(s.proposed, Id(clock, n, s.counts[n] + 1))
  {
    hide ClusterOK, AppOK, G.NthId, G.NewGenerator;
    forall cmd | cmd in s.proposed ensures cmd.requestId != Id(clock, n, s.counts[n] + 1) {
      var m, k :| m in s.counts && m in clock && 1 <= k <= s.counts[m] && Id(clock, m, k) == cmd.requestId;
      if m == n {
        G.ConsecutiveIdsDistinct(G.NewGenerator(Member(n), clock[n]), 1, k, s.counts[n] + 1);
      } else {
        G.MembersNeverCollide(Member(m), Member(n), clock[m], clock[n], k, s.counts[n] + 1);
      }
    }
  }

  lemma StillHandedOut(clock: map<int, nat>, counts: map<int, nat>, n: int, id: nat)
    requires n in counts && n in clock
    ensures HandedOut(clock, counts, id) ==> HandedOut(clock, counts[n := counts[n] + 1], id)
    ensures HandedOut(clock, counts[n := counts[n] + 1], Id(clock, n, counts[n] + 1))
  {
    hide G.NthId, G.NewGenerator;
    var more := counts[n := counts[n] + 1];
    assert n in more && 1 <= counts[n] + 1 <= more[n];
    if HandedOut(clock, counts, id) {
      var m, k :| m in counts && m in clock && 1 <= k <= counts[m] && Id(clock, m, k) == id;
      assert m in more && 1 <= k <= more[m];
    }
  }

  lemma BeginNextOK(ids: set<int>, clock: map<int, nat>, s: System, a: Action)
    requires OK(ids, clock, s) && Enabled(s, a) && a.BeginPut?
    ensures OK(ids, clock, Next(clock, s, a))
  {
    hide ClusterOK, HandedOut, AppOK, A.Begun, A.Heard, Id, C.Sound, C.AllValid, A.Received, A.Next, C.Next;
    ClusterSound(ids, s.c);
    var s' := Next(clock, s, a);
    forall cmd | cmd in s'.proposed ensures HandedOut(clock, s'.counts, cmd.requestId) {
      StillHandedOut(clock, s.counts, a.node, cmd.requestId);
    }
    forall n | n in ids ensures AppOK(s', n) {
      BeginAppOK(clock, s, a, n);
    }
  }

  lemma BeginAppOK(clock: map<int, nat>, s: System, a: Action, n: int)
    requires C.AllValid(s.c) && Enabled(s, a) && a.BeginPut? && s.counts.Keys <= clock.Keys && n in s.apps && AppOK(s, n)
    ensures AppOK(Next(clock, s, a), n)
  {
    hide A.InOrder, A.ReadersOK, ChanFor, Registered, Id;
    var cmd := Cmd(PUT, a.key, a.value, Id(clock, a.node, s.counts[a.node] + 1));
    A.ClientsKeepOrder(s.apps[n], a.call, cmd.requestId, a.key, a.value, cmd);
    A.ClientsKeepReaders(s.apps[n], a.call, cmd.requestId, a.key, a.value, cmd);
  }

  /** Everything delivered on a node is a command that some Put proposed. */
  lemma DeliveredIsProposed(ids: set<int>, clock: map<int, nat>, s: System, n: int, k: nat)
    requires OK(ids, clock, s) && n in ids && n in s.c.hosts && k < |s.c.hosts[n].delivered|
    ensures var e := s.c.hosts[n].delivered[k]; e.data.Some? && e.data.value in s.proposed
  {
    hide AppOK, HandedOut, E.Accounted, C.HostOK, E.Occurs;
    var h := s.c.hosts[n];
    assert C.HostOK(ids, n, h);
    DeliveredIsLogged(ids, n, h, k);
    assert E.Occurs(s.c, h.delivered[k]) by {
      LoggedOccurs(s.c, n, h.delivered[k]);
    }
    E.OccurrenceTraced(ids, s.c, h.delivered[k]);
  }

  lemma LoggedOccurs(c: C.State, n: int, e: Log)
    requires n in c.hosts && E.InLog(c.hosts[n], e)
    ensures E.Occurs(c, e)
  {}

  lemma DeliveredIsLogged(ids: set<int>, n: int, h: C.Host, k: nat)
    requires C.HostOK(ids, n, h) && k < |h.delivered|
    ensures E.InLog(h, h.delivered[k])
  {
    hide C.BatchesOK;
    assert h.raft.log.entries[1 + k] == h.delivered[k];
  }

  lemma {:induction false} HandedPrefix(batches: seq<C.ToApply>, k: nat)
    requires k <= |batches|
    ensures C.Handed(batches[..k]) <= C.Handed(batches)
  {
    if k < |batches| {
      HandedPrefix(batches[..|batches| - 1], k);
      assert batches[..|batches| - 1][..k] == batches[..k];
    } else {
      assert batches[..k] == batches;
    }
  }

  lemma HandedNext(batches: seq<C.ToApply>, k: nat)
    requires k < |batches|
    ensures C.Handed(batches[..k + 1]) == C.Handed(batches[..k]) + batches[k].entries
  {
    assert batches[..k + 1][..k] == batches[..k];
  }

  lemma HostBatches(ids: set<int>, c: C.State, n: int)
    requires C.Sound(ids, c) && n in ids
    ensures n in c.hosts && C.BatchesOK(c.hosts[n])
  {}

  /** So the apply loop is only ever given proposed commands, with commit indexes that do not decrease. */
  lemma BatchIsProposed(ids: set<int>, clock: map<int, nat>, s: System, n: int)
    requires OK(ids, clock, s) && n in ids && n in s.c.hosts && s.taken[n] < |s.c.hosts[n].batches|
    ensures var b := NextBatch(s, n);
            && A.IndexAt(s.apps[n].received, |s.apps[n].received|) <= b.commitIndex
            && forall k {:trigger b.entries[k]} | 0 <= k < |b.entries| :: b.entries[k] in s.proposed
  {
    hide HandedOut, A.InOrder, A.ReadersOK, C.Sound, S.Fair, E.Accounted;
    HostBatches(ids, s.c, n);
    var batches, k := s.c.hosts[n].batches, s.taken[n];
    HandedNext(batches, k);
    HandedPrefix(batches, k + 1);
    var b, from := NextBatch(s, n), |C.Handed(batches[..k])|;
    forall j {:trigger b.entries[j]} | 0 <= j < |b.entries| ensures b.entries[j] in s.proposed {
      assert C.Handed(batches[..k + 1])[from + j] == batches[k].entries[j] == s.c.hosts[n].delivered[from + j];
      DeliveredIsProposed(ids, clock, s, n, from + j);
    }
  }

  lemma HandOverNextOK(ids: set<int>, clock: map<int, nat>, s: System, a: Action)
    requires OK(ids, clock, s) && Enabled(s, a) && a.HandOver?
    ensures OK(ids, clock, Next(clock, s, a))
  {
    hide ClusterOK, HandedOut, A.InOrder, A.ReadersOK, A.Received, NextBatch, Fed;
    BatchIsProposed(ids, clock, s, a.node);
    A.ReceivedInOrder(s.apps[a.node], NextBatch(s, a.node));
    A.ReceivedReadersOK(s.apps[a.node], NextBatch(s, a.node));
    StillFed(s, a.node);
    ReceivesOnly(s.apps[a.node], NextBatch(s, a.node));
  }

  lemma ReceivesOnly(s: A.State, b: A.Batch)
    ensures A.Received(s, b).proposed == s.proposed && A.Received(s, b).puts == s.puts
  {}

  lemma StillFed(s: System, n: int)
    requires n in s.c.hosts && n in s.taken && n in s.apps && s.taken[n] < |s.c.hosts[n].batches|
    requires Fed(s.c.hosts[n].batches, s.taken[n], s.apps[n])
    ensures Fed(s.c.hosts[n].batches, s.taken[n] + 1, A.Received(s.apps[n], NextBatch(s, n)))
  {
    var batches, k := s.c.hosts[n].batches, s.taken[n];
    HandedNext(batches, k);
    assert AsReceived(batches[..k + 1]) == AsReceived(batches[..k]) + [NextBatch(s, n)];
    assert CmdsOf(C.Handed(batches[..k]) + batches[k].entries) == CmdsOf(C.Handed(batches[..k])) + CmdsOf(batches[k].entries);
  }

  lemma ApplyNextOK(ids: set<int>, clock: map<int, nat>, s: System, a: Action)
    requires OK(ids, clock, s) && Enabled(s, a) && a.Apply?
    ensures OK(ids, clock, Next(clock, s, a))
  {
    hide ClusterOK, HandedOut, A.Enabled, A.InOrder, A.ReadersOK, A.Next;
    KeepsHistory(s.apps[a.node], a.step);
    A.NextInOrder(s.apps[a.node], a.step);
    A.NextReadersOK(s.apps[a.node], a.step);
  }

  lemma KeepsHistory(s: A.State, a: A.Action)
    requires A.Enabled(s, a) && Internal(a)
    ensures var s' := A.Next(s, a); s'.proposed == s.proposed && s'.delivered == s.delivered && s'.received == s.received && s'.puts == s.puts
  {}

  lemma NextOK(ids: set<int>, clock: map<int, nat>, s: System, a: Action)
    requires OK(ids, clock, s) && Enabled(s, a) && C.AllValid(s.c)
    ensures OK(ids, clock, Next(clock, s, a))
  {
    hide OK, Enabled, C.Enabled, Next;
    match a {
      case Raft(_) => RaftNextOK(ids, clock, s, a);
      case Propose(_, _, _) => RaftNextOK(ids, clock, s, a);
      case BeginPut(_, _, _, _) => BeginNextOK(ids, clock, s, a);
      case HandOver(_) => HandOverNextOK(ids, clock, s, a);
      case Apply(_, _) => ApplyNextOK(ids, clock, s, a);
    }
  }

  lemma {:induction false} RunOK(ids: set<int>, clock: map<int, nat>, ss: seq<System>, acts: seq<Action>, i: nat)
    requires IsRun(ids, clock, ss, acts) && i < |ss|
    ensures OK(ids, clock, ss[i])
  {
    hide OK, Next, Enabled;
    if i == 0 {
      InitOK(ids, clock);
    } else {
      RunOK(ids, clock, ss, acts, i - 1);
      assert Follows(clock, ss[i - 1], acts[i - 1], ss[i]);
      NextOK(ids, clock, ss[i - 1], acts[i - 1]);
    }
  }

  // ---------- The apply path of one node ----------

  /** What node n's apply path does while the system takes this step. */
  ghost function Seen(clock: map<int, nat>, s: System, a: Action, n: int): A.Action
    requires C.AllValid(s.c) && Enabled(s, a) && s.counts.Keys <= clock.Keys && n in s.apps
  {
    match a
    case BeginPut(m, call, key, value) =>
      var id := Id(clock, m, s.counts[m] + 1);
      if m == n then A.BeginPut(call, id, key, value) else A.PutElsewhere(Cmd(PUT, key, value, id))
    case HandOver(m) => if m == n then A.Receive(NextBatch(s, n)) else A.Elsewhere
    case Apply(m, step) => if m == n then step else A.Elsewhere
    case _ => A.Elsewhere
  }

  lemma AppHistory(s: System, n: int)
    requires n in s.apps && AppOK(s, n)
    ensures s.apps[n].proposed == s.proposed
  {}

  /** Every node's apply path runs as ApplyPath has it: what that asks of Ids and deliveries is given. */
  lemma SeenIsStep(ids: set<int>, clock: map<int, nat>, s: System, a: Action, n: int)
    requires OK(ids, clock, s) && DistinctMembers(ids) && C.AllValid(s.c) && Enabled(s, a) && n in ids
    ensures A.Enabled(s.apps[n], Seen(clock, s, a, n))
    ensures n in Next(clock, s, a).apps && Next(clock, s, a).apps[n] == A.Next(s.apps[n], Seen(clock, s, a, n))
  {
    hide ClusterOK, HandedOut, Id, C.Enabled, C.Next, C.AllValid, AppOK, A.Begun, A.Heard, A.Received, NextBatch;
    AppHistory(s, n);
    match a {
      case BeginPut(m, _, _, _) => NextIdIsFresh(ids, clock, s, m);
      case HandOver(m) => BatchIsProposed(ids, clock, s, m);
      case _ =>
    }
  }

  lemma {:induction false} Projection(ids: set<int>, clock: map<int, nat>, ss: seq<System>, acts: seq<Action>, n: int, i: nat)
    returns (xs: seq<A.State>, xacts: seq<A.Action>)
    requires IsRun(ids, clock, ss, acts) && DistinctMembers(ids) && n in ids && i < |ss|
    ensures A.IsRun(xs, xacts) && |xacts| == i && |xs| == i + 1
    ensures forall k {:trigger ss[k]} {:trigger xs[k]} | 0 <= k <= i :: n in ss[k].apps && ss[k].apps[n] == xs[k]
    ensures forall k {:trigger acts[k]} {:trigger xacts[k]} | 0 <= k < i && acts[k].Apply? && acts[k].node == n :: acts[k].step == xacts[k]
    decreases i
  {
    hide OK, Next, Enabled, A.Enabled, A.Next, C.Init;
    if i == 0 {
      xs, xacts := [A.INIT], [];
      assert ss[0].apps[n] == A.INIT;
    } else {
      xs, xacts := Projection(ids, clock, ss, acts, n, i - 1);
      xs, xacts := ProjectOne(ids, clock, ss, acts, n, i - 1, xs, xacts);
    }
  }

  lemma ProjectOne(ids: set<int>, clock: map<int, nat>, ss: seq<System>, acts: seq<Action>, n: int, i: nat, xs0: seq<A.State>, xacts0: seq<A.Action>)
    returns (xs: seq<A.State>, xacts: seq<A.Action>)
    requires IsRun(ids, clock, ss, acts) && DistinctMembers(ids) && n in ids && i < |acts|
    requires A.IsRun(xs0, xacts0) && |xacts0| == i && |xs0| == i + 1
    requires n in ss[i].apps && ss[i].apps[n] == xs0[i]
    ensures A.IsRun(xs, xacts) && |xacts| == i + 1 && |xs| == i + 2 && xs0 <= xs && xacts0 <= xacts
    ensures n in ss[i + 1].apps && ss[i + 1].apps[n] == xs[i + 1]
    ensures acts[i].Apply? && acts[i].node == n ==> xacts[i] == acts[i].step
  {
    hide OK, Next, Enabled, A.Enabled, A.Next, A.IsRun, DistinctMembers;
    RunOK(ids, clock, ss, acts, i);
    assert Follows(clock, ss[i], acts[i], ss[i + 1]);
    var seen := Seen(clock, ss[i], acts[i], n);
    SeenIsStep(ids, clock, ss[i], acts[i], n);
    A.RunExtends(xs0, xacts0, seen);
    xs, xacts := xs0 + [ss[i + 1].apps[n]], xacts0 + [seen];
  }

  // ---------- The theorems ----------

  /** In every run of the whole system, on every node: a Put returns success only after its own command, key
      and value was applied there, and every later Get on the node sees that value or one applied later. */
  lemma AcknowledgedWritesAreRead(ids: set<int>, clock: map<int, nat>, ss: seq<System>, acts: seq<Action>, n: int, i: nat, j: nat)
    requires IsRun(ids, clock, ss, acts) && DistinctMembers(ids) && n in ids && i < j < |acts|
    requires acts[i].Apply? && acts[i].node == n && acts[i].step.EndPut?
    requires acts[j].Apply? && acts[j].node == n && acts[j].step.EndGet?
    requires n in ss[i].apps && n in ss[j].apps && acts[i].step.call in ss[i].apps[n].puts
    requires acts[j].step.key == ss[i].apps[n].puts[acts[i].step.call].key
    ensures exists w, r :: A.AppliedAt(ss[i].apps[n], ss[i].apps[n].puts[acts[i].step.call], w) && w <= r
              && A.IsLatest(ss[j].apps[n].executed, acts[j].step.key, r)
              && A.Answer(ss[j].apps[n], acts[j].step.key) == Some(ss[j].apps[n].executed[r].value)
  {
    hide Follows, A.IsRun, A.AppliedAt, A.IsLatest, A.Answer;
    var xs, xacts := Projection(ids, clock, ss, acts, n, j + 1);
    assert ss[i].apps[n] == xs[i] && ss[j].apps[n] == xs[j];
    assert acts[i].step == xacts[i] && acts[j].step == xacts[j];
    A.AcknowledgedWritesAreRead(xs, xacts, i, j);
  }

  /** In every run of the whole system, on every node: a Put returns exactly once the step that triggers its own
      command is over. */
  lemma PutsReturnExactly(ids: set<int>, clock: map<int, nat>, ss: seq<System>, acts: seq<Action>, n: int, i: nat, call: int)
    requires IsRun(ids, clock, ss, acts) && DistinctMembers(ids) && n in ids && i < |ss|
    requires n in ss[i].apps && call in ss[i].apps[n].puts
    ensures A.Enabled(ss[i].apps[n], A.EndPut(call)) <==> A.PutDone(ss[i].apps[n], ss[i].apps[n].puts[call])
  {
    hide Follows, A.IsRun, A.PutDone, A.Enabled;
    var xs, xacts := Projection(ids, clock, ss, acts, n, i);
    assert ss[i].apps[n] == xs[i];
    A.PutsReturnExactly(xs, xacts, i, call);
  }

  /** In every run, on every node: the table is the fold of the commands executed there, which are the first of
      those in the batches taken over. */
  lemma TableIsFold(ids: set<int>, clock: map<int, nat>, ss: seq<System>, acts: seq<Action>, n: int, i: nat)
    requires IsRun(ids, clock, ss, acts) && n in ids && i < |ss|
    ensures n in ss[i].apps && n in ss[i].c.hosts
    ensures var a := ss[i].apps[n];
            && a.kv == Fold(map[], A.PairsOf(a.executed))
            && a.executed <= a.delivered && a.delivered <= CmdsOf(ss[i].c.hosts[n].delivered)
  {
    hide Follows, ClusterOK, HandedOut, A.ReadersOK, Fold;
    RunOK(ids, clock, ss, acts, i);
    var s := ss[i];
    assert AppOK(s, n);
    ClusterSound(ids, s.c);
    HostBatches(ids, s.c, n);
    HandedPrefix(s.c.hosts[n].batches, s.taken[n]);
    CmdsOfPrefix(C.Handed(s.c.hosts[n].batches[..s.taken[n]]), s.c.hosts[n].delivered);
  }

  lemma CmdsOfPrefix(a: seq<Log>, b: seq<Log>)
    requires a <= b
    ensures CmdsOf(a) <= CmdsOf(b)
  {}

  /** In every run each key of each node's table has a value that some Put, begun on some node, gave it. */
  lemma TablesHoldProposedValues(ids: set<int>, clock: map<int, nat>, ss: seq<System>, acts: seq<Action>, n: int, i: nat, key: Bytes)
    returns (cmd: Cmd)
    requires IsRun(ids, clock, ss, acts) && n in ids && i < |ss|
    requires n in ss[i].apps && key in ss[i].apps[n].kv
    ensures cmd in ss[i].proposed && cmd.key == key && cmd.value == ss[i].apps[n].kv[key]
  {
    hide Follows, ClusterOK, HandedOut, AppOK, Fold;
    TableIsFold(ids, clock, ss, acts, n, i);
    RunOK(ids, clock, ss, acts, i);
    var a := ss[i].apps[n];
    FoldLookup(map[], A.PairsOf(a.executed), key);
    var k := LastPutIsPut(A.PairsOf(a.executed), key);
    cmd := a.executed[k];
    assert a.delivered[k] == cmd;
    DeliveredIsProposed(ids, clock, ss[i], n, k);
  }

  /** In every run, on every node: the read triggers do not decrease, so a Get that waits for an index is let
      through exactly when a batch that reaches it has been finished, and no channel is closed twice. */
  lemma GetsWakeExactly(ids: set<int>, clock: map<int, nat>, ss: seq<System>, acts: seq<Action>, n: int, i: nat, call: int)
    requires IsRun(ids, clock, ss, acts) && n in ids && i < |ss| && n in ss[i].apps
    ensures var a := ss[i].apps[n];
            && W.WaitersOK(a.readers) && W.WaitersPrompt(a.readers)
            && (call in a.gets && a.gets[call].Waiting? ==>
                  && 0 <= A.Finished(a) <= |a.received|
                  && (W.IsClosed(a.readers, a.gets[call].chan) <==> a.gets[call].index <= A.IndexAt(a.received, A.Finished(a))))
    ensures i < |acts| && acts[i].Apply? && acts[i].node == n && acts[i].step.FinishJob? ==>
              ss[i].apps[n].readers.lastTriggered <= ss[i].apps[n].job.batch.commitIndex
  {
    hide Next, ClusterOK, HandedOut, W.WaitersOK, W.WaitersPrompt, W.IsClosed, A.InOrder, C.AllValid;
    RunOK(ids, clock, ss, acts, i);
    var a := ss[i].apps[n];
    assert AppOK(ss[i], n);
    if call in a.gets && a.gets[call].Waiting? {
      A.ReaderWakes(a, call);
    }
    if i < |acts| {
      assert Follows(clock, ss[i], acts[i], ss[i + 1]);
    }
  }

  // ---------- The Raft run inside a run of the system ----------

  ghost predicate IsContiguous(ss: seq<System>, acts: seq<Action>) {
    forall i {:trigger acts[i]} | 0 <= i < |acts| && i < |ss| :: ContiguousStep(ss[i], acts[i])
  }

  ghost predicate ContiguousStep(s: System, a: Action) {
    RaftAction(a).Some? ==> C.AllValid(s.c) && C.Enabled(s.c, RaftAction(a).value) && L.Contiguous(s.c, RaftAction(a).value)
  }

  /** No node but a is ever leader. */
  ghost predicate SoleLeader(ss: seq<System>, a: int) {
    forall i {:trigger ss[i]} | 0 <= i < |ss| :: LeadsAlone(ss[i].c, a)
  }

  ghost predicate LeadsAlone(c: C.State, a: int) {
    forall n | n in c.hosts && c.hosts[n].raft.role.Leader? :: n == a
  }

  ghost predicate ClusterRun(ids: set<int>, cs: seq<C.State>, cacts: seq<C.Action>, a: int) {
    && L.IsContiguousRun(ids, cs, cacts)
    && forall k {:trigger cs[k]} | 0 <= k < |cs| :: LeadsAlone(cs[k], a)
  }

  lemma Extended(ids: set<int>, cs: seq<C.State>, cacts: seq<C.Action>, r: C.Action, a: int)
    requires ClusterRun(ids, cs, cacts, a) && C.AllValid(cs[|cacts|]) && C.Enabled(cs[|cacts|], r)
    requires L.Contiguous(cs[|cacts|], r) && LeadsAlone(C.Next(cs[|cacts|], r), a)
    ensures ClusterRun(ids, cs + [C.Next(cs[|cacts|], r)], cacts + [r], a)
  {
    hide C.Next, C.Enabled, L.Contiguous, LeadsAlone, C.AllValid;
    var c := C.Next(cs[|cacts|], r);
    var cs', cacts' := cs + [c], cacts + [r];
    forall i {:trigger cacts'[i]} {:trigger cs'[i]} | 0 <= i < |cacts'|
      ensures C.AllValid(cs'[i]) && C.Enabled(cs'[i], cacts'[i]) && cs'[i + 1] == C.Next(cs'[i], cacts'[i]) && L.Contiguous(cs'[i], cacts'[i])
    {
      if i < |cacts| {
        assert cacts'[i] == cacts[i] && L.Contiguous(cs[i], cacts[i]);
      }
    }
  }

  /** The cluster's own run: the moments of the system run are moments of it, in order. */
  lemma {:induction false} RaftRun(ids: set<int>, clock: map<int, nat>, ss: seq<System>, acts: seq<Action>, a: int, n: nat)
    returns (cs: seq<C.State>, cacts: seq<C.Action>, at: seq<nat>)
    requires IsRun(ids, clock, ss, acts) && IsContiguous(ss, acts) && SoleLeader(ss, a) && n < |ss|
    ensures ClusterRun(ids, cs, cacts, a) && |cs| == |cacts| + 1 && |at| == n + 1
    ensures forall i {:trigger at[i]} {:trigger ss[i]} | 0 <= i <= n :: at[i] < |cs| && cs[at[i]] == ss[i].c
    ensures forall i, j {:trigger at[i], at[j]} | 0 <= i <= j <= n :: at[i] <= at[j]
    ensures at[n] == |cacts|
    decreases n
  {
    hide Next, Enabled, C.Next, C.Enabled, LeadsAlone, L.Contiguous, C.Init, C.AllValid;
    if n == 0 {
      assert LeadsAlone(ss[0].c, a);
      cs, cacts, at := [ss[0].c], [], [0];
    } else {
      cs, cacts, at := RaftRun(ids, clock, ss, acts, a, n - 1);
      assert Follows(clock, ss[n - 1], acts[n - 1], ss[n]) && ContiguousStep(ss[n - 1], acts[n - 1]);
      assert at[n - 1] == |cacts| && cs[|cacts|] == ss[n - 1].c;
      assert LeadsAlone(ss[n].c, a);
      RaftPart(clock, ss[n - 1], acts[n - 1]);
      var r := RaftAction(acts[n - 1]);
      if r.Some? {
        Extended(ids, cs, cacts, r.value, a);
        cs, cacts := cs + [ss[n].c], cacts + [r.value];
      }
      at := at + [|cacts|];
    }
  }

  lemma RaftPart(clock: map<int, nat>, s: System, a: Action)
    requires C.AllValid(s.c) && Enabled(s, a) && s.counts.Keys <= clock.Keys
    ensures RaftAction(a).Some? ==> C.Enabled(s.c, RaftAction(a).value)
    ensures Next(clock, s, a).c == if RaftAction(a).Some? then C.Next(s.c, RaftAction(a).value) else s.c
  {
    hide C.Next, A.Next, A.Begun, A.Heard, A.Received;
  }

  /** In every run of the system whose Raft steps are contiguous and in which only one node ever leads: what
      two nodes have put into their tables, at whatever moments, are prefixes of one another, and having
      executed equally many commands they hold the same table. */
  lemma ReplicasAgree(ids: set<int>, clock: map<int, nat>, ss: seq<System>, acts: seq<Action>, leader: int, x: int, y: int, i: nat, j: nat)
    requires IsRun(ids, clock, ss, acts) && IsContiguous(ss, acts) && SoleLeader(ss, leader)
    requires leader in ids && x in ids && y in ids && i <= j < |ss|
    ensures x in ss[i].apps && y in ss[j].apps
    ensures var a, b := ss[i].apps[x], ss[j].apps[y];
            && (a.executed <= b.executed || b.executed <= a.executed)
            && (|a.executed| == |b.executed| ==> a.kv == b.kv)
  {
    hide Follows, Fold, IsContiguous, SoleLeader, CmdsOf;
    var cs, cacts, at := RaftRun(ids, clock, ss, acts, leader, j);
    SoleInRun(ids, cs, cacts, leader);
    X.AppliedPrefixesAgree(ids, cs, cacts, at[i], at[j], leader, x, y);
    assert cs[at[i]] == ss[i].c && cs[at[j]] == ss[j].c;
    TableIsFold(ids, clock, ss, acts, x, i);
    TableIsFold(ids, clock, ss, acts, y, j);
    PrefixesAgree(ss[i].c.hosts[x].delivered, ss[i].apps[x].executed, ss[j].c.hosts[y].delivered, ss[j].apps[y].executed);
  }

  lemma SoleInRun(ids: set<int>, cs: seq<C.State>, cacts: seq<C.Action>, a: int)
    requires ClusterRun(ids, cs, cacts, a)
    ensures L.IsContiguousRun(ids, cs, cacts) && X.SoleLeader(cs, a)
  {
    hide L.IsContiguousRun;
  }

  lemma PrefixesAgree(d: seq<Log>, x: seq<Cmd>, d': seq<Log>, x': seq<Cmd>)
    requires d <= d' || d' <= d
    requires x <= CmdsOf(d) && x' <= CmdsOf(d')
    ensures x <= x' || x' <= x
    ensures |x| == |x'| ==> x == x'
  {
    forall k | 0 <= k < |x| && k < |x'| ensures x[k] == x'[k] {
      assert d[k] == d'[k];
    }
  }

  /** The B+ tree under the apply path: grown by the executed puts, and as long as none of them strands a cell,
      it answers every Get as the node's table does. */
  lemma TreeServesReads(ids: set<int>, clock: map<int, nat>, ss: seq<System>, acts: seq<Action>, n: int, i: nat, ts: seq<T.Tree>, key: Bytes)
    requires IsRun(ids, clock, ss, acts) && n in ids && i < |ss| && n in ss[i].apps
    requires var puts := A.PairsOf(ss[i].apps[n].executed);
             && TA.IsHistory(puts, ts)
             && forall k {:trigger puts[k]} | 0 <= k < |puts| :: TA.StrandsNothing(ts[k], puts[k].0)
    ensures var puts := A.PairsOf(ss[i].apps[n].executed);
            T.Shaped(ts[|puts|]) && T.Get(ts[|puts|], key) == A.Answer(ss[i].apps[n], key)
  {
    hide Follows, Fold, T.Get, T.Shaped, TA.StrandsNothing, TA.PutGives;
    TableIsFold(ids, clock, ss, acts, n, i);
    var puts := A.PairsOf(ss[i].apps[n].executed);
    TA.TreeIsTable(puts, ts, |puts|, key);
    assert puts[..|puts|] == puts;
  }
}
