/** Read waiters (wait_time.go): channels handed out for a deadline, closed when a trigger reaches it. */
module WaitTimes {

  /** The channel that is closed from the start. */
  const CLOSEC := 0

  /** Channels are numbered; `closings` counts every close of each. `handed` and `reached` are history:
      every channel handed out with its deadline, and the largest trigger so far. */
  datatype WaitState = WaitState(
    lastTriggered: int, m: map<int, int>, nextChan: int, closings: multiset<int>,
    handed: set<(int, int)>, reached: int)

  const NEW_WAIT_TIME := WaitState(0, map[], 1, multiset{CLOSEC}, {}, 0)

  predicate IsClosed(w: WaitState, ch: int) {
    ch in w.closings
  }

  function WaitChan(w: WaitState, d: int): int {
    if d <= w.lastTriggered then CLOSEC else if d in w.m then w.m[d] else w.nextChan
  }

  function Waited(w: WaitState, d: int): WaitState {
    var ch := WaitChan(w, d);
    var w' := w.(handed := w.handed + {(d, ch)});
    if d <= w.lastTriggered || d in w.m then w' else w'.(m := w.m[d := ch], nextChan := w.nextChan + 1)
  }

  /** The pending deadlines a trigger wakes, in the order Go ranges over them. */
  ghost predicate IsWakeOrder(w: WaitState, t: int, order: seq<int>) {
    && AllPending(w.m, order)
    && (forall d :: d in order <==> d in w.m && d <= t)
    && (forall i, j | 0 <= i < j < |order| :: order[i] != order[j])
  }

  ghost predicate AllPending(m: map<int, int>, order: seq<int>) {
    forall i {:trigger order[i]} | 0 <= i < |order| :: order[i] in m
  }

  function ClosedBy(m: map<int, int>, order: seq<int>): multiset<int>
    requires AllPending(m, order)
  {
    if order == [] then multiset{} else multiset{m[order[0]]} + ClosedBy(m, order[1..])
  }

  function Woken(order: seq<int>): set<int> {
    set d | d in order
  }

  function Triggered(w: WaitState, t: int, order: seq<int>): WaitState
    requires AllPending(w.m, order)
  {
    WaitState(t, w.m - Woken(order), w.nextChan, w.closings + ClosedBy(w.m, order),
              w.handed, if t > w.reached then t else w.reached)
  }

  // ---------- Every interleaving ----------

  datatype Event = Waits(deadline: int) | Triggers(deadline: int, order: seq<int>)

  ghost predicate Possible(w: WaitState, e: Event) {
    e.Triggers? ==> IsWakeOrder(w, e.deadline, e.order)
  }

  function After(w: WaitState, e: Event): WaitState
    requires e.Triggers? ==> AllPending(w.m, e.order)
  {
    match e
    case Waits(d) => Waited(w, d)
    case Triggers(t, order) => Triggered(w, t, order)
  }

  ghost predicate IsInterleaving(ws: seq<WaitState>, es: seq<Event>) {
    && |ws| == |es| + 1
    && ws[0] == NEW_WAIT_TIME
    && forall i {:trigger es[i]} | 0 <= i < |es| :: Possible(ws[i], es[i]) && ws[i + 1] == After(ws[i], es[i])
  }

  ghost predicate NonDecreasing(ws: seq<WaitState>, es: seq<Event>)
    requires |ws| == |es| + 1
  {
    forall i {:trigger es[i]} | 0 <= i < |es| && es[i].Triggers? :: ws[i].lastTriggered <= es[i].deadline
  }

  /** What every interleaving keeps: pending channels are open and distinct, and no channel was closed
      more than once. */
  ghost predicate WaitersOK(w: WaitState) {
    && 0 < w.nextChan && CLOSEC in w.closings
    && (forall ch :: w.closings[ch] <= 1)
    && (forall ch | ch in w.closings :: ch < w.nextChan)
    && (forall d | d in w.m :: 0 < w.m[d] < w.nextChan && w.m[d] !in w.closings)
    && (forall d, e | d in w.m && e in w.m && d != e :: w.m[d] != w.m[e])
  }

  /** With non-decreasing triggers: a handed-out channel is closed exactly when its deadline was reached,
      and everything pending is beyond the last trigger. */
  ghost predicate WaitersPrompt(w: WaitState) {
    && w.lastTriggered == w.reached
    && (forall d | d in w.m :: d > w.lastTriggered)
    && (forall d, ch | (d, ch) in w.handed ::
          if d <= w.reached then IsClosed(w, ch) else d in w.m && w.m[d] == ch)
  }

  lemma NewWaitTimeOK()
    ensures WaitersOK(NEW_WAIT_TIME) && WaitersPrompt(NEW_WAIT_TIME)
  {}

  lemma {:induction false} ClosedByCount(m: map<int, int>, order: seq<int>, ch: int)
    requires AllPending(m, order)
    requires forall i, j | 0 <= i < j < |order| :: order[i] != order[j]
    requires forall d, e | d in m && e in m && d != e :: m[d] != m[e]
    ensures ClosedBy(m, order)[ch] <= 1
    ensures ch in ClosedBy(m, order) <==> exists d :: d in order && m[d] == ch
  {
    if order != [] {
      assert order == [order[0]] + order[1..];
      assert forall d | d in order[1..] :: d in order;
      ClosedByCount(m, order[1..], ch);
      assert order[0] in order;
      if m[order[0]] == ch {
        assert forall d | d in order[1..] :: m[d] != ch;
      }
    }
  }

  lemma {:induction false} ClosedByAppend(m: map<int, int>, order: seq<int>, d: int)
    requires d in m && AllPending(m, order)
    ensures ClosedBy(m, order + [d]) == ClosedBy(m, order) + multiset{m[d]}
  {
    if order != [] {
      assert (order + [d])[1..] == order[1..] + [d];
      ClosedByAppend(m, order[1..], d);
    }
  }

  lemma WakeOrderPending(w: WaitState, t: int, order: seq<int>)
    requires IsWakeOrder(w, t, order)
    ensures AllPending(w.m, order)
  {}

  lemma NothingWoken(w: WaitState)
    ensures w.m - Woken([]) == w.m && w.closings + ClosedBy(w.m, []) == w.closings
  {}

  /** One more deadline woken: its channel, still open, is closed and forgotten. */
  lemma WakeStep(w: WaitState, t: int, order: seq<int>, i: nat)
    requires IsWakeOrder(w, t, order) && i < |order|
    ensures AllPending(w.m, order[..i]) && AllPending(w.m, order[..i + 1])
    ensures var d := order[i];
            && d in w.m - Woken(order[..i])
            && w.m - Woken(order[..i + 1]) == (w.m - Woken(order[..i])) - {d}
            && ClosedBy(w.m, order[..i + 1]) == ClosedBy(w.m, order[..i]) + multiset{w.m[d]}
  {
    var d := order[i];
    assert d !in Woken(order[..i]);
    ClosedByAppend(w.m, order[..i], d);
    assert order[..i + 1] == order[..i] + [d];
    assert Woken(order[..i + 1]) == Woken(order[..i]) + {d};
  }

  lemma AfterOK(w: WaitState, e: Event)
    requires WaitersOK(w) && Possible(w, e)
    ensures WaitersOK(After(w, e))
  {
    if e.Triggers? {
      var w' := After(w, e);
      forall ch ensures w'.closings[ch] <= 1 && (ch in w'.closings ==> ch < w.nextChan) {
        ClosedByCount(w.m, e.order, ch);
      }
      forall d | d in w'.m ensures w'.m[d] !in w'.closings {
        ClosedByCount(w.m, e.order, w.m[d]);
      }
    }
  }

  lemma AfterPrompt(w: WaitState, e: Event)
    requires WaitersOK(w) && WaitersPrompt(w) && Possible(w, e)
    requires e.Triggers? ==> w.lastTriggered <= e.deadline
    ensures WaitersPrompt(After(w, e))
  {
    if e.Triggers? {
      var w' := After(w, e);
      forall d, ch | (d, ch) in w'.handed ensures if d <= w'.reached then IsClosed(w', ch) else d in w'.m && w'.m[d] == ch {
        if d in w.m && w.m[d] == ch {
          ClosedByCount(w.m, e.order, ch);
        }
      }
    }
  }

  lemma {:induction false} InterleavingOK(ws: seq<WaitState>, es: seq<Event>, i: nat)
    requires IsInterleaving(ws, es) && i < |ws|
    ensures WaitersOK(ws[i])
    ensures NonDecreasing(ws, es) ==> WaitersPrompt(ws[i])
  {
    if i > 0 {
      InterleavingOK(ws, es, i - 1);
      AfterOK(ws[i - 1], es[i - 1]);
      if NonDecreasing(ws, es) {
        AfterPrompt(ws[i - 1], es[i - 1]);
      }
    }
  }

  /** In every interleaving no channel is closed twice; with non-decreasing triggers a channel handed out
      for deadline d is closed exactly when some trigger reached d, and pending deadlines are beyond
      the last trigger. */
  lemma WaitersWakeExactly(ws: seq<WaitState>, es: seq<Event>, i: nat)
    requires IsInterleaving(ws, es) && i < |ws|
    ensures forall ch :: ws[i].closings[ch] <= 1
    ensures NonDecreasing(ws, es) ==>
              && (forall d, ch | (d, ch) in ws[i].handed :: IsClosed(ws[i], ch) <==> d <= ws[i].reached)
              && (forall d | d in ws[i].m :: d > ws[i].lastTriggered)
  {
    InterleavingOK(ws, es, i);
  }

  /** Waits are answered rightly for every deadline: with a closed channel exactly if it was reached. */
  ghost predicate WaitsRight(w: WaitState) {
    forall d :: IsClosed(w, WaitChan(w, d)) <==> d <= w.reached
  }

  /** In every interleaving, whatever the triggers: the last one is at most the largest, and everything
      pending is beyond the last one. */
  lemma {:induction false} PendingBeyondLast(ws: seq<WaitState>, es: seq<Event>, i: nat)
    requires IsInterleaving(ws, es) && i < |ws|
    ensures ws[i].lastTriggered <= ws[i].reached && forall d | d in ws[i].m :: d > ws[i].lastTriggered
  {
    if i > 0 {
      PendingBeyondLast(ws, es, i - 1);
      assert Possible(ws[i - 1], es[i - 1]) && ws[i] == After(ws[i - 1], es[i - 1]);
    }
  }

  /** At every moment of every interleaving waits are answered rightly exactly if the last trigger is the
      largest so far. */
  lemma WaitRightIffLargest(ws: seq<WaitState>, es: seq<Event>, i: nat)
    requires IsInterleaving(ws, es) && i < |ws|
    ensures WaitsRight(ws[i]) <==> ws[i].lastTriggered == ws[i].reached
  {
    hide IsInterleaving;
    InterleavingOK(ws, es, i);
    PendingBeyondLast(ws, es, i);
    var w := ws[i];
    assert !IsClosed(w, w.nextChan);
    if w.lastTriggered < w.reached {
      assert !IsClosed(w, WaitChan(w, w.reached));
    }
  }

  /** Over a whole interleaving: waits are answered rightly at every moment exactly if no trigger is below
      the one before it. */
  lemma WaitRightIffMonotone(ws: seq<WaitState>, es: seq<Event>)
    requires IsInterleaving(ws, es)
    ensures (forall i {:trigger ws[i]} | 0 <= i < |ws| :: WaitsRight(ws[i])) <==> NonDecreasing(ws, es)
  {
    hide WaitsRight;
    if NonDecreasing(ws, es) {
      forall i {:trigger ws[i]} | 0 <= i < |ws| ensures WaitsRight(ws[i]) {
        InterleavingOK(ws, es, i);
        WaitRightIffLargest(ws, es, i);
      }
    }
    if forall i {:trigger ws[i]} | 0 <= i < |ws| :: WaitsRight(ws[i]) {
      forall i {:trigger es[i]} | 0 <= i < |es| && es[i].Triggers? ensures ws[i].lastTriggered <= es[i].deadline {
        assert WaitsRight(ws[i]) && WaitsRight(ws[i + 1]);
        WaitRightIffLargest(ws, es, i);
        WaitRightIffLargest(ws, es, i + 1);
        assert ws[i + 1] == After(ws[i], es[i]);
      }
    }
  }

  /** Trigger 5, then trigger 3, then wait for 4: the deadline was reached, and the waiter hangs. */
  lemma LateTriggerHangs() returns (ws: seq<WaitState>, es: seq<Event>)
    ensures es == [Triggers(5, []), Triggers(3, []), Waits(4)] && IsInterleaving(ws, es)
    ensures var w := ws[3]; (4, 1) in w.handed && 4 <= w.reached && !IsClosed(w, 1)
  {
    es := [Triggers(5, []), Triggers(3, []), Waits(4)];
    var w1 := After(NEW_WAIT_TIME, es[0]);
    var w2 := After(w1, es[1]);
    ws := [NEW_WAIT_TIME, w1, w2, After(w2, es[2])];
    assert w1.m == map[] && w2.m == map[];
    assert w2.closings == multiset{CLOSEC};
  }

  // ---------- The object ----------

  class WaitTime {
    var lastTriggered: int
    var m: map<int, int>
    var nextChan: int
    var closings: multiset<int>
    ghost var handed: set<(int, int)>
    ghost var reached: int

    ghost function View(): WaitState
      reads this
    {
      WaitState(lastTriggered, m, nextChan, closings, handed, reached)
    }

    constructor ()
      ensures View() == NEW_WAIT_TIME
    {
      lastTriggered, m, nextChan, closings, handed, reached := 0, map[], 1, multiset{CLOSEC}, {}, 0;
    }

    method Wait(deadline: int) returns (ch: int)
      modifies this
      ensures ch == WaitChan(old(View()), deadline)
      ensures View() == Waited(old(View()), deadline)
    {
      handed := handed + {(deadline, WaitChan(View(), deadline))};
      if deadline <= lastTriggered {
        return CLOSEC;
      }
      if deadline in m {
        return m[deadline];
      }
      ch := nextChan;
      nextChan := nextChan + 1;
      m := m[deadline := ch];
    }

    /** `order` is the order in which Go ranges over the deadlines it wakes. */
    method Trigger(t: int, order: seq<int>)
      requires IsWakeOrder(View(), t, order)
      modifies this
      ensures View() == Triggered(old(View()), t, order)
    {
      WakeOrderPending(View(), t, order);
      hide IsWakeOrder, Woken, ClosedBy;
      CloseWoken(t, order);
      lastTriggered := t;
      reached := if t > reached then t else reached;
    }

    method CloseWoken(t: int, order: seq<int>)
      requires IsWakeOrder(View(), t, order) && AllPending(m, order)
      modifies this`m, this`closings
      ensures m == old(m) - Woken(order) && closings == old(closings) + ClosedBy(old(m), order)
    {
      ghost var w := View();
      hide IsWakeOrder, Woken, ClosedBy;
      NothingWoken(w);
      for i := 0 to |order|
        invariant AllPending(w.m, order[..i])
        invariant m == w.m - Woken(order[..i])
        invariant closings == w.closings + ClosedBy(w.m, order[..i])
        modifies this`m, this`closings
      {
        WakeStep(w, t, order, i);
        var d := order[i];
        closings := closings + multiset{m[d]};
        m := m - {d};
      }
      assert order[..|order|] == order;
    }
  }
}
