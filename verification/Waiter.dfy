/** Write waiters (wait.go): one channel per request Id, closed when that Id is triggered; and the FIFO
    scheduler (scheduler/scheduler.go). */
module Waiters {
  import opened Types

  datatype WaiterState = WaiterState(chans: map<int, int>, nextChan: int, closed: set<int>)

  const NEW_WAITER := WaiterState(map[], 0, {})

  function ChanFor(w: WaiterState, id: int): int {
    if id in w.chans then w.chans[id] else w.nextChan
  }

  function Registered(w: WaiterState, id: int): WaiterState {
    if id in w.chans then w else w.(chans := w.chans[id := w.nextChan], nextChan := w.nextChan + 1)
  }

  function Triggered(w: WaiterState, id: int): WaiterState {
    if id in w.chans then w.(chans := w.chans - {id}, closed := w.closed + {w.chans[id]}) else w
  }

  /** Registered channels are open and no two Ids share one. */
  ghost predicate WaiterOK(w: WaiterState) {
    && (forall id | id in w.chans :: 0 <= w.chans[id] < w.nextChan && w.chans[id] !in w.closed)
    && (forall a, b | a in w.chans && b in w.chans && a != b :: w.chans[a] != w.chans[b])
    && (forall ch | ch in w.closed :: ch < w.nextChan)
    && 0 <= w.nextChan
  }

  /** A registered channel is open; triggering one Id closes its channel and no other. */
  lemma TriggerClosesOnlyOwn(w: WaiterState, id: int, other: int)
    requires WaiterOK(w)
    ensures WaiterOK(Registered(w, id)) && WaiterOK(Triggered(w, id))
    ensures ChanFor(w, id) !in w.closed && Registered(w, id).chans[id] == ChanFor(w, id)
    ensures ChanFor(w, other) in Triggered(Registered(w, other), id).closed <==> id == other
  {}

  class Waiter {
    var chans: map<int, int>
    var nextChan: int
    var closed: set<int>

    ghost function View(): WaiterState
      reads this
    {
      WaiterState(chans, nextChan, closed)
    }

    constructor ()
      ensures View() == NEW_WAITER && WaiterOK(View())
    {
      chans, nextChan, closed := map[], 0, {};
    }

    method Register(id: int) returns (ch: int)
      requires WaiterOK(View())
      modifies this
      ensures WaiterOK(View()) && View() == Registered(old(View()), id)
      ensures ch == ChanFor(old(View()), id) && ch !in closed
    {
      if id !in chans {
        chans := chans[id := nextChan];
        nextChan := nextChan + 1;
      }
      return chans[id];
    }

    method Trigger(id: int)
      requires WaiterOK(View())
      modifies this
      ensures WaiterOK(View()) && View() == Triggered(old(View()), id)
    {
      if id in chans {
        closed := closed + {chans[id]};
        chans := chans - {id};
      }
    }
  }

  /** Jobs leave in the order in which they were added. */
  class FifoScheduler<Job> {
    var queue: seq<Job>
    ghost var added: seq<Job>
    ghost var taken: seq<Job>

    ghost predicate Fifo()
      reads this
    {
      added == taken + queue
    }

    constructor ()
      ensures Fifo() && added == [] && taken == []
    {
      queue, added, taken := [], [], [];
    }

    method AddTask(task: Job)
      requires Fifo()
      modifies this
      ensures Fifo() && added == old(added) + [task] && taken == old(taken)
    {
      queue := queue + [task];
      added := added + [task];
    }

    /** An empty queue yields no job. */
    method NextTask() returns (task: Option<Job>)
      requires Fifo()
      modifies this
      ensures Fifo() && added == old(added)
      ensures task.Some? <==> |old(taken)| < |old(added)|
      ensures if task.Some? then taken == old(taken) + [task.value] && task.value == old(added)[|old(taken)|]
              else taken == old(taken)
    {
      if |queue| == 0 {
        return None;
      }
      task := Some(queue[0]);
      taken := taken + [queue[0]];
      queue := queue[1..];
    }
  }
}
