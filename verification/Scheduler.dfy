/**
The daemon loop: one drainer of a queue that other threads fill at any moment, a clock that moves by
itself, and a shutdown event that is set once. Time is in whole microseconds, and every
operation takes at least one.
*/
module Scheduler {
  import opened Models

  const POLL: nat := 500_000

  datatype Trigger = Trigger(reason: string, contact: Option<ContactId>)

  /** What the rest of the world does around one operation of the drainer. */
  datatype Move = Move(elapsed: nat, arrivals: seq<Trigger>, stop: bool)

  datatype Wake = Wake(halted: bool, trigger: Option<Trigger>, coalesced: nat)

  datatype Got = Item(trigger: Trigger) | Shutdown | Empty

  /** A started cycle: what woke it, how many triggers were drained before it, and the event at both ends. */
  datatype Start = Start(wake: Option<Wake>, drained: nat, stopped: bool, stoppedAtEnd: bool)

  ghost predicate TakesTime(moves: nat -> Move) {
    forall n :: moves(n).elapsed >= 1
  }

  function Max(a: int, b: int): int {
    if a >= b then a else b
  }

  function Min(a: int, b: int): int {
    if a <= b then a else b
  }

  /** Everything the drainer shares with the other threads; `script` holds all their moves. */
  class World {
    const script: nat -> Move
    var step: nat
    var now: int
    var queue: seq<Trigger>
    var stopped: bool
    ghost var arrived: seq<Trigger>
    ghost var drained: seq<Trigger>
    /** Time that passed outside the waits the drainer asked for. */
    ghost var lag: nat
    ghost var stopTime: int

    constructor (moves: nat -> Move)
      requires TakesTime(moves)
      ensures Valid() && script == moves && queue == [] && drained == [] && !stopped
    {
      script, step, now, queue, stopped := moves, 0, 0, [], false;
      arrived, drained, lag, stopTime := [], [], 0, 0;
    }

    /** Nothing is lost and nothing overtakes: what arrived is what was drained, then what is queued. */
    ghost predicate Valid() reads this {
      arrived == drained + queue && (stopped ==> stopTime <= now) && TakesTime(script)
    }

    /** The world only moves on: nothing that happened is undone, and nothing is drained. */
    twostate predicate MovesOn() reads this {
      && old(now) <= now && old(lag) <= lag && (old(stopped) ==> stopped && stopTime == old(stopTime))
      && old(arrived) <= arrived && old(drained) <= drained
      && (stopped && !old(stopped) ==> old(now) <= stopTime)
    }

    /** The other threads move before each operation. */
    method Pass()
      requires Valid()
      modifies this
      ensures Valid() && MovesOn() && drained == old(drained) && now > old(now)
      ensures now - old(now) == lag - old(lag)
    {
      var m := script(step);
      Advance(m, m.elapsed, 0);
    }

    /** `waited` of the elapsed time was asked for by the drainer. */
    method Advance(m: Move, elapsed: nat, ghost waited: nat)
      requires Valid() && waited <= elapsed
      modifies this
      ensures Valid() && MovesOn() && drained == old(drained) && queue == old(queue) + m.arrivals
      ensures now == old(now) + elapsed && lag == old(lag) + (elapsed - waited)
    {
      step := step + 1;
      now := now + elapsed;
      lag := lag + (elapsed - waited);
      queue := queue + m.arrivals;
      arrived := arrived + m.arrivals;
      if m.stop && !stopped {
        stopped := true;
        stopTime := now;
      }
    }

    method IsSet() returns (b: bool)
      requires Valid()
      modifies this
      ensures Valid() && MovesOn() && drained == old(drained) && b == stopped
      ensures now - old(now) == lag - old(lag)
    {
      Pass();
      b := stopped;
    }

    method Monotonic() returns (t: int)
      requires Valid()
      modifies this
      ensures Valid() && MovesOn() && drained == old(drained) && t == now && now > old(now)
      ensures now - old(now) == lag - old(lag)
    {
      Pass();
      t := now;
    }

    method Pop() returns (t: Trigger)
      requires Valid() && queue != []
      modifies this
      ensures Valid() && MovesOn() && t == old(queue)[0] && queue == old(queue)[1..] && drained == old(drained) + [t]
      ensures now == old(now) && lag == old(lag) && stopped == old(stopped) && arrived == old(arrived)
    {
      t := queue[0];
      queue := queue[1..];
      drained := drained + [t];
    }

    /** A blocking read: the head of the queue, as soon as there is one, or nothing after the timeout. */
    method Get(timeout: nat) returns (t: Option<Trigger>)
      requires Valid()
      modifies this
      ensures Valid() && MovesOn()
      ensures t.Some? ==> drained == old(drained) + [t.value]
      ensures t.None? ==> drained == old(drained) && now >= old(now) + timeout && old(queue) == []
      ensures old(queue) != [] ==> t == Some(old(queue)[0])
      ensures now - old(now) <= timeout + (lag - old(lag))
    {
      var m := script(step);
      if queue != [] {
        Advance(m, m.elapsed, 0);
      } else if m.arrivals != [] && m.elapsed <= timeout {
        Advance(m, m.elapsed, m.elapsed);
      } else {
        var elapsed := Max(m.elapsed, timeout);
        Advance(Move(elapsed, [], m.stop), elapsed, timeout);
        queue := queue + m.arrivals;
        arrived := arrived + m.arrivals;
        return None;
      }
      var head := Pop();
      t := Some(head);
    }
  }

  /** Once the event is set, the drainer is at most one poll slice behind it, besides its own delays. */
  twostate predicate Prompt(w: World) reads w {
    w.stopped ==> w.now <= Max(w.stopTime, old(w.now)) + POLL + (w.lag - old(w.lag))
  }

  /** Like a blocking read, but it wakes for the event: the wait is cut into poll slices. */
  method GetUntil(w: World, timeout: nat) returns (got: Got)
    requires w.Valid()
    modifies w
    ensures w.Valid() && w.MovesOn() && Prompt(w)
    ensures got.Item? ==> w.drained == old(w.drained) + [got.trigger]
    ensures !got.Item? ==> w.drained == old(w.drained)
    ensures got.Shutdown? ==> w.stopped
    ensures got.Empty? ==> w.now >= old(w.now) + timeout
    ensures got.Item? && old(w.queue) != [] ==> got.trigger == old(w.queue)[0]
    ensures got.Empty? && old(w.queue) != [] ==> w.lag - old(w.lag) >= timeout
    ensures w.now - old(w.now) <= timeout + (w.lag - old(w.lag))
    ensures old(w.stopped) ==> w.now - old(w.now) == w.lag - old(w.lag)
  {
    var start := w.Monotonic();
    var deadline := start + timeout;
    while true
      invariant w.Valid() && w.MovesOn() && Prompt(w)
      invariant w.drained == old(w.drained) && deadline >= old(w.now) + timeout
      invariant deadline <= old(w.now) + timeout + (w.lag - old(w.lag))
      invariant w.now - old(w.now) <= timeout + (w.lag - old(w.lag))
      invariant old(w.queue) != [] || old(w.stopped) ==> w.now - old(w.now) == w.lag - old(w.lag)
      decreases Max(0, deadline - w.now)
    {
      var stop := w.IsSet();
      if stop {
        return Shutdown;
      }
      var t := w.Monotonic();
      var remaining := deadline - t;
      if remaining <= 0 {
        return Empty;
      }
      QueueHead(w.arrived, w.drained, w.queue);
      var item := w.Get(Min(remaining, POLL));
      if item.Some? {
        return Item(item.value);
      }
    }
  }

  lemma QueueHead(arrived: seq<Trigger>, drained: seq<Trigger>, queue: seq<Trigger>)
    requires arrived == drained + queue
    ensures |queue| == |arrived| - |drained|
    ensures queue != [] ==> queue[0] == arrived[|drained|]
  {
  }

  /** How many triggers a wake took from the queue. */
  function Taken(wake: Wake): nat {
    if wake.trigger.None? then 0 else 1 + wake.coalesced
  }

  /** Absorb a burst; the deadline is fixed once, however fast triggers arrive. */
  method Settle(w: World, debounce: nat) returns (halted: bool, coalesced: nat)
    requires w.Valid() && !w.stopped
    modifies w
    ensures w.Valid() && w.MovesOn() && Prompt(w)
    ensures halted ==> w.stopped
    ensures !halted ==> |w.drained| == |old(w.drained)| + coalesced
    ensures w.now - old(w.now) <= debounce + (w.lag - old(w.lag))
  {
    coalesced := 0;
    var start := w.Monotonic();
    var deadline := start + debounce;
    while true
      invariant w.Valid() && w.MovesOn() && Prompt(w)
      invariant |w.drained| == |old(w.drained)| + coalesced
      invariant deadline <= old(w.now) + debounce + (w.lag - old(w.lag))
      invariant w.now - old(w.now) <= debounce + (w.lag - old(w.lag))
      decreases Max(0, deadline - w.now)
    {
      var t := w.Monotonic();
      var remaining := deadline - t;
      if remaining <= 0 {
        return false, coalesced;
      }
      var next := GetUntil(w, remaining);
      if next.Empty? {
        return false, coalesced;
      }
      var stop := w.IsSet();
      if next.Shutdown? || stop {
        return true, coalesced;
      }
      coalesced := coalesced + 1;
    }
  }

  /** Wait for the next cycle: a cadence tick, a trigger with the burst that follows it, or the event. */
  method WaitForTrigger(w: World, cadence: nat, debounce: nat) returns (wake: Wake)
    requires w.Valid()
    modifies w
    ensures w.Valid() && w.MovesOn() && Prompt(w)
    ensures wake.halted ==> w.stopped
    ensures old(w.stopped) ==> wake.halted && w.drained == old(w.drained)
    ensures !wake.halted ==> |w.drained| == |old(w.drained)| + Taken(wake)
    ensures wake.trigger.Some? ==> |w.drained| > |old(w.drained)| && wake.trigger.value == w.drained[|old(w.drained)|]
    ensures !wake.halted && wake.trigger.None? && old(w.queue) != [] ==> w.lag - old(w.lag) >= cadence
    ensures w.now - old(w.now) <= cadence + debounce + (w.lag - old(w.lag))
  {
    var stop := w.IsSet();
    if stop {
      return Wake(true, None, 0);
    }
    QueueHead(w.arrived, w.drained, w.queue);
    var first := GetUntil(w, cadence);
    stop := w.IsSet();
    if first.Empty? {
      return Wake(stop, None, 0);
    }
    if first.Shutdown? || stop {
      return Wake(true, None, 0);
    }
    var halted, coalesced := Settle(w, debounce);
    wake := if halted then Wake(true, None, 0) else Wake(false, Some(first.trigger), coalesced);
  }

  // ---- the loop ----

  /** The start follows a wake that was not the event, and accounts for what that wake drained. */
  ghost predicate Follows(last: Start, next: Start, drained: seq<Trigger>) {
    && next.wake.Some? && !next.wake.value.halted
    && next.drained == last.drained + Taken(next.wake.value) <= |drained|
    && (next.wake.value.trigger.Some? ==> next.wake.value.trigger.value == drained[last.drained])
  }

  ghost predicate Accounted(starts: seq<Start>, drained: seq<Trigger>) {
    forall i :: 0 <= i < |starts| - 1 ==> Follows(starts[i], starts[i + 1], drained)
  }

  lemma AccountedStays(starts: seq<Start>, drained: seq<Trigger>, drained': seq<Trigger>)
    requires Accounted(starts, drained) && drained <= drained'
    ensures Accounted(starts, drained')
  {
  }

  lemma AccountedMore(starts: seq<Start>, next: Start, drained: seq<Trigger>, drained': seq<Trigger>)
    requires Accounted(starts, drained) && drained <= drained'
    requires starts != [] ==> Follows(starts[|starts| - 1], next, drained')
    ensures Accounted(starts + [next], drained')
  {
  }

  /** A cycle that ends with the event set is the last one. */
  ghost predicate StopsInTime(starts: seq<Start>) {
    && (forall i :: 0 <= i < |starts| - 1 ==> !starts[i].stoppedAtEnd)
    && (forall i :: 0 <= i < |starts| && starts[i].stopped ==> starts[i].stoppedAtEnd)
  }

  /** Run cycles until the event, or until `most` have run: the daemon has no such bound. */
  method RunForever(w: World, cadence: nat, debounce: nat, most: nat) returns (halted: bool, ghost starts: seq<Start>)
    requires w.Valid() && w.drained == [] && most > 0
    modifies w
    ensures w.Valid() && w.MovesOn()
    ensures 0 < |starts| <= most && starts[0].wake.None? && starts[0].drained == 0
    ensures Accounted(starts, w.drained) && StopsInTime(starts)
    ensures halted ==> w.stopped
    ensures !halted ==> |starts| == most && |w.drained| == starts[|starts| - 1].drained
    ensures starts[|starts| - 1].drained <= |w.drained|
  {
    starts := [];
    var wake: Option<Wake> := None;
    var n := 0;
    while true
      invariant w.Valid() && w.MovesOn() && |starts| == n < most
      invariant Accounted(starts, w.drained) && StopsInTime(starts)
      invariant n == 0 ==> wake == None && w.drained == []
      invariant n > 0 ==> wake.Some? && !wake.value.halted && !starts[n - 1].stoppedAtEnd
      invariant n > 0 ==> starts[0].wake.None? && starts[0].drained == 0
      invariant n > 0 ==> |w.drained| == starts[n - 1].drained + Taken(wake.value)
      invariant n > 0 && wake.value.trigger.Some? ==> wake.value.trigger.value == w.drained[starts[n - 1].drained]
      decreases most - n
    {
      ghost var stopped := w.stopped;
      ghost var count := |w.drained|;
      ghost var before := w.drained;
      w.Pass();
      AccountedMore(starts, Start(wake, count, stopped, w.stopped), before, w.drained);
      starts := starts + [Start(wake, count, stopped, w.stopped)];
      n := n + 1;
      if n == most {
        return false, starts;
      }
      before := w.drained;
      var next := WaitForTrigger(w, cadence, debounce);
      AccountedStays(starts, before, w.drained);
      if next.halted {
        return true, starts;
      }
      wake := Some(next);
    }
  }

  function Sum(starts: seq<Start>): nat {
    if |starts| <= 1 || starts[|starts| - 1].wake.None? then 0
    else Sum(starts[..|starts| - 1]) + Taken(starts[|starts| - 1].wake.value)
  }

  /** Over all wakes, one plus the coalesced triggers add up to everything drained before the last cycle. */
  lemma {:induction false} WakesAddUp(starts: seq<Start>, drained: seq<Trigger>)
    requires starts != [] && Accounted(starts, drained) && starts[0].drained == 0
    ensures Sum(starts) == starts[|starts| - 1].drained
  {
    if |starts| > 1 {
      var n := |starts| - 1;
      assert Follows(starts[n - 1], starts[n - 1 + 1], drained);
      WakesAddUp(starts[..n], drained);
    }
  }
}
