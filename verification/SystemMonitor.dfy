/** Starting and stopping the background monitor: a handle under a lock, a loop that ends when it is cancelled, and
    callers that wait for that end or give up. */
module SystemMonitor {
  import opened Options

  // ---- The protocol ----

  /** Loops are numbered as they are started. The handle holds a loop's cancel function and its done channel. */
  datatype Stop = Observed(loop: nat) | Waiting(loop: nat) | Stopped(loop: nat) | GaveUp(loop: nat) | NothingToStop

  datatype State = State(handle: Option<nat>, next: nat, cancelled: set<nat>, alive: set<nat>, stops: map<nat, Stop>)

  datatype Event =
    | Start
    | StopObserves(stop: nat)
    | StopCancels(stop: nat)
    | LoopExits(loop: nat)
    | StopFinishes(stop: nat)
    | StopTimesOut(stop: nat)

  const INITIAL: State := State(None, 0, {}, {}, map[])

  /** The events that can happen: a loop ends only when cancelled, a stop finishes only after the loop it waits for. */
  predicate Enabled(s: State, e: Event) {
    match e
    case Start => true
    case StopObserves(stop) => stop !in s.stops
    case StopCancels(stop) => stop in s.stops && s.stops[stop].Observed?
    case LoopExits(loop) => loop in s.alive && loop in s.cancelled
    case StopFinishes(stop) => stop in s.stops && s.stops[stop].Waiting? && s.stops[stop].loop !in s.alive
    case StopTimesOut(stop) => stop in s.stops && s.stops[stop].Waiting?
  }

  function Next(s: State, e: Event): State
    requires Enabled(s, e)
  {
    match e
    case Start =>
      if s.handle.Some? then s
      else s.(handle := Some(s.next), next := s.next + 1, alive := s.alive + {s.next})
    case StopObserves(stop) =>
      s.(stops := s.stops[stop := if s.handle.None? then NothingToStop else Observed(s.handle.value)])
    case StopCancels(stop) =>
      var loop := s.stops[stop].loop;
      s.(cancelled := s.cancelled + {loop}, stops := s.stops[stop := Waiting(loop)])
    case LoopExits(loop) =>
      s.(alive := s.alive - {loop})
    case StopFinishes(stop) =>
      var loop := s.stops[stop].loop;
      s.(handle := if s.handle == Some(loop) then None else s.handle, stops := s.stops[stop := Stopped(loop)])
    case StopTimesOut(stop) =>
      s.(stops := s.stops[stop := GaveUp(s.stops[stop].loop)])
  }

  predicate IsRun(s: State, events: seq<Event>, end: State)
    decreases |events|
  {
    if events == [] then end == s
    else Enabled(s, events[0]) && IsRun(Next(s, events[0]), events[1..], end)
  }

  // ---- The fields under the lock ----

  /** The state in place: what the package keeps in variables, and the loops it has started. */
  class Monitor {
    var cancel: Option<nat>
    var done: Option<nat>
    var next: nat
    var cancelled: set<nat>
    var alive: set<nat>
    var stops: map<nat, Stop>

    ghost predicate Valid()
      reads this
    {
      cancel == done
    }

    ghost function Current(): State
      reads this
    {
      State(cancel, next, cancelled, alive, stops)
    }

    constructor ()
      ensures Valid() && Current() == INITIAL
    {
      cancel, done, next, cancelled, alive, stops := None, None, 0, {}, {}, map[];
    }

    method StartSystemMonitor()
      requires Valid()
      modifies this
      ensures Valid() && Current() == Next(old(Current()), Start)
    {
      if cancel.Some? {
        return;
      }
      var loop := next;
      next := next + 1;
      cancel := Some(loop);
      done := Some(loop);
      alive := alive + {loop};
    }

    /** The first locked section of a stop: copies the handle. */
    method Observe(stop: nat)
      requires Valid() && Enabled(Current(), StopObserves(stop))
      modifies this
      ensures Valid() && Current() == Next(old(Current()), StopObserves(stop))
    {
      if cancel.None? || done.None? {
        stops := stops[stop := NothingToStop];
      } else {
        stops := stops[stop := Observed(done.value)];
      }
    }

    /** Outside the lock. */
    method Cancel(stop: nat)
      requires Valid() && Enabled(Current(), StopCancels(stop))
      modifies this
      ensures Valid() && Current() == Next(old(Current()), StopCancels(stop))
    {
      var loop := stops[stop].loop;
      cancelled := cancelled + {loop};
      stops := stops[stop := Waiting(loop)];
    }

    /** The second locked section: clears the handle if it is still the one observed. */
    method Finish(stop: nat)
      requires Valid() && Enabled(Current(), StopFinishes(stop))
      modifies this
      ensures Valid() && Current() == Next(old(Current()), StopFinishes(stop))
    {
      var loop := stops[stop].loop;
      if done == Some(loop) {
        cancel := None;
        done := None;
      }
      stops := stops[stop := Stopped(loop)];
    }

    method TimeOut(stop: nat)
      requires Valid() && Enabled(Current(), StopTimesOut(stop))
      modifies this
      ensures Valid() && Current() == Next(old(Current()), StopTimesOut(stop))
    {
      stops := stops[stop := GaveUp(stops[stop].loop)];
    }

    method Exit(loop: nat)
      requires Valid() && Enabled(Current(), LoopExits(loop))
      modifies this
      ensures Valid() && Current() == Next(old(Current()), LoopExits(loop))
    {
      alive := alive - {loop};
    }
  }

  // ---- What every run keeps ----

  ghost predicate Inv(s: State) {
    && (forall loop :: loop in s.alive ==> s.handle == Some(loop))
    && (s.handle.Some? ==> s.handle.value < s.next)
    && (forall loop :: loop in s.cancelled ==> loop < s.next)
    && (forall loop: nat :: loop < s.next && loop !in s.alive ==> loop in s.cancelled)
    && (forall stop :: stop in s.stops && !s.stops[stop].NothingToStop? ==> s.stops[stop].loop < s.next)
    && (forall stop :: stop in s.stops && s.stops[stop].Waiting? ==> s.stops[stop].loop in s.cancelled)
    && (forall stop :: stop in s.stops ==> FinishedRightly(s, s.stops[stop]))
  }

  /** A stop that returned in time has seen its loop end, and the handle no longer names it. */
  ghost predicate FinishedRightly(s: State, stop: Stop) {
    stop.Stopped? ==> stop.loop < s.next && stop.loop !in s.alive && s.handle != Some(stop.loop)
  }

  lemma StepKeepsInv(s: State, e: Event)
    requires Inv(s) && Enabled(s, e)
    ensures Inv(Next(s, e))
  {
    var t := Next(s, e);
    forall stop | stop in t.stops ensures FinishedRightly(t, t.stops[stop]) {
      if stop in s.stops {
        assert FinishedRightly(s, s.stops[stop]);
      }
    }
  }

  lemma {:induction false} RunKeepsInv(s: State, events: seq<Event>, end: State)
    requires Inv(s) && IsRun(s, events, end)
    ensures Inv(end)
    decreases |events|
  {
    if events != [] {
      StepKeepsInv(s, events[0]);
      RunKeepsInv(Next(s, events[0]), events[1..], end);
    }
  }

  /** Whatever starts, stops and time-outs overlap, no two loops run at once. */
  lemma AtMostOneLoop(events: seq<Event>, end: State, a: nat, b: nat)
    requires IsRun(INITIAL, events, end) && a in end.alive && b in end.alive
    ensures a == b
  {
    RunKeepsInv(INITIAL, events, end);
  }

  /**
   A stop that returned without an error after seeing a loop: that loop has ended and does not come
   back, and no later handle names it.
  */
  lemma {:induction false} StoppedStaysStopped(s: State, events: seq<Event>, end: State, stop: nat)
    requires Inv(s) && IsRun(s, events, end)
    requires stop in s.stops && s.stops[stop].Stopped?
    ensures s.stops[stop].loop !in end.alive && s.stops[stop].loop in end.cancelled
    ensures end.handle != Some(s.stops[stop].loop)
    decreases |events|
  {
    assert FinishedRightly(s, s.stops[stop]);
    if events != [] {
      StepKeepsInv(s, events[0]);
      StoppedStaysStopped(Next(s, events[0]), events[1..], end, stop);
    }
  }

  /** The handle is taken away only by a stop that observed the very same loop, and only when that loop has ended; it is
      set only when there is none. */
  lemma HandleChanges(s: State, e: Event)
    requires Inv(s) && Enabled(s, e) && Next(s, e).handle != s.handle
    ensures s.handle.None? ==> e == Start && Next(s, e).handle == Some(s.next)
    ensures s.handle.Some? ==>
      e.StopFinishes? && s.stops[e.stop] == Waiting(s.handle.value) && s.handle.value !in s.alive
        && Next(s, e).handle == None
  {
  }

  /** A stop of an older loop that finishes late leaves a newer loop and its handle alone. */
  lemma StaleStopIsHarmless(s: State, stop: nat)
    requires Inv(s) && Enabled(s, StopFinishes(stop)) && s.handle.Some? && s.stops[stop].loop != s.handle.value
    ensures var t := Next(s, StopFinishes(stop));
      t.handle == s.handle && t.alive == s.alive && t.cancelled == s.cancelled
  {
  }

  // ---- When a start has no effect ----

  /** A loop runs and nobody has asked it to end. */
  predicate Monitoring(s: State) {
    s.handle.Some? && s.handle.value in s.alive && s.handle.value !in s.cancelled
  }

  /**
   A start leaves a loop running exactly when there was no handle, or the handle's loop was already
   running unasked.
  */
  lemma StartRunsIff(s: State)
    requires Inv(s)
    ensures Monitoring(Next(s, Start)) <==> s.handle.None? || s.handle.value !in s.cancelled
    ensures s.handle.Some? ==> Next(s, Start) == s
  {
  }

  predicate Finishes(s: State, e: Event, loop: nat) {
    e.StopFinishes? && e.stop in s.stops && s.stops[e.stop] == Waiting(loop)
  }

  predicate NoneFinishes(s: State, events: seq<Event>, loop: nat)
    decreases |events|
  {
    events == []
    || (!Finishes(s, events[0], loop)
        && (Enabled(s, events[0]) ==> NoneFinishes(Next(s, events[0]), events[1..], loop)))
  }

  /** A stop that gives up leaves a cancelled loop in the handle. From then on no start brings monitoring back, however
      many there are, until some stop waits for that loop to its end. */
  lemma {:induction false} CancelledHandleBlocksStarts(s: State, events: seq<Event>, end: State)
    requires Inv(s) && IsRun(s, events, end)
    requires s.handle.Some? && s.handle.value in s.cancelled && NoneFinishes(s, events, s.handle.value)
    ensures end.handle == s.handle && !Monitoring(end) && end.next == s.next
    decreases |events|
  {
    if events != [] {
      StepKeepsInv(s, events[0]);
      CancelledHandleBlocksStarts(Next(s, events[0]), events[1..], end);
    }
  }

  /** The first stop has given up, and the loop it cancelled still has the handle. */
  predicate IsGivenUp(s: State) {
    s.stops == map[0 := GaveUp(0)] && s.handle == Some(0) && 0 in s.cancelled && 0 in s.alive
  }

  /** Such a state is reached: a start, and a stop that gives up. */
  lemma GivenUpStopBlocks()
    ensures exists end ::
      IsRun(INITIAL, [Start, StopObserves(0), StopCancels(0), StopTimesOut(0)], end) && IsGivenUp(end)
  {
    var s1 := Next(INITIAL, Start);
    var s2 := Next(s1, StopObserves(0));
    var s3 := Next(s2, StopCancels(0));
    var s4 := Next(s3, StopTimesOut(0));
    assert [StopCancels(0), StopTimesOut(0)][1..] == [StopTimesOut(0)];
    assert [StopObserves(0), StopCancels(0), StopTimesOut(0)][1..] == [StopCancels(0), StopTimesOut(0)];
    assert [Start, StopObserves(0), StopCancels(0), StopTimesOut(0)][1..]
        == [StopObserves(0), StopCancels(0), StopTimesOut(0)];
    assert IsRun(s4, [], s4);
    assert IsRun(s3, [StopTimesOut(0)], s4);
    assert IsRun(s2, [StopCancels(0), StopTimesOut(0)], s4);
    assert IsRun(s1, [StopObserves(0), StopCancels(0), StopTimesOut(0)], s4);
    assert s4.stops == map[0 := GaveUp(0)] && IsGivenUp(s4);
  }

  /** A stop that is let finish ends the loop: it cancels it, the loop exits, and the handle is cleared. */
  lemma StopEndsLoop(s: State, stop: nat)
    requires Inv(s) && s.handle.Some? && s.handle.value in s.alive && stop !in s.stops
    ensures var loop := s.handle.value;
      exists end :: IsRun(s, [StopObserves(stop), StopCancels(stop), LoopExits(loop), StopFinishes(stop)], end)
        && end.handle == None && end.alive == {} && end.stops == s.stops[stop := Stopped(loop)]
  {
    var loop := s.handle.value;
    var s1 := Next(s, StopObserves(stop));
    var s2 := Next(s1, StopCancels(stop));
    var s3 := Next(s2, LoopExits(loop));
    var s4 := Next(s3, StopFinishes(stop));
    assert s2.stops == s.stops[stop := Waiting(loop)] && s2.handle == s.handle && s2.alive == s.alive;
    assert s4.stops == s.stops[stop := Stopped(loop)] && s4.alive == {};
    assert IsRun(s4, [], s4);
    assert [LoopExits(loop), StopFinishes(stop)][1..] == [StopFinishes(stop)];
    assert [StopCancels(stop), LoopExits(loop), StopFinishes(stop)][1..] == [LoopExits(loop), StopFinishes(stop)];
    assert [StopObserves(stop), StopCancels(stop), LoopExits(loop), StopFinishes(stop)][1..]
        == [StopCancels(stop), LoopExits(loop), StopFinishes(stop)];
    assert IsRun(s3, [StopFinishes(stop)], s4);
    assert IsRun(s2, [LoopExits(loop), StopFinishes(stop)], s4);
    assert IsRun(s1, [StopCancels(stop), LoopExits(loop), StopFinishes(stop)], s4);
  }

  /** One more stop that is let finish, and then a start, do. */
  lemma StopThenStartRevives(s: State, stop: nat)
    requires Inv(s) && s.handle.Some? && s.handle.value in s.cancelled && s.handle.value !in s.alive && stop !in s.stops
    ensures exists end ::
      IsRun(s, [StopObserves(stop), StopCancels(stop), StopFinishes(stop), Start], end) && Monitoring(end)
  {
    var s1 := Next(s, StopObserves(stop));
    var s2 := Next(s1, StopCancels(stop));
    var s3 := Next(s2, StopFinishes(stop));
    var s4 := Next(s3, Start);
    assert s2.stops[stop] == Waiting(s.handle.value) && s2.handle == s.handle;
    assert s3.handle == None && s3.cancelled == s.cancelled && s3.next == s.next;
    assert Monitoring(s4);
    assert IsRun(s4, [], s4);
    assert [StopFinishes(stop), Start][1..] == [Start];
    assert [StopCancels(stop), StopFinishes(stop), Start][1..] == [StopFinishes(stop), Start];
    assert [StopObserves(stop), StopCancels(stop), StopFinishes(stop), Start][1..]
        == [StopCancels(stop), StopFinishes(stop), Start];
    assert IsRun(s3, [Start], s4);
    assert IsRun(s2, [StopFinishes(stop), Start], s4);
    assert IsRun(s1, [StopCancels(stop), StopFinishes(stop), Start], s4);
  }
}
