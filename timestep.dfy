/**
 * The fixed-timestep main loop of `main`: each frame reads the clock, clamps
 * the elapsed time to a quarter second, adds it to an accumulator, runs
 * fixed 0.01-second updates while the accumulator holds a whole step,
 * computes the interpolation factor `alpha` and renders once.
 *
 * Time is an exact `real`, not an IEEE double. The clock is the sequence of
 * values `glfwGetTime` returns, one per frame after the first; the window's
 * close flag becomes the end of that sequence. `update` and `render` are
 * recorded as events.
 */
module Timestep {
  const DeltaTime: real := 0.01
  const MaxFrameTime: real := 0.25

  /** What the loop hands to the game each frame. */
  datatype Event = Update(time: real, deltaTime: real) | Render(alpha: real)

  /** The loop's variables between frames. */
  datatype LoopState = LoopState(time: real, currentTime: real, accumulator: real)

  /** The result of running frames: the final variables and the events, in order. */
  datatype Outcome = Outcome(state: LoopState, events: seq<Event>)

  /** The variables before the first frame, with `glfwGetTime()` read as startTime. */
  function Initial(startTime: real): (s: LoopState) {
    LoopState(0.0, startTime, 0.0)
  }

  /** The clamp: the elapsed time, or 0.25 when it is longer. */
  function ClampFrameTime(frameTime: real): (r: real)
    ensures r <= MaxFrameTime && r <= frameTime
    ensures r == frameTime || r == MaxFrameTime
  {
    if frameTime > MaxFrameTime then MaxFrameTime else frameTime
  }

  /** How many whole steps the drain loop takes out of an accumulator. */
  function Ticks(accumulator: real): (n: nat)
  {
    if accumulator < DeltaTime then 0 else (accumulator / DeltaTime).Floor
  }

  /** The updates for n ticks starting at time t. */
  function Updates(t: real, n: nat): (ev: seq<Event>)
  {
    if n == 0 then [] else Updates(t, n - 1) + [Update(t + (n - 1) as real * DeltaTime, DeltaTime)]
  }

  /** One outer iteration with the clock reading newTime. */
  function FrameStep(s: LoopState, newTime: real): (o: Outcome)
    ensures o.state.currentTime == newTime
  {
    var accumulator := s.accumulator + ClampFrameTime(newTime - s.currentTime);
    var n := Ticks(accumulator);
    var rest := accumulator - n as real * DeltaTime;
    Outcome(LoopState(s.time + n as real * DeltaTime, newTime, rest),
            Updates(s.time, n) + [Render(rest / DeltaTime)])
  }

  /** The frames for the clock readings, in order. */
  function RunLoop(s: LoopState, readings: seq<real>): (o: Outcome)
    ensures readings != [] ==> o.state.currentTime == readings[|readings| - 1]
    decreases |readings|
  {
    if readings == [] then Outcome(s, [])
    else
      var before := RunLoop(s, readings[..|readings| - 1]);
      var last := FrameStep(before.state, readings[|readings| - 1]);
      Outcome(last.state, before.events + last.events)
  }

  /** The drain loop stops at `Ticks`: the count that leaves less than one step and never goes below zero. */
  lemma TicksExact(accumulator: real, k: nat)
    requires accumulator - k as real * DeltaTime < DeltaTime
    requires k == 0 || accumulator - k as real * DeltaTime >= 0.0
    ensures Ticks(accumulator) == k
  {
    if k > 0 {
      assert k as real <= accumulator / DeltaTime < k as real + 1.0;
    }
  }

  /** A frame whose drain loop stopped after k steps with the given time and accumulator is `FrameStep`. */
  lemma FrameStepIs(s: LoopState, newTime: real, k: nat, time: real, accumulator: real)
    requires accumulator == s.accumulator + ClampFrameTime(newTime - s.currentTime) - k as real * DeltaTime
    requires time == s.time + k as real * DeltaTime
    requires accumulator < DeltaTime && (k == 0 || accumulator >= 0.0)
    ensures FrameStep(s, newTime)
         == Outcome(LoopState(time, newTime, accumulator), Updates(s.time, k) + [Render(accumulator / DeltaTime)])
  {
    TicksExact(s.accumulator + ClampFrameTime(newTime - s.currentTime), k);
  }

  /**
   * The loop of `main` from its first clock reading startTime, over the
   * later readings.
   */
  method MainLoop(startTime: real, readings: seq<real>) returns (final: LoopState, events: seq<Event>)
    ensures Outcome(final, events) == RunLoop(Initial(startTime), readings)
  {
    var time := 0.0;
    var deltaTime := 0.01;
    var currentTime := startTime;
    var accumulator := 0.0;
    events := [];

    for i := 0 to |readings|
      invariant Outcome(LoopState(time, currentTime, accumulator), events) == RunLoop(Initial(startTime), readings[..i])
    {
      assert readings[..i + 1][..i] == readings[..i];
      ghost var before := LoopState(time, currentTime, accumulator);
      var newTime := readings[i];
      var frameTime := newTime - currentTime;
      currentTime := newTime;
      if frameTime > 0.25 {
        frameTime := 0.25;
      }
      accumulator := accumulator + frameTime;

      ghost var total, time0, events0 := accumulator, time, events;
      ghost var k: nat := 0;
      while accumulator >= deltaTime
        invariant accumulator == total - k as real * DeltaTime
        invariant time == time0 + k as real * DeltaTime
        invariant events == events0 + Updates(time0, k)
        invariant k == 0 || accumulator >= 0.0
        invariant k <= Ticks(total)
        decreases Ticks(total) - k
      {
        assert (k + 1) as real <= total / DeltaTime;
        events := events + [Update(time, deltaTime)];
        time := time + deltaTime;
        accumulator := accumulator - deltaTime;
        k := k + 1;
      }
      var alpha := accumulator / deltaTime;
      events := events + [Render(alpha)];
      FrameStepIs(before, newTime, k, time, accumulator);
    }
    assert readings[..|readings|] == readings;
    final := LoopState(time, currentTime, accumulator);
  }

  // ---------------------------------------------------------------------------
  // Reading the events
  // ---------------------------------------------------------------------------

  /** The `alpha` of every render, in order. */
  function Alphas(events: seq<Event>): (alphas: seq<real>)
    decreases |events|
  {
    if events == [] then []
    else Alphas(events[..|events| - 1]) + (match events[|events| - 1] case Render(a) => [a] case _ => [])
  }

  /** The time passed to every update, in order. */
  function UpdateTimes(events: seq<Event>): (times: seq<real>)
    decreases |events|
  {
    if events == [] then []
    else UpdateTimes(events[..|events| - 1]) + (match events[|events| - 1] case Update(t, _) => [t] case _ => [])
  }

  lemma {:induction false} AlphasConcat(a: seq<Event>, b: seq<Event>)
    ensures Alphas(a + b) == Alphas(a) + Alphas(b)
    decreases |b|
  {
    if b == [] {
      assert a + b == a;
    } else {
      AlphasConcat(a, b[..|b| - 1]);
      assert (a + b)[..|a + b| - 1] == a + b[..|b| - 1];
    }
  }

  lemma {:induction false} UpdateTimesConcat(a: seq<Event>, b: seq<Event>)
    ensures UpdateTimes(a + b) == UpdateTimes(a) + UpdateTimes(b)
    decreases |b|
  {
    if b == [] {
      assert a + b == a;
    } else {
      UpdateTimesConcat(a, b[..|b| - 1]);
      assert (a + b)[..|a + b| - 1] == a + b[..|b| - 1];
    }
  }

  /** n updates, at t, t + dt, t + 2 dt, ..., and no render. */
  lemma {:induction false} UpdatesShape(t: real, n: nat)
    ensures Alphas(Updates(t, n)) == []
    ensures |UpdateTimes(Updates(t, n))| == n
    ensures forall k :: 0 <= k < n ==> UpdateTimes(Updates(t, n))[k] == t + k as real * DeltaTime
  {
    if n > 0 {
      UpdatesShape(t, n - 1);
      var u := Update(t + (n - 1) as real * DeltaTime, DeltaTime);
      AlphasConcat(Updates(t, n - 1), [u]);
      UpdateTimesConcat(Updates(t, n - 1), [u]);
      assert [u][..0] == [];
    }
  }

  /** n updates from t, then one render: the shape of every frame's events. */
  lemma UpdatesThenRender(t: real, n: nat, alpha: real)
    ensures var ev := Updates(t, n) + [Render(alpha)];
      && |ev| == n + 1 && ev[n] == Render(alpha) && (forall k :: 0 <= k < n ==> ev[k].Update?)
      && Alphas(ev) == [alpha]
      && |UpdateTimes(ev)| == n
      && (forall k :: 0 <= k < n ==> UpdateTimes(ev)[k] == t + k as real * DeltaTime)
  {
    UpdatesShape(t, n);
    UpdatesAreUpdates(t, n);
    AlphasConcat(Updates(t, n), [Render(alpha)]);
    UpdateTimesConcat(Updates(t, n), [Render(alpha)]);
    assert [Render(alpha)][..0] == [];
  }

  /**
   * One frame: `Ticks` updates at consecutive steps from the old time, then
   * exactly one render, after the updates; time advances by a step per
   * update and the clock reading becomes the current time.
   */
  lemma FrameEvents(s: LoopState, newTime: real)
    ensures var o, n := FrameStep(s, newTime), Ticks(s.accumulator + ClampFrameTime(newTime - s.currentTime));
      && |o.events| == n + 1 && o.events[n].Render? && (forall k :: 0 <= k < n ==> o.events[k].Update?)
      && |Alphas(o.events)| == 1
      && |UpdateTimes(o.events)| == n
      && (forall k :: 0 <= k < n ==> UpdateTimes(o.events)[k] == s.time + k as real * DeltaTime)
      && o.state.time == s.time + n as real * DeltaTime
      && o.state.currentTime == newTime
  {
    var n := Ticks(s.accumulator + ClampFrameTime(newTime - s.currentTime));
    var o := FrameStep(s, newTime);
    UpdatesThenRender(s.time, n, o.state.accumulator / DeltaTime);
  }

  lemma {:induction false} UpdatesAreUpdates(t: real, n: nat)
    ensures |Updates(t, n)| == n && forall k :: 0 <= k < n ==> Updates(t, n)[k].Update?
  {
    if n > 0 {
      UpdatesAreUpdates(t, n - 1);
    }
  }

  /** `render` runs exactly once per frame, whatever the number of updates. */
  lemma {:induction false} RendersOncePerFrame(s: LoopState, readings: seq<real>)
    ensures |Alphas(RunLoop(s, readings).events)| == |readings|
    ensures readings != [] ==> RunLoop(s, readings).events[|RunLoop(s, readings).events| - 1].Render?
    decreases |readings|
  {
    if readings != [] {
      var before := RunLoop(s, readings[..|readings| - 1]);
      RendersOncePerFrame(s, readings[..|readings| - 1]);
      FrameEvents(before.state, readings[|readings| - 1]);
      AlphasConcat(before.events, FrameStep(before.state, readings[|readings| - 1]).events);
    }
  }

  /**
   * Every update advances time by exactly one step: the k-th update of the
   * whole run sees time `s.time + k * 0.01`, and the final time is the
   * number of updates times the step.
   */
  lemma {:induction false} TimeCountsTicks(s: LoopState, readings: seq<real>)
    ensures var o := RunLoop(s, readings);
      var times := UpdateTimes(o.events);
      && o.state.time == s.time + |times| as real * DeltaTime
      && forall k :: 0 <= k < |times| ==> times[k] == s.time + k as real * DeltaTime
    decreases |readings|
  {
    if readings != [] {
      var before := RunLoop(s, readings[..|readings| - 1]);
      var last := FrameStep(before.state, readings[|readings| - 1]);
      TimeCountsTicks(s, readings[..|readings| - 1]);
      FrameEvents(before.state, readings[|readings| - 1]);
      UpdateTimesConcat(before.events, last.events);
      var t1, t2 := UpdateTimes(before.events), UpdateTimes(last.events);
      forall k | 0 <= k < |t1 + t2|
        ensures (t1 + t2)[k] == s.time + k as real * DeltaTime
      {
        if k >= |t1| {
          assert (t1 + t2)[k] == t2[k - |t1|];
          assert (k - |t1|) as real * DeltaTime + |t1| as real * DeltaTime == k as real * DeltaTime;
        }
      }
      assert last.state.time == s.time + (|t1| as real + |t2| as real) * DeltaTime;
    }
  }

  /**
   * With an accumulator below one step and a clock that does not go back, a
   * frame runs `floor((accumulator + clamped delta) / 0.01)` updates, at most
   * 25, and leaves `0 <= accumulator < 0.01` and `0 <= alpha < 1`.
   */
  lemma FrameBounds(s: LoopState, newTime: real)
    requires 0.0 <= s.accumulator < DeltaTime && s.currentTime <= newTime
    ensures var o, total := FrameStep(s, newTime), s.accumulator + ClampFrameTime(newTime - s.currentTime);
      && Ticks(total) == (total / DeltaTime).Floor
      && Ticks(total) <= 25
      && 0.0 <= o.state.accumulator < DeltaTime
      && 0.0 <= o.state.accumulator / DeltaTime < 1.0
  {
    var total := s.accumulator + ClampFrameTime(newTime - s.currentTime);
    assert 0.0 <= total < 0.26;
    if total >= DeltaTime {
      assert (total / DeltaTime).Floor as real <= total / DeltaTime;
      assert total / DeltaTime < (total / DeltaTime).Floor as real + 1.0;
    }
  }

  /** A clock that never goes back. */
  ghost predicate Monotone(start: real, readings: seq<real>) {
    (forall i :: 0 <= i < |readings| ==> start <= readings[i]) &&
    (forall i, j :: 0 <= i < j < |readings| ==> readings[i] <= readings[j])
  }

  /** The alphas of one frame satisfying `FrameBounds`: a single one, in `[0, 1)`. */
  lemma FrameAlphas(s: LoopState, newTime: real)
    requires 0.0 <= s.accumulator < DeltaTime && s.currentTime <= newTime
    ensures var a := Alphas(FrameStep(s, newTime).events);
      |a| == 1 && 0.0 <= a[0] < 1.0
  {
    var o := FrameStep(s, newTime);
    FrameBounds(s, newTime);
    UpdatesThenRender(s.time, Ticks(s.accumulator + ClampFrameTime(newTime - s.currentTime)), o.state.accumulator / DeltaTime);
  }

  /** The clock reading the loop last took: the start when there are no readings. */
  function LastReading(startTime: real, readings: seq<real>): (r: real)
    ensures readings == [] ==> r == startTime
    ensures readings != [] ==> r == readings[|readings| - 1]
  {
    if readings == [] then startTime else readings[|readings| - 1]
  }

  /** The clamped elapsed times of all frames, added up. */
  function ClampedTotal(startTime: real, readings: seq<real>): (total: real)
    decreases |readings|
  {
    if readings == [] then 0.0
    else
      var front := readings[..|readings| - 1];
      ClampedTotal(startTime, front) + ClampFrameTime(readings[|readings| - 1] - LastReading(startTime, front))
  }

  /** One frame moves exactly the clamped elapsed time from the clock into `time + accumulator`. */
  lemma FrameConserves(s: LoopState, newTime: real)
    ensures var o := FrameStep(s, newTime);
      o.state.time + o.state.accumulator == s.time + s.accumulator + ClampFrameTime(newTime - s.currentTime)
      && o.state.currentTime == newTime
  {
  }

  /**
   * Nothing of the clamped elapsed time is lost: over a whole run `time +
   * accumulator` grows by exactly the sum of the clamped frame times, and the
   * current time is the last reading.
   */
  lemma {:induction false} RunConserves(s: LoopState, readings: seq<real>)
    ensures var o := RunLoop(s, readings);
      && o.state.time + o.state.accumulator == s.time + s.accumulator + ClampedTotal(s.currentTime, readings)
      && o.state.currentTime == LastReading(s.currentTime, readings)
    decreases |readings|
  {
    if readings != [] {
      var front := readings[..|readings| - 1];
      RunConserves(s, front);
      FrameConserves(RunLoop(s, front).state, readings[|readings| - 1]);
    }
  }

  /**
   * Over a whole run from the initial variables with a clock that never goes
   * back: the accumulator stays in `[0, 0.01)`, every `alpha` lies in
   * `[0, 1)`, and the current time is the last reading.
   */
  lemma {:induction false} RunBounds(startTime: real, readings: seq<real>)
    requires Monotone(startTime, readings)
    ensures var o := RunLoop(Initial(startTime), readings);
      && 0.0 <= o.state.accumulator < DeltaTime
      && o.state.currentTime == (if readings == [] then startTime else readings[|readings| - 1])
      && InUnitRange(Alphas(o.events))
    decreases |readings|
  {
    if readings != [] {
      var front, r := readings[..|readings| - 1], readings[|readings| - 1];
      MonotoneFront(startTime, readings);
      RunBounds(startTime, front);
      var before := RunLoop(Initial(startTime), front);
      assert before.state.currentTime == LastReading(startTime, front) <= r;
      FrameKeepsBounds(before.state, r);
      var last := FrameStep(before.state, r);
      AlphasConcat(before.events, last.events);
      InUnitRangeConcat(Alphas(before.events), Alphas(last.events));
      assert RunLoop(Initial(startTime), readings) == Outcome(last.state, before.events + last.events);
    }
  }

  /** One frame from an accumulator below one step keeps it there, and its alphas lie in `[0, 1)`. */
  lemma FrameKeepsBounds(s: LoopState, newTime: real)
    requires 0.0 <= s.accumulator < DeltaTime && s.currentTime <= newTime
    ensures 0.0 <= FrameStep(s, newTime).state.accumulator < DeltaTime
    ensures InUnitRange(Alphas(FrameStep(s, newTime).events))
  {
    FrameBounds(s, newTime);
    FrameAlphas(s, newTime);
  }

  /** Dropping the last reading keeps the clock monotone, and the last reading is the latest. */
  lemma MonotoneFront(startTime: real, readings: seq<real>)
    requires Monotone(startTime, readings) && readings != []
    ensures var front, r := readings[..|readings| - 1], readings[|readings| - 1];
      Monotone(startTime, front) && LastReading(startTime, front) <= r
  {
    var front := readings[..|readings| - 1];
    assert forall i :: 0 <= i < |front| ==> front[i] == readings[i];
  }

  /** Every value lies in `[0, 1)`. */
  ghost predicate InUnitRange(xs: seq<real>) {
    forall k :: 0 <= k < |xs| ==> 0.0 <= xs[k] < 1.0
  }

  /** Two sequences of values in `[0, 1)` joined stay in `[0, 1)`. */
  lemma InUnitRangeConcat(a: seq<real>, b: seq<real>)
    requires InUnitRange(a) && InUnitRange(b)
    ensures InUnitRange(a + b)
  {
    forall k | 0 <= k < |a + b|
      ensures 0.0 <= (a + b)[k] < 1.0
    {
      if k >= |a| {
        assert (a + b)[k] == b[k - |a|];
      }
    }
  }

  /**
   * The number of updates of a whole run with a clock that never goes back
   * is `floor(sum of clamped frame times / 0.01)`.
   */
  lemma RunTicks(startTime: real, readings: seq<real>)
    requires Monotone(startTime, readings)
    ensures var o := RunLoop(Initial(startTime), readings);
      |UpdateTimes(o.events)| == (ClampedTotal(startTime, readings) / DeltaTime).Floor
  {
    var o := RunLoop(Initial(startTime), readings);
    var n := |UpdateTimes(o.events)|;
    var total := ClampedTotal(startTime, readings);
    RunConserves(Initial(startTime), readings);
    TimeCountsTicks(Initial(startTime), readings);
    RunBounds(startTime, readings);
    assert total == n as real * DeltaTime + o.state.accumulator;
    assert n as real <= total / DeltaTime < n as real + 1.0;
  }

  /** When the clock goes back, the clamp does not catch it, and `alpha` goes negative. */
  lemma ClockGoingBackGivesNegativeAlpha()
    ensures var o := RunLoop(Initial(1.0), [0.5]);
      o.state.accumulator == -0.5 && Alphas(o.events) == [-50.0]
  {
    var o := RunLoop(Initial(1.0), [0.5]);
    assert [0.5][..0] == [];
    assert o.events == [Render(-50.0)];
    assert [Render(-50.0)][..0] == [];
  }
}
