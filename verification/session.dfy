/** A monitoring session: the classifier stepped over a stream of frames,
    collecting the alerts the gate recorded and the command codes sent. */
module Session {
  import opened History
  import opened Detector
  import DetectorProps

  /** One frame of input and the time at which it is classified. */
  datatype Tick = Tick(obs: Observation, now: real)

  /** An alert recorded by the gate, with the time it was recorded. */
  datatype Emission = Emission(msg: string, at: real)

  /** The state after a run, the recorded alerts and every code sent. */
  datatype Trace = Trace(state: State, log: seq<Emission>, sent: seq<string>)

  /** The classifier stepped over `ticks` from `s`: at most one alert is
      recorded and at most four codes are sent per frame, an empty stream
      leaves everything as it was. */
  function Run(dist: Metric, s: State, ticks: seq<Tick>): (r: Trace)
    ensures |r.log| <= |ticks| && |r.sent| <= 4 * |ticks|
    ensures ticks == [] ==> r == Trace(s, [], [])
    decreases |ticks|
  {
    if ticks == [] then Trace(s, [], [])
    else
      var t := Run(dist, s, ticks[..|ticks| - 1]);
      var k := ticks[|ticks| - 1];
      var o := Step(dist, t.state, k.obs, k.now);
      Trace(o.state, t.log + Recorded(o, k.now), t.sent + o.sent)
  }

  /** The log entry a frame's outcome contributes: its recorded alert, if any. */
  function Recorded(o: Outcome, now: real): (e: seq<Emission>)
    ensures |e| <= 1
  {
    if o.emitted.Some? then [Emission(o.emitted.value, now)] else []
  }

  /** The recorded alerts of a session that started from `s`: no two
      consecutive ones carry the same message, and each comes more than
      `Cooldown` seconds after the one before (the first one is measured
      against the gate's memory in `s`). */
  ghost predicate Spaced(s: State, log: seq<Emission>) {
    && (|log| > 0 ==> log[0].msg != s.lastAlert && log[0].at - s.lastTime > Cooldown)
    && forall i :: 0 < i < |log| ==>
         log[i].msg != log[i - 1].msg && log[i].at - log[i - 1].at > Cooldown
  }

  /** The gate's memory is the last recorded alert, or the starting memory
      when nothing has been recorded. */
  ghost predicate Remembers(s: State, t: Trace) {
    if t.log == [] then t.state.lastAlert == s.lastAlert && t.state.lastTime == s.lastTime
    else t.state.lastAlert == t.log[|t.log| - 1].msg && t.state.lastTime == t.log[|t.log| - 1].at
  }

  /** Appending an alert the gate admitted keeps a log spaced. */
  lemma SpacedAppend(s: State, log: seq<Emission>, e: Emission)
    requires Spaced(s, log)
    requires log == [] ==> e.msg != s.lastAlert && e.at - s.lastTime > Cooldown
    requires log != [] ==>
      e.msg != log[|log| - 1].msg && e.at - log[|log| - 1].at > Cooldown
    ensures Spaced(s, log + [e])
  {
    var log' := log + [e];
    forall i | 0 < i < |log'|
      ensures log'[i].msg != log'[i - 1].msg && log'[i].at - log'[i - 1].at > Cooldown
    {
      if i < |log| {
        assert log'[i] == log[i] && log'[i - 1] == log[i - 1];
      }
    }
  }

  /** Over any run, recorded alerts alternate in message and are spaced by
      more than the cool-down: a message is never recorded twice in a row. */
  lemma {:induction false} RunLogSpaced(dist: Metric, s: State, ticks: seq<Tick>)
    ensures Spaced(s, Run(dist, s, ticks).log)
    ensures Remembers(s, Run(dist, s, ticks))
    decreases |ticks|
  {
    if ticks != [] {
      var init := ticks[..|ticks| - 1];
      RunLogSpaced(dist, s, init);
      var t := Run(dist, s, init);
      var k := ticks[|ticks| - 1];
      var o := Step(dist, t.state, k.obs, k.now);
      assert Run(dist, s, ticks) == Trace(o.state, t.log + Recorded(o, k.now), t.sent + o.sent);
      FrameKeepsSpaced(s, t, o, k.now);
    }
  }

  /** One more frame keeps the log spaced and the gate's memory in step with
      it, given what the gate guarantees about a frame's outcome `o`. */
  lemma FrameKeepsSpaced(s: State, t: Trace, o: Outcome, now: real)
    requires Spaced(s, t.log) && Remembers(s, t)
    requires o.emitted.Some? ==>
      Admits(t.state, o.emitted.value, now) &&
      o.state.lastAlert == o.emitted.value && o.state.lastTime == now
    requires o.emitted.None? ==>
      o.state.lastAlert == t.state.lastAlert && o.state.lastTime == t.state.lastTime
    ensures Spaced(s, t.log + Recorded(o, now))
    ensures Remembers(s, Trace(o.state, t.log + Recorded(o, now), t.sent + o.sent))
  {
    if o.emitted.Some? {
      SpacedAppend(s, t.log, Emission(o.emitted.value, now));
    } else {
      assert t.log + Recorded(o, now) == t.log;
    }
  }

  /** Each frame of a run adds to the session's trace exactly the codes of the
      checks that trigger on it, in hand, hip, leg, head order, adds to its log
      exactly the alert the gate records on it, and carries the frame's new
      state into the next frame. */
  lemma RunSendsFired(dist: Metric, s: State, ticks: seq<Tick>, k: Tick)
    ensures Run(dist, s, ticks + [k]).sent ==
      Run(dist, s, ticks).sent +
      DetectorProps.Codes(DetectorProps.Fired(dist, Run(dist, s, ticks).state, k.obs, k.now))
    ensures Run(dist, s, ticks + [k]).log ==
      Run(dist, s, ticks).log + Recorded(Step(dist, Run(dist, s, ticks).state, k.obs, k.now), k.now)
    ensures Run(dist, s, ticks + [k]).state == Step(dist, Run(dist, s, ticks).state, k.obs, k.now).state
  {
    assert (ticks + [k])[..|ticks + [k]| - 1] == ticks;
    DetectorProps.FrameTrace(dist, Run(dist, s, ticks).state, k.obs, k.now);
  }

  /** Histories stay within their capacity over any run. */
  lemma {:induction false} RunBounded(dist: Metric, s: State, ticks: seq<Tick>)
    requires s.Bounded()
    ensures Run(dist, s, ticks).state.Bounded()
    decreases |ticks|
  {
    if ticks != [] {
      RunBounded(dist, s, ticks[..|ticks| - 1]);
    }
  }
}
