/** Properties of one classifier frame, stated against an independent,
    declarative description of which checks trigger. */
module DetectorProps {
  import opened Wrappers
  import opened History
  import opened Detector

  /** Whether the check for `sig` triggers on this frame, described directly
      from the state before the frame rather than by running the checks. */
  predicate Fires(dist: Metric, s: State, obs: Observation, now: real, sig: Signal) {
    match obs.pose
    case None => false
    case Some(p) =>
      match sig
      case Hand => Moving(dist, Push(s.hand, p.rightWrist.At()), HandThreshold)
      case Hip => Moving(dist, Push(s.hip, Midpoint(p.leftHip.At(), p.rightHip.At())), HipThreshold)
      case Leg =>
        AnklesVisible(p) &&
        Moving(dist, Push(s.leg, Midpoint(p.leftAnkle.At(), p.rightAnkle.At())), LegThreshold)
      case Head =>
        obs.nose.Some? &&
        Still(dist, Push(s.head, obs.nose.value), StillThreshold) &&
        s.stillStart.Some? && now - s.stillStart.value > StillSeconds
  }

  function IfFires(dist: Metric, s: State, obs: Observation, now: real, sig: Signal): seq<Signal> {
    if Fires(dist, s, obs, now, sig) then [sig] else []
  }

  /** The triggering signals of a frame in evaluation order. */
  function Fired(dist: Metric, s: State, obs: Observation, now: real): seq<Signal> {
    IfFires(dist, s, obs, now, Hand) + IfFires(dist, s, obs, now, Hip) +
    IfFires(dist, s, obs, now, Leg) + IfFires(dist, s, obs, now, Head)
  }

  function Codes(sigs: seq<Signal>): (r: seq<string>)
    ensures |r| == |sigs|
  {
    seq(|sigs|, i requires 0 <= i < |sigs| => sigs[i].Code())
  }

  /** The message of the last signal, if any: the single alert slot after
      every triggering check has overwritten it in turn. */
  function LastMessage(sigs: seq<Signal>): Option<string> {
    if sigs == [] then None else Some(sigs[|sigs| - 1].Message())
  }

  /** How a check stage extends the frame so far when the signals it adds
      are `f`: their codes are appended, and the alert slot ends with the
      message of the last of them. */
  predicate Extends(v: Outcome, r: Outcome, f: seq<Signal>) {
    r.sent == v.sent + Codes(f) && r.alert == (if f == [] then v.alert else LastMessage(f))
  }

  lemma CodesAppend(a: seq<Signal>, b: seq<Signal>)
    ensures Codes(a + b) == Codes(a) + Codes(b)
  {
  }

  /** Two stages compose: their added signals concatenate. */
  lemma ExtendsTrans(u: Outcome, v: Outcome, w: Outcome, f: seq<Signal>, g: seq<Signal>)
    requires Extends(u, v, f) && Extends(v, w, g)
    ensures Extends(u, w, f + g)
  {
    CodesAppend(f, g);
    assert u.sent + Codes(f) + Codes(g) == u.sent + (Codes(f) + Codes(g));
    if g != [] {
      assert (f + g)[|f + g| - 1] == g[|g| - 1];
    } else {
      assert f + g == f;
    }
  }

  lemma HandStage(dist: Metric, s: State, obs: Observation, now: real, p: Pose, v: Outcome)
    requires obs.pose == Some(p) && v.state.hand == s.hand
    ensures Extends(v, HandCheck(dist, v, p.rightWrist.At()), IfFires(dist, s, obs, now, Hand))
  {
  }

  lemma HipStage(dist: Metric, s: State, obs: Observation, now: real, p: Pose, v: Outcome)
    requires obs.pose == Some(p) && v.state.hip == s.hip
    ensures Extends(v, HipCheck(dist, v, Midpoint(p.leftHip.At(), p.rightHip.At())),
                    IfFires(dist, s, obs, now, Hip))
  {
  }

  lemma LegStage(dist: Metric, s: State, obs: Observation, now: real, p: Pose, v: Outcome)
    requires obs.pose == Some(p) && v.state.leg == s.leg
    ensures Extends(v, LegCheck(dist, v, p), IfFires(dist, s, obs, now, Leg))
  {
  }

  lemma HeadStage(dist: Metric, s: State, obs: Observation, now: real, p: Pose, v: Outcome)
    requires obs.pose == Some(p)
    requires v.state.head == s.head && v.state.stillStart == s.stillStart
    ensures obs.nose.Some? ==>
      Extends(v, HeadCheck(dist, v, obs.nose.value, now), IfFires(dist, s, obs, now, Head))
    ensures obs.nose.None? ==> IfFires(dist, s, obs, now, Head) == []
  {
  }

  /** With pose landmarks, the four checks together extend the empty frame by
      exactly the triggering signals. */
  lemma ChecksTrace(dist: Metric, s: State, obs: Observation, now: real, p: Pose)
    requires obs.pose == Some(p)
    ensures Extends(Outcome(s, None, [], None), Classify(dist, s, obs, now), Fired(dist, s, obs, now))
  {
    var v0 := Outcome(s, None, [], None);
    var v1 := HandCheck(dist, v0, p.rightWrist.At());
    var v2 := HipCheck(dist, v1, Midpoint(p.leftHip.At(), p.rightHip.At()));
    var v3 := LegCheck(dist, v2, p);
    var f1 := IfFires(dist, s, obs, now, Hand);
    var f2 := IfFires(dist, s, obs, now, Hip);
    var f3 := IfFires(dist, s, obs, now, Leg);
    var f4 := IfFires(dist, s, obs, now, Head);
    HandStage(dist, s, obs, now, p, v0);
    HipStage(dist, s, obs, now, p, v1);
    LegStage(dist, s, obs, now, p, v2);
    HeadStage(dist, s, obs, now, p, v3);
    ExtendsTrans(v0, v1, v2, f1, f2);
    ExtendsTrans(v0, v2, v3, f1 + f2, f3);
    if obs.nose.Some? {
      ExtendsTrans(v0, v3, HeadCheck(dist, v3, obs.nose.value, now), f1 + f2 + f3, f4);
    } else {
      assert f1 + f2 + f3 + f4 == f1 + f2 + f3;
    }
  }

  /** The frame sends one code per triggering check, in hand, hip, leg, head
      order, and its alert is the message of the last triggering check. */
  lemma FrameTrace(dist: Metric, s: State, obs: Observation, now: real)
    ensures Step(dist, s, obs, now).sent == Codes(Fired(dist, s, obs, now))
    ensures Step(dist, s, obs, now).alert == LastMessage(Fired(dist, s, obs, now))
  {
    if obs.pose.Some? {
      ChecksTrace(dist, s, obs, now, obs.pose.value);
    }
  }

  /** Distinct signals have distinct wire codes. */
  lemma CodeInjective(a: Signal, b: Signal)
    ensures a.Code() == b.Code() ==> a == b
  {
  }

  lemma InCodes(f: seq<Signal>, sig: Signal)
    ensures sig.Code() in Codes(f) <==> sig in f
  {
    if sig.Code() in Codes(f) {
      var i :| 0 <= i < |f| && Codes(f)[i] == sig.Code();
      CodeInjective(f[i], sig);
    }
    if sig in f {
      var i :| 0 <= i < |f| && f[i] == sig;
      assert Codes(f)[i] == sig.Code();
    }
  }

  lemma InFired(dist: Metric, s: State, obs: Observation, now: real, sig: Signal)
    ensures sig in Fired(dist, s, obs, now) <==> Fires(dist, s, obs, now, sig)
  {
  }

  /** A code is sent exactly when its check triggers. */
  lemma SentIffFires(dist: Metric, s: State, obs: Observation, now: real, sig: Signal)
    ensures sig.Code() in Step(dist, s, obs, now).sent <==> Fires(dist, s, obs, now, sig)
  {
    FrameTrace(dist, s, obs, now);
    InCodes(Fired(dist, s, obs, now), sig);
    InFired(dist, s, obs, now, sig);
  }

  /** Distinct signals have distinct alert messages. */
  lemma MessageInjective(a: Signal, b: Signal)
    ensures a.Message() == b.Message() ==> a == b
  {
  }

  /** The frame's alert belongs to a check that triggered. */
  lemma AlertNamesFired(dist: Metric, s: State, obs: Observation, now: real, sig: Signal)
    ensures Step(dist, s, obs, now).alert == Some(sig.Message()) ==> Fires(dist, s, obs, now, sig)
  {
    FrameTrace(dist, s, obs, now);
    var f := Fired(dist, s, obs, now);
    if Step(dist, s, obs, now).alert == Some(sig.Message()) {
      MessageInjective(f[|f| - 1], sig);
      assert sig in f;
      InFired(dist, s, obs, now, sig);
    }
  }

  /** Neither the code nor the alert of `sig` came out of a frame. */
  predicate NoVerdict(r: Outcome, sig: Signal) {
    sig.Code() !in r.sent && r.alert != Some(sig.Message())
  }

  /** A check that does not trigger leaves no trace in the frame. */
  lemma NoVerdictUnlessFires(dist: Metric, s: State, obs: Observation, now: real, sig: Signal)
    ensures !Fires(dist, s, obs, now, sig) ==> NoVerdict(Step(dist, s, obs, now), sig)
  {
    SentIffFires(dist, s, obs, now, sig);
    AlertNamesFired(dist, s, obs, now, sig);
  }

  /** A check can trigger only once its history holds more than five
      samples after the append. */
  lemma FiresNeedsReading(dist: Metric, s: State, obs: Observation, now: real, p: Pose)
    requires obs.pose == Some(p)
    ensures |Push(s.hand, p.rightWrist.At())| <= MinReadable ==> !Fires(dist, s, obs, now, Hand)
    ensures |Push(s.hip, Midpoint(p.leftHip.At(), p.rightHip.At()))| <= MinReadable ==>
      !Fires(dist, s, obs, now, Hip)
    ensures |Push(s.leg, Midpoint(p.leftAnkle.At(), p.rightAnkle.At()))| <= MinReadable ==>
      !Fires(dist, s, obs, now, Leg)
    ensures obs.nose.Some? && |Push(s.head, obs.nose.value)| <= MinReadable ==>
      !Fires(dist, s, obs, now, Head)
  {
  }

  /** The stillness timer is not touched while the head history is too short
      for a reading. */
  lemma TimerWaitsForReading(dist: Metric, s: State, obs: Observation, now: real, p: Pose, nose: Point)
    requires obs.pose == Some(p) && obs.nose == Some(nose)
    requires |Push(s.head, nose)| <= MinReadable
    ensures Step(dist, s, obs, now).state.stillStart == s.stillStart
  {
    var v1 := HandCheck(dist, Outcome(s, None, [], None), p.rightWrist.At());
    var v2 := HipCheck(dist, v1, Midpoint(p.leftHip.At(), p.rightHip.At()));
    var v3 := LegCheck(dist, v2, p);
    assert v3.state.head == s.head && v3.state.stillStart == s.stillStart;
    var c := HeadCheck(dist, v3, nose, now);
    assert c.state.stillStart == s.stillStart;
    assert Classify(dist, s, obs, now) == c;
  }

  /** No check reaches a verdict (sends, alerts or moves the head timer)
      unless its history holds more than five samples after the append. */
  lemma NoVerdictWithoutReading(dist: Metric, s: State, obs: Observation, now: real, p: Pose)
    requires obs.pose == Some(p)
    ensures |Push(s.hand, p.rightWrist.At())| <= MinReadable ==>
      NoVerdict(Step(dist, s, obs, now), Hand)
    ensures |Push(s.hip, Midpoint(p.leftHip.At(), p.rightHip.At()))| <= MinReadable ==>
      NoVerdict(Step(dist, s, obs, now), Hip)
    ensures |Push(s.leg, Midpoint(p.leftAnkle.At(), p.rightAnkle.At()))| <= MinReadable ==>
      NoVerdict(Step(dist, s, obs, now), Leg)
    ensures obs.nose.Some? && |Push(s.head, obs.nose.value)| <= MinReadable ==>
      NoVerdict(Step(dist, s, obs, now), Head) &&
      Step(dist, s, obs, now).state.stillStart == s.stillStart
  {
    FiresNeedsReading(dist, s, obs, now, p);
    NoVerdictUnlessFires(dist, s, obs, now, Hand);
    NoVerdictUnlessFires(dist, s, obs, now, Hip);
    NoVerdictUnlessFires(dist, s, obs, now, Leg);
    NoVerdictUnlessFires(dist, s, obs, now, Head);
    if obs.nose.Some? && |Push(s.head, obs.nose.value)| <= MinReadable {
      TimerWaitsForReading(dist, s, obs, now, p, obs.nose.value);
    }
  }

  /** A check whose history, after the append, has no step beyond its
      threshold sends nothing and does not own the frame alert; nor does the
      head check when no step of the head history falls below the stillness
      threshold. */
  lemma CalmSignalsSendNothing(dist: Metric, s: State, obs: Observation, now: real, p: Pose)
    requires obs.pose == Some(p)
    ensures StepsAtMost(dist, Push(s.hand, p.rightWrist.At()), HandThreshold) ==>
      NoVerdict(Step(dist, s, obs, now), Hand)
    ensures StepsAtMost(dist, Push(s.hip, Midpoint(p.leftHip.At(), p.rightHip.At())), HipThreshold) ==>
      NoVerdict(Step(dist, s, obs, now), Hip)
    ensures StepsAtMost(dist, Push(s.leg, Midpoint(p.leftAnkle.At(), p.rightAnkle.At())), LegThreshold) ==>
      NoVerdict(Step(dist, s, obs, now), Leg)
    ensures obs.nose.Some? && StepsAtLeast(dist, Push(s.head, obs.nose.value), StillThreshold) ==>
      NoVerdict(Step(dist, s, obs, now), Head)
  {
    CalmDoesNotFire(dist, s, obs, now, p);
    NoVerdictUnlessFires(dist, s, obs, now, Hand);
    NoVerdictUnlessFires(dist, s, obs, now, Hip);
    NoVerdictUnlessFires(dist, s, obs, now, Leg);
    NoVerdictUnlessFires(dist, s, obs, now, Head);
  }

  lemma CalmDoesNotFire(dist: Metric, s: State, obs: Observation, now: real, p: Pose)
    requires obs.pose == Some(p)
    ensures StepsAtMost(dist, Push(s.hand, p.rightWrist.At()), HandThreshold) ==>
      !Fires(dist, s, obs, now, Hand)
    ensures StepsAtMost(dist, Push(s.hip, Midpoint(p.leftHip.At(), p.rightHip.At())), HipThreshold) ==>
      !Fires(dist, s, obs, now, Hip)
    ensures StepsAtMost(dist, Push(s.leg, Midpoint(p.leftAnkle.At(), p.rightAnkle.At())), LegThreshold) ==>
      !Fires(dist, s, obs, now, Leg)
    ensures obs.nose.Some? && StepsAtLeast(dist, Push(s.head, obs.nose.value), StillThreshold) ==>
      !Fires(dist, s, obs, now, Head)
  {
    var hand := Push(s.hand, p.rightWrist.At());
    var hip := Push(s.hip, Midpoint(p.leftHip.At(), p.rightHip.At()));
    var leg := Push(s.leg, Midpoint(p.leftAnkle.At(), p.rightAnkle.At()));
    if StepsAtMost(dist, hand, HandThreshold) {
      CalmNotMoving(dist, hand, HandThreshold);
    }
    if StepsAtMost(dist, hip, HipThreshold) {
      CalmNotMoving(dist, hip, HipThreshold);
    }
    if StepsAtMost(dist, leg, LegThreshold) {
      CalmNotMoving(dist, leg, LegThreshold);
    }
    if obs.nose.Some? && StepsAtLeast(dist, Push(s.head, obs.nose.value), StillThreshold) {
      SteadyNotStill(dist, Push(s.head, obs.nose.value), StillThreshold);
    }
  }

  /** The samples each history receives: the right wrist, the hip midpoint,
      the ankle midpoint only while both ankles are visible enough (the leg
      history is emptied otherwise), and the nose tip when a face was found. */
  lemma HistoriesAfterStep(dist: Metric, s: State, obs: Observation, now: real, p: Pose)
    requires obs.pose == Some(p)
    ensures Step(dist, s, obs, now).state.hand == Push(s.hand, p.rightWrist.At())
    ensures Step(dist, s, obs, now).state.hip == Push(s.hip, Midpoint(p.leftHip.At(), p.rightHip.At()))
    ensures AnklesVisible(p) ==>
      Step(dist, s, obs, now).state.leg == Push(s.leg, Midpoint(p.leftAnkle.At(), p.rightAnkle.At()))
    ensures !AnklesVisible(p) ==>
      Step(dist, s, obs, now).state.leg == [] && NoVerdict(Step(dist, s, obs, now), Leg)
    ensures obs.nose.Some? ==> Step(dist, s, obs, now).state.head == Push(s.head, obs.nose.value)
    ensures obs.nose.None? ==>
      Step(dist, s, obs, now).state.head == s.head &&
      Step(dist, s, obs, now).state.stillStart == s.stillStart
  {
    SentIffFires(dist, s, obs, now, Leg);
    AlertNamesFired(dist, s, obs, now, Leg);
  }

  /** The head stillness timer: a still frame starts a stopped timer without
      alerting; a still frame with the timer running alerts exactly when more
      than `StillSeconds` have passed; a moving frame stops the timer. */
  lemma HeadTimer(dist: Metric, s: State, obs: Observation, now: real, nose: Point)
    requires obs.pose.Some? && obs.nose == Some(nose)
    requires |Push(s.head, nose)| > MinReadable
    ensures MeanDelta(dist, Push(s.head, nose)) < StillThreshold && s.stillStart.None? ==>
      Step(dist, s, obs, now).state.stillStart == Some(now) &&
      Head.Code() !in Step(dist, s, obs, now).sent
    ensures MeanDelta(dist, Push(s.head, nose)) < StillThreshold && s.stillStart.Some? ==>
      Step(dist, s, obs, now).state.stillStart == s.stillStart &&
      (Head.Code() in Step(dist, s, obs, now).sent <==> now - s.stillStart.value > StillSeconds)
    ensures MeanDelta(dist, Push(s.head, nose)) >= StillThreshold ==>
      Step(dist, s, obs, now).state.stillStart == None &&
      Head.Code() !in Step(dist, s, obs, now).sent
  {
    SentIffFires(dist, s, obs, now, Head);
    var p := obs.pose.value;
    var v1 := HandCheck(dist, Outcome(s, None, [], None), p.rightWrist.At());
    var v2 := HipCheck(dist, v1, Midpoint(p.leftHip.At(), p.rightHip.At()));
    var v3 := LegCheck(dist, v2, p);
    assert v3.state.head == s.head && v3.state.stillStart == s.stillStart;
    var c := HeadCheck(dist, v3, nose, now);
    assert Classify(dist, s, obs, now) == c;
    assert Step(dist, s, obs, now).state.stillStart == c.state.stillStart;
  }

  /** Without pose landmarks a frame sends nothing, alerts nothing and leaves
      the whole state as it was, whether or not a face was found. */
  lemma NoPoseNoEffect(dist: Metric, s: State, obs: Observation, now: real)
    requires obs.pose.None?
    ensures Step(dist, s, obs, now) == Outcome(s, None, [], None)
  {
  }

  /** Commands bypass the gate: the codes sent and the frame's alert do not
      depend on the gate's memory of the last recorded alert. */
  lemma CommandsBypassGate(dist: Metric, s: State, obs: Observation, now: real,
                           lastAlert: string, lastTime: real)
    ensures Step(dist, s, obs, now).sent ==
            Step(dist, s.(lastAlert := lastAlert, lastTime := lastTime), obs, now).sent
    ensures Step(dist, s, obs, now).alert ==
            Step(dist, s.(lastAlert := lastAlert, lastTime := lastTime), obs, now).alert
  {
    var s' := s.(lastAlert := lastAlert, lastTime := lastTime);
    FrameTrace(dist, s, obs, now);
    FrameTrace(dist, s', obs, now);
    FiredIgnoresGate(dist, s, s', obs, now);
  }

  /** Which checks trigger does not depend on the gate's memory. */
  lemma FiredIgnoresGate(dist: Metric, s: State, s': State, obs: Observation, now: real)
    requires s' == s.(lastAlert := s'.lastAlert, lastTime := s'.lastTime)
    ensures Fired(dist, s, obs, now) == Fired(dist, s', obs, now)
  {
  }

  /** A session starts with empty histories and no timer, and its first alert
      is recorded exactly when it is not the empty message and the clock reads
      more than `Cooldown` seconds. */
  lemma InitialGate(msg: string, now: real)
    ensures Initial.Bounded() && Initial.stillStart.None?
    ensures Initial.hand == Initial.hip == Initial.leg == Initial.head == []
    ensures Admits(Initial, msg, now) <==> msg != "" && now > Cooldown
  {
  }

  /** A repeat of the last recorded message is never recorded, however much
      time has passed. */
  lemma RepeatNeverRecorded(s: State, now: real)
    ensures SendAlert(s, s.lastAlert, now) == s
  {
  }

  /** Within the cool-down nothing is recorded, not even a different message. */
  lemma CooldownSuppressesAll(s: State, msg: string, now: real)
    requires now - s.lastTime <= Cooldown
    ensures SendAlert(s, msg, now) == s
  {
  }

  /** Once a message is recorded, offering it again never records it again. */
  lemma RecordedOnce(s: State, msg: string, now: real, later: real)
    requires Admits(s, msg, now)
    ensures SendAlert(SendAlert(s, msg, now), msg, later) == SendAlert(s, msg, now)
  {
  }
}
