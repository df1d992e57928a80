/** The per-frame movement classifier and alert gate of the human detector,
    recast as a pure step function over an explicit session state.

    Each frame, when pose landmarks are present, four checks run in a fixed
    order (hand, hip, leg, head). A triggering check sends its command code at
    once and overwrites the frame's single alert slot; after the checks the
    frame's alert, if any, is offered to the alert gate. */
module Detector {
  import opened Wrappers
  import opened History

  /** The tracked body cues, each with its wire code and its display message. */
  datatype Signal = Hand | Hip | Leg | Head {

    function Code(): string {
      match this
      case Hand => "FIDGETING_HANDS"
      case Hip => "STOP_SWAYING"
      case Leg => "SWINGING_LEGS"
      case Head => "MOVE_HEAD"
    }

    function Message(): string {
      match this
      case Hand => "Stop fidgeting hands"
      case Hip => "Stop swaying"
      case Leg => "Stop swinging legs"
      case Head => "Move your head"
    }
  }

  const HandThreshold: real := 0.01
  const HipThreshold: real := 0.005
  const LegThreshold: real := 0.005
  /** The head counts as still while its reading is below this. */
  const StillThreshold: real := 0.003
  /** Seconds of stillness after which the head alert fires. */
  const StillSeconds: real := 5.0
  /** Both ankles must be more visible than this for the leg check to run. */
  const VisibilityFloor: real := 0.6
  /** Seconds that must pass since the last recorded alert. */
  const Cooldown: real := 5.0

  /** A pose landmark with its visibility confidence. */
  datatype Landmark = Landmark(x: real, y: real, visibility: real) {
    function At(): Point {
      Point(x, y)
    }
  }

  /** The pose landmarks the classifier reads. */
  datatype Pose = Pose(
    rightWrist: Landmark,
    leftHip: Landmark,
    rightHip: Landmark,
    leftAnkle: Landmark,
    rightAnkle: Landmark)

  /** What the perception layer yields for one frame: pose landmarks if a body
      was found, and the nose tip of the first face if a face was found. */
  datatype Observation = Observation(pose: Option<Pose>, nose: Option<Point>)

  /** The session state: the four histories, the head stillness timer and the
      alert gate's memory of the last recorded alert. */
  datatype State = State(
    hand: seq<Point>,
    hip: seq<Point>,
    leg: seq<Point>,
    head: seq<Point>,
    stillStart: Option<real>,
    lastAlert: string,
    lastTime: real)
  {
    predicate Bounded() {
      History.Bounded(hand) && History.Bounded(hip) &&
      History.Bounded(leg) && History.Bounded(head)
    }
  }

  /** The state at the start of a session. */
  const Initial: State := State([], [], [], [], None, "", 0.0)

  /** The result of (part of) one frame: the new state, the frame's alert slot,
      the command codes sent so far, and the message the gate recorded. */
  datatype Outcome = Outcome(
    state: State,
    alert: Option<string>,
    sent: seq<string>,
    emitted: Option<string>)

  /** The alert gate's condition: a different message than the last recorded
      one, and more than `Cooldown` seconds since it was recorded. */
  predicate Admits(s: State, msg: string, now: real) {
    msg != s.lastAlert && now - s.lastTime > Cooldown
  }

  /** The alert gate: records `msg` at `now` when admitted, else changes nothing. */
  function SendAlert(s: State, msg: string, now: real): (r: State)
    ensures Admits(s, msg, now) ==> r.lastAlert == msg && r.lastTime == now
    ensures !Admits(s, msg, now) ==> r == s
    ensures r.(lastAlert := s.lastAlert, lastTime := s.lastTime) == s
  {
    if Admits(s, msg, now) then s.(lastAlert := msg, lastTime := now) else s
  }

  /** A triggering check: sends the signal's code and takes the alert slot. */
  function Raise(v: Outcome, sig: Signal): Outcome {
    v.(alert := Some(sig.Message()), sent := v.sent + [sig.Code()])
  }

  /** The result of a check that either leaves the alert slot and the sent
      codes alone or raises `sig`; it never touches the gate's memory. */
  predicate RaisesAtMost(v: Outcome, r: Outcome, sig: Signal) {
    && ((r.alert == v.alert && r.sent == v.sent)
        || (r.alert == Some(sig.Message()) && r.sent == v.sent + [sig.Code()]))
    && r.emitted == v.emitted
    && r.state.lastAlert == v.state.lastAlert
    && r.state.lastTime == v.state.lastTime
  }

  /** The right-wrist check (fidgeting hands). */
  function HandCheck(dist: Metric, v: Outcome, wrist: Point): (r: Outcome)
    ensures RaisesAtMost(v, r, Hand)
    ensures r.state == v.state.(hand := r.state.hand)
    ensures r.state.hand == Push(v.state.hand, wrist)
  {
    var q := Push(v.state.hand, wrist);
    var v' := v.(state := v.state.(hand := q));
    if Moving(dist, q, HandThreshold) then Raise(v', Hand) else v'
  }

  /** The hip-midpoint check (swaying). */
  function HipCheck(dist: Metric, v: Outcome, hips: Point): (r: Outcome)
    ensures RaisesAtMost(v, r, Hip)
    ensures r.state == v.state.(hip := r.state.hip)
    ensures r.state.hip == Push(v.state.hip, hips)
  {
    var q := Push(v.state.hip, hips);
    var v' := v.(state := v.state.(hip := q));
    if Moving(dist, q, HipThreshold) then Raise(v', Hip) else v'
  }

  predicate AnklesVisible(p: Pose) {
    p.leftAnkle.visibility > VisibilityFloor && p.rightAnkle.visibility > VisibilityFloor
  }

  /** The ankle-midpoint check (swinging legs); low ankle visibility empties
      the leg history instead. */
  function LegCheck(dist: Metric, v: Outcome, p: Pose): (r: Outcome)
    ensures RaisesAtMost(v, r, Leg)
    ensures r.state == v.state.(leg := r.state.leg)
    ensures History.Bounded(r.state.leg)
    ensures AnklesVisible(p) ==>
      r.state.leg == Push(v.state.leg, Midpoint(p.leftAnkle.At(), p.rightAnkle.At()))
    ensures !AnklesVisible(p) ==> r.state.leg == [] && r.sent == v.sent
  {
    if AnklesVisible(p) then
      var q := Push(v.state.leg, Midpoint(p.leftAnkle.At(), p.rightAnkle.At()));
      var v' := v.(state := v.state.(leg := q));
      if Moving(dist, q, LegThreshold) then Raise(v', Leg) else v'
    else
      v.(state := v.state.(leg := []))
  }

  /** The nose-tip check (head held still too long), driven by the stillness
      timer. */
  function HeadCheck(dist: Metric, v: Outcome, nose: Point, now: real): (r: Outcome)
    ensures RaisesAtMost(v, r, Head)
    ensures r.state == v.state.(head := r.state.head, stillStart := r.state.stillStart)
    ensures r.state.head == Push(v.state.head, nose)
  {
    var q := Push(v.state.head, nose);
    var v' := v.(state := v.state.(head := q));
    if |q| <= MinReadable then v'
    else if MeanDelta(dist, q) < StillThreshold then
      match v.state.stillStart
      case None => v'.(state := v'.state.(stillStart := Some(now)))
      case Some(t) => if now - t > StillSeconds then Raise(v', Head) else v'
    else
      v'.(state := v'.state.(stillStart := None))
  }

  /** Offers the frame's alert, if any, to the alert gate. */
  function Gate(v: Outcome, now: real): (r: Outcome)
    ensures r.sent == v.sent && r.alert == v.alert
    ensures r.state.(lastAlert := v.state.lastAlert, lastTime := v.state.lastTime) == v.state
    ensures v.alert.None? ==> r == v
    ensures v.alert.Some? ==>
      r.state == SendAlert(v.state, v.alert.value, now) &&
      r.emitted == (if Admits(v.state, v.alert.value, now) then v.alert else None)
  {
    match v.alert
    case None => v
    case Some(msg) =>
      v.(state := SendAlert(v.state, msg, now),
         emitted := if Admits(v.state, msg, now) then Some(msg) else None)
  }

  /** The four checks of one frame in evaluation order, before the gate. */
  function Classify(dist: Metric, s: State, obs: Observation, now: real): (r: Outcome)
    ensures s.Bounded() ==> r.state.Bounded()
    ensures r.alert.None? <==> r.sent == []
    ensures |r.sent| <= 4
    ensures r.emitted == None
    ensures r.state.lastAlert == s.lastAlert && r.state.lastTime == s.lastTime
  {
    match obs.pose
    case None => Outcome(s, None, [], None)
    case Some(p) =>
      var v1 := HandCheck(dist, Outcome(s, None, [], None), p.rightWrist.At());
      var v2 := HipCheck(dist, v1, Midpoint(p.leftHip.At(), p.rightHip.At()));
      var v3 := LegCheck(dist, v2, p);
      if obs.nose.Some? then HeadCheck(dist, v3, obs.nose.value, now) else v3
  }

  /** One frame of the classifier at time `now`: the checks, then the gate. */
  function Step(dist: Metric, s: State, obs: Observation, now: real): (r: Outcome)
    ensures s.Bounded() ==> r.state.Bounded()
    ensures r.alert.None? <==> r.sent == []
    ensures |r.sent| <= 4
    ensures r.emitted.Some? ==> r.state.lastAlert == r.emitted.value && r.state.lastTime == now
    ensures r.emitted.None? ==> r.state.lastAlert == s.lastAlert && r.state.lastTime == s.lastTime
    ensures r.emitted == (if r.alert.Some? && Admits(s, r.alert.value, now) then r.alert else None)
  {
    Gate(Classify(dist, s, obs, now), now)
  }
}
