/** Bounded movement histories: the `deque(maxlen=10)` buffers of recent 2-D
    samples kept per tracked body signal, and the movement reading computed
    from them (the mean distance between temporally adjacent samples). */
module History {

  /** A landmark position in normalised image coordinates. */
  datatype Point = Point(x: real, y: real)

  /** The distance between two samples. The floating-point Euclidean norm is
      not modelled; every operation is parametric in the distance used. */
  type Metric = (Point, Point) -> real

  /** The `maxlen` of every history. */
  const Capacity: nat := 10

  /** A reading is defined once a history holds more than this many samples. */
  const MinReadable: nat := 5

  predicate Bounded(h: seq<Point>) {
    |h| <= Capacity
  }

  /** The coordinate-wise average of two points. */
  function Midpoint(a: Point, b: Point): (m: Point)
    ensures m.x - a.x == b.x - m.x && m.y - a.y == b.y - m.y
  {
    Point((a.x + b.x) / 2.0, (a.y + b.y) / 2.0)
  }

  /** Appends `p`; when the history already holds `Capacity` samples the
      oldest ones are evicted so that exactly `Capacity` remain. */
  function Push(h: seq<Point>, p: Point): (r: seq<Point>)
    ensures Bounded(r)
    ensures |r| > 0 && r[|r| - 1] == p
    ensures |h| < Capacity ==> r == h + [p]
    ensures |h| == Capacity ==> |r| == Capacity && r[..Capacity - 1] == h[1..]
    ensures |h| >= Capacity ==> r == h[|h| - Capacity + 1..] + [p]
  {
    var full := h + [p];
    if |full| > Capacity then full[|full| - Capacity..] else full
  }

  /** The last `Capacity` samples of `s` (all of them when there are fewer). */
  function Latest(s: seq<Point>): seq<Point> {
    if |s| <= Capacity then s else s[|s| - Capacity..]
  }

  /** Appends the samples of `ps` one at a time, oldest first. */
  function PushAll(h: seq<Point>, ps: seq<Point>): seq<Point>
    decreases |ps|
  {
    if ps == [] then h else Push(PushAll(h, ps[..|ps| - 1]), ps[|ps| - 1])
  }

  /** Pushing onto the latest window of a stream gives the latest window of
      the extended stream. */
  lemma PushOntoLatest(s: seq<Point>, p: Point)
    ensures Push(Latest(s), p) == Latest(s + [p])
  {
    if |s| >= Capacity {
      var w := s[|s| - Capacity..];
      assert Latest(s) == w;
      assert (w + [p])[1..] == s[|s| + 1 - Capacity..] + [p];
      assert (s + [p])[|s| + 1 - Capacity..] == s[|s| + 1 - Capacity..] + [p];
    }
  }

  /** A bounded history fed any stream of samples holds exactly the most
      recent `Capacity` samples of everything it has seen, in order. */
  lemma {:induction false} PushAllKeepsLatest(h: seq<Point>, ps: seq<Point>)
    requires Bounded(h)
    ensures PushAll(h, ps) == Latest(h + ps)
    decreases |ps|
  {
    if ps == [] {
      assert h + ps == h;
    } else {
      var init := ps[..|ps| - 1];
      var p := ps[|ps| - 1];
      PushAllKeepsLatest(h, init);
      assert h + ps == (h + init) + [p];
      PushOntoLatest(h + init, p);
    }
  }

  /** The sum over i in 1..|h|-1 of dist(h[i], h[i-1]). */
  function SumDeltas(dist: Metric, h: seq<Point>): real
    decreases |h|
  {
    if |h| < 2 then 0.0
    else SumDeltas(dist, h[..|h| - 1]) + dist(h[|h| - 1], h[|h| - 2])
  }

  /** The smallest adjacent-sample distance of `h`. */
  function MinStep(dist: Metric, h: seq<Point>): (m: real)
    requires |h| >= 2
    ensures StepsAtLeast(dist, h, m)
    ensures exists i :: 1 <= i < |h| && dist(h[i], h[i - 1]) == m
    decreases |h|
  {
    var d := dist(h[|h| - 1], h[|h| - 2]);
    if |h| == 2 then d
    else
      var init := h[..|h| - 1];
      var m := MinStep(dist, init);
      var r := if d < m then d else m;
      StepsExtend(dist, init, h, r, m);
      r
  }

  /** The largest adjacent-sample distance of `h`. */
  function MaxStep(dist: Metric, h: seq<Point>): (m: real)
    requires |h| >= 2
    ensures StepsAtMost(dist, h, m)
    ensures exists i :: 1 <= i < |h| && dist(h[i], h[i - 1]) == m
    decreases |h|
  {
    var d := dist(h[|h| - 1], h[|h| - 2]);
    if |h| == 2 then d
    else
      var init := h[..|h| - 1];
      var m := MaxStep(dist, init);
      var r := if d > m then d else m;
      StepsExtend(dist, init, h, r, m);
      r
  }

  /** The adjacent-sample distances of `h` are those of its prefix `init`
      followed by the last one; a bound or a witness on the prefix carries
      over. */
  lemma StepsExtend(dist: Metric, init: seq<Point>, h: seq<Point>, r: real, m: real)
    requires |h| >= 3 && init == h[..|h| - 1]
    ensures StepsAtLeast(dist, init, m) && r <= m && dist(h[|h| - 1], h[|h| - 2]) >= r ==>
      StepsAtLeast(dist, h, r)
    ensures StepsAtMost(dist, init, m) && r >= m && dist(h[|h| - 1], h[|h| - 2]) <= r ==>
      StepsAtMost(dist, h, r)
    ensures (exists i :: 1 <= i < |init| && dist(init[i], init[i - 1]) == m) && (r == m || r == dist(h[|h| - 1], h[|h| - 2])) ==>
      exists i :: 1 <= i < |h| && dist(h[i], h[i - 1]) == r
  {
    forall i | 1 <= i < |init|
      ensures dist(init[i], init[i - 1]) == dist(h[i], h[i - 1])
    {
      assert init[i] == h[i] && init[i - 1] == h[i - 1];
    }
    if r != m && r == dist(h[|h| - 1], h[|h| - 2]) {
      assert 1 <= |h| - 1 < |h|;
    }
  }

  /** Dividing a total of at most `n * c` by a positive `n`. */
  lemma QuotientAtMost(total: real, n: real, c: real)
    requires n > 0.0 && total <= n * c
    ensures total / n <= c
  {
  }

  /** Dividing a total of at least `n * c` by a positive `n`. */
  lemma QuotientAtLeast(total: real, n: real, c: real)
    requires n > 0.0 && n * c <= total
    ensures total / n >= c
  {
  }

  /** The mean of the adjacent-sample distances is at most any bound on them. */
  lemma AverageAtMost(dist: Metric, h: seq<Point>, c: real)
    requires |h| >= 2
    requires StepsAtMost(dist, h, c)
    ensures SumDeltas(dist, h) / ((|h| - 1) as real) <= c
  {
    SumDeltasAtMost(dist, h, c);
    QuotientAtMost(SumDeltas(dist, h), (|h| - 1) as real, c);
  }

  /** The mean of the adjacent-sample distances is at least any lower bound on
      them. */
  lemma AverageAtLeast(dist: Metric, h: seq<Point>, c: real)
    requires |h| >= 2
    requires StepsAtLeast(dist, h, c)
    ensures SumDeltas(dist, h) / ((|h| - 1) as real) >= c
  {
    SumDeltasAtLeast(dist, h, c);
    QuotientAtLeast(SumDeltas(dist, h), (|h| - 1) as real, c);
  }

  /** The movement reading: the arithmetic mean of the adjacent-sample
      distances. It lies between the smallest and the largest of them. */
  function MeanDelta(dist: Metric, h: seq<Point>): (r: real)
    requires |h| >= 2
    ensures exists i :: 1 <= i < |h| && dist(h[i], h[i - 1]) <= r
    ensures exists j :: 1 <= j < |h| && dist(h[j], h[j - 1]) >= r
  {
    AverageAtLeast(dist, h, MinStep(dist, h));
    AverageAtMost(dist, h, MaxStep(dist, h));
    SumDeltas(dist, h) / ((|h| - 1) as real)
  }

  /** True when a history holds enough samples for a reading and the reading
      exceeds `threshold`. */
  predicate Moving(dist: Metric, h: seq<Point>, threshold: real) {
    |h| > MinReadable && MeanDelta(dist, h) > threshold
  }

  /** True when a history holds enough samples for a reading and the reading is
      below `threshold`. */
  predicate Still(dist: Metric, h: seq<Point>, threshold: real) {
    |h| > MinReadable && MeanDelta(dist, h) < threshold
  }

  ghost predicate NonNegative(dist: Metric) {
    forall p, q :: dist(p, q) >= 0.0
  }

  /** Every adjacent-sample distance of `h` is at most `c`. */
  ghost predicate StepsAtMost(dist: Metric, h: seq<Point>, c: real) {
    forall i :: 1 <= i < |h| ==> dist(h[i], h[i - 1]) <= c
  }

  /** Every adjacent-sample distance of `h` is at least `c`. */
  ghost predicate StepsAtLeast(dist: Metric, h: seq<Point>, c: real) {
    forall i :: 1 <= i < |h| ==> dist(h[i], h[i - 1]) >= c
  }

  lemma {:induction false} SumDeltasAtMost(dist: Metric, h: seq<Point>, c: real)
    requires |h| >= 1
    requires StepsAtMost(dist, h, c)
    ensures SumDeltas(dist, h) <= (|h| - 1) as real * c
    decreases |h|
  {
    if |h| >= 2 {
      var init := h[..|h| - 1];
      assert StepsAtMost(dist, init, c) by {
        forall i | 1 <= i < |init| ensures dist(init[i], init[i - 1]) <= c {
          assert init[i] == h[i] && init[i - 1] == h[i - 1];
        }
      }
      SumDeltasAtMost(dist, init, c);
    }
  }

  lemma {:induction false} SumDeltasAtLeast(dist: Metric, h: seq<Point>, c: real)
    requires |h| >= 1
    requires StepsAtLeast(dist, h, c)
    ensures SumDeltas(dist, h) >= (|h| - 1) as real * c
    decreases |h|
  {
    if |h| >= 2 {
      var init := h[..|h| - 1];
      assert StepsAtLeast(dist, init, c) by {
        forall i | 1 <= i < |init| ensures dist(init[i], init[i - 1]) >= c {
          assert init[i] == h[i] && init[i - 1] == h[i - 1];
        }
      }
      SumDeltasAtLeast(dist, init, c);
    }
  }

  /** The reading never exceeds the largest adjacent-sample distance: a
      history whose every step is at most `c` reads at most `c`. */
  lemma MeanDeltaAtMost(dist: Metric, h: seq<Point>, c: real)
    requires |h| >= 2
    requires StepsAtMost(dist, h, c)
    ensures MeanDelta(dist, h) <= c
  {
    AverageAtMost(dist, h, c);
  }

  /** The reading is never below the smallest adjacent-sample distance. */
  lemma MeanDeltaAtLeast(dist: Metric, h: seq<Point>, c: real)
    requires |h| >= 2
    requires StepsAtLeast(dist, h, c)
    ensures MeanDelta(dist, h) >= c
  {
    AverageAtLeast(dist, h, c);
  }

  /** A history none of whose steps exceeds `c` never counts as moving past `c`. */
  lemma CalmNotMoving(dist: Metric, h: seq<Point>, c: real)
    requires StepsAtMost(dist, h, c)
    ensures !Moving(dist, h, c)
  {
    if |h| > MinReadable {
      MeanDeltaAtMost(dist, h, c);
    }
  }

  /** A history none of whose steps falls below `c` never counts as still
      below `c`. */
  lemma SteadyNotStill(dist: Metric, h: seq<Point>, c: real)
    requires StepsAtLeast(dist, h, c)
    ensures !Still(dist, h, c)
  {
    if |h| > MinReadable {
      MeanDeltaAtLeast(dist, h, c);
    }
  }

  /** With a non-negative distance the reading is non-negative. */
  lemma MeanDeltaNonNegative(dist: Metric, h: seq<Point>)
    requires |h| >= 2
    requires NonNegative(dist)
    ensures MeanDelta(dist, h) >= 0.0
  {
    MeanDeltaAtLeast(dist, h, 0.0);
  }
}
