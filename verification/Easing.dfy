/** The easing schedule of the loader: when each facet leaves the mark, rests on the ring and comes back. */
module Easing {
  // ---------- the easing polynomial ----------

  function Clamp01(p: real): real {
    if p < 0.0 then 0.0 else if p > 1.0 then 1.0 else p
  }

  /** 6p^5 - 15p^4 + 10p^3. */
  function Quintic(p: real): real { p * p * p * (p * (p * 6.0 - 15.0) + 10.0) }

  function Smootherstep(p: real): real { Quintic(Clamp01(p)) }

  /** The slope of a chord of the quintic, thirty times a sum of squares, with a = p(1-p) and h = q-p. */
  function ChordSlope(a: real, b: real, c: real): (s: real)
    ensures s >= 0.0
  {
    var u, v := a + b / 2.0 + c / 3.0, b + c;
    assert u * u >= 0.0 && v * v >= 0.0 && c * c >= 0.0;
    30.0 * (u * u + v * v / 12.0 + c * c / 180.0)
  }

  /** The quintic rises at every two points: its chord slopes are sums of squares. */
  lemma ChordIdentity(p: real, h: real)
    ensures Quintic(p + h) - Quintic(p) == h * ChordSlope(p * (1.0 - p), h * (1.0 - 2.0 * p), -h * h)
  {}

  lemma QuinticStep(p: real, h: real)
    requires h >= 0.0
    ensures Quintic(p) <= Quintic(p + h)
  {
    ChordIdentity(p, h);
    RisesBy(Quintic(p + h) - Quintic(p), h, ChordSlope(p * (1.0 - p), h * (1.0 - 2.0 * p), -h * h));
  }

  lemma RisesBy(d: real, h: real, s: real)
    requires d == h * s && h >= 0.0 && s >= 0.0
    ensures d >= 0.0
  {}

  lemma QuinticRises(p: real, q: real)
    requires p <= q
    ensures Quintic(p) <= Quintic(q)
  {
    var h := q - p;
    QuinticStep(p, h);
    assert p + h == q;
  }

  lemma QuinticPositive(p: real)
    requires p > 0.0
    ensures Quintic(p) > 0.0
  {
    var u := 4.0 * p - 5.0;
    var w := p * (p * 6.0 - 15.0) + 10.0;
    assert w == 0.375 * (u * u) + 0.625;
    assert u * u >= 0.0;
    var c := p * p * p;
    assert p * p > 0.0 && c > 0.0;
    assert c * w > 0.0;
  }

  lemma SmootherstepRises(p: real, q: real)
    requires p <= q
    ensures 0.0 <= Smootherstep(p) <= Smootherstep(q) <= 1.0
    ensures p <= 0.0 ==> Smootherstep(p) == 0.0
    ensures q >= 1.0 ==> Smootherstep(q) == 1.0
  {
    assert Quintic(0.0) == 0.0 && Quintic(1.0) == 1.0;
    QuinticRises(0.0, Clamp01(p));
    QuinticRises(Clamp01(p), Clamp01(q));
    QuinticRises(Clamp01(q), 1.0);
  }

  /** Strictly inside the ramp there is some progress. */
  lemma SmootherstepPositive(p: real)
    requires p > 0.0
    ensures Smootherstep(p) > 0.0
  {
    QuinticPositive(Clamp01(p));
  }

  // ---------- the schedule ----------

  /** The parts of the configuration the schedule depends on, as fractions of a cycle. */
  datatype MorphConfig = MorphConfig(hold: real, ramp: real)

  function Span(c: MorphConfig): real {
    var half := (1.0 - 2.0 * c.hold) / 2.0;
    if 0.05 > half then 0.05 else half
  }

  /** The schedule makes sense: no negative holds, and a ramp fits into the span it is scheduled in. */
  predicate Valid(c: MorphConfig) { c.hold >= 0.0 && 0.0 < c.ramp <= Span(c) }

  /** The ring is complete from here on, and starts to dissolve here. */
  function RingStart(c: MorphConfig): real { c.hold + Span(c) }

  function RingEnd(c: MorphConfig): real { RingStart(c) + c.hold }

  /** How long after the first facet the one of the given order moves. */
  function Delay(c: MorphConfig, n: nat, order: nat): real
    requires n > 0
  {
    (order as real / n as real) * (Span(c) - c.ramp)
  }

  function OutAt(c: MorphConfig, n: nat, order: nat): real
    requires n > 0
  {
    c.hold + Delay(c, n, order)
  }

  function InAt(c: MorphConfig, n: nat, order: nat): real
    requires n > 0
  {
    RingEnd(c) + Delay(c, n, order)
  }

  /** Progress of a facet that leaves at `outAt` and comes back at `inAt`. */
  function Ease(outAt: real, inAt: real, ramp: real, phase: real): real {
    if phase < outAt then 0.0
    else if phase < outAt + ramp then Smootherstep((phase - outAt) / ramp)
    else if phase < inAt then 1.0
    else if phase < inAt + ramp then Smootherstep(1.0 - (phase - inAt) / ramp)
    else 0.0
  }

  /** `eased_progress`: 0 at home, 1 on the ring, for the facet that is `order`-th of `n` to leave. */
  function EasedProgress(c: MorphConfig, n: nat, order: nat, phase: real): real
    requires n > 0
  {
    Ease(OutAt(c, n, order), InAt(c, n, order), c.ramp, phase)
  }

  // ---------- one facet's journey ----------

  lemma Quotients(a: real, b: real, r: real)
    requires r > 0.0
    ensures a <= b ==> a / r <= b / r
    ensures a <= 0.0 <==> a / r <= 0.0
    ensures a >= r <==> a / r >= 1.0
    ensures a > 0.0 <==> a / r > 0.0
  {
    assert (a / r) * r == a && (b / r) * r == b;
  }

  lemma EaseInRange(outAt: real, inAt: real, ramp: real, phase: real)
    requires ramp > 0.0 && outAt + ramp <= inAt
    ensures 0.0 <= Ease(outAt, inAt, ramp, phase) <= 1.0
  {
    if phase <= inAt {
      SmootherstepRises((phase - outAt) / ramp, (phase - outAt) / ramp);
    } else {
      SmootherstepRises(1.0 - (phase - inAt) / ramp, 1.0 - (phase - inAt) / ramp);
    }
  }

  /** Earlier is never further: of two journeys, the one that has been under way longer is ahead. */
  lemma Ahead(out1: real, in1: real, phase1: real, out2: real, in2: real, phase2: real, ramp: real)
    requires ramp > 0.0 && out1 + ramp <= in1 && out2 + ramp <= in2
    requires phase1 <= in1 && phase2 <= in2 && phase1 - out1 <= phase2 - out2
    ensures Ease(out1, in1, ramp, phase1) <= Ease(out2, in2, ramp, phase2)
  {
    Quotients(phase1 - out1, phase2 - out2, ramp);
    SmootherstepRises((phase1 - out1) / ramp, (phase2 - out2) / ramp);
  }

  lemma Behind(out1: real, in1: real, phase1: real, out2: real, in2: real, phase2: real, ramp: real)
    requires ramp > 0.0 && out1 + ramp <= in1 && out2 + ramp <= in2
    requires out1 + ramp <= phase1 && out2 + ramp <= phase2 && phase1 - in1 <= phase2 - in2
    ensures Ease(out1, in1, ramp, phase1) >= Ease(out2, in2, ramp, phase2)
  {
    Quotients(phase1 - in1, phase2 - in2, ramp);
    SmootherstepRises(1.0 - (phase2 - in2) / ramp, 1.0 - (phase1 - in1) / ramp);
  }

  // ---------- the timetable ----------

  /** Every journey fits: out during the first span, back during the second. */
  lemma Timetable(c: MorphConfig, n: nat, order: nat)
    requires Valid(c) && order < n
    ensures c.hold <= OutAt(c, n, order) && OutAt(c, n, order) + c.ramp <= RingStart(c) <= RingEnd(c)
    ensures RingEnd(c) <= InAt(c, n, order) && InAt(c, n, order) + c.ramp <= RingEnd(c) + Span(c)
  {}

  lemma TimetableOrder(c: MorphConfig, n: nat, a: nat, b: nat)
    requires Valid(c) && a <= b < n
    ensures OutAt(c, n, a) <= OutAt(c, n, b) && InAt(c, n, a) <= InAt(c, n, b)
  {}

  /** A hold, a span, a hold and a span: where they begin and how long a span is. */
  lemma Parts(c: MorphConfig, span: real)
    requires span == if 1.0 - 2.0 * c.hold < 0.1 then 0.05 else 0.5 - c.hold
    ensures Span(c) == span && RingStart(c) == c.hold + span && RingEnd(c) == 2.0 * c.hold + span
  {}

  /**
   Departures are spread evenly, in both directions: the first facet leaves at once, each further one the `n`-th part of
   what the ramp leaves of the span later, and one more would arrive at the end of the span.
   */
  lemma EvenlySpread(c: MorphConfig, n: nat, k: nat, span: real)
    requires n > 0 && span == if 1.0 - 2.0 * c.hold < 0.1 then 0.05 else 0.5 - c.hold
    ensures OutAt(c, n, 0) == c.hold && InAt(c, n, 0) == 2.0 * c.hold + span
    ensures OutAt(c, n, k + 1) - OutAt(c, n, k) == (span - c.ramp) / n as real
    ensures InAt(c, n, k + 1) - InAt(c, n, k) == (span - c.ramp) / n as real
    ensures OutAt(c, n, n) + c.ramp == c.hold + span && InAt(c, n, n) + c.ramp == 2.0 * c.hold + 2.0 * span
  {
    Parts(c, span);
    Shares(k as real, n as real, span - c.ramp);
  }

  lemma Shares(k: real, n: real, w: real)
    requires n > 0.0
    ensures ((k + 1.0) / n) * w - (k / n) * w == w / n && (n / n) * w == w && (0.0 / n) * w == 0.0
  {
    assert (k + 1.0) / n - k / n == 1.0 / n;
    assert (1.0 / n) * w == w / n;
  }

  /** How far a facet is a fraction `f` into its ramp, going out and coming back. */
  lemma OnTheWay(c: MorphConfig, n: nat, order: nat, f: real, t: real, q: real)
    requires Valid(c) && order < n && 0.0 <= f < 1.0 && t == f * c.ramp
    requires q == 6.0 * (f * f * f * f * f) - 15.0 * (f * f * f * f) + 10.0 * (f * f * f)
    ensures EasedProgress(c, n, order, OutAt(c, n, order) + t) == q
    ensures EasedProgress(c, n, order, InAt(c, n, order) + t) == 1.0 - q
  {
    Fraction(f, c.ramp, t);
    QuinticIs(f, q);
    OnTheWayAt(c, n, order, f, t, q);
  }

  lemma OnTheWayAt(c: MorphConfig, n: nat, order: nat, f: real, t: real, q: real)
    requires Valid(c) && order < n && 0.0 <= f < 1.0 && 0.0 <= t < c.ramp && t / c.ramp == f
    requires Quintic(f) == q && Quintic(1.0 - f) == 1.0 - q
    ensures EasedProgress(c, n, order, OutAt(c, n, order) + t) == q
    ensures EasedProgress(c, n, order, InAt(c, n, order) + t) == 1.0 - q
  {
    Timetable(c, n, order);
    OnTheRamp(OutAt(c, n, order), InAt(c, n, order), c.ramp, t, f);
  }

  lemma Fraction(f: real, r: real, t: real)
    requires 0.0 <= f < 1.0 && r > 0.0 && t == f * r
    ensures 0.0 <= t < r && t / r == f
  {}

  lemma OnTheRamp(outAt: real, inAt: real, ramp: real, t: real, f: real)
    requires ramp > 0.0 && outAt + ramp <= inAt && 0.0 <= t < ramp && t / ramp == f && 0.0 <= f < 1.0
    ensures Ease(outAt, inAt, ramp, outAt + t) == Quintic(f)
    ensures Ease(outAt, inAt, ramp, inAt + t) == Quintic(1.0 - f)
  {
    assert outAt + t - outAt == t && inAt + t - inAt == t;
  }

  lemma QuinticIs(f: real, q: real)
    requires q == 6.0 * (f * f * f * f * f) - 15.0 * (f * f * f * f) + 10.0 * (f * f * f)
    ensures Quintic(f) == q && Quintic(1.0 - f) == 1.0 - q
  {
    QuinticMirrored(f);
  }

  // ---------- what the animation promises ----------

  /** Progress is a fraction; it is 0 on the first hold, 1 while the ring holds, and 0 after the second span. */
  lemma HoldsAreStill(c: MorphConfig, n: nat, order: nat, phase: real)
    requires Valid(c) && order < n
    ensures 0.0 <= EasedProgress(c, n, order, phase) <= 1.0
    ensures phase <= c.hold ==> EasedProgress(c, n, order, phase) == 0.0
    ensures RingStart(c) <= phase <= RingEnd(c) ==> EasedProgress(c, n, order, phase) == 1.0
    ensures RingEnd(c) + Span(c) <= phase ==> EasedProgress(c, n, order, phase) == 0.0
  {
    var outAt, inAt := OutAt(c, n, order), InAt(c, n, order);
    Timetable(c, n, order);
    EaseInRange(outAt, inAt, c.ramp, phase);
    if phase <= inAt {
      var p := (phase - outAt) / c.ramp;
      Quotients(phase - outAt, phase - outAt, c.ramp);
      SmootherstepRises(p, p);
    }
  }

  /** A facet only moves outwards until the ring dissolves, and only homewards once the ring is complete. */
  lemma OutThenBack(c: MorphConfig, n: nat, order: nat, p: real, q: real)
    requires Valid(c) && order < n && p <= q
    ensures q <= RingEnd(c) ==> EasedProgress(c, n, order, p) <= EasedProgress(c, n, order, q)
    ensures RingStart(c) <= p ==> EasedProgress(c, n, order, p) >= EasedProgress(c, n, order, q)
  {
    var outAt, inAt := OutAt(c, n, order), InAt(c, n, order);
    Timetable(c, n, order);
    if q <= RingEnd(c) {
      Ahead(outAt, inAt, p, outAt, inAt, q, c.ramp);
    }
    if RingStart(c) <= p {
      Behind(outAt, inAt, p, outAt, inAt, q, c.ramp);
    }
  }

  /** The facet that leaves first is ahead on the way out, and is also the first to be home again. */
  lemma FirstOutFirstHome(c: MorphConfig, n: nat, a: nat, b: nat, phase: real)
    requires Valid(c) && a <= b < n
    ensures phase <= RingEnd(c) ==> EasedProgress(c, n, b, phase) <= EasedProgress(c, n, a, phase)
    ensures RingStart(c) <= phase ==> EasedProgress(c, n, a, phase) <= EasedProgress(c, n, b, phase)
  {
    Timetable(c, n, a);
    Timetable(c, n, b);
    TimetableOrder(c, n, a, b);
    if phase <= RingEnd(c) {
      Ahead(OutAt(c, n, b), InAt(c, n, b), phase, OutAt(c, n, a), InAt(c, n, a), phase, c.ramp);
    }
    if RingStart(c) <= phase {
      Behind(OutAt(c, n, b), InAt(c, n, b), phase, OutAt(c, n, a), InAt(c, n, a), phase, c.ramp);
    }
  }

  /** The quintic is symmetric about its middle. */
  lemma QuinticMirrored(p: real)
    ensures Quintic(1.0 - p) == 1.0 - Quintic(p)
  {}

  /** Progress is complete only at the end of the ramp. */
  lemma SmootherstepIncomplete(p: real)
    requires p < 1.0
    ensures Smootherstep(p) < 1.0
  {
    QuinticPositive(1.0 - Clamp01(p));
    QuinticMirrored(Clamp01(p));
  }

  /** With a ramp shorter than the span, later facets move later. */
  lemma LaterMovesLater(c: MorphConfig, n: nat, a: nat, b: nat)
    requires Valid(c) && a < b < n && c.ramp < Span(c)
    ensures InAt(c, n, a) < InAt(c, n, b)
  {
    var f, g, w := a as real / n as real, b as real / n as real, Span(c) - c.ramp;
    assert f < g;
    assert (g - f) * w > 0.0;
  }

  /** When a later facet is about to come back, an earlier one is already on its way. */
  lemma EarlierIsUnderWay(c: MorphConfig, n: nat, a: nat, b: nat)
    requires Valid(c) && a < b < n && c.ramp < Span(c)
    ensures EasedProgress(c, n, a, InAt(c, n, b)) < 1.0 == EasedProgress(c, n, b, InAt(c, n, b))
  {
    var phase := InAt(c, n, b);
    Timetable(c, n, a);
    Timetable(c, n, b);
    LaterMovesLater(c, n, a, b);
    Quotients(phase - InAt(c, n, a), phase - InAt(c, n, a), c.ramp);
    if phase < InAt(c, n, a) + c.ramp {
      SmootherstepIncomplete(1.0 - (phase - InAt(c, n, a)) / c.ramp);
    }
    SmootherstepRises(1.0, 1.0);
  }

  /** The facets come home in the reverse order, as the loader is described: the later one is never further out. */
  ghost predicate ComesHomeInReverse(c: MorphConfig, n: nat, a: nat, b: nat)
    requires a < n && b < n
  {
    forall phase :: RingStart(c) <= phase ==> EasedProgress(c, n, b, phase) <= EasedProgress(c, n, a, phase)
  }

  /** Two facets come home in the reverse of the order they left in if and only if all facets move at once. */
  lemma ReverseOnlyAtOnce(c: MorphConfig, n: nat, a: nat, b: nat)
    requires Valid(c) && a < b < n
    ensures ComesHomeInReverse(c, n, a, b) <==> c.ramp == Span(c)
  {
    if c.ramp == Span(c) {
      assert Delay(c, n, a) == 0.0 == Delay(c, n, b);
    } else {
      Timetable(c, n, b);
      EarlierIsUnderWay(c, n, a, b);
      assert RingStart(c) <= InAt(c, n, b);
    }
  }

  lemma EaseZero(outAt: real, inAt: real, ramp: real, phase: real)
    requires ramp > 0.0 && outAt + ramp <= inAt
    ensures Ease(outAt, inAt, ramp, phase) == 0.0 <==> phase <= outAt || inAt + ramp <= phase
  {
    Quotients(phase - outAt, phase - outAt, ramp);
    Quotients(phase - inAt, phase - inAt, ramp);
    if outAt < phase < outAt + ramp {
      SmootherstepPositive((phase - outAt) / ramp);
    } else if inAt <= phase < inAt + ramp {
      SmootherstepPositive(1.0 - (phase - inAt) / ramp);
    } else if phase == outAt {
      SmootherstepRises((phase - outAt) / ramp, 0.0);
    }
  }

  /** A facet is home when the cycle wraps if and only if its journey is over by then, or has not begun. */
  lemma HomeAtWrap(c: MorphConfig, n: nat, order: nat)
    requires Valid(c) && order < n
    ensures EasedProgress(c, n, order, 1.0) == 0.0 <==> 1.0 <= OutAt(c, n, order) || InAt(c, n, order) + c.ramp <= 1.0
  {
    Timetable(c, n, order);
    EaseZero(OutAt(c, n, order), InAt(c, n, order), c.ramp, 1.0);
  }

  /** With holds of at most 45% of the cycle the animation is seamless: every facet is home when it wraps. */
  lemma Seamless(c: MorphConfig, n: nat, order: nat)
    requires Valid(c) && order < n && c.hold <= 0.45
    ensures RingEnd(c) + Span(c) == 1.0 && EasedProgress(c, n, order, 1.0) == EasedProgress(c, n, order, 0.0) == 0.0
  {
    HoldsAreStill(c, n, order, 1.0);
    HoldsAreStill(c, n, order, 0.0);
  }

  /** With longer holds it need not be: here every facet is still on the ring when the cycle wraps, and jumps home. */
  lemma LongHoldJumps(n: nat, order: nat)
    requires order < n
    ensures var c := MorphConfig(0.48, 0.01);
            Valid(c) && EasedProgress(c, n, order, 1.0) == 1.0 && EasedProgress(c, n, order, 0.0) == 0.0
  {}
}
