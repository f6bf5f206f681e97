/** The ring of small superellipsoids drawn around the heart. The heart curve
    is sampled at t = 0, 0.01, 0.02, ... while t < 2 pi; samples within 0.08 of
    t = pi (the dip at the top of the heart) are skipped, and of the rest a
    point is kept only if it is the first one or lies at least minDistance
    from the point kept last. */
module Outline {
  import opened Numerics

  /** Scale of the outline relative to the heart curve's natural size. */
  const OutlineScale: real := 4.0
  /** Spacing between neighbouring superellipsoids of the outline. */
  const MinDistance: real := 0.4
  /** Half-width of the window of t around pi that is skipped. */
  const DipHalfWidth: real := 0.08
  /** Step of the sampling parameter t. */
  const SampleStep: real := 0.01

  /** distance(p, q) >= MinDistance is decided on squares, both being non-negative. */
  const MinDistanceSquared: real := MinDistance * MinDistance

  /** One sample of the curve: skipped at the dip, or a candidate point. */
  datatype Candidate = Skipped | Sample(p: Point2)

  function Dist2(p: Point2, q: Point2): real
  {
    (p.x - q.x) * (p.x - q.x) + (p.y - q.y) * (p.y - q.y)
  }

  /** p and q are at least MinDistance apart: the spacing test, compared on
      squared distances. */
  predicate FarFrom(p: Point2, q: Point2)
  {
    Dist2(p, q) >= MinDistanceSquared
  }

  /** The heart curve at t, scaled by 0.05 * OutlineScale: one fifth of the
      curve's size, and on the same ray from the origin. */
  function OutlinePoint(m: Transcendental, t: real): (p: Point2)
    ensures p.x == 0.2 * HeartCurve(m, t).x && p.y == 0.2 * HeartCurve(m, t).y
    ensures p.x * HeartCurve(m, t).y == p.y * HeartCurve(m, t).x
  {
    var c := HeartCurve(m, t);
    Point2(c.x * (0.05 * OutlineScale), c.y * (0.05 * OutlineScale))
  }

  predicate AtTopDip(m: Transcendental, t: real)
  {
    Abs(t - m.pi) < DipHalfWidth
  }

  /** A sample is skipped exactly at the dip; otherwise it offers its outline point. */
  function Classify(m: Transcendental, t: real): (c: Candidate)
    ensures c == Skipped <==> m.pi - DipHalfWidth < t < m.pi + DipHalfWidth
    ensures c.Sample? ==> c.p == OutlinePoint(m, t)
  {
    if AtTopDip(m, t) then Skipped else Sample(OutlinePoint(m, t))
  }

  function Candidates(m: Transcendental, ts: seq<real>): (cs: seq<Candidate>)
    ensures |cs| == |ts|
  {
    seq(|ts|, k requires 0 <= k < |ts| => Classify(m, ts[k]))
  }

  /** Number of samples: the least k with k * 0.01 >= 2 pi. */
  function SampleCount(m: Transcendental): (n: nat)
    ensures (n as real) * SampleStep >= 2.0 * m.pi
    ensures n == 0 || ((n - 1) as real) * SampleStep < 2.0 * m.pi
  {
    if m.pi <= 0.0 then 0 else -((-(2.0 * m.pi / SampleStep)).Floor)
  }

  /** The sampling parameters t_k = k * 0.01 the loop visits: they start at 0
      and all stay below 2 pi. */
  function SampleTimes(m: Transcendental): (ts: seq<real>)
    ensures |ts| == SampleCount(m)
    ensures |ts| > 0 ==> ts[0] == 0.0
    ensures forall k :: 0 <= k < |ts| ==> 0.0 <= ts[k] < 2.0 * m.pi
  {
    seq(SampleCount(m), k => (k as real) * SampleStep)
  }

  /** Consecutive sampling parameters are 0.01 apart. */
  lemma SampleTimesStep(m: Transcendental, k: nat)
    requires 0 < k < SampleCount(m)
    ensures SampleTimes(m)[k] == SampleTimes(m)[k - 1] + SampleStep
  {
  }

  /** Sample k is visited exactly when its parameter is below 2 pi. */
  lemma SampleCountBound(m: Transcendental, k: nat)
    ensures k < SampleCount(m) <==> (k as real) * SampleStep < 2.0 * m.pi
  {
    if m.pi > 0.0 {
      var x := 2.0 * m.pi / SampleStep;
      assert x == 200.0 * m.pi;
      assert (k as real) * SampleStep < 2.0 * m.pi <==> (k as real) < x;
    }
  }

  /** One step of the greedy loop: a sample is kept if it is the first, or far
      enough from the last kept point. */
  function Keep(kept: seq<Point2>, c: Candidate): (r: seq<Point2>)
    ensures kept <= r && |r| <= |kept| + 1
    ensures r != kept ==> c.Sample? && r == kept + [c.p]
    ensures c.Sample? && kept == [] ==> r == [c.p]
    ensures c.Sample? && kept != [] ==>
              (r != kept <==> FarFrom(c.p, kept[|kept| - 1]))
  {
    match c
    case Skipped => kept
    case Sample(p) =>
      if kept == [] || FarFrom(p, kept[|kept| - 1]) then kept + [p] else kept
  }

  /** The points the loop keeps from the candidates cs, in order. */
  function Thin(cs: seq<Candidate>): (r: seq<Point2>)
    ensures |r| <= |cs|
  {
    if cs == [] then [] else Keep(Thin(cs[..|cs| - 1]), cs[|cs| - 1])
  }

  /** The points of the non-skipped candidates, in order. */
  function Points(cs: seq<Candidate>): seq<Point2>
  {
    if cs == [] then []
    else
      var rest := Points(cs[..|cs| - 1]);
      match cs[|cs| - 1]
      case Skipped => rest
      case Sample(p) => rest + [p]
  }

  /** a can be obtained from b by deleting elements. */
  predicate IsSubsequence<T(==)>(a: seq<T>, b: seq<T>)
    decreases |b|
  {
    if b == [] then a == []
    else (a != [] && a[|a| - 1] == b[|b| - 1] && IsSubsequence(a[..|a| - 1], b[..|b| - 1]))
         || IsSubsequence(a, b[..|b| - 1])
  }

  /** Neighbouring points are at least MinDistance apart. */
  predicate Spaced(ps: seq<Point2>)
  {
    forall k :: 0 < k < |ps| ==> FarFrom(ps[k], ps[k - 1])
  }

  /** The outline loop: walk t from 0 in steps of 0.01 while t < 2 pi, skip the
      dip, and keep the points that pass the spacing test. */
  method BuildOutline(m: Transcendental) returns (outline: seq<Point2>)
    ensures outline == Thin(Candidates(m, SampleTimes(m)))
    ensures IsSubsequence(outline, Points(Candidates(m, SampleTimes(m))))
    ensures Spaced(outline)
  {
    ghost var cs := Candidates(m, SampleTimes(m));
    outline := [];
    var lastPoint := Point2(0.0, 0.0);
    var first := true;
    var t := 0.0;
    ghost var k: nat := 0;
    while t < 2.0 * m.pi
      invariant k <= SampleCount(m) && t == (k as real) * SampleStep
      invariant outline == Thin(cs[..k])
      invariant first <==> outline == []
      invariant !first ==> |outline| > 0 && lastPoint == outline[|outline| - 1]
      decreases SampleCount(m) - k
    {
      SampleCountBound(m, k);
      CandidateAt(m, k);
      outline, lastPoint, first := ConsiderSample(m, t, outline, lastPoint, first, cs, k);
      t := t + SampleStep;
      k := k + 1;
    }
    SampleCountBound(m, k);
    assert cs[..k] == cs;
    ThinSubsequence(cs);
    ThinSpaced(cs);
  }

  /** Sample k of the loop is the classification of t = k * 0.01. */
  lemma CandidateAt(m: Transcendental, k: nat)
    requires k < SampleCount(m)
    ensures Candidates(m, SampleTimes(m))[k] == Classify(m, (k as real) * SampleStep)
  {
  }

  /** Thinning one more candidate is one greedy step on what was kept. */
  lemma ThinStep(cs: seq<Candidate>, k: nat)
    requires k < |cs|
    ensures Thin(cs[..k + 1]) == Keep(Thin(cs[..k]), cs[k])
  {
    assert cs[..k + 1][..k] == cs[..k];
  }

  /** The body of the outline loop for parameter t. */
  method ConsiderSample(m: Transcendental, t: real, outline: seq<Point2>, lastPoint: Point2, first: bool,
                        ghost cs: seq<Candidate>, ghost k: nat)
    returns (outline': seq<Point2>, lastPoint': Point2, first': bool)
    requires k < |cs| && cs[k] == Classify(m, t) && outline == Thin(cs[..k])
    requires first <==> outline == []
    requires !first ==> lastPoint == outline[|outline| - 1]
    ensures outline' == Thin(cs[..k + 1])
    ensures first' <==> outline' == []
    ensures !first' ==> |outline'| > 0 && lastPoint' == outline'[|outline'| - 1]
  {
    ThinStep(cs, k);
    outline', lastPoint', first' := outline, lastPoint, first;
    if Abs(t - m.pi) < DipHalfWidth {
      // the dip: this sample is skipped
    } else {
      var current := OutlinePoint(m, t);
      if first {
        outline' := outline' + [current];
        lastPoint' := current;
        first' := false;
      } else if FarFrom(current, lastPoint) {
        outline' := outline' + [current];
        lastPoint' := current;
      }
    }
  }

  /** The outline is the non-skipped candidates with some deleted, in order. */
  lemma {:induction false} ThinSubsequence(cs: seq<Candidate>)
    ensures IsSubsequence(Thin(cs), Points(cs))
  {
    if cs != [] {
      var init := cs[..|cs| - 1];
      ThinSubsequence(init);
      match cs[|cs| - 1]
      case Skipped =>
      case Sample(p) =>
        var kept := Thin(init);
        if Thin(cs) == kept + [p] {
          assert (kept + [p])[..|kept|] == kept;
          assert (Points(init) + [p])[..|Points(init)|] == Points(init);
        } else {
          assert (Points(init) + [p])[..|Points(init)|] == Points(init);
        }
    }
  }

  /** A subsequence keeps only elements of the original, and no more of them. */
  lemma {:induction false} SubsequenceElements<T>(a: seq<T>, b: seq<T>)
    requires IsSubsequence(a, b)
    ensures |a| <= |b|
    ensures forall x :: x in a ==> x in b
  {
    if b != [] {
      var b' := b[..|b| - 1];
      assert b == b' + [b[|b| - 1]];
      if a != [] && a[|a| - 1] == b[|b| - 1] && IsSubsequence(a[..|a| - 1], b') {
        SubsequenceElements(a[..|a| - 1], b');
        assert a == a[..|a| - 1] + [a[|a| - 1]];
      } else {
        SubsequenceElements(a, b');
      }
    }
  }

  /** Every outline point is the point of some non-skipped sample, and the
      outline has no more points than there are non-skipped samples. */
  lemma ThinElements(cs: seq<Candidate>)
    ensures |Thin(cs)| <= |Points(cs)|
    ensures forall q :: q in Thin(cs) ==> q in Points(cs)
  {
    ThinSubsequence(cs);
    SubsequenceElements(Thin(cs), Points(cs));
  }

  /** The first non-skipped candidate is always kept, and the outline is empty
      only when every sample was skipped. */
  lemma {:induction false} ThinFirst(cs: seq<Candidate>)
    ensures Thin(cs) == [] <==> Points(cs) == []
    ensures Thin(cs) != [] ==> Thin(cs)[0] == Points(cs)[0]
  {
    if cs != [] {
      ThinFirst(cs[..|cs| - 1]);
    }
  }

  /** Each kept point after the first is at least MinDistance from the point
      kept before it. */
  lemma {:induction false} ThinSpaced(cs: seq<Candidate>)
    ensures Spaced(Thin(cs))
  {
    if cs != [] {
      var kept := Thin(cs[..|cs| - 1]);
      ThinSpaced(cs[..|cs| - 1]);
      var r := Thin(cs);
      assert r == Keep(kept, cs[|cs| - 1]);
      if r != kept {
        var p := cs[|cs| - 1].p;
        assert r == kept + [p];
        forall k | 0 < k < |r|
          ensures FarFrom(r[k], r[k - 1])
        {
          if k < |kept| {
            assert r[k] == kept[k] && r[k - 1] == kept[k - 1];
          } else {
            assert kept != [] && r[k] == p && r[k - 1] == kept[|kept| - 1];
          }
        }
      }
    }
  }

  /** What the loop has kept after n samples stays at the front of the outline. */
  lemma {:induction false} ThinPrefix(cs: seq<Candidate>, n: nat)
    requires n <= |cs|
    ensures Thin(cs[..n]) <= Thin(cs)
  {
    if n < |cs| {
      ThinPrefix(cs[..|cs| - 1], n);
      assert cs[..|cs| - 1][..n] == cs[..n];
    } else {
      assert cs[..n] == cs;
    }
  }

  /** Sample n is dropped exactly when an earlier point has been kept and
      sample n lies within MinDistance of the point kept last before it. */
  lemma ThinDrops(cs: seq<Candidate>, n: nat)
    requires n < |cs| && cs[n].Sample?
    ensures Thin(cs[..n + 1]) == Thin(cs[..n]) <==>
              Thin(cs[..n]) != [] && !FarFrom(cs[n].p, Thin(cs[..n])[|Thin(cs[..n])| - 1])
  {
    ThinStep(cs, n);
  }

  /** Every non-skipped sample lies within MinDistance of some point of the
      outline: either it was kept, or it was dropped for being too close to the
      point kept last, which stays in the outline. */
  lemma CandidateCovered(cs: seq<Candidate>, n: nat)
    requires n < |cs| && cs[n].Sample?
    ensures Thin(cs[..n + 1]) == Thin(cs[..n]) ==>
              Thin(cs[..n]) != [] && !FarFrom(cs[n].p, Thin(cs[..n])[|Thin(cs[..n])| - 1])
    ensures exists q :: q in Thin(cs) && !FarFrom(cs[n].p, q)
  {
    ThinDrops(cs, n);
    var p := cs[n].p;
    var before := Thin(cs[..n]);
    if Thin(cs[..n + 1]) == before {
      ThinPrefix(cs, n);
      var q := before[|before| - 1];
      assert q in Thin(cs);
    } else {
      assert cs[..n + 1][..n] == cs[..n];
      assert Thin(cs[..n + 1]) == before + [p];
      ThinPrefix(cs, n + 1);
      assert p in Thin(cs) by {
        assert Thin(cs)[|before|] == p;
      }
      assert !FarFrom(p, p);
    }
  }

  /** In the curve's own coordinates the window skipped around t = pi holds the
      bottom tip (0, -3.4) of the outline, while the top centre dip (0, 1) at
      t = 0 is kept as a sample, given the values of sin, cos and pow there. */
  lemma SkippedTip(m: Transcendental)
    requires m.pi >= DipHalfWidth && m.pow(0.0, 3.0) == 0.0
    requires m.sin(0.0) == 0.0 && m.cos(0.0) == 1.0
    requires m.sin(m.pi) == 0.0 && m.cos(m.pi) == -1.0 && m.cos(2.0 * m.pi) == 1.0
    requires m.cos(3.0 * m.pi) == -1.0 && m.cos(4.0 * m.pi) == 1.0
    ensures Classify(m, m.pi) == Skipped
    ensures HeartCurve(m, m.pi) == Point2(0.0, -17.0)
    ensures Classify(m, 0.0) == Sample(Point2(0.0, 1.0))
  {
    assert 2.0 * 0.0 == 0.0 && 3.0 * 0.0 == 0.0 && 4.0 * 0.0 == 0.0;
  }
}
