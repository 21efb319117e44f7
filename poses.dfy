/** Keypoint values and the pure part of keypoint processing: the elementwise
    mean computed by the temporal smoother, per-joint imputation from the last
    reliable pose, and translation normalisation by the hip centre. */
module Poses {

  /** Number of joints the pose model reports for one person. */
  const Joints: nat := 17
  /** Length of one normalised keypoint vector: x and y of every joint. */
  const Features: nat := 34
  const LeftHip: nat := 11
  const RightHip: nat := 12
  /** A joint whose confidence is below this is treated as not seen. */
  const MinConfidence: real := 0.5

  datatype Point = Point(x: real, y: real)

  const Origin: Point := Point(0.0, 0.0)

  /** A bounding box as corner coordinates (x1, y1, x2, y2). */
  datatype Box = Box(x1: real, y1: real, x2: real, y2: real)

  /** What the pose model reports for the first person it finds. */
  datatype Detection = Detection(keypoints: seq<Point>, conf: seq<real>, box: Box)

  predicate IsPose(kp: seq<Point>) { |kp| == Joints }

  predicate WellFormed(d: Detection) { IsPose(d.keypoints) && |d.conf| == Joints }

  predicate AllPoses(buf: seq<seq<Point>>) {
    forall k :: 0 <= k < |buf| ==> IsPose(buf[k])
  }

  function Plus(p: Point, q: Point): Point { Point(p.x + q.x, p.y + q.y) }

  // ---------------------------------------------------------------------------
  // Temporal smoother: elementwise mean over the buffered raw poses
  // ---------------------------------------------------------------------------

  /** Sum of joint j over all poses of the buffer. */
  function SumAt(buf: seq<seq<Point>>, j: nat): Point
    requires AllPoses(buf) && j < Joints
    decreases |buf|
  {
    if buf == [] then Origin
    else Plus(SumAt(buf[..|buf| - 1], j), buf[|buf| - 1][j])
  }

  /** Mean of every joint over the poses of a non-empty buffer. */
  function Mean(buf: seq<seq<Point>>): (m: seq<Point>)
    requires |buf| > 0 && AllPoses(buf)
    ensures IsPose(m)
  {
    var n := |buf| as real;
    seq(Joints, j requires 0 <= j < Joints => Point(SumAt(buf, j).x / n, SumAt(buf, j).y / n))
  }

  /** n copies of a, added up: n * a without nonlinear arithmetic. */
  function Times(n: nat, a: real): real {
    if n == 0 then 0.0 else Times(n - 1, a) + a
  }

  lemma {:induction false} TimesIsProduct(n: nat, a: real)
    ensures Times(n, a) == n as real * a
  {
    if n > 0 {
      TimesIsProduct(n - 1, a);
      assert n as real * a == (n - 1) as real * a + a;
    }
  }

  lemma {:induction false} SumOfConstant(buf: seq<seq<Point>>, p: seq<Point>, j: nat)
    requires AllPoses(buf) && IsPose(p) && j < Joints
    requires forall k :: 0 <= k < |buf| ==> buf[k] == p
    ensures SumAt(buf, j) == Point(Times(|buf|, p[j].x), Times(|buf|, p[j].y))
  {
    if buf != [] {
      var prefix := buf[..|buf| - 1];
      assert forall k :: 0 <= k < |prefix| ==> prefix[k] == buf[k];
      SumOfConstant(prefix, p, j);
    }
  }

  /** A buffer holding one pose several times smooths to that very pose. */
  lemma MeanOfConstant(buf: seq<seq<Point>>, p: seq<Point>)
    requires |buf| > 0 && AllPoses(buf) && IsPose(p)
    requires forall k :: 0 <= k < |buf| ==> buf[k] == p
    ensures Mean(buf) == p
  {
    var n := |buf|;
    forall j | 0 <= j < Joints ensures Mean(buf)[j] == p[j] {
      SumOfConstant(buf, p, j);
      TimesIsProduct(n, p[j].x);
      TimesIsProduct(n, p[j].y);
    }
  }

  lemma {:induction false} SumBounds(buf: seq<seq<Point>>, j: nat, lo: Point, hi: Point)
    requires AllPoses(buf) && j < Joints
    requires forall k :: 0 <= k < |buf| ==>
      lo.x <= buf[k][j].x <= hi.x && lo.y <= buf[k][j].y <= hi.y
    ensures Times(|buf|, lo.x) <= SumAt(buf, j).x <= Times(|buf|, hi.x)
    ensures Times(|buf|, lo.y) <= SumAt(buf, j).y <= Times(|buf|, hi.y)
  {
    if buf != [] {
      var prefix := buf[..|buf| - 1];
      assert forall k :: 0 <= k < |prefix| ==> prefix[k] == buf[k];
      SumBounds(prefix, j, lo, hi);
    }
  }

  /** The smoothed joint lies in every axis-aligned rectangle that holds all
      buffered samples of that joint: the mean never leaves the samples' range. */
  lemma MeanWithinBounds(buf: seq<seq<Point>>, j: nat, lo: Point, hi: Point)
    requires |buf| > 0 && AllPoses(buf) && j < Joints
    requires forall k :: 0 <= k < |buf| ==>
      lo.x <= buf[k][j].x <= hi.x && lo.y <= buf[k][j].y <= hi.y
    ensures lo.x <= Mean(buf)[j].x <= hi.x && lo.y <= Mean(buf)[j].y <= hi.y
  {
    SumBounds(buf, j, lo, hi);
    var n, s := |buf|, SumAt(buf, j);
    AverageBounds(s.x, n, lo.x, hi.x);
    AverageBounds(s.y, n, lo.y, hi.y);
  }

  lemma AverageBounds(s: real, n: nat, lo: real, hi: real)
    requires n > 0 && Times(n, lo) <= s <= Times(n, hi)
    ensures lo <= s / n as real <= hi
  {
    TimesIsProduct(n, lo);
    TimesIsProduct(n, hi);
    var m := n as real;
    assert s == (s / m) * m;
  }

  // ---------------------------------------------------------------------------
  // Imputation from the last reliable pose
  // ---------------------------------------------------------------------------

  /** A joint is not trusted when its confidence is low or when it sits exactly
      on the image origin. */
  predicate Unreliable(p: Point, c: real) {
    c < MinConfidence || (p.x == 0.0 && p.y == 0.0)
  }

  /** The pose after imputation: every untrusted joint is replaced by the same
      joint of the prior pose, every trusted joint is kept. */
  function Impute(kp: seq<Point>, conf: seq<real>, prior: seq<Point>): (r: seq<Point>)
    requires IsPose(kp) && |conf| == Joints && IsPose(prior)
    ensures IsPose(r)
  {
    seq(Joints, i requires 0 <= i < Joints =>
      if Unreliable(kp[i], conf[i]) then prior[i] else kp[i])
  }

  /** Imputing the same input once more, against the prior that the first pass
      left behind, gives the same pose: a frame that re-uses the cached pose is
      processed to the same result and moves the prior no further. */
  lemma ImputeIsStable(kp: seq<Point>, conf: seq<real>, prior: seq<Point>)
    requires IsPose(kp) && |conf| == Joints && IsPose(prior)
    ensures Impute(kp, conf, Impute(kp, conf, prior)) == Impute(kp, conf, prior)
  {
  }

  // ---------------------------------------------------------------------------
  // Hip-centre normalisation
  // ---------------------------------------------------------------------------

  /** Midpoint of the two hip joints. */
  function HipCentre(kp: seq<Point>): Point
    requires IsPose(kp)
  {
    Point((kp[LeftHip].x + kp[RightHip].x) / 2.0, (kp[LeftHip].y + kp[RightHip].y) / 2.0)
  }

  /** The pose relative to its hip centre, flattened row by row into
      x0, y0, x1, y1, ... */
  function Normalize(kp: seq<Point>): (v: seq<real>)
    requires IsPose(kp)
    ensures |v| == Features
    ensures forall i :: 0 <= i < Joints ==>
      v[2 * i] == kp[i].x - HipCentre(kp).x && v[2 * i + 1] == kp[i].y - HipCentre(kp).y
    ensures v[2 * LeftHip] + v[2 * RightHip] == 0.0
    ensures v[2 * LeftHip + 1] + v[2 * RightHip + 1] == 0.0
  {
    var c := HipCentre(kp);
    seq(Features, k requires 0 <= k < Features =>
      if k % 2 == 0 then kp[k / 2].x - c.x else kp[k / 2].y - c.y)
  }

  function Translate(kp: seq<Point>, d: Point): (r: seq<Point>)
    requires IsPose(kp)
    ensures IsPose(r)
  {
    seq(Joints, i requires 0 <= i < Joints => Plus(kp[i], d))
  }

  /** Shifting the whole pose does not change its normalised vector. */
  lemma NormalizeTranslationInvariant(kp: seq<Point>, d: Point)
    requires IsPose(kp)
    ensures Normalize(Translate(kp, d)) == Normalize(kp)
  {
    var moved := Translate(kp, d);
    assert HipCentre(moved) == Plus(HipCentre(kp), d);
    var a, b := Normalize(moved), Normalize(kp);
    forall k | 0 <= k < Features ensures a[k] == b[k] {
      var i := k / 2;
      assert k == 2 * i || k == 2 * i + 1;
    }
  }
}
