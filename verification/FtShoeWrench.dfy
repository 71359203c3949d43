/**
 * What the fused wrench means mechanically: about which points it has the sum of
 * the two sensors' moments, and what a single load keeps through the pipeline.
 */
module FtShoeWrench {
  import opened AnalogSensor
  import opened Vectors
  import opened FtShoe

  /** A point given in the rear frame, in the coordinates of the front sensor. */
  function InFrontFrame(cfg: Config, p: Vec3): Vec3 {
    Apply(Transpose(cfg.orientation), Minus(p, cfg.offset))
  }

  /** The moments of the two sensors about one point, each taken in its own frame, added in the rear frame. */
  function MomentSum(cfg: Config, front: Wrench, rear: Wrench, p: Vec3): Vec3 {
    Add(MomentAbout(rear, p), Apply(cfg.orientation, MomentAbout(front, InFrontFrame(cfg, p))))
  }

  /** The arm of the front force about p, as a moment in the rear frame. */
  function FrontArm(cfg: Config, front: Wrench, p: Vec3): Vec3 {
    Cross(Minus(p, cfg.offset), Apply(cfg.orientation, front.f))
  }

  /**
   * For an orthogonal mounting matrix the fused wrench has the sum of the two
   * moments about a point exactly when the mounting is a rotation, or the front
   * force has no arm about that point.  (A mirrored mounting is accepted by the
   * driver's configuration and is where the equivalence fails.)
   */
  lemma FusedMoment(cfg: Config, front: Wrench, rear: Wrench, p: Vec3)
    requires Orthogonal(cfg.orientation)
    ensures Fused(cfg, front, rear).f == Add(rear.f, Apply(cfg.orientation, front.f))
    ensures MomentAbout(Fused(cfg, front, rear), p) == MomentSum(cfg, front, rear, p)
       <==> (Det(cfg.orientation) == 1.0 || FrontArm(cfg, front, p) == ZERO3)
  {
    hide Apply, Cross, Add, Minus, Scale, Det, Fused, Transpose, Orthogonal;
    var R, o, d := cfg.orientation, cfg.offset, Det(cfg.orientation);
    var q, Rm, pf := Apply(R, front.f), Apply(R, front.m), InFrontFrame(cfg, p);
    FusedParts(cfg, front, rear);
    assert MomentAbout(Fused(cfg, front, rear), p)
        == Minus(Add(Add(rear.m, Cross(o, q)), Rm), Cross(p, Add(rear.f, q)));
    CrossAdd(rear.f, q, p);
    CrossMinus(p, o, q);
    FrontMomentInRear(cfg, front, p);
    OrthogonalDet(R);
    SameUpToSign(rear.m, Cross(o, q), Rm, Cross(p, rear.f), Cross(p, q), d, FrontArm(cfg, front, p));
  }

  /** The front moment about p, brought to the rear frame, picks up the sign of the mounting. */
  lemma FrontMomentInRear(cfg: Config, front: Wrench, p: Vec3)
    requires Orthogonal(cfg.orientation)
    ensures Apply(cfg.orientation, MomentAbout(front, InFrontFrame(cfg, p)))
         == Minus(Apply(cfg.orientation, front.m), Scale(Det(cfg.orientation), FrontArm(cfg, front, p)))
  {
    hide Apply, Cross, Add, Minus, Scale, Det, Transpose, Orthogonal;
    var R, d, pf := cfg.orientation, Det(cfg.orientation), InFrontFrame(cfg, p);
    OrthogonalKeepsDot(R, Minus(p, cfg.offset), ZERO3);
    CrossUnderOrthogonal(R, pf, front.f);
    OrthogonalDet(R);
    ScaleScale(d, d, Apply(R, Cross(pf, front.f)));
    ScaleOne(Apply(R, Cross(pf, front.f)));
    ApplyMinus(R, front.m, Cross(pf, front.f));
  }

  lemma ScaleOne(v: Vec3)
    ensures Scale(1.0, v) == v
  {
  }

  lemma ApplyMinus(A: Mat3, u: Vec3, v: Vec3)
    ensures Apply(A, Minus(u, v)) == Minus(Apply(A, u), Apply(A, v))
  {
    DotMinus(A.a, u, v);
    DotMinus(A.b, u, v);
    DotMinus(A.c, u, v);
  }

  lemma DotMinus(a: Vec3, u: Vec3, v: Vec3)
    ensures Dot(a, Minus(u, v)) == Dot(a, u) - Dot(a, v)
  {
    Distribute(a.x, u.x, v.x);
    Distribute(a.y, u.y, v.y);
    Distribute(a.z, u.z, v.z);
  }

  lemma SameUpToSign(rm: Vec3, oq: Vec3, Rm: Vec3, prf: Vec3, pq: Vec3, d: real, arm: Vec3)
    requires arm == Minus(pq, oq) && (d == 1.0 || d == -1.0)
    ensures Minus(Add(Add(rm, oq), Rm), Add(prf, pq)) == Add(Minus(rm, prf), Minus(Rm, Scale(d, arm)))
       <==> (d == 1.0 || arm == ZERO3)
  {
  }

  const MIRROR := Mat3(Vec3(1.0, 0.0, 0.0), Vec3(0.0, 1.0, 0.0), Vec3(0.0, 0.0, -1.0))

  lemma MirrorTwice(v: Vec3)
    ensures Apply(MIRROR, v) == Vec3(v.x, v.y, -v.z) == RowTimes(v, MIRROR)
  {
  }

  lemma MirrorIsOrthogonal()
    ensures Orthogonal(MIRROR)
  {
    hide RowTimes, Apply;
    MirrorTwice(MIRROR.a);
    MirrorTwice(MIRROR.b);
    MirrorTwice(MIRROR.c);
    assert Transpose(MIRROR) == MIRROR;
  }

  lemma MirrorDet()
    ensures Det(MIRROR) == -1.0
  {
    hide Dot;
    var n := Vec3(-1.0, 0.0, 0.0);
    assert Cross(MIRROR.b, MIRROR.c) == n;
    assert Dot(MIRROR.a, n) == -1.0 by { DotAxis(1.0, n); }
  }

  /** The driver accepts a mirrored mounting, and then loses the equivalence: one loaded sensor suffices. */
  lemma MirroredMountingExample(cfg: Config, front: Wrench, p: Vec3)
    requires cfg.orientation == MIRROR && cfg.offset == ZERO3
    requires front == Wrench(Vec3(1.0, 0.0, 0.0), ZERO3) && p == Vec3(0.0, 1.0, 0.0)
    ensures MomentAbout(Fused(cfg, front, ZERO6), p) != MomentSum(cfg, front, ZERO6, p)
  {
    hide *;
    MirrorIsOrthogonal();
    MirrorDet();
    MirrorArm(cfg, front, p);
    FusedMoment(cfg, front, ZERO6, p);
  }

  lemma MirrorArm(cfg: Config, front: Wrench, p: Vec3)
    requires cfg.orientation == MIRROR && cfg.offset == ZERO3
    requires front == Wrench(Vec3(1.0, 0.0, 0.0), ZERO3) && p == Vec3(0.0, 1.0, 0.0)
    ensures FrontArm(cfg, front, p) != ZERO3
  {
    hide Apply;
    MirrorTwice(front.f);
  }

  /** The output matrix turns the moment about p into the moment about the turned point, under the same condition. */
  lemma OutputMoment(cfg: Config, w: Wrench, p: Vec3)
    requires Orthogonal(cfg.toOut)
    ensures MomentAbout(Apply6(Output(cfg), w), Apply(cfg.toOut, p)) == Apply(cfg.toOut, MomentAbout(w, p))
       <==> (Det(cfg.toOut) == 1.0 || Cross(p, w.f) == ZERO3)
  {
    hide Apply, Apply6, Cross, Minus, Scale, Det, Orthogonal, Transpose;
    var Q, c := cfg.toOut, Cross(p, w.f);
    OutputMap(cfg, w);
    CrossUnderOrthogonal(Q, p, w.f);
    ApplyMinus(Q, w.m, c);
    OrthogonalDet(Q);
    OrthogonalKeepsDot(Q, c, ZERO3);
    ApplyZero(Q);
    ApplyZero(Transpose(Q));
    MinusUpToSign(Apply(Q, w.m), Det(Q), Apply(Q, c));
  }

  lemma ApplyZero(A: Mat3)
    ensures Apply(A, ZERO3) == ZERO3
  {
  }

  lemma MinusUpToSign(m: Vec3, d: real, c: Vec3)
    requires d == 1.0 || d == -1.0
    ensures Minus(m, Scale(d, c)) == Minus(m, c) <==> (d == 1.0 || c == ZERO3)
  {
  }

  /**
   * End to end, for rotations: what an uncalibrated read delivers has, about every
   * point, the turned sum of the moments of the two corrected readings.
   */
  lemma ReadMoment(cfg: Config, s: Sample, p: Vec3)
    requires Fits(cfg, s)
    requires Orthogonal(cfg.orientation) && Det(cfg.orientation) == 1.0
    requires Orthogonal(cfg.toOut) && Det(cfg.toOut) == 1.0
    ensures var front := Apply6(FrontCorrection(cfg), FrontInput(cfg, s));
            var rear := Apply6(RearCorrection(cfg), RearInput(cfg, s));
            && MomentAbout(Load(cfg, s), Apply(cfg.toOut, p)) == Apply(cfg.toOut, MomentSum(cfg, front, rear, p))
            && Load(cfg, s).f == Apply(cfg.toOut, Add(rear.f, Apply(cfg.orientation, front.f)))
  {
    hide *;
    var front := Apply6(FrontCorrection(cfg), FrontInput(cfg, s));
    var rear := Apply6(RearCorrection(cfg), RearInput(cfg, s));
    LoadIsOutputOfFused(cfg, s);
    FusedMoment(cfg, front, rear, p);
    OutputMoment(cfg, Fused(cfg, front, rear), p);
    OutputMap(cfg, Fused(cfg, front, rear));
  }

  // ---- invariants of a single load ----

  /** Force squared and force times moment: the two screw invariants of a wrench. */
  predicate SameScrew(u: Wrench, v: Wrench) {
    Dot(u.f, u.f) == Dot(v.f, v.f) && Dot(u.f, u.m) == Dot(v.f, v.m)
  }

  lemma OutputKeepsScrew(cfg: Config, w: Wrench)
    requires Orthogonal(cfg.toOut)
    ensures SameScrew(Apply6(Output(cfg), w), w)
  {
    hide Dot, Apply, Apply6, Orthogonal;
    OutputMap(cfg, w);
    OrthogonalKeepsDot(cfg.toOut, w.f, w.f);
    OrthogonalKeepsDot(cfg.toOut, w.f, w.m);
  }

  /** Moving a wrench to another point adds a moment at right angles to its force. */
  lemma TransportKeepsScrew(cfg: Config, w: Wrench)
    requires Orthogonal(cfg.orientation)
    ensures SameScrew(Apply6(Transport(cfg), w), w)
  {
    hide Dot, Apply, Apply6, Cross, Add, Orthogonal;
    var q := Apply(cfg.orientation, w.f);
    TransportMap(cfg, w);
    OrthogonalKeepsDot(cfg.orientation, w.f, w.f);
    OrthogonalKeepsDot(cfg.orientation, w.f, w.m);
    DotLinear(1.0, Cross(cfg.offset, q), Apply(cfg.orientation, w.m), q);
    CrossIsNormal(cfg.offset, q);
    DotSymmetric(q, Cross(cfg.offset, q));
    DotSymmetric(q, Apply(cfg.orientation, w.m));
  }

  lemma DotSymmetric(u: Vec3, v: Vec3)
    ensures Dot(u, v) == Dot(v, u)
  {
  }

  lemma SignKeepsScrew(w: Wrench)
    ensures SameScrew(Scale6(-1.0, w), w)
  {
  }

  lemma AddZero6(w: Wrench)
    ensures Add6(w, ZERO6) == w == Add6(ZERO6, w)
  {
  }

  lemma Apply6Zero(A: Mat6)
    ensures Apply6(A, ZERO6) == ZERO6
  {
  }

  /**
   * With one sensor loaded, no recalibration and no static offset, the force
   * magnitude and the pitch of the applied wrench survive the whole read,
   * whichever sensor carries the load and whether or not the frames are mirrored.
   */
  lemma SingleLoadKeepsScrew(cfg: Config, st: DriverState, s: Sample)
    requires Fits(cfg, s) && !cfg.useInSitu && !st.calibrated
    requires Orthogonal(cfg.orientation) && Orthogonal(cfg.toOut)
    ensures RearInput(cfg, s) == ZERO6 ==> SameScrew(ReadOutput(cfg, st, s), FrontInput(cfg, s))
    ensures FrontInput(cfg, s) == ZERO6 ==> SameScrew(ReadOutput(cfg, st, s), RearInput(cfg, s))
  {
    hide Dot, Apply6, Add6, Scale6, Load, Transport, Output, Orthogonal;
    hide FrontCorrection, RearCorrection, FrontInput, RearInput;
    var front := Apply6(FrontCorrection(cfg), FrontInput(cfg, s));
    var rear := Apply6(RearCorrection(cfg), RearInput(cfg, s));
    LoadIsOutputOfFused(cfg, s);
    CorrectionMaps(cfg, FrontInput(cfg, s));
    CorrectionMaps(cfg, RearInput(cfg, s));
    OutputKeepsScrew(cfg, Fused(cfg, front, rear));
    SignKeepsScrew(FrontInput(cfg, s));
    SignKeepsScrew(RearInput(cfg, s));
    TransportKeepsScrew(cfg, front);
    Apply6Zero(FrontCorrection(cfg));
    Apply6Zero(RearCorrection(cfg));
    Apply6Zero(Transport(cfg));
    AddZero6(Apply6(Transport(cfg), front));
    AddZero6(rear);
  }

  // ---- combined status ----

  /** Severity rank of the states the interface names. */
  function Severity(s: Status): nat
    requires !s.Unknown?
  {
    match s
    case OK => 0
    case OVF => 1
    case TIMEOUT => 2
    case ERROR => 3
  }

  /** The combined state is the more severe one; it is OK only when both sensors are. */
  lemma CombineIsWorst(a: Status, b: Status)
    ensures Combine(a, b) == Combine(b, a) && !Combine(a, b).Unknown?
    ensures Combine(a, b) == OK <==> a == OK && b == OK
    ensures !a.Unknown? ==> Severity(Combine(a, b)) >= Severity(a)
    ensures !a.Unknown? && !b.Unknown? ==> Combine(a, b) == if Severity(a) >= Severity(b) then a else b
  {
  }
}
