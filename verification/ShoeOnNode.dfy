/** The shoe driver attached to the FT node: from serial lines to the fused wrench. */
module ShoeOnNode {
  import opened AnalogSensor
  import opened Vectors
  import N = FtNode
  import H = FtNodeHistory
  import R = FtNodeReaders
  import S = FtShoe
  import C = FtShoeCalibration

  /** Configured channel ranges that are exactly sensors a and b of the node. */
  predicate RangesAre(cfg: S.Config, a: nat, b: nat) {
    cfg.useFtNode && cfg.firstRange == (6 * a, 6 * a + 5) && cfg.secondRange == (6 * b, 6 * b + 5)
  }

  /** What sensor i of the node shows to a reader after the run. */
  function Shown(sc: N.Scaling, run: seq<R.Step>, i: nat): Wrench
    requires R.Possible(sc, run) && i < |sc|
  {
    R.SnapshotIsWhole(sc, run, i);
    H.LatestWrench(sc, R.SeenLines(sc, run, i), i)
  }

  lemma InputsAreShown(sc: N.Scaling, run: seq<R.Step>, cfg: S.Config, s: S.Sample, a: nat, b: nat)
    requires R.Possible(sc, run) && a < |sc| && b < |sc| && RangesAre(cfg, a, b)
    requires s.node.value == R.After(sc, run).st.measurements
    ensures S.Fits(cfg, s) && S.FrontInput(cfg, s) == Shown(sc, run, a) && S.RearInput(cfg, s) == Shown(sc, run, b)
  {
    hide R.After, H.LatestWrench, R.SeenLines, H.Publications, H.WellFormed, WrenchAt, R.Possible;
    R.SnapshotIsWhole(sc, run, a);
    R.SnapshotIsWhole(sc, run, b);
  }

  /** The same shoe with two sensors attached directly, and what they would have to deliver. */
  function Direct(cfg: S.Config): S.Config { cfg.(useFtNode := false) }

  function DirectSample(front: Wrench, rear: Wrench): S.Sample {
    S.Sample(Reading(front, OK, 0.0), Reading(rear, OK, 0.0), Reading([], OK, 0.0))
  }

  /** Reading s delivers what two direct sensors holding these wrenches would make it deliver. */
  predicate ReadsAs(cfg: S.Config, d: S.DriverState, s: S.Sample, front: Wrench, rear: Wrench) {
    S.Fits(cfg, s) && S.ReadOutput(cfg, d, s) == S.ReadOutput(Direct(cfg), d, DirectSample(front, rear))
  }

  lemma SameOnTwoSensors(cfg: S.Config, d: S.DriverState, s: S.Sample)
    requires S.Fits(cfg, s)
    ensures ReadsAs(cfg, d, s, S.FrontInput(cfg, s), S.RearInput(cfg, s))
  {
    hide Apply6, Add6, Minus6, Mul66;
  }

  /**
   * A shoe read at any point of any interleaving delivers what it would deliver
   * with two sensors attached directly that hold the wrenches its two node
   * sensors have last published, each of them whole.
   */
  lemma ShoeReadsPublishedWrenches(sc: N.Scaling, run: seq<R.Step>, cfg: S.Config, d: S.DriverState, s: S.Sample,
                                   a: nat, b: nat)
    requires R.Possible(sc, run) && a < |sc| && b < |sc| && RangesAre(cfg, a, b)
    requires s.node.value == R.After(sc, run).st.measurements
    ensures ReadsAs(cfg, d, s, Shown(sc, run, a), Shown(sc, run, b))
  {
    hide *;
    InputsAreShown(sc, run, cfg, s, a, b);
    SameOnTwoSensors(cfg, d, s);
  }

  // ---- the node's own state ----

  /**
   * At every point of every run the driver stores the node's state but reports OK, so
   * a read reports what the node answered exactly when the node answered OK.
   */
  lemma {:induction false} WhenTheNodeStatusIsReported(cfg: S.Config, calibration: seq<C.Event>, s: S.Sample)
    requires cfg.useFtNode && C.Possible(cfg, calibration) && S.Fits(cfg, s)
    ensures var d := C.After(cfg, calibration).driver;
            && S.ReadState(cfg, d, s).nodeStatus == s.node.status
            && (S.SampleStatus(cfg, d, s) == s.node.status <==> s.node.status == OK)
  {
    hide C.After, C.OwnLoads;
    C.AlwaysConsistent(cfg, calibration);
  }

  /** The first read of a node that fails. */
  lemma FailingNodeExample(cfg: S.Config, s: S.Sample)
    requires cfg.useFtNode && S.Fits(cfg, s) && s.node.status == ERROR
    ensures C.Possible(cfg, [C.Reader(s)]) && C.After(cfg, [C.Reader(s)]).driver.status == OK
  {
  }
}
