/**
 * The force/torque shoe: two six-axis sensors read together, brought to one
 * frame, fused into one wrench and corrected by a static offset.
 */
module FtShoe {
  import opened AnalogSensor
  import opened Vectors

  datatype Config = Config(
    useFtNode: bool,              // both wrenches come from one FT node
    firstRange: (nat, nat),       // inclusive channel ranges of the two wrenches
    secondRange: (nat, nat),
    offset: Vec3,                 // of the front sensor, in the rear frame
    orientation: Mat3,            // from the front frame to the rear frame
    toOut: Mat3,                  // from the rear frame to the output frame
    useInSitu: bool,
    frontInSitu: Mat6,
    rearInSitu: Mat6)

  /** What the attached devices answer to one read; the node is asked in FT-node mode, the other two outside it. */
  datatype Sample = Sample(front: Reading<Wrench>, rear: Reading<Wrench>, node: Reading<seq<real>>)

  /** The fields of the driver that its mutex guards. */
  datatype DriverState = DriverState(
    front: Wrench, rear: Wrench, frontStatus: Status, rearStatus: Status, nodeStatus: Status, status: Status,
    stamp: real, offsets: Wrench, calibrated: bool)

  const INITIAL := DriverState(ZERO6, ZERO6, OK, OK, OK, OK, 0.0, ZERO6, false)

  /** In FT-node mode each configured range is six channels that the node really has. */
  predicate Fits(cfg: Config, s: Sample) {
    cfg.useFtNode ==>
      && cfg.firstRange.1 == cfg.firstRange.0 + 5 && cfg.firstRange.1 < |s.node.value|
      && cfg.secondRange.1 == cfg.secondRange.0 + 5 && cfg.secondRange.1 < |s.node.value|
  }

  function FrontInput(cfg: Config, s: Sample): Wrench
    requires Fits(cfg, s)
  {
    if cfg.useFtNode then WrenchAt(s.node.value, cfg.firstRange.0) else s.front.value
  }

  function RearInput(cfg: Config, s: Sample): Wrench
    requires Fits(cfg, s)
  {
    if cfg.useFtNode then WrenchAt(s.node.value, cfg.secondRange.0) else s.rear.value
  }

  // ---- the fixed linear maps behind a read ----

  /** Change of sign, then recalibration when it is switched on. */
  function FrontCorrection(cfg: Config): Mat6 {
    if cfg.useInSitu then Mul66(cfg.frontInSitu, MINUS_IDENTITY6) else MINUS_IDENTITY6
  }

  function RearCorrection(cfg: Config): Mat6 {
    if cfg.useInSitu then Mul66(cfg.rearInSitu, MINUS_IDENTITY6) else MINUS_IDENTITY6
  }

  /** A wrench at the front sensor, seen from the rear frame. */
  function Transport(cfg: Config): Mat6 {
    Mat6(cfg.orientation, NULL3, Mul33(Skew(cfg.offset), cfg.orientation), cfg.orientation)
  }

  function Output(cfg: Config): Mat6 { Mat6(cfg.toOut, NULL3, NULL3, cfg.toOut) }

  function FrontMap(cfg: Config): Mat6 { Mul66(Output(cfg), Mul66(Transport(cfg), FrontCorrection(cfg))) }

  function RearMap(cfg: Config): Mat6 { Mul66(Output(cfg), RearCorrection(cfg)) }

  /** The wrench of a sample before offset removal: one linear map of each input. */
  function Load(cfg: Config, s: Sample): Wrench
    requires Fits(cfg, s)
  {
    Add6(Apply6(FrontMap(cfg), FrontInput(cfg, s)), Apply6(RearMap(cfg), RearInput(cfg, s)))
  }

  /** The more severe of two sensor states; no explicit order is given to unknown codes. */
  function Combine(a: Status, b: Status): Status {
    if a == ERROR || b == ERROR then ERROR
    else if a == TIMEOUT || b == TIMEOUT then TIMEOUT
    else if a == OVF || b == OVF then OVF
    else if a == OK && b == OK then OK
    else ERROR
  }

  /** The state that a read of s reports; in FT-node mode it is made from what the two sensor states were before. */
  function SampleStatus(cfg: Config, st: DriverState, s: Sample): Status {
    if cfg.useFtNode then Combine(st.frontStatus, st.rearStatus) else Combine(s.front.status, s.rear.status)
  }

  /** The time of a read: half way between the two sensors, or that of the node. */
  function SampleTime(cfg: Config, s: Sample): real {
    if cfg.useFtNode then s.node.time else (s.front.time + s.rear.time) / 2.0
  }

  function ReadState(cfg: Config, st: DriverState, s: Sample): DriverState
    requires Fits(cfg, s)
  {
    st.(front := Apply6(FrontCorrection(cfg), FrontInput(cfg, s)),
        rear := Apply6(RearCorrection(cfg), RearInput(cfg, s)),
        frontStatus := if cfg.useFtNode then st.frontStatus else s.front.status,
        rearStatus := if cfg.useFtNode then st.rearStatus else s.rear.status,
        nodeStatus := if cfg.useFtNode then s.node.status else st.nodeStatus,
        status := SampleStatus(cfg, st, s),
        stamp := SampleTime(cfg, s))
  }

  function ReadOutput(cfg: Config, st: DriverState, s: Sample): Wrench
    requires Fits(cfg, s)
  {
    if st.calibrated then Minus6(Load(cfg, s), st.offsets) else Load(cfg, s)
  }

  // ---- the calibration average ----

  function Midpoint(u: Wrench, v: Wrench): Wrench {
    Wrench(Vec3((u.f.x + v.f.x) / 2.0, (u.f.y + v.f.y) / 2.0, (u.f.z + v.f.z) / 2.0),
           Vec3((u.m.x + v.m.x) / 2.0, (u.m.y + v.m.y) / 2.0, (u.m.z + v.m.z) / 2.0))
  }

  /** Each further reading moves the average half way towards it. */
  function Halving(first: Wrench, rest: seq<Wrench>): Wrench {
    if rest == [] then first else Midpoint(Halving(first, rest[..|rest| - 1]), rest[|rest| - 1])
  }

  /** The loads of the samples whose combined status is OK, in order. */
  function Accepted(cfg: Config, st: DriverState, samples: seq<Sample>): seq<Wrench>
    requires forall s <- samples :: Fits(cfg, s)
  {
    if samples == [] then []
    else
      var last := samples[|samples| - 1];
      Accepted(cfg, st, samples[..|samples| - 1]) + if SampleStatus(cfg, st, last) == OK then [Load(cfg, last)] else []
  }

  function ReadAll(cfg: Config, st: DriverState, samples: seq<Sample>): DriverState
    requires forall s <- samples :: Fits(cfg, s)
  {
    if samples == [] then st
    else ReadState(cfg, ReadAll(cfg, st, samples[..|samples| - 1]), samples[|samples| - 1])
  }

  /** After a calibration whose first reading was OK. */
  function Calibrated(cfg: Config, st: DriverState, first: Sample, samples: seq<Sample>): DriverState
    requires Fits(cfg, first) && forall s <- samples :: Fits(cfg, s)
  {
    ReadAll(cfg, st, [first] + samples).(
      offsets := Halving(Load(cfg, first), Accepted(cfg, st, samples)), calibrated := true)
  }

  /** Reading touches neither the calibration nor, in FT-node mode, the two sensor states. */
  lemma {:induction false} ReadAllKeeps(cfg: Config, st: DriverState, samples: seq<Sample>)
    requires forall s <- samples :: Fits(cfg, s)
    ensures var st' := ReadAll(cfg, st, samples);
            && st'.offsets == st.offsets && st'.calibrated == st.calibrated
            && forall s :: SampleStatus(cfg, st', s) == SampleStatus(cfg, st, s)
  {
    hide Apply6, Load, FrontCorrection, RearCorrection;
    if samples != [] {
      ReadAllKeeps(cfg, st, samples[..|samples| - 1]);
    }
  }

  lemma AcceptNone(cfg: Config, st: DriverState, first: Wrench)
    ensures Halving(first, Accepted(cfg, st, [])) == first
  {
  }

  lemma AcceptOne(cfg: Config, st: DriverState, first: Wrench, samples: seq<Sample>, n: nat)
    requires n < |samples| && forall s <- samples :: Fits(cfg, s)
    ensures var before := Halving(first, Accepted(cfg, st, samples[..n]));
            var after := Halving(first, Accepted(cfg, st, samples[..n + 1]));
            after == if SampleStatus(cfg, st, samples[n]) == OK then Midpoint(before, Load(cfg, samples[n])) else before
  {
    hide Load, Midpoint;
    assert samples[..n + 1][..n] == samples[..n];
    var before, load := Accepted(cfg, st, samples[..n]), Load(cfg, samples[n]);
    assert before + [] == before && (before + [load])[..|before|] == before;
  }

  // ---- the driver ----

  class FtShoeDriver {
    const cfg: Config
    var fSensorReadings: Wrench
    var sSensorReadings: Wrench
    var fStatus: Status
    var sStatus: Status
    var ftNodeStatus: Status
    var pStatus: Status
    var fTimestamp: real
    var sTimestamp: real
    var devoutTimestamp: real
    var staticOffsets: Wrench
    var calibrated: bool

    /** The driver once its devices are attached. */
    constructor (cfg: Config)
      ensures this.cfg == cfg && State() == INITIAL
    {
      this.cfg := cfg;
      fSensorReadings, sSensorReadings := ZERO6, ZERO6;
      fStatus, sStatus, ftNodeStatus, pStatus := OK, OK, OK, OK;
      fTimestamp, sTimestamp, devoutTimestamp := 0.0, 0.0, 0.0;
      staticOffsets, calibrated := ZERO6, false;
    }

    function State(): DriverState
      reads this
    {
      DriverState(fSensorReadings, sSensorReadings, fStatus, sStatus, ftNodeStatus, pStatus, devoutTimestamp,
                  staticOffsets, calibrated)
    }

    method CombineFtsStatus()
      modifies this`pStatus
      ensures pStatus == Combine(fStatus, sStatus) && !pStatus.Unknown?
      ensures pStatus == OK <==> fStatus == OK && sStatus == OK
      ensures pStatus == TIMEOUT <==> fStatus != ERROR && sStatus != ERROR && (fStatus == TIMEOUT || sStatus == TIMEOUT)
      ensures pStatus == OVF <==>
                && fStatus != ERROR && sStatus != ERROR && fStatus != TIMEOUT && sStatus != TIMEOUT
                && (fStatus == OVF || sStatus == OVF)
    {
      if fStatus == ERROR || sStatus == ERROR {
        pStatus := ERROR;
      } else if fStatus == TIMEOUT || sStatus == TIMEOUT {
        pStatus := TIMEOUT;
      } else if fStatus == OVF || sStatus == OVF {
        pStatus := OVF;
      } else if fStatus == OK && sStatus == OK {
        pStatus := OK;
      } else {
        pStatus := ERROR;
      }
    }

    /**
     * One read under the mutex, step by step; the contract names only the fixed maps.
     * Outside FT-node mode both sensors' states go into the state reported, which is
     * OK only when both are.
     */
    method Read(s: Sample) returns (out: Wrench, status: Status)
      requires Fits(cfg, s)
      modifies this
      ensures State() == ReadState(cfg, old(State()), s)
      ensures out == ReadOutput(cfg, old(State()), s)
      ensures status == SampleStatus(cfg, old(State()), s)
      ensures fStatus == (if cfg.useFtNode then old(fStatus) else s.front.status)
      ensures sStatus == (if cfg.useFtNode then old(sStatus) else s.rear.status)
      ensures status == pStatus && !status.Unknown?
      ensures status == OK <==> fStatus == OK && sStatus == OK
      ensures status == TIMEOUT <==> fStatus != ERROR && sStatus != ERROR && (fStatus == TIMEOUT || sStatus == TIMEOUT)
      ensures status == OVF <==>
                && fStatus != ERROR && sStatus != ERROR && fStatus != TIMEOUT && sStatus != TIMEOUT
                && (fStatus == OVF || sStatus == OVF)
      ensures cfg.useFtNode ==> devoutTimestamp == s.node.time
      ensures !cfg.useFtNode ==> 2.0 * devoutTimestamp == s.front.time + s.rear.time
    {
      hide Load, Apply6, Apply, Add, Cross, Scale6, Minus6, FrontCorrection, RearCorrection, WrenchAt;
      if cfg.useFtNode {
        ftNodeStatus := s.node.status;
        fSensorReadings, fTimestamp := WrenchAt(s.node.value, cfg.firstRange.0), s.node.time;
        sSensorReadings, sTimestamp := WrenchAt(s.node.value, cfg.secondRange.0), s.node.time;
      } else {
        fSensorReadings, fStatus, fTimestamp := s.front.value, s.front.status, s.front.time;
        sSensorReadings, sStatus, sTimestamp := s.rear.value, s.rear.status, s.rear.time;
      }
      fSensorReadings := Scale6(-1.0, fSensorReadings);
      sSensorReadings := Scale6(-1.0, sSensorReadings);
      if cfg.useInSitu {
        fSensorReadings := Apply6(cfg.frontInSitu, fSensorReadings);
        sSensorReadings := Apply6(cfg.rearInSitu, sSensorReadings);
      }
      var forces := Add(sSensorReadings.f, Apply(cfg.orientation, fSensorReadings.f));
      var moments := Add(sSensorReadings.m, Cross(cfg.offset, Apply(cfg.orientation, fSensorReadings.f)));
      moments := Add(moments, Apply(cfg.orientation, fSensorReadings.m));
      if cfg.toOut != IDENTITY3 {
        forces := Apply(cfg.toOut, forces);
        moments := Apply(cfg.toOut, moments);
      }
      out := Wrench(forces, moments);
      PipelineIsLinear(cfg, s, fSensorReadings, sSensorReadings, out);
      if calibrated {
        out := Minus6(out, staticOffsets);
      }
      devoutTimestamp := (fTimestamp + sTimestamp) / 2.0;
      CombineFtsStatus();
      status := pStatus;
    }

    /**
     * Calibration without other readers in between: reset, a first reading that must
     * succeed, a run of further readings, commit.  How many readings fit into
     * the five seconds is the caller's choice of samples.
     */
    method CalibrateSensor(first: Sample, samples: seq<Sample>) returns (status: Status)
      requires Fits(cfg, first) && forall s <- samples :: Fits(cfg, s)
      modifies this
      ensures var reset := old(State()).(offsets := ZERO6, calibrated := false);
              if SampleStatus(cfg, reset, first) != OK then
                status == ERROR && State() == ReadState(cfg, reset, first)
              else
                State() == Calibrated(cfg, reset, first, samples) && status == State().status
      ensures calibrated <==> if cfg.useFtNode then old(fStatus) == OK && old(sStatus) == OK
                              else first.front.status == OK && first.rear.status == OK
      ensures !calibrated ==> status == ERROR && staticOffsets == ZERO6
    {
      hide Load, Apply6, Minus6, Midpoint, Accepted, Halving, SampleStatus;
      hide FrontCorrection, RearCorrection, FrontInput, RearInput;
      calibrated := false;
      staticOffsets := ZERO6;
      ghost var reset := State();
      var tmpOffsets, st := Read(first);
      if st != OK {
        return ERROR;
      }
      assert ([first] + samples)[..1] == [first] && [first][..0] == [];
      assert ReadAll(cfg, reset, [first]) == ReadState(cfg, ReadAll(cfg, reset, []), first);
      AcceptNone(cfg, reset, Load(cfg, first));
      var n := 0;
      while n < |samples|
        invariant n <= |samples|
        invariant State() == ReadAll(cfg, reset, ([first] + samples)[..n + 1])
        invariant !calibrated
        invariant tmpOffsets == Halving(Load(cfg, first), Accepted(cfg, reset, samples[..n]))
      {
        ReadAllKeeps(cfg, reset, ([first] + samples)[..n + 1]);
        AcceptOne(cfg, reset, Load(cfg, first), samples, n);
        var calSample;
        calSample, st := Read(samples[n]);
        if st == OK {
          tmpOffsets := Midpoint(tmpOffsets, calSample);
        }
        n := n + 1;
        assert ([first] + samples)[..n + 1][..n] == ([first] + samples)[..n];
      }
      assert samples[..n] == samples && ([first] + samples)[..n + 1] == [first] + samples;
      staticOffsets := tmpOffsets;
      calibrated := true;
      status := pStatus;
    }
  }

  // ---- the steps of a read compose to the fixed maps ----

  lemma OutputMap(cfg: Config, w: Wrench)
    ensures Apply6(Output(cfg), w) == Wrench(Apply(cfg.toOut, w.f), Apply(cfg.toOut, w.m))
    ensures cfg.toOut == IDENTITY3 ==> Apply6(Output(cfg), w) == w
  {
    ApplyIdentity(w.f);
    ApplyIdentity(w.m);
  }

  lemma TransportMap(cfg: Config, w: Wrench)
    ensures Apply6(Transport(cfg), w)
         == Wrench(Apply(cfg.orientation, w.f),
                   Add(Cross(cfg.offset, Apply(cfg.orientation, w.f)), Apply(cfg.orientation, w.m)))
  {
    ApplyMul33(Skew(cfg.offset), cfg.orientation, w.f);
    ApplySkew(cfg.offset, Apply(cfg.orientation, w.f));
    ApplyIdentity(w.m);
  }

  lemma CorrectionMaps(cfg: Config, w: Wrench)
    ensures Apply6(FrontCorrection(cfg), w)
         == if cfg.useInSitu then Apply6(cfg.frontInSitu, Scale6(-1.0, w)) else Scale6(-1.0, w)
    ensures Apply6(RearCorrection(cfg), w)
         == if cfg.useInSitu then Apply6(cfg.rearInSitu, Scale6(-1.0, w)) else Scale6(-1.0, w)
  {
    hide Apply6, Mul66, Scale6;
    ApplyMinusIdentity(w);
    ApplyMul66(cfg.frontInSitu, MINUS_IDENTITY6, w);
    ApplyMul66(cfg.rearInSitu, MINUS_IDENTITY6, w);
  }

  /**
   * Without recalibration the two readings a read leaves are, channel by channel, the
   * inputs with their signs changed: from the node's configured ranges, or from the
   * two sensors.
   */
  lemma ReadNegates(cfg: Config, st: DriverState, s: Sample)
    requires Fits(cfg, s) && !cfg.useInSitu
    ensures cfg.useFtNode ==>
              var v, a, b := s.node.value, cfg.firstRange.0, cfg.secondRange.0;
              var st' := ReadState(cfg, st, s);
              && st'.front == Wrench(Vec3(-v[a], -v[a + 1], -v[a + 2]), Vec3(-v[a + 3], -v[a + 4], -v[a + 5]))
              && st'.rear == Wrench(Vec3(-v[b], -v[b + 1], -v[b + 2]), Vec3(-v[b + 3], -v[b + 4], -v[b + 5]))
    ensures !cfg.useFtNode ==>
              var f, r := s.front.value, s.rear.value;
              var st' := ReadState(cfg, st, s);
              && st'.front == Wrench(Vec3(-f.f.x, -f.f.y, -f.f.z), Vec3(-f.m.x, -f.m.y, -f.m.z))
              && st'.rear == Wrench(Vec3(-r.f.x, -r.f.y, -r.f.z), Vec3(-r.m.x, -r.m.y, -r.m.z))
  {
    hide Apply6;
    CorrectionMaps(cfg, FrontInput(cfg, s));
    CorrectionMaps(cfg, RearInput(cfg, s));
  }

  /**
   * A sensor that leaves the driver's buffer as it was, having nothing to deliver, is
   * taken to have measured the corrected reading of the time before: without
   * recalibration its sign changes from read to read.
   */
  lemma UntouchedReadingTurns(cfg: Config, st: DriverState, s: Sample)
    requires !cfg.useFtNode && !cfg.useInSitu
    ensures s.front.value == st.front ==> ReadState(cfg, st, s).front == Scale6(-1.0, st.front)
    ensures s.rear.value == st.rear ==> ReadState(cfg, st, s).rear == Scale6(-1.0, st.rear)
  {
    hide Apply6, Scale6;
    CorrectionMaps(cfg, s.front.value);
    CorrectionMaps(cfg, s.rear.value);
  }

  lemma Apply6Add(A: Mat6, u: Wrench, v: Wrench)
    ensures Apply6(A, Add6(u, v)) == Add6(Apply6(A, u), Apply6(A, v))
  {
    ApplyLinear(A.ff, 1.0, u.f, v.f);
    ApplyLinear(A.fm, 1.0, u.m, v.m);
    ApplyLinear(A.mf, 1.0, u.f, v.f);
    ApplyLinear(A.mm, 1.0, u.m, v.m);
  }

  /** The wrench that the two corrected readings exert together, in the rear frame. */
  function Fused(cfg: Config, front: Wrench, rear: Wrench): Wrench {
    Add6(Apply6(Transport(cfg), front), rear)
  }

  lemma LoadIsOutputOfFused(cfg: Config, s: Sample)
    requires Fits(cfg, s)
    ensures Load(cfg, s) == Apply6(Output(cfg), Fused(cfg, Apply6(FrontCorrection(cfg), FrontInput(cfg, s)),
                                                           Apply6(RearCorrection(cfg), RearInput(cfg, s))))
  {
    var f, r := FrontInput(cfg, s), RearInput(cfg, s);
    ApplyMul66(Output(cfg), Mul66(Transport(cfg), FrontCorrection(cfg)), f);
    ApplyMul66(Transport(cfg), FrontCorrection(cfg), f);
    ApplyMul66(Output(cfg), RearCorrection(cfg), r);
    Apply6Add(Output(cfg), Apply6(Transport(cfg), Apply6(FrontCorrection(cfg), f)), Apply6(RearCorrection(cfg), r));
  }

  /** What Read computes in steps, from the inputs to the fused and rotated wrench. */
  lemma PipelineIsLinear(cfg: Config, s: Sample, front: Wrench, rear: Wrench, out: Wrench)
    requires Fits(cfg, s)
    requires front == if cfg.useInSitu then Apply6(cfg.frontInSitu, Scale6(-1.0, FrontInput(cfg, s)))
                      else Scale6(-1.0, FrontInput(cfg, s))
    requires rear == if cfg.useInSitu then Apply6(cfg.rearInSitu, Scale6(-1.0, RearInput(cfg, s)))
                     else Scale6(-1.0, RearInput(cfg, s))
    requires var forces := Add(rear.f, Apply(cfg.orientation, front.f));
             var moments := Add(Add(rear.m, Cross(cfg.offset, Apply(cfg.orientation, front.f))),
                                Apply(cfg.orientation, front.m));
             out == if cfg.toOut != IDENTITY3 then Wrench(Apply(cfg.toOut, forces), Apply(cfg.toOut, moments))
                    else Wrench(forces, moments)
    ensures out == Load(cfg, s)
    ensures front == Apply6(FrontCorrection(cfg), FrontInput(cfg, s))
    ensures rear == Apply6(RearCorrection(cfg), RearInput(cfg, s))
  {
    hide *;
    CorrectionMaps(cfg, FrontInput(cfg, s));
    CorrectionMaps(cfg, RearInput(cfg, s));
    LoadIsOutputOfFused(cfg, s);
    OutputMap(cfg, Fused(cfg, front, rear));
    FusedParts(cfg, front, rear);
  }

  lemma FusedParts(cfg: Config, front: Wrench, rear: Wrench)
    ensures Fused(cfg, front, rear)
         == Wrench(Add(rear.f, Apply(cfg.orientation, front.f)),
                   Add(Add(rear.m, Cross(cfg.offset, Apply(cfg.orientation, front.f))), Apply(cfg.orientation, front.m)))
  {
    TransportMap(cfg, front);
  }
}
