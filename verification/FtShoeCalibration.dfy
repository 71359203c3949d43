/**
 * The static offset: what weights the halving average gives to the calibration
 * readings, and what holds while other threads keep reading during a calibration.
 */
module FtShoeCalibration {
  import opened AnalogSensor
  import opened Vectors
  import opened FtShoe

  // ---- the halving average of one channel ----

  function Halved(first: real, rest: seq<real>): real {
    if rest == [] then first else (Halved(first, rest[..|rest| - 1]) + rest[|rest| - 1]) / 2.0
  }

  function Pow2(n: nat): (p: real)
    ensures p > 0.0
  {
    if n == 0 then 1.0 else 2.0 * Pow2(n - 1)
  }

  /** The weight of reading k (0 is the first one) after n further readings. */
  function Weight(n: nat, k: nat): (w: real)
    requires k <= n
    ensures w > 0.0
  {
    if k == 0 then 1.0 / Pow2(n) else 1.0 / Pow2(n - k + 1)
  }

  /** The sum of weight times reading over the first reading and the next k ones. */
  function WeightedSum(n: nat, first: real, rest: seq<real>, k: nat): real
    requires k <= n == |rest|
  {
    if k == 0 then Weight(n, 0) * first else WeightedSum(n, first, rest, k - 1) + Weight(n, k) * rest[k - 1]
  }

  function TotalWeight(n: nat, k: nat): real
    requires k <= n
  {
    if k == 0 then Weight(n, 0) else TotalWeight(n, k - 1) + Weight(n, k)
  }

  lemma HalfWeight(n: nat, k: nat)
    requires k <= n
    ensures Weight(n + 1, k) == Weight(n, k) / 2.0
  {
    var m := if k == 0 then n else n - k + 1;
    HalfInverse(Pow2(m), Pow2(m + 1));
  }

  lemma HalfInverse(p: real, q: real)
    requires p > 0.0 && q == 2.0 * p
    ensures 1.0 / q == (1.0 / p) / 2.0
  {
  }

  lemma {:induction false} HalfSum(n: nat, first: real, rest: seq<real>, x: real, k: nat)
    requires k <= n == |rest|
    ensures WeightedSum(n + 1, first, rest + [x], k) == WeightedSum(n, first, rest, k) / 2.0
  {
    HalfWeight(n, k);
    if k == 0 {
      HalfTimes(Weight(n, 0), first);
    } else {
      HalfSum(n, first, rest, x, k - 1);
      HalfTimes(Weight(n, k), rest[k - 1]);
    }
  }

  lemma HalfTimes(w: real, x: real)
    ensures (w / 2.0) * x == (w * x) / 2.0
  {
  }

  /** The average in closed form: the last reading weighs 1/2, each earlier one half of the next. */
  lemma {:induction false} HalvedIsWeightedSum(first: real, rest: seq<real>)
    ensures Halved(first, rest) == WeightedSum(|rest|, first, rest, |rest|)
  {
    if rest != [] {
      var n, init := |rest| - 1, rest[..|rest| - 1];
      HalvedIsWeightedSum(first, init);
      assert init + [rest[n]] == rest;
      HalfSum(n, first, init, rest[n], n);
      assert Weight(n + 1, n + 1) == 1.0 / Pow2(1) == 0.5 by { assert Pow2(1) == 2.0 * Pow2(0); }
    }
  }

  lemma {:induction false} HalfTotal(n: nat, k: nat)
    requires k <= n
    ensures TotalWeight(n + 1, k) == TotalWeight(n, k) / 2.0
  {
    HalfWeight(n, k);
    if k > 0 {
      HalfTotal(n, k - 1);
    }
  }

  lemma {:induction false} WeightsSumToOne(n: nat)
    ensures TotalWeight(n, n) == 1.0
  {
    if n > 0 {
      WeightsSumToOne(n - 1);
      HalfTotal(n - 1, n - 1);
      assert Weight(n, n) == 1.0 / Pow2(1) == 0.5 by { assert Pow2(1) == 2.0 * Pow2(0); }
    }
  }

  lemma {:induction false} HalvedWithin(first: real, rest: seq<real>, lo: real, hi: real)
    requires lo <= first <= hi && forall i | 0 <= i < |rest| :: lo <= rest[i] <= hi
    ensures lo <= Halved(first, rest) <= hi
  {
    if rest != [] {
      HalvedWithin(first, rest[..|rest| - 1], lo, hi);
    }
  }

  // ---- the six channels ----

  function Channel(w: Wrench, k: nat): real
    requires k < 6
  {
    [w.f.x, w.f.y, w.f.z, w.m.x, w.m.y, w.m.z][k]
  }

  function Channels(ws: seq<Wrench>, k: nat): (xs: seq<real>)
    requires k < 6
    ensures |xs| == |ws|
  {
    seq(|ws|, i requires 0 <= i < |ws| => Channel(ws[i], k))
  }

  lemma {:induction false} HalvingPerChannel(first: Wrench, rest: seq<Wrench>, k: nat)
    requires k < 6
    ensures Channel(Halving(first, rest), k) == Halved(Channel(first, k), Channels(rest, k))
  {
    if rest != [] {
      var n := |rest| - 1;
      HalvingPerChannel(first, rest[..n], k);
      assert Channels(rest, k)[..n] == Channels(rest[..n], k);
    }
  }

  /**
   * The stored offset of channel k after the first reading and n accepted ones is
   * the weighted sum of exactly these readings, all weights being positive with sum one.
   */
  lemma OffsetIsWeightedSum(first: Wrench, accepted: seq<Wrench>, k: nat)
    requires k < 6
    ensures Channel(Halving(first, accepted), k)
         == WeightedSum(|accepted|, Channel(first, k), Channels(accepted, k), |accepted|)
    ensures TotalWeight(|accepted|, |accepted|) == 1.0
  {
    HalvingPerChannel(first, accepted, k);
    HalvedIsWeightedSum(Channel(first, k), Channels(accepted, k));
    WeightsSumToOne(|accepted|);
  }

  /** So the offset lies between any bounds that the readings respect. */
  lemma OffsetWithin(first: Wrench, accepted: seq<Wrench>, k: nat, lo: real, hi: real)
    requires k < 6 && lo <= Channel(first, k) <= hi
    requires forall i | 0 <= i < |accepted| :: lo <= Channel(accepted[i], k) <= hi
    ensures lo <= Channel(Halving(first, accepted), k) <= hi
  {
    hide Halving, Channel;
    HalvingPerChannel(first, accepted, k);
    HalvedWithin(Channel(first, k), Channels(accepted, k), lo, hi);
  }

  /** Every channel of u is at most e away from that of v. */
  predicate Near(u: Wrench, v: Wrench, e: real) {
    forall k :: 0 <= k < 6 ==> Channel(v, k) - e <= Channel(u, k) <= Channel(v, k) + e
  }

  lemma OffsetNear(first: Wrench, accepted: seq<Wrench>, c: Wrench, e: real)
    requires Near(first, c, e) && forall w <- accepted :: Near(w, c, e)
    ensures Near(Halving(first, accepted), c, e)
  {
    forall k | 0 <= k < 6
      ensures Channel(c, k) - e <= Channel(Halving(first, accepted), k) <= Channel(c, k) + e
    {
      forall i | 0 <= i < |accepted|
        ensures Channel(c, k) - e <= Channel(accepted[i], k) <= Channel(c, k) + e
      {
        assert Near(accepted[i], c, e);
      }
      OffsetWithin(first, accepted, k, Channel(c, k) - e, Channel(c, k) + e);
    }
  }

  // ---- calibration with readers in between ----

  /** What can happen between two releases of the driver's mutex. */
  datatype Event =
    | Reader(s: Sample)     // a read by another thread
    | Begin                 // the calibration resets flag and offsets
    | First(s: Sample)      // its first read, which aborts it unless OK
    | Further(s: Sample)    // one read of its averaging loop
    | Commit                // it stores the average

  /** Where the calibrating thread stands. */
  datatype Phase = Idle | Begun | Averaging(average: Wrench)

  datatype System = System(driver: DriverState, phase: Phase)

  predicate Enabled(cfg: Config, sys: System, e: Event) {
    match e
    case Reader(s) => Fits(cfg, s)
    case Begin => sys.phase.Idle?
    case First(s) => sys.phase.Begun? && Fits(cfg, s)
    case Further(s) => sys.phase.Averaging? && Fits(cfg, s)
    case Commit => sys.phase.Averaging?
  }

  function Next(cfg: Config, sys: System, e: Event): System
    requires Enabled(cfg, sys, e)
  {
    hide ReadState, ReadOutput, Midpoint, SampleStatus;
    var d := sys.driver;
    match e
    case Reader(s) => System(ReadState(cfg, d, s), sys.phase)
    case Begin => System(d.(offsets := ZERO6, calibrated := false), Begun)
    case First(s) =>
      System(ReadState(cfg, d, s), if SampleStatus(cfg, d, s) == OK then Averaging(ReadOutput(cfg, d, s)) else Idle)
    case Further(s) =>
      System(ReadState(cfg, d, s),
             if SampleStatus(cfg, d, s) == OK then Averaging(Midpoint(sys.phase.average, ReadOutput(cfg, d, s)))
             else sys.phase)
    case Commit => System(d.(offsets := sys.phase.average, calibrated := true), Idle)
  }

  /** A run from the state after construction, in any order the threads allow. */
  predicate Possible(cfg: Config, run: seq<Event>)
    decreases |run|, 0
  {
    run == [] || (Possible(cfg, run[..|run| - 1]) && Enabled(cfg, After(cfg, run[..|run| - 1]), run[|run| - 1]))
  }

  function After(cfg: Config, run: seq<Event>): System
    requires Possible(cfg, run)
    decreases |run|, 1
  {
    if run == [] then System(INITIAL, Idle) else Next(cfg, After(cfg, run[..|run| - 1]), run[|run| - 1])
  }

  /** The loads that the calibration itself has read and accepted since it last began. */
  function OwnLoads(cfg: Config, run: seq<Event>): seq<Wrench>
    requires Possible(cfg, run)
  {
    if run == [] then []
    else
      var earlier := OwnLoads(cfg, run[..|run| - 1]);
      match run[|run| - 1]
      case Begin => []
      case First(s) => earlier + if SampleStatus(cfg, INITIAL, s) == OK then [Load(cfg, s)] else []
      case Further(s) => earlier + if SampleStatus(cfg, INITIAL, s) == OK then [Load(cfg, s)] else []
      case Reader(_) => earlier
      case Commit => earlier
  }

  function Average(loads: seq<Wrench>): Wrench
    requires loads != []
  {
    Halving(loads[0], loads[1..])
  }

  /** The state at every release of the mutex, related to the calibration's own readings alone. */
  ghost predicate Consistent(cfg: Config, run: seq<Event>)
    requires Possible(cfg, run)
  {
    var sys, own := After(cfg, run), OwnLoads(cfg, run);
    && (!sys.driver.calibrated ==> sys.driver.offsets == ZERO6)
    && (sys.driver.calibrated ==> sys.phase.Idle? && own != [] && sys.driver.offsets == Average(own))
    && (sys.phase.Begun? ==> own == [])
    && (sys.phase.Averaging? ==> own != [] && sys.phase.average == Average(own))
    && (forall s :: SampleStatus(cfg, sys.driver, s) == SampleStatus(cfg, INITIAL, s))
  }

  lemma AverageExtends(loads: seq<Wrench>, w: Wrench)
    requires loads != []
    ensures Average(loads + [w]) == Midpoint(Average(loads), w)
  {
    var rest := (loads + [w])[1..];
    assert rest[..|rest| - 1] == loads[1..];
  }

  /**
   * At every lock release of every interleaving: uncalibrated means zero offsets,
   * and the stored or growing average is that of the calibration's own accepted
   * readings, whatever other threads read and whatever was calibrated before.
   */
  lemma {:induction false} AlwaysConsistent(cfg: Config, run: seq<Event>)
    requires Possible(cfg, run)
    ensures Consistent(cfg, run)
  {
    hide Load, Midpoint, FrontCorrection, RearCorrection, FrontInput, RearInput, Minus6, Combine, Apply6, Average;
    if run != [] {
      var prefix, e := run[..|run| - 1], run[|run| - 1];
      AlwaysConsistent(cfg, prefix);
      var own := OwnLoads(cfg, prefix);
      if e.Further? {
        AverageExtends(own, Load(cfg, e.s));
        assert own + [] == own;
      } else if e.First? {
        AverageOfOne(Load(cfg, e.s));
        assert own + [Load(cfg, e.s)] == [Load(cfg, e.s)];
      }
    }
  }

  lemma AverageOfOne(w: Wrench)
    ensures Average([w]) == w
  {
  }

  lemma MinusZero6(w: Wrench)
    ensures Minus6(w, ZERO6) == w
  {
  }

  /**
   * Outside FT-node mode, at every point of every run: a reading joins the average
   * exactly when both sensors have answered OK.
   */
  lemma OnlyGoodReadingsCount(cfg: Config, run: seq<Event>, e: Event)
    requires !cfg.useFtNode && (e.First? || e.Further?) && Possible(cfg, run + [e])
    ensures Possible(cfg, run) && Fits(cfg, e.s)
    ensures var good := e.s.front.status == OK && e.s.rear.status == OK;
            OwnLoads(cfg, run + [e]) == OwnLoads(cfg, run) + (if good then [Load(cfg, e.s)] else [])
  {
    hide Load, After, Next;
    assert (run + [e])[..|run|] == run;
  }

  /** So the guard around the subtraction is never needed: every read subtracts the stored offsets. */
  lemma ReadSubtractsOffsets(cfg: Config, run: seq<Event>, s: Sample)
    requires Possible(cfg, run) && Fits(cfg, s)
    ensures ReadOutput(cfg, After(cfg, run).driver, s) == Minus6(Load(cfg, s), After(cfg, run).driver.offsets)
  {
    hide Load, Minus6, After;
    AlwaysConsistent(cfg, run);
    MinusZero6(Load(cfg, s));
  }

  /**
   * End to end: when every reading the calibration accepted was within e of load c,
   * each later read of a load within d of c delivers zero up to e + d.
   */
  lemma CalibratedReadNearZero(cfg: Config, run: seq<Event>, s: Sample, c: Wrench, e: real, d: real)
    requires Possible(cfg, run) && Fits(cfg, s) && After(cfg, run).driver.calibrated
    requires forall w <- OwnLoads(cfg, run) :: Near(w, c, e)
    requires Near(Load(cfg, s), c, d)
    ensures Near(ReadOutput(cfg, After(cfg, run).driver, s), ZERO6, e + d)
  {
    hide Load, Halving, After, OwnLoads;
    AlwaysConsistent(cfg, run);
    ReadSubtractsOffsets(cfg, run, s);
    var own := OwnLoads(cfg, run);
    OffsetNear(own[0], own[1..], c, e);
    NearMinus(Load(cfg, s), Average(own), c, d, e);
  }

  lemma NearMinus(u: Wrench, v: Wrench, c: Wrench, d: real, e: real)
    requires Near(u, c, d) && Near(v, c, e)
    ensures Near(Minus6(u, v), ZERO6, e + d)
  {
    forall k | 0 <= k < 6
      ensures Channel(ZERO6, k) - (e + d) <= Channel(Minus6(u, v), k) <= Channel(ZERO6, k) + (e + d)
    {
      assert Channel(Minus6(u, v), k) == Channel(u, k) - Channel(v, k);
    }
  }

  /** A failed first reading aborts the calibration and leaves the driver uncalibrated with zero offsets. */
  lemma AbortedCalibration(cfg: Config, run: seq<Event>, s: Sample)
    requires Possible(cfg, run) && After(cfg, run).phase.Begun? && Fits(cfg, s)
    requires SampleStatus(cfg, INITIAL, s) != OK
    ensures Possible(cfg, run + [First(s)])
    ensures var sys := After(cfg, run + [First(s)]);
            sys.phase.Idle? && !sys.driver.calibrated && sys.driver.offsets == ZERO6
  {
    hide Load, FrontCorrection, RearCorrection;
    AlwaysConsistent(cfg, run);
    assert (run + [First(s)])[..|run|] == run;
  }

  // ---- the driver's calibration is one of the interleavings ----

  function Furthers(samples: seq<Sample>): seq<Event> {
    seq(|samples|, i requires 0 <= i < |samples| => Further(samples[i]))
  }

  function Calibration(first: Sample, samples: seq<Sample>): seq<Event> {
    [Begin, First(first)] + Furthers(samples)
  }

  /** The system while a calibration runs: reset, first reading and some further ones behind it. */
  function InProgress(cfg: Config, reset: DriverState, first: Sample, samples: seq<Sample>): System
    requires Fits(cfg, first) && forall s <- samples :: Fits(cfg, s)
  {
    System(ReadAll(cfg, reset, [first] + samples), Averaging(Halving(Load(cfg, first), Accepted(cfg, reset, samples))))
  }

  lemma AddEvent(cfg: Config, run: seq<Event>, e: Event)
    requires Possible(cfg, run) && Enabled(cfg, After(cfg, run), e)
    ensures Possible(cfg, run + [e]) && After(cfg, run + [e]) == Next(cfg, After(cfg, run), e)
  {
    hide Next, Enabled;
    assert (run + [e])[..|run|] == run;
  }

  lemma {:induction false} UninterruptedAverage(cfg: Config, run: seq<Event>, first: Sample, samples: seq<Sample>, n: nat)
    requires Possible(cfg, run) && After(cfg, run).phase.Idle? && n <= |samples|
    requires Fits(cfg, first) && forall s <- samples :: Fits(cfg, s)
    requires SampleStatus(cfg, After(cfg, run).driver.(offsets := ZERO6, calibrated := false), first) == OK
    ensures Possible(cfg, run + Calibration(first, samples[..n]))
    ensures After(cfg, run + Calibration(first, samples[..n]))
         == InProgress(cfg, After(cfg, run).driver.(offsets := ZERO6, calibrated := false), first, samples[..n])
  {
    hide Possible, After, Load, Halving, Accepted, Midpoint, ReadState, SampleStatus, OwnLoads;
    var reset := After(cfg, run).driver.(offsets := ZERO6, calibrated := false);
    if n == 0 {
      assert run + Calibration(first, samples[..0]) == run + [Begin] + [First(first)];
      AddEvent(cfg, run, Begin);
      AddEvent(cfg, run + [Begin], First(first));
      AcceptNone(cfg, reset, Load(cfg, first));
      ReadOne(cfg, reset, first);
      assert [first] + samples[..0] == [first] && samples[..0] == [];
    } else {
      UninterruptedAverage(cfg, run, first, samples, n - 1);
      assert run + Calibration(first, samples[..n])
          == run + Calibration(first, samples[..n - 1]) + [Further(samples[n - 1])];
      assert samples[n - 1] in samples;
      AddEvent(cfg, run + Calibration(first, samples[..n - 1]), Further(samples[n - 1]));
      ReadAllKeeps(cfg, reset, [first] + samples[..n - 1]);
      AcceptOne(cfg, reset, Load(cfg, first), samples, n - 1);
      assert ([first] + samples[..n])[..n] == [first] + samples[..n - 1];
    }
  }

  lemma ReadOne(cfg: Config, st: DriverState, s: Sample)
    requires Fits(cfg, s)
    ensures ReadAll(cfg, st, [s]) == ReadState(cfg, st, s)
  {
    hide ReadState;
    assert [s][..0] == [];
  }

  /** A calibration that nobody interrupts leaves the state that CalibrateSensor promises. */
  lemma UninterruptedCalibration(cfg: Config, run: seq<Event>, first: Sample, samples: seq<Sample>)
    requires Possible(cfg, run) && After(cfg, run).phase.Idle?
    requires Fits(cfg, first) && forall s <- samples :: Fits(cfg, s)
    requires SampleStatus(cfg, After(cfg, run).driver.(offsets := ZERO6, calibrated := false), first) == OK
    ensures Possible(cfg, run + Calibration(first, samples) + [Commit])
    ensures After(cfg, run + Calibration(first, samples) + [Commit]).driver
         == Calibrated(cfg, After(cfg, run).driver.(offsets := ZERO6, calibrated := false), first, samples)
  {
    hide Possible, After, Load, Halving, Accepted, SampleStatus, ReadAll;
    assert samples[..|samples|] == samples;
    UninterruptedAverage(cfg, run, first, samples, |samples|);
    AddEvent(cfg, run + Calibration(first, samples), Commit);
  }
}
