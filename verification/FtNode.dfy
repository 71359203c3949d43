/**
 * The FT node: a serial line carries four sub-messages, each one half (force or
 * torque) of the wrench of one sensor.  Halves wait in per-sensor buffers until
 * both are there; then the wrench is published and the buffers are cleared.
 */
module FtNode {
  import opened AnalogSensor
  import opened Vectors
  import opened LineParser

  datatype Half = Force | Torque

  datatype SubMessage = SubMessage(x: real, y: real, z: real, source: int, kind: int)

  /** The waiting halves of one sensor. */
  datatype Slot = Slot(force: Vec3, forceFlag: bool, torque: Vec3, torqueFlag: bool)

  /** Six scaling factors per sensor, force first. */
  type Scaling = s: seq<seq<real>> | forall row <- s :: |row| == 6

  datatype NodeState = NodeState(slots: seq<Slot>, measurements: seq<real>)

  const CLEARED := Slot(ZERO3, false, ZERO3, false)

  predicate Shaped(sc: Scaling, st: NodeState) {
    |st.slots| == |sc| && |st.measurements| == 6 * |sc|
  }

  // ---- from a line to sub-messages ----

  /** Conversion of a double to int: towards zero. */
  function Truncate(r: real): (n: int)
    ensures r >= 0.0 ==> 0 <= n && n as real <= r < n as real + 1.0
    ensures r <= 0.0 ==> n <= 0 && n as real - 1.0 < r <= n as real
  {
    if r >= 0.0 then r.Floor else -((-r).Floor)
  }

  /** Each component comes low byte first. */
  function SubMessageAt(vs: seq<real>, k: nat): SubMessage
    requires 8 * k + 7 < |vs|
  {
    SubMessage(vs[8 * k + 1] * 256.0 + vs[8 * k], vs[8 * k + 3] * 256.0 + vs[8 * k + 2],
               vs[8 * k + 5] * 256.0 + vs[8 * k + 4], Truncate(vs[8 * k + 6]), Truncate(vs[8 * k + 7]))
  }

  /** The sub-messages the driver takes from a line: four, or none when there are not 32 numbers. */
  function SubMessages(line: string): seq<SubMessage> {
    var vs := Values(line);
    if line == "" || |vs| != 32 then []
    else [SubMessageAt(vs, 0), SubMessageAt(vs, 1), SubMessageAt(vs, 2), SubMessageAt(vs, 3)]
  }

  // ---- storing a half ----

  /** A 16-bit reading, 32768 being zero, in the sensor's unit. */
  function ToUnit(word: real, scale: real): real { ((word - 32768.0) / 32768.0) * scale }

  function Scaled(m: SubMessage, row: seq<real>, h: Half): Vec3
    requires |row| == 6
  {
    var at := if h == Force then 0 else 3;
    Vec3(ToUnit(m.x, row[at]), ToUnit(m.y, row[at + 1]), ToUnit(m.z, row[at + 2]))
  }

  function Code(h: Half): int { if h == Force then 1 else 2 }

  /** A half from a sensor number below 1 makes the buffer access throw. */
  predicate Throws(m: SubMessage) { m.source < 1 && (m.kind == 1 || m.kind == 2) }

  function Store(sc: Scaling, slots: seq<Slot>, m: SubMessage): (r: seq<Slot>)
    requires |slots| == |sc| && !Throws(m)
    ensures |r| == |slots|
  {
    var i := m.source - 1;
    if m.source > |slots| then slots
    else if m.kind == 1 then slots[i := slots[i].(force := Scaled(m, sc[i], Force), forceFlag := true)]
    else if m.kind == 2 then slots[i := slots[i].(torque := Scaled(m, sc[i], Torque), torqueFlag := true)]
    else slots
  }

  /** The buffers after ms, up to the first sub-message that throws. */
  function StoreAll(sc: Scaling, slots: seq<Slot>, ms: seq<SubMessage>): (r: seq<Slot>)
    requires |slots| == |sc|
    ensures |r| == |slots|
  {
    if ms == [] then slots
    else
      var n := |ms| - 1;
      var before := StoreAll(sc, slots, ms[..n]);
      if exists m <- ms :: Throws(m) then before else Store(sc, before, ms[n])
  }

  // ---- publishing ----

  function WriteWrench(values: seq<real>, at: nat, w: Wrench): (r: seq<real>)
    requires at + 5 < |values|
    ensures |r| == |values|
  {
    values[at := w.f.x][at + 1 := w.f.y][at + 2 := w.f.z][at + 3 := w.m.x][at + 4 := w.m.y][at + 5 := w.m.z]
  }

  /** One turn of the publishing loop, a single critical section: sensor i, if both its halves wait. */
  function Publish(sc: Scaling, st: NodeState, i: nat): (r: NodeState)
    requires Shaped(sc, st) && i < |sc|
    ensures Shaped(sc, r)
  {
    var slot := st.slots[i];
    if slot.forceFlag && slot.torqueFlag then
      NodeState(st.slots[i := CLEARED], WriteWrench(st.measurements, 6 * i, Wrench(slot.force, slot.torque)))
    else st
  }

  function PublishUpTo(sc: Scaling, st: NodeState, k: nat): (r: NodeState)
    requires Shaped(sc, st) && k <= |sc|
    ensures Shaped(sc, r)
  {
    if k == 0 then st else Publish(sc, PublishUpTo(sc, st, k - 1), k - 1)
  }

  // ---- one run ----

  predicate LineThrows(line: string) { exists m <- SubMessages(line) :: Throws(m) }

  /** The unlocked first part of a run: it only touches the waiting halves. */
  function Arrive(sc: Scaling, st: NodeState, line: string): (r: NodeState)
    requires Shaped(sc, st)
    ensures Shaped(sc, r)
  {
    st.(slots := StoreAll(sc, st.slots, SubMessages(line)))
  }

  function RunOnce(sc: Scaling, st: NodeState, line: string): (r: NodeState)
    requires Shaped(sc, st)
    ensures Shaped(sc, r)
  {
    if LineThrows(line) then Arrive(sc, st, line) else PublishUpTo(sc, Arrive(sc, st, line), |sc|)
  }

  function Initial(sc: Scaling): (st: NodeState)
    ensures Shaped(sc, st)
  {
    NodeState(seq(|sc|, _ => CLEARED), seq(6 * |sc|, _ => 0.0))
  }

  // ---- the driver ----

  class FtNodeDriver {
    const wrenchScalingFactors: Scaling
    var serialPortWrenchData: array<Slot>
    var measurements: array<real>

    ghost predicate Valid()
      reads this
    {
      && serialPortWrenchData.Length == |wrenchScalingFactors|
      && measurements.Length == 6 * |wrenchScalingFactors|
      && serialPortWrenchData as object != measurements
    }

    ghost function State(): (st: NodeState)
      requires Valid()
      reads this, serialPortWrenchData, measurements
      ensures Shaped(wrenchScalingFactors, st)
    {
      NodeState(serialPortWrenchData[..], measurements[..])
    }

    constructor (scaling: Scaling)
      ensures Valid() && wrenchScalingFactors == scaling && State() == Initial(scaling)
      ensures fresh(serialPortWrenchData) && fresh(measurements)
    {
      wrenchScalingFactors := scaling;
      serialPortWrenchData := new Slot[|scaling|](_ => CLEARED);
      measurements := new real[6 * |scaling|](_ => 0.0);
    }

    /** Stores one half; the index check of the buffers is the exception of the original. */
    method StoreHalf(m: SubMessage) returns (threw: bool)
      requires Valid()
      modifies serialPortWrenchData
      ensures threw == Throws(m)
      ensures serialPortWrenchData[..] == if threw then old(serialPortWrenchData[..])
                                          else Store(wrenchScalingFactors, old(serialPortWrenchData[..]), m)
      ensures 1 <= m.source <= serialPortWrenchData.Length && m.kind == 1 ==>
                var slot, scale := serialPortWrenchData[m.source - 1], wrenchScalingFactors[m.source - 1];
                && slot.forceFlag
                && 32768.0 * slot.force.x == (m.x - 32768.0) * scale[0]
                && 32768.0 * slot.force.y == (m.y - 32768.0) * scale[1]
                && 32768.0 * slot.force.z == (m.z - 32768.0) * scale[2]
      ensures 1 <= m.source <= serialPortWrenchData.Length && m.kind == 2 ==>
                var slot, scale := serialPortWrenchData[m.source - 1], wrenchScalingFactors[m.source - 1];
                && slot.torqueFlag
                && 32768.0 * slot.torque.x == (m.x - 32768.0) * scale[3]
                && 32768.0 * slot.torque.y == (m.y - 32768.0) * scale[4]
                && 32768.0 * slot.torque.z == (m.z - 32768.0) * scale[5]
    {
      hide ToUnit;
      threw := false;
      if m.source > serialPortWrenchData.Length {
        return;
      }
      if m.kind == 1 || m.kind == 2 {
        if m.source < 1 {
          return true;
        }
        var i := m.source - 1;
        ScaledIs(m, wrenchScalingFactors[i]);
        if m.kind == 1 {
          serialPortWrenchData[i] := serialPortWrenchData[i].(
            force := Scaled(m, wrenchScalingFactors[i], Force), forceFlag := true);
        } else {
          serialPortWrenchData[i] := serialPortWrenchData[i].(
            torque := Scaled(m, wrenchScalingFactors[i], Torque), torqueFlag := true);
        }
      }
    }

    /** One critical section of the publishing loop. */
    method PublishSensor(i: nat)
      requires Valid() && i < |wrenchScalingFactors|
      modifies serialPortWrenchData, measurements
      ensures State() == Publish(wrenchScalingFactors, old(State()), i)
    {
      var slot := serialPortWrenchData[i];
      if slot.forceFlag && slot.torqueFlag {
        measurements[6 * i] := slot.force.x;
        measurements[6 * i + 1] := slot.force.y;
        measurements[6 * i + 2] := slot.force.z;
        measurements[6 * i + 3] := slot.torque.x;
        measurements[6 * i + 4] := slot.torque.y;
        measurements[6 * i + 5] := slot.torque.z;
        serialPortWrenchData[i] := CLEARED;
      }
    }

    /** The loop over the sub-messages of a line. */
    method StoreLine(line: string) returns (threw: bool)
      requires Valid()
      modifies serialPortWrenchData
      ensures State() == Arrive(wrenchScalingFactors, old(State()), line)
      ensures threw == LineThrows(line)
    {
      hide StoreAll, Store, Values, Throws;
      ghost var slots, ms := serialPortWrenchData[..], SubMessages(line);
      threw := false;
      StoreNone(wrenchScalingFactors, slots);
      if |line| == 0 {
        return;
      }
      var values := ReadValues(line);
      if |values| != 32 {
        return;
      }
      var k := 0;
      while k < 4
        invariant 0 <= k <= 4
        invariant forall j | 0 <= j < k :: !Throws(ms[j])
        invariant serialPortWrenchData[..] == StoreAll(wrenchScalingFactors, slots, ms[..k])
      {
        assert SubMessageAt(values, k) == ms[k];
        threw := StoreHalf(SubMessageAt(values, k));
        if threw {
          ThrowEndsStore(wrenchScalingFactors, slots, ms, k);
          assert ms[k] in ms;
          return;
        }
        StoreOne(wrenchScalingFactors, slots, ms, k);
        k := k + 1;
      }
      assert ms[..4] == ms;
    }

    /** One period of the thread on a received line. */
    method Run(line: string) returns (threw: bool)
      requires Valid()
      modifies serialPortWrenchData, measurements
      ensures State() == RunOnce(wrenchScalingFactors, old(State()), line)
      ensures threw == LineThrows(line)
    {
      hide StoreAll, Publish, LineThrows;
      ghost var before := State();
      threw := StoreLine(line);
      if threw {
        return;
      }
      var i := 0;
      while i < serialPortWrenchData.Length
        invariant 0 <= i <= |wrenchScalingFactors|
        invariant State() == PublishUpTo(wrenchScalingFactors, Arrive(wrenchScalingFactors, before, line), i)
      {
        PublishSensor(i);
        i := i + 1;
      }
    }

    /** The reader's side: a copy of all channels under the mutex, and never a complaint. */
    method Read() returns (out: seq<real>, status: Status)
      requires Valid()
      ensures out == State().measurements && status == OK
    {
      out, status := measurements[..], OK;
    }
  }

  lemma ToUnitIs(word: real, scale: real)
    ensures 32768.0 * ToUnit(word, scale) == (word - 32768.0) * scale
  {
  }

  /** Component by component: x, y and z go by scales 0, 1, 2 of a force and 3, 4, 5 of a torque. */
  lemma ScaledIs(m: SubMessage, row: seq<real>)
    requires |row| == 6
    ensures var f := Scaled(m, row, Force);
            && 32768.0 * f.x == (m.x - 32768.0) * row[0]
            && 32768.0 * f.y == (m.y - 32768.0) * row[1]
            && 32768.0 * f.z == (m.z - 32768.0) * row[2]
    ensures var t := Scaled(m, row, Torque);
            && 32768.0 * t.x == (m.x - 32768.0) * row[3]
            && 32768.0 * t.y == (m.y - 32768.0) * row[4]
            && 32768.0 * t.z == (m.z - 32768.0) * row[5]
  {
    hide ToUnit;
    ToUnitIs(m.x, row[0]);
    ToUnitIs(m.y, row[1]);
    ToUnitIs(m.z, row[2]);
    ToUnitIs(m.x, row[3]);
    ToUnitIs(m.y, row[4]);
    ToUnitIs(m.z, row[5]);
  }

  lemma StoreNone(sc: Scaling, slots: seq<Slot>)
    requires |slots| == |sc|
    ensures StoreAll(sc, slots, []) == slots
  {
  }

  lemma StoreOne(sc: Scaling, slots: seq<Slot>, ms: seq<SubMessage>, k: nat)
    requires |slots| == |sc| && k < |ms| && forall j | 0 <= j <= k :: !Throws(ms[j])
    ensures StoreAll(sc, slots, ms[..k + 1]) == Store(sc, StoreAll(sc, slots, ms[..k]), ms[k])
  {
    assert ms[..k + 1][..k] == ms[..k];
  }

  /** Nothing is stored from the first throwing sub-message on. */
  lemma {:induction false} ThrowEndsStore(sc: Scaling, slots: seq<Slot>, ms: seq<SubMessage>, k: nat)
    requires |slots| == |sc| && k < |ms| && Throws(ms[k])
    ensures StoreAll(sc, slots, ms) == StoreAll(sc, slots, ms[..k])
    decreases |ms|
  {
    var n := |ms| - 1;
    assert ms[k] in ms;
    if k < n {
      assert ms[..n][..k] == ms[..k];
      ThrowEndsStore(sc, slots, ms[..n], k);
    }
  }

  // ---- the documented line layout ----

  /** One sub-message as the sensor's microcontroller prints it: bytes, low byte first. */
  datatype Frame = Frame(x: (nat, nat), y: (nat, nat), z: (nat, nat), address: nat, kind: nat)

  predicate IsByte(n: nat) { n < 256 }

  function Bytes(f: Frame): seq<nat> {
    [f.x.0, f.x.1, f.y.0, f.y.1, f.z.0, f.z.1, f.address, f.kind]
  }

  function Word(lowHigh: (nat, nat)): real { (256 * lowHigh.1 + lowHigh.0) as real }

  /** The sub-message that a frame means. */
  function MessageOf(f: Frame): SubMessage {
    SubMessage(Word(f.x), Word(f.y), Word(f.z), f.address, f.kind)
  }

  /** Printing four frames and running the parser gives back their words, address and kind. */
  lemma FramesRoundTrip(f0: Frame, f1: Frame, f2: Frame, f3: Frame, tail: string)
    requires Ends(tail) && ',' !in tail
    ensures var line := PrintLine(Bytes(f0) + Bytes(f1) + Bytes(f2) + Bytes(f3), tail);
            SubMessages(line) == [MessageOf(f0), MessageOf(f1), MessageOf(f2), MessageOf(f3)]
  {
    hide Values, PrintLine;
    var ns := Bytes(f0) + Bytes(f1) + Bytes(f2) + Bytes(f3);
    var line := PrintLine(ns, tail);
    ValuesOfPrintLine(ns, tail);
    LineIsNotEmpty(line);
    FrameAt(Values(line), 0, f0);
    FrameAt(Values(line), 1, f1);
    FrameAt(Values(line), 2, f2);
    FrameAt(Values(line), 3, f3);
  }

  lemma LineIsNotEmpty(line: string)
    requires |Values(line)| == 32
    ensures line != ""
  {
    assert |Tokens("")| == 1;
  }

  lemma FrameAt(vs: seq<real>, k: nat, f: Frame)
    requires 8 * k + 7 < |vs| && forall i | 8 * k <= i < 8 * k + 8 :: vs[i] == Bytes(f)[i - 8 * k] as real
    ensures SubMessageAt(vs, k) == MessageOf(f)
  {
    var at := 8 * k;
    assert vs[at] == f.x.0 as real && vs[at + 1] == f.x.1 as real;
    assert vs[at + 2] == f.y.0 as real && vs[at + 3] == f.y.1 as real;
    assert vs[at + 4] == f.z.0 as real && vs[at + 5] == f.z.1 as real;
    assert vs[at + 6] == f.address as real && vs[at + 7] == f.kind as real;
  }
}
