/**
 * The force-plate driver: which acquisition rate it selects for a reading period,
 * and which numbers a query for one plate returns.
 */
module Amti {
  import opened AnalogSensor

  // ---- rate selection ----

  /** The rates the plates accept. */
  function AvailableRates(): seq<int> {
    [10, 15, 20, 25, 30, 40, 45, 50, 60, 75, 80, 90, 100, 120, 125, 150, 180,
     200, 225, 240, 250, 300, 360, 400, 450, 500, 600, 800, 900, 1000, 1200, 1500, 1800, 2000]
  }

  predicate Ascending(rates: seq<int>) {
    forall a | 0 < a < |rates| :: rates[a - 1] <= rates[a]
  }

  lemma {:induction false} AscendingPairs(rates: seq<int>, a: nat, b: nat)
    requires Ascending(rates) && a <= b < |rates|
    ensures rates[a] <= rates[b]
  {
    if a < b {
      AscendingPairs(rates, a, b - 1);
    }
  }

  function Ceil(r: real): int { -((-r).Floor) }

  /** Sixteen datasets come per packet, so the rate is sixteen times that of the reading thread. */
  function DesiredRate(periodInMilliseconds: int): int
    requires periodInMilliseconds != 0
  {
    Ceil((1.0 / (periodInMilliseconds as real / 1000.0)) * 16.0)
  }

  /** What the loop body asks of position i before it goes on to the next one. */
  predicate GoesOn(rates: seq<int>, desired: int, i: nat)
    requires i + 1 < |rates|
  {
    !(desired <= rates[i]) && !(desired > rates[i] && desired <= rates[i + 1])
  }

  /** The first exit is taken at index 0 only, on any table: later on the second exit has come before it. */
  lemma FirstExitOnlyAtStart(rates: seq<int>, desired: int, i: nat)
    requires 0 < i < |rates| && forall j | 0 <= j < i :: GoesOn(rates, desired, j)
    ensures !(desired <= rates[i])
  {
    assert GoesOn(rates, desired, i - 1);
  }

  /**
   * The search loop.  On an ascending table it finds the smallest sufficient rate,
   * or the last one when none suffices.
   */
  method SelectRate(rates: seq<int>, desired: int) returns (index: nat)
    requires |rates| > 0
    ensures index < |rates|
    ensures forall j | 0 <= j < index :: rates[j] < desired
    ensures rates[index] >= desired || (index == |rates| - 1 && forall r <- rates :: r < desired)
    ensures Ascending(rates) && rates[index] >= desired ==> forall r <- rates :: r >= desired ==> rates[index] <= r
  {
    index := 0;
    while index < |rates| - 1
      invariant index < |rates|
      invariant forall j | 0 <= j < index :: rates[j] < desired
      invariant forall j | 0 <= j < index :: GoesOn(rates, desired, j)
    {
      if index > 0 {
        FirstExitOnlyAtStart(rates, desired, index);
      }
      if desired <= rates[index] {
        assert index == 0;
        break;
      }
      if desired > rates[index] && desired <= rates[index + 1] {
        index := index + 1;
        break;
      }
      index := index + 1;
    }
    if rates[index] < desired {
      assert forall r <- rates :: r < desired;
    }
    if Ascending(rates) && rates[index] >= desired {
      forall j | 0 <= j < |rates| && rates[j] >= desired
        ensures rates[index] <= rates[j]
      {
        AscendingPairs(rates, index, j);
      }
    }
  }

  lemma DesiredRateIs(period: int, rate: int)
    requires period > 0
    ensures rate >= DesiredRate(period) <==> rate * period >= 16000
  {
    var exact := (1.0 / (period as real / 1000.0)) * 16.0;
    ExactRate(period as real);
    CeilIsLeast(exact, rate);
    if rate as real >= exact {
      assert rate as real * period as real >= exact * period as real;
    } else {
      assert rate as real * period as real < exact * period as real;
    }
    assert (rate * period) as real == rate as real * period as real;
  }

  lemma ExactRate(period: real)
    requires period > 0.0
    ensures ((1.0 / (period / 1000.0)) * 16.0) * period == 16000.0
  {
    var inverse := 1.0 / (period / 1000.0);
    assert inverse * (period / 1000.0) == 1.0;
    assert inverse * period == 1000.0;
    assert (inverse * 16.0) * period == (inverse * period) * 16.0;
  }

  lemma CeilIsLeast(r: real, n: int)
    ensures n >= Ceil(r) <==> n as real >= r
  {
  }

  /**
   * With the driver's own table: the selected rate serves the period (rate times
   * period reaches 16000) exactly for periods of at least 8 ms, and no smaller
   * listed rate does.
   */
  lemma SelectedRateServesPeriod(period: int, index: nat)
    requires period > 0 && index < |AvailableRates()|
    requires var desired := DesiredRate(period);
             && (forall j | 0 <= j < index :: AvailableRates()[j] < desired)
             && (AvailableRates()[index] >= desired
                 || (index == |AvailableRates()| - 1 && forall r <- AvailableRates() :: r < desired))
    ensures AvailableRates()[index] * period >= 16000 <==> period >= 8
    ensures AvailableRates()[index] * period >= 16000 || index == |AvailableRates()| - 1
    ensures forall j | 0 <= j < index :: AvailableRates()[j] * period < 16000
  {
    hide DesiredRate, AvailableRates;
    TableAscends();
    DesiredRateIs(period, AvailableRates()[index]);
    forall j | 0 <= j < index
      ensures AvailableRates()[j] * period < 16000
    {
      DesiredRateIs(period, AvailableRates()[j]);
    }
    DesiredRateIs(period, 2000);
    assert AvailableRates()[index] in AvailableRates();
  }

  lemma TableAscends()
    ensures |AvailableRates()| == 34 && Ascending(AvailableRates()) && 2000 in AvailableRates()
    ensures forall r <- AvailableRates() :: r <= 2000
  {
    var rates := AvailableRates();
    assert |rates| == 34 && rates[33] == 2000;
    assert Ascending(rates);
    BelowLast(rates);
  }

  lemma BelowLast(rates: seq<int>)
    requires Ascending(rates) && rates != []
    ensures forall r <- rates :: r <= rates[|rates| - 1]
  {
    forall a | 0 <= a < |rates|
      ensures rates[a] <= rates[|rates| - 1]
    {
      AscendingPairs(rates, a, |rates| - 1);
    }
  }

  /** The configuration step: search the driver's table for the period's rate. */
  method ConfigureRate(periodInMilliseconds: int) returns (rate: int)
    requires periodInMilliseconds != 0
    ensures rate in AvailableRates()
    ensures rate * periodInMilliseconds >= 16000 <==> periodInMilliseconds >= 8
    ensures forall r <- AvailableRates() :: r * periodInMilliseconds >= 16000 ==> rate <= r
    ensures periodInMilliseconds < 0 ==> rate == 10
    ensures 0 < periodInMilliseconds < 9 ==> rate == 2000
    ensures periodInMilliseconds == 10 ==> rate == 1800
    ensures periodInMilliseconds == 100 ==> rate == 180
    ensures periodInMilliseconds >= 1600 ==> rate == 10
  {
    hide AvailableRates, DesiredRate;
    TableAscends();
    RatesArePositive();
    var rates := AvailableRates();
    var desired := DesiredRate(periodInMilliseconds);
    var index := SelectRate(rates, desired);
    rate := rates[index];
    if periodInMilliseconds > 0 {
      SelectedRateServesPeriod(periodInMilliseconds, index);
      SelectedRateExamples(periodInMilliseconds, index);
      forall r | r in rates && r * periodInMilliseconds >= 16000
        ensures rate <= r
      {
        DesiredRateIs(periodInMilliseconds, r);
      }
    } else {
      forall r | r in rates
        ensures r * periodInMilliseconds < 16000
      {
        NegativePeriod(r, periodInMilliseconds);
      }
      DesiredRateIsNegative(periodInMilliseconds);
    }
  }

  /** The rate selected, period by period: the least one that serves it, and the greatest one for periods below 8 ms. */
  lemma SelectedRateIs(p: int, k: nat)
    requires p > 0 && k < |AvailableRates()|
    requires AvailableRates()[k] * p >= 16000 || k == |AvailableRates()| - 1
    requires k > 0 ==> AvailableRates()[k - 1] * p < 16000
    ensures AvailableRates()[k] ==
              (if p >= 1600 then 10 else if p >= 1067 then 15 else if p >= 800 then 20 else
               if p >= 640 then 25 else if p >= 534 then 30 else if p >= 400 then 40 else if p >= 356 then 45 else
               if p >= 320 then 50 else if p >= 267 then 60 else if p >= 214 then 75 else if p >= 200 then 80 else
               if p >= 178 then 90 else if p >= 160 then 100 else if p >= 134 then 120 else
               if p >= 128 then 125 else if p >= 107 then 150 else if p >= 89 then 180 else
               if p >= 80 then 200 else if p >= 72 then 225 else if p >= 67 then 240 else if p >= 64 then 250 else
               if p >= 54 then 300 else if p >= 45 then 360 else if p >= 40 then 400 else if p >= 36 then 450 else
               if p >= 32 then 500 else if p >= 27 then 600 else if p >= 20 then 800 else if p >= 18 then 900 else
               if p >= 16 then 1000 else if p >= 14 then 1200 else if p >= 11 then 1500 else
               if p >= 9 then 1800 else 2000)
  {
  }

  lemma RatesArePositive()
    ensures forall r <- AvailableRates() :: r >= 10
    ensures 10 in AvailableRates()
  {
  }

  lemma SelectedRateExamples(p: int, k: nat)
    requires p > 0 && k < |AvailableRates()|
    requires AvailableRates()[k] * p >= 16000 || k == |AvailableRates()| - 1
    requires forall j | 0 <= j < k :: AvailableRates()[j] * p < 16000
    ensures p < 9 ==> AvailableRates()[k] == 2000
    ensures p == 10 ==> AvailableRates()[k] == 1800
    ensures p == 100 ==> AvailableRates()[k] == 180
    ensures p >= 1600 ==> AvailableRates()[k] == 10
  {
    hide AvailableRates;
    SelectedRateIs(p, k);
  }

  lemma DesiredRateIsNegative(period: int)
    requires period < 0
    ensures DesiredRate(period) <= 0
  {
    InverseIsNegative(period as real / 1000.0);
  }

  lemma InverseIsNegative(t: real)
    requires t < 0.0
    ensures 1.0 / t <= 0.0
  {
    assert t * (1.0 / t) == 1.0;
  }

  lemma NegativePeriod(r: int, period: int)
    requires r > 0 && period < 0
    ensures r * period < 0
  {
  }

  // ---- packets ----

  /** Datasets in a packet; each has all channels of all plates, one plate after the other. */
  const DATASETS := 16

  /** What one transfer from the device delivers: a count, which is not zero, and the buffer it points to. */
  datatype Packet = Packet(numberOfDataSets: int, buffer: seq<real>)

  /** The driver takes every packet for one of sixteen datasets, whatever its count. */
  predicate IsPacket(packet: Packet, size: nat) {
    packet.numberOfDataSets != 0 && |packet.buffer| >= DATASETS * size
  }

  function LastDataset(packet: Packet, size: nat): (d: seq<real>)
    requires IsPacket(packet, size)
    ensures |d| == size
  {
    packet.buffer[(DATASETS - 1) * size..DATASETS * size]
  }

  // ---- readings ----

  class PlatformsDriver {
    const numOfPlatforms: nat
    const channelSize: nat
    const timeout: real
    var sensorReadings: array<real>
    var timestamp: real
    var status: Status
    var pending: seq<Packet>          // the device's queue
    ghost var received: seq<Packet>   // all that has been taken out of it

    ghost predicate Shape()
      reads this`sensorReadings, this`pending, this`received
    {
      && (channelSize == 6 || channelSize == 8)
      && sensorReadings.Length == (if channelSize == 8 then 8 * numOfPlatforms else 6 * numOfPlatforms)
      && forall packet <- pending + received :: IsPacket(packet, sensorReadings.Length)
    }

    /** The readings are the last dataset of the latest packet. */
    ghost predicate Valid()
      reads this`sensorReadings, this`pending, this`received, sensorReadings
    {
      && Shape()
      && sensorReadings[..] == if received == [] then seq(sensorReadings.Length, _ => 0.0)
                               else LastDataset(received[|received| - 1], sensorReadings.Length)
    }

    /** The driver once opened, in the format of six or eight channels per plate. */
    constructor (platforms: nat, extended: bool, timeout: real, now: real)
      ensures Valid() && numOfPlatforms == platforms && channelSize == (if extended then 8 else 6)
      ensures status == OK && pending == [] && received == []
      ensures fresh(sensorReadings) && timestamp == now && this.timeout == timeout
    {
      numOfPlatforms := platforms;
      channelSize := if extended then 8 else 6;
      this.timeout := timeout;
      sensorReadings := new real[(if extended then 8 else 6) * platforms](_ => 0.0);
      timestamp, status, pending, received := now, OK, [], [];
    }

    /** Takes the next packet, if any, and keeps its last dataset only. */
    method GetCurrentData() returns (numberOfDataSets: int)
      requires Valid()
      modifies this`pending, this`received, sensorReadings
      ensures Valid()
      ensures numberOfDataSets == if old(pending) == [] then 0 else old(pending)[0].numberOfDataSets
      ensures numberOfDataSets == 0 <==> old(pending) == []   // as no packet counts zero datasets
      ensures old(pending) == [] ==> pending == [] && received == old(received)
      ensures old(pending) != [] ==> pending == old(pending)[1..] && received == old(received) + [old(pending)[0]]
    {
      if pending == [] {
        return 0;
      }
      var packet := pending[0];
      assert packet in pending + received;
      pending := pending[1..];
      received := received + [packet];
      assert Shape();
      var size := sensorReadings.Length;
      for i := 0 to size
        modifies sensorReadings
        invariant forall j | 0 <= j < i :: sensorReadings[j] == packet.buffer[15 * size + j]
      {
        sensorReadings[i] := packet.buffer[15 * size + i];
      }
      numberOfDataSets := packet.numberOfDataSets;
      assert sensorReadings[..] == LastDataset(packet, size);
    }

    /** The reader thread's period: drain the queue, then look at the clock. */
    method Run(times: seq<real>, now: real)
      requires Valid() && |times| == |pending|
      modifies this`pending, this`received, this`timestamp, this`status, sensorReadings
      ensures Valid() && pending == [] && received == old(received) + old(pending)
      ensures timestamp == if times == [] then old(timestamp) else times[|times| - 1]
      ensures now - timestamp > timeout || timestamp - now > timeout ==> status == TIMEOUT
      ensures now - timestamp <= timeout && timestamp - now <= timeout ==>
                status == if old(status) == ERROR then ERROR else OK
    {
      hide Valid;
      ghost var before, queue := received, pending;
      var k := 0;
      var n := GetCurrentData();
      while n != 0
        invariant Valid() && 0 <= k <= |queue| && status == old(status)
        invariant if n == 0 then k == |queue| && pending == [] else k < |queue| && pending == queue[k + 1..]
        invariant received == before + queue[..if n == 0 then k else k + 1]
        invariant timestamp == if k == 0 then old(timestamp) else times[k - 1]
        decreases |queue| - k
      {
        timestamp := times[k];
        k := k + 1;
        n := GetCurrentData();
      }
      var silence := now - timestamp;
      if (if silence < 0.0 then -silence else silence) > timeout {
        status := TIMEOUT;
      } else if status != ERROR {
        status := OK;
      }
    }

    /**
     * Force and moment of one plate in the sixteenth dataset of the latest packet: six
     * channels a plate, or eight of which the first, a counter, and the last, a trigger,
     * are skipped.  Zeros before any packet, and for an unknown plate.
     */
    method GetLastMeasurement(platformIndex: nat, measurement: array<real>) returns (result: Status)
      requires Valid() && measurement.Length >= 6 && measurement != sensorReadings
      modifies measurement
      ensures platformIndex >= numOfPlatforms ==>
                result == ERROR && forall i | 0 <= i < measurement.Length :: measurement[i] == 0.0
      ensures platformIndex < numOfPlatforms ==>
                result == status && measurement[6..] == old(measurement[6..])
      ensures platformIndex < numOfPlatforms && received == [] ==> forall i | 0 <= i < 6 :: measurement[i] == 0.0
      ensures platformIndex < numOfPlatforms && received != [] && channelSize == 6 ==>
                var buffer := received[|received| - 1].buffer;
                && |buffer| >= 96 * numOfPlatforms
                && forall i | 0 <= i < 6 :: measurement[i] == buffer[90 * numOfPlatforms + 6 * platformIndex + i]
      ensures platformIndex < numOfPlatforms && received != [] && channelSize == 8 ==>
                var buffer := received[|received| - 1].buffer;
                && |buffer| >= 128 * numOfPlatforms
                && forall i | 0 <= i < 6 :: measurement[i] == buffer[120 * numOfPlatforms + 8 * platformIndex + 1 + i]
    {
      hide LastDataset, IsPacket;
      if platformIndex >= numOfPlatforms {
        for i := 0 to measurement.Length
          invariant forall j | 0 <= j < i :: measurement[j] == 0.0
        {
          measurement[i] := 0.0;
        }
        return ERROR;
      }
      var startingIndex := platformIndex * channelSize;
      if channelSize == 8 {
        startingIndex := startingIndex + 1;
      }
      assert startingIndex == FirstComponent(platformIndex, channelSize);
      for i := 0 to 6
        invariant forall j | 0 <= j < i :: measurement[j] == sensorReadings[startingIndex + j]
        invariant measurement[6..] == old(measurement[6..])
      {
        measurement[i] := sensorReadings[startingIndex + i];
      }
      LatestReadings();
      result := status;
    }

    /** The readings, as places in the buffer of the latest packet. */
    lemma LatestReadings()
      requires Valid()
      ensures received == [] ==> forall at | 0 <= at < sensorReadings.Length :: sensorReadings[at] == 0.0
      ensures received != [] ==>
                var n, buffer := numOfPlatforms, received[|received| - 1].buffer;
                && |buffer| >= (if channelSize == 8 then 128 * n else 96 * n)
                && (channelSize == 6 ==> forall at | 0 <= at < 6 * n :: sensorReadings[at] == buffer[90 * n + at])
                && (channelSize == 8 ==> forall at | 0 <= at < 8 * n :: sensorReadings[at] == buffer[120 * n + at])
    {
      assert forall at | 0 <= at < sensorReadings.Length :: sensorReadings[at] == sensorReadings[..][at];
      assert received != [] ==> received[|received| - 1] in pending + received;
    }

    /**
     * A query right after a drain: the six values are the force and moment channels of
     * the plate in the sixteenth dataset of the last packet that was in the queue, and
     * when the queue was empty they are what a query before the drain would have given.
     */
    method QueryAfterDrain(times: seq<real>, now: real, p: nat, measurement: array<real>) returns (result: Status)
      requires Valid() && |times| == |pending| && p < numOfPlatforms
      requires measurement.Length >= 6 && measurement != sensorReadings
      modifies this`pending, this`received, this`timestamp, this`status, sensorReadings, measurement
      ensures Valid() && result == status && received == old(received) + old(pending)
      ensures old(pending) != [] ==>
                var n, buffer := numOfPlatforms, old(pending)[|old(pending)| - 1].buffer;
                && |buffer| >= (if channelSize == 8 then 128 * n else 96 * n)
                && (channelSize == 6 ==> forall i | 0 <= i < 6 :: measurement[i] == buffer[90 * n + 6 * p + i])
                && (channelSize == 8 ==> forall i | 0 <= i < 6 :: measurement[i] == buffer[120 * n + 8 * p + 1 + i])
      ensures old(pending) == [] && old(received) == [] ==> forall i | 0 <= i < 6 :: measurement[i] == 0.0
      ensures old(pending) == [] && old(received) != [] ==>
                var n, buffer := numOfPlatforms, old(received)[|old(received)| - 1].buffer;
                && |buffer| >= (if channelSize == 8 then 128 * n else 96 * n)
                && (channelSize == 6 ==> forall i | 0 <= i < 6 :: measurement[i] == buffer[90 * n + 6 * p + i])
                && (channelSize == 8 ==> forall i | 0 <= i < 6 :: measurement[i] == buffer[120 * n + 8 * p + 1 + i])
    {
      Run(times, now);
      result := GetLastMeasurement(p, measurement);
    }
  }

  /** The channel where the six components of a plate's wrench start; the eight-channel format has a counter first. */
  function FirstComponent(plate: nat, channelSize: nat): nat {
    if channelSize == 8 then 8 * plate + 1 else 6 * plate
  }

  /** Different plates never share a channel, and the counter and trigger channels belong to none. */
  lemma PlatesAreDisjoint(p: nat, q: nat, channelSize: nat)
    requires p < q && (channelSize == 6 || channelSize == 8)
    ensures FirstComponent(p, channelSize) + 6 <= FirstComponent(q, channelSize)
    ensures channelSize == 8 ==> 8 * p < FirstComponent(p, 8) && FirstComponent(p, 8) + 6 == 8 * p + 7
  {
  }
}
