/** The receive path told as a history: what has arrived, and what each board and sensor should know from it. */
module EthHistory {
  import opened Wrappers
  import opened BaseTypeEncoding

  const PACKET_MAX_SIZE := 256
  const MAX_NUM_BOARDS := 4
  const NANOS_PER_MILLI := 1_000_000

  /**
   * A datagram with the clock readings taken for the boards it is for, or the
   * installation of a timeout handler.  Times are in nanoseconds.  A failed receive
   * is dispatched all the same, and counts as an empty datagram.
   */
  datatype Event = Datagram(source: bv32, payload: seq<Byte>, stamps: seq<int>) | HandlerInstalled(now: int)

  predicate ValidEvent(e: Event) {
    e.Datagram? ==> |e.payload| <= PACKET_MAX_SIZE && |e.stamps| == MAX_NUM_BOARDS
  }

  /**
   * What a wait for a datagram ends with.  A receive call that fails writes nothing
   * to the buffer and leaves the source address to whatever was in memory.
   */
  datatype Arrival = Nothing | Failed(source: bv32) | Arrived(source: bv32, data: seq<Byte>)

  type History = h: seq<Event> | forall k | 0 <= k < |h| :: ValidEvent(h[k])

  // ---- the receive buffer: receiving overwrites its front, what lies behind stays ----

  /** A datagram longer than the buffer loses its tail. */
  function Truncated(data: seq<Byte>): (payload: seq<Byte>)
    ensures |payload| <= PACKET_MAX_SIZE
  {
    if |data| <= PACKET_MAX_SIZE then data else data[..PACKET_MAX_SIZE]
  }

  /** The one buffer that all boards share, after the history. */
  function ContentAt(h: History): (c: seq<Byte>)
    ensures |c| == PACKET_MAX_SIZE
  {
    if h == [] then seq(PACKET_MAX_SIZE, _ => 0)
    else
      var before, e := ContentAt(h[..|h| - 1]), h[|h| - 1];
      if e.Datagram? then Overlay(before, 0, e.payload) else before
  }

  /** Word k behind the header of a sensor message. */
  function SensorWord(content: seq<Byte>, k: nat): bv32
    requires |content| >= 8 + 4 * k
  {
    Word32(content[4 + 4 * k..8 + 4 * k])
  }

  /** Forces and torques. */
  function Leading(content: seq<Byte>): seq<bv32>
    requires |content| >= 28
  {
    [SensorWord(content, 0), SensorWord(content, 1), SensorWord(content, 2),
     SensorWord(content, 3), SensorWord(content, 4), SensorWord(content, 5)]
  }

  /** The raw channels behind them. */
  function Trailing(content: seq<Byte>): seq<bv32>
    requires |content| >= 52
  {
    [SensorWord(content, 6), SensorWord(content, 7), SensorWord(content, 8),
     SensorWord(content, 9), SensorWord(content, 10), SensorWord(content, 11)]
  }

  /** Which bytes each word comes from: forces first, least significant byte first. */
  lemma LeadingBytes(content: seq<Byte>)
    requires |content| >= 28
    ensures var six := Leading(content);
            && Bytes32(six[0]) == content[4..8] && Bytes32(six[1]) == content[8..12]
            && Bytes32(six[2]) == content[12..16] && Bytes32(six[3]) == content[16..20]
            && Bytes32(six[4]) == content[20..24] && Bytes32(six[5]) == content[24..28]
  {
    hide Word32, Bytes32;
    forall k: nat | k < 6
      ensures Bytes32(SensorWord(content, k)) == content[4 + 4 * k..8 + 4 * k]
    {
      WordsAndBytes32(0, content[4 + 4 * k..8 + 4 * k]);
    }
    assert Leading(content)[0] == SensorWord(content, 0) && Leading(content)[1] == SensorWord(content, 1);
  }

  lemma TrailingBytes(content: seq<Byte>, k: nat)
    requires |content| >= 52 && k < 6
    ensures |Trailing(content)| == 6 && Bytes32(Trailing(content)[k]) == content[28 + 4 * k..32 + 4 * k]
  {
    hide Word32, Bytes32;
    assert Trailing(content)[k] == SensorWord(content, 6 + k);
    WordsAndBytes32(0, content[28 + 4 * k..32 + 4 * k]);
  }

  // ---- who has been heard when ----

  /** The latest datagram from address ip, from position start of the history on. */
  function LastFrom(h: History, ip: bv32, start: nat): (r: Option<nat>)
    ensures r.Some? ==> start <= r.value < |h| && h[r.value].Datagram? && h[r.value].source == ip
  {
    if |h| <= start then None
    else if h[|h| - 1].Datagram? && h[|h| - 1].source == ip then Some(|h| - 1)
    else LastFrom(h[..|h| - 1], ip, start)
  }

  /** When board i, added at position since with address ip, was last heard or the handler installed; 0 if never. */
  function LastHeard(h: History, i: nat, ip: bv32, since: nat): int
    requires i < MAX_NUM_BOARDS
  {
    if h == [] then 0
    else
      match h[|h| - 1]
      case HandlerInstalled(now) => now
      case Datagram(source, _, stamps) =>
        if |h| - 1 >= since && source == ip then stamps[i] else LastHeard(h[..|h| - 1], i, ip, since)
  }

  /** None of the board's datagrams came later. */
  lemma {:induction false} LastFromIsLast(h: History, ip: bv32, start: nat, k: nat)
    requires start <= k < |h| && h[k].Datagram? && h[k].source == ip
    ensures LastFrom(h, ip, start).Some? && k <= LastFrom(h, ip, start).value
  {
    if k < |h| - 1 {
      LastFromIsLast(h[..|h| - 1], ip, start, k);
    }
  }

  /** When a timeout handler was last installed; 0 if never. */
  function InstalledAt(h: History): int {
    if h == [] then 0
    else if h[|h| - 1].HandlerInstalled? then h[|h| - 1].now
    else InstalledAt(h[..|h| - 1])
  }

  lemma {:induction false} NotYetAdded(h: History, i: nat, ip: bv32, since: nat)
    requires i < MAX_NUM_BOARDS && since >= |h|
    ensures LastHeard(h, i, ip, since) == InstalledAt(h)
  {
    if h != [] {
      NotYetAdded(h[..|h| - 1], i, ip, since);
    }
  }

  /** What one more event changes for a board. */
  lemma HeardAfter(h: History, e: Event, i: nat, ip: bv32, since: nat)
    requires i < MAX_NUM_BOARDS && since <= |h| && ValidEvent(e)
    ensures LastHeard(h + [e], i, ip, since)
         == match e
            case HandlerInstalled(now) => now
            case Datagram(source, _, stamps) => if source == ip then stamps[i] else LastHeard(h, i, ip, since)
  {
    assert (h + [e])[..|h|] == h;
  }

  lemma InstalledAfter(h: History, e: Event)
    requires ValidEvent(e)
    ensures InstalledAt(h + [e]) == if e.HandlerInstalled? then e.now else InstalledAt(h)
  {
    assert (h + [e])[..|h|] == h;
  }

  lemma ContentAfter(h: History, e: Event)
    requires ValidEvent(e)
    ensures ContentAt(h + [e]) == if e.Datagram? then Overlay(ContentAt(h), 0, e.payload) else ContentAt(h)
  {
    assert (h + [e])[..|h|] == h;
  }

  /** The reading of the clock that event e can contribute for board i. */
  function TimeOf(e: Event, i: nat): int
    requires ValidEvent(e) && i < MAX_NUM_BOARDS
  {
    match e
    case HandlerInstalled(now) => now
    case Datagram(_, _, stamps) => stamps[i]
  }

  predicate Concerns(e: Event, k: nat, ip: bv32, since: nat) {
    e.HandlerInstalled? || (k >= since && e.source == ip)
  }

  /** With a clock that never goes back, LastHeard is the later of the last datagram and the last installation. */
  lemma {:induction false} LastHeardIsLatest(h: History, i: nat, ip: bv32, since: nat)
    requires i < MAX_NUM_BOARDS
    requires forall a, b | 0 <= a < b < |h| :: TimeOf(h[a], i) <= TimeOf(h[b], i)
    ensures forall k | 0 <= k < |h| && Concerns(h[k], k, ip, since) :: TimeOf(h[k], i) <= LastHeard(h, i, ip, since)
    ensures (forall k | 0 <= k < |h| :: !Concerns(h[k], k, ip, since)) ==> LastHeard(h, i, ip, since) == 0
    ensures (exists k | 0 <= k < |h| :: Concerns(h[k], k, ip, since)) ==>
              exists k | 0 <= k < |h| && Concerns(h[k], k, ip, since) :: LastHeard(h, i, ip, since) == TimeOf(h[k], i)
  {
    if h != [] {
      var n := |h| - 1;
      if !Concerns(h[n], n, ip, since) {
        var prefix := h[..n];
        LastHeardIsLatest(prefix, i, ip, since);
        assert forall k | 0 <= k < n :: prefix[k] == h[k];
        assert LastHeard(h, i, ip, since) == LastHeard(prefix, i, ip, since);
      } else {
        assert LastHeard(h, i, ip, since) == TimeOf(h[n], i);
      }
    }
  }

  // ---- one board's datagrams ----

  /** A datagram as long as the buffer, of one byte repeated. */
  function Filled(filling: Byte): (payload: seq<Byte>)
    ensures |payload| == PACKET_MAX_SIZE
  {
    seq(PACKET_MAX_SIZE, _ => filling)
  }

  /** A datagram of 28 bytes or more decides the six values alone, whatever the buffer held. */
  lemma LongEnough(content: seq<Byte>, payload: seq<Byte>)
    requires |content| == PACKET_MAX_SIZE && 28 <= |payload| <= PACKET_MAX_SIZE
    ensures Leading(Overlay(content, 0, payload)) == Leading(payload)
  {
    hide Word32;
    var r := Overlay(content, 0, payload);
    assert forall k | 0 <= k < 6 :: r[4 + 4 * k..8 + 4 * k] == payload[4 + 4 * k..8 + 4 * k];
  }

  /**
   * Decoding always looks at the whole buffer, not at the datagram: the six values
   * depend on the datagram alone exactly when it has at least 28 bytes.  A shorter
   * one is completed by bytes of earlier datagrams, from whatever board.
   */
  lemma WhenTheDatagramDecides(payload: seq<Byte>)
    requires |payload| <= PACKET_MAX_SIZE
    ensures (forall c, d | |c| == |d| == PACKET_MAX_SIZE ::
               Leading(Overlay(c, 0, payload)) == Leading(Overlay(d, 0, payload)))
       <==> |payload| >= 28
  {
    hide Leading, Overlay;
    if |payload| >= 28 {
      forall c, d | |c| == |d| == PACKET_MAX_SIZE
        ensures Leading(Overlay(c, 0, payload)) == Leading(Overlay(d, 0, payload))
      {
        LongEnough(c, payload);
        LongEnough(d, payload);
      }
    } else {
      StaleBytesShow(payload);
    }
  }

  lemma StaleBytesShow(payload: seq<Byte>)
    requires |payload| < 28
    ensures Leading(Overlay(Filled(0), 0, payload)) != Leading(Overlay(Filled(1), 0, payload))
  {
    hide Word32, Bytes32;
    var p, q := Overlay(Filled(0), 0, payload)[24..28], Overlay(Filled(1), 0, payload)[24..28];
    assert p[3] == 0 && q[3] == 1;
    WordsAndBytes32(0, p);
    WordsAndBytes32(0, q);
  }

  predicate IsFrom(e: Event, ip: bv32) { e.Datagram? && e.source == ip }

  /** What a sensor should hold: zeros before any datagram of its board, then the words of the latest one. */
  function SensorValues(h: History, ip: bv32, joined: nat): seq<bv32> {
    if |h| <= joined then [0, 0, 0, 0, 0, 0]
    else if IsFrom(h[|h| - 1], ip) then Leading(ContentAt(h))
    else SensorValues(h[..|h| - 1], ip, joined)
  }

  /** What one more event changes for a sensor. */
  lemma SensorAfter(h: History, e: Event, ip: bv32, joined: nat)
    requires joined <= |h| && ValidEvent(e)
    ensures SensorValues(h + [e], ip, joined)
         == if IsFrom(e, ip) then Leading(ContentAt(h + [e])) else SensorValues(h, ip, joined)
  {
    hide Leading, ContentAt;
    assert (h + [e])[..|h|] == h;
  }

  lemma {:induction false} ValuesOfLatest(h: History, ip: bv32, joined: nat)
    ensures LastFrom(h, ip, joined).None? ==> SensorValues(h, ip, joined) == [0, 0, 0, 0, 0, 0]
    ensures forall j | LastFrom(h, ip, joined) == Some(j) :: SensorValues(h, ip, joined) == Leading(ContentAt(h[..j + 1]))
  {
    hide Leading, ContentAt;
    if joined < |h| && !IsFrom(h[|h| - 1], ip) {
      ValuesOfLatest(h[..|h| - 1], ip, joined);
      forall j | LastFrom(h, ip, joined) == Some(j)
        ensures h[..|h| - 1][..j + 1] == h[..j + 1]
      {
      }
    } else {
      assert h[..|h|] == h;
    }
  }

  /**
   * When the latest datagram of the board has at least 28 bytes, the sensor's values
   * are those of that datagram and of nothing else that ever arrived.
   */
  lemma SensorShowsItsOwnDatagram(h: History, ip: bv32, joined: nat, j: nat)
    requires LastFrom(h, ip, joined) == Some(j) && |h[j].payload| >= 28
    ensures SensorValues(h, ip, joined) == Leading(h[j].payload)
  {
    hide Leading, Overlay, LastFrom, SensorValues;
    ValuesOfLatest(h, ip, joined);
    assert h[..j + 1][..j] == h[..j];
    LongEnough(ContentAt(h[..j]), h[j].payload);
  }

  // ---- a board's own traffic ----

  /** What address ip has sent since position start. */
  function OwnDatagrams(h: History, ip: bv32, start: nat): seq<seq<Byte>> {
    if |h| <= start then []
    else
      var earlier := OwnDatagrams(h[..|h| - 1], ip, start);
      if IsFrom(h[|h| - 1], ip) then earlier + [h[|h| - 1].payload] else earlier
  }

  /** Any two sensors whose boards have sent the same show the same, whatever other boards have sent. */
  ghost predicate OwnTrafficDecides(ip: bv32, own: seq<seq<Byte>>) {
    forall g: History, h: History, i: nat, j: nat | OwnDatagrams(g, ip, i) == own == OwnDatagrams(h, ip, j) ::
      SensorValues(g, ip, i) == SensorValues(h, ip, j)
  }

  /**
   * A board's own traffic decides what its sensors show exactly when its latest
   * datagram has at least 28 bytes (or it has sent nothing).
   */
  lemma WhenOwnTrafficDecides(ip: bv32, own: seq<seq<Byte>>)
    requires forall d <- own :: |d| <= PACKET_MAX_SIZE
    ensures OwnTrafficDecides(ip, own) <==> own == [] || |own[|own| - 1]| >= 28
  {
    hide SensorValues, OwnDatagrams;
    if own == [] || |own[|own| - 1]| >= 28 {
      forall g: History, h: History, i: nat, j: nat | OwnDatagrams(g, ip, i) == own == OwnDatagrams(h, ip, j)
        ensures SensorValues(g, ip, i) == SensorValues(h, ip, j)
      {
        ValuesOfOwn(g, ip, i);
        ValuesOfOwn(h, ip, j);
      }
    } else {
      ForeignBytesShow(ip, if ip == 0 then 1 else 0, own);
    }
  }

  /** With a latest datagram of 28 bytes, or none, the values are a function of the own traffic. */
  lemma ValuesOfOwn(h: History, ip: bv32, start: nat)
    requires var own := OwnDatagrams(h, ip, start); own == [] || |own[|own| - 1]| >= 28
    ensures var own := OwnDatagrams(h, ip, start);
            SensorValues(h, ip, start) == if own == [] then [0, 0, 0, 0, 0, 0] else Leading(own[|own| - 1])
  {
    hide Leading, ContentAt, LastFrom, OwnDatagrams, SensorValues;
    LatestOwn(h, ip, start);
    ValuesOfLatest(h, ip, start);
    var last := LastFrom(h, ip, start);
    if last.Some? {
      SensorShowsItsOwnDatagram(h, ip, start, last.value);
    }
  }

  lemma {:induction false} LatestOwn(h: History, ip: bv32, start: nat)
    ensures var own, last := OwnDatagrams(h, ip, start), LastFrom(h, ip, start);
            if last.None? then own == [] else own != [] && own[|own| - 1] == h[last.value].payload
  {
    if start < |h| {
      LatestOwn(h[..|h| - 1], ip, start);
    }
  }

  const NO_STAMPS := [0, 0, 0, 0]

  lemma OwnAfter(h: History, e: Event, ip: bv32)
    requires ValidEvent(e)
    ensures OwnDatagrams(h + [e], ip, 0)
         == if IsFrom(e, ip) then OwnDatagrams(h, ip, 0) + [e.payload] else OwnDatagrams(h, ip, 0)
  {
    assert (h + [e])[..|h|] == h;
  }

  function Talk(ip: bv32, own: seq<seq<Byte>>): (h: History)
    requires forall d <- own :: |d| <= PACKET_MAX_SIZE
  {
    seq(|own|, k requires 0 <= k < |own| => Datagram(ip, own[k], NO_STAMPS))
  }

  /** Address ip sends its datagrams, but just before the latest one something else arrives. */
  function Interrupted(ip: bv32, own: seq<seq<Byte>>, foreign: Event): (h: History)
    requires own != [] && (forall d <- own :: |d| <= PACKET_MAX_SIZE) && ValidEvent(foreign)
  {
    var n := |own| - 1;
    Talk(ip, own[..n]) + [foreign, Datagram(ip, own[n], NO_STAMPS)]
  }

  lemma {:induction false} TalkIsOwn(ip: bv32, own: seq<seq<Byte>>)
    requires forall d <- own :: |d| <= PACKET_MAX_SIZE
    ensures OwnDatagrams(Talk(ip, own), ip, 0) == own
  {
    if own != [] {
      var n := |own| - 1;
      TalkIsOwn(ip, own[..n]);
      assert Talk(ip, own)[..n] == Talk(ip, own[..n]);
    }
  }

  /**
   * Two histories that differ in nothing the board has sent, but in a datagram by
   * which another board has filled the buffer: the sensors show different values.
   */
  lemma ForeignBytesShow(ip: bv32, other: bv32, own: seq<seq<Byte>>)
    requires other != ip && own != [] && |own[|own| - 1]| < 28 && forall d <- own :: |d| <= PACKET_MAX_SIZE
    ensures var g := Interrupted(ip, own, Datagram(other, Filled(0), NO_STAMPS));
            var h := Interrupted(ip, own, Datagram(other, Filled(1), NO_STAMPS));
            && OwnDatagrams(g, ip, 0) == own == OwnDatagrams(h, ip, 0)
            && SensorValues(g, ip, 0) != SensorValues(h, ip, 0)
  {
    hide Leading, OwnDatagrams, SensorValues, ContentAt, Interrupted, Filled;
    InterruptedShows(ip, own, Datagram(other, Filled(0), NO_STAMPS));
    InterruptedShows(ip, own, Datagram(other, Filled(1), NO_STAMPS));
    StaleBytesShow(own[|own| - 1]);
  }

  lemma InterruptedShows(ip: bv32, own: seq<seq<Byte>>, foreign: Event)
    requires own != [] && forall d <- own :: |d| <= PACKET_MAX_SIZE
    requires ValidEvent(foreign) && foreign.Datagram? && foreign.source != ip && |foreign.payload| == PACKET_MAX_SIZE
    ensures var h := Interrupted(ip, own, foreign);
            && OwnDatagrams(h, ip, 0) == own
            && SensorValues(h, ip, 0) == Leading(Overlay(foreign.payload, 0, own[|own| - 1]))
  {
    hide Leading, OwnDatagrams, SensorValues, ContentAt, Talk, Overlay;
    var n := |own| - 1;
    var talk, last := Talk(ip, own[..n]), Datagram(ip, own[n], NO_STAMPS);
    assert Interrupted(ip, own, foreign) == talk + [foreign] + [last];
    TalkIsOwn(ip, own[..n]);
    OwnAfter(talk, foreign, ip);
    OwnAfter(talk + [foreign], last, ip);
    assert own[..n] + [own[n]] == own;
    ContentAfter(talk, foreign);
    ContentAfter(talk + [foreign], last);
    OverlayWhole(ContentAt(talk), foreign.payload);
    SensorAfter(talk + [foreign], last, ip, 0);
  }

  lemma OverlayWhole(content: seq<Byte>, payload: seq<Byte>)
    requires |content| == |payload|
    ensures Overlay(content, 0, payload) == payload
  {
  }

  // ---- timeouts ----

  /** Duration in milliseconds, truncated towards zero as the duration cast does. */
  function Millis(nanos: int): int {
    if nanos >= 0 then nanos / NANOS_PER_MILLI else -((-nanos) / NANOS_PER_MILLI)
  }

  predicate Silent(last: int, now: int, timeout: int) { Millis(now - last) > timeout }

  /** The boards below n that have been silent too long, in ascending order. */
  function Overdue(last: seq<int>, n: nat, now: int, timeout: int): seq<int>
    requires n <= |last|
  {
    if n == 0 then []
    else Overdue(last, n - 1, now, timeout) + if Silent(last[n - 1], now, timeout) then [n - 1] else []
  }

  /** Each overdue board is reported once, and only those; overdue means at least one whole millisecond more. */
  lemma {:induction false} OverdueIsExact(last: seq<int>, n: nat, now: int, timeout: nat)
    requires n <= |last|
    ensures forall i :: i in Overdue(last, n, now, timeout)
                   <==> 0 <= i < n && now - last[i] >= (timeout + 1) * 1_000_000
    ensures forall a, b | 0 <= a < b < |Overdue(last, n, now, timeout)| ::
              Overdue(last, n, now, timeout)[a] < Overdue(last, n, now, timeout)[b]
  {
    hide Silent;
    if n > 0 {
      OverdueIsExact(last, n - 1, now, timeout);
      SilentIs(last[n - 1], now, timeout);
      var earlier := Overdue(last, n - 1, now, timeout);
      assert forall k | 0 <= k < |earlier| :: earlier[k] in earlier;
    }
  }

  lemma SilentIs(last: int, now: int, timeout: nat)
    ensures Silent(last, now, timeout) <==> now - last >= (timeout + 1) * 1_000_000
  {
  }
}
