/** Bounds of the published channels, and what a published wrench still tells about the bytes received. */
module FtNodeRange {
  import opened Vectors
  import opened LineParser
  import opened FtNode
  import opened FtNodeHistory

  // ---- printed lines ----

  /** A line as the microcontroller prints it: four frames, and a line end. */
  datatype Printed = Printed(f0: Frame, f1: Frame, f2: Frame, f3: Frame, end: string) {
    function Frames(): seq<Frame> { [f0, f1, f2, f3] }

    /** Six bytes each, and an end the number parser stops at. */
    predicate Valid() { Ends(end) && ',' !in end && forall f <- Frames() :: BytesOnly(f) }

    function Line(): string { PrintLine(Bytes(f0) + Bytes(f1) + Bytes(f2) + Bytes(f3), end) }
  }

  predicate BytesOnly(f: Frame) {
    IsByte(f.x.0) && IsByte(f.x.1) && IsByte(f.y.0) && IsByte(f.y.1) && IsByte(f.z.0) && IsByte(f.z.1)
  }

  /** Not a force or torque frame of sensor 0: sensors are numbered from 1. */
  predicate Numbered(f: Frame) { f.address > 0 || (f.kind != 1 && f.kind != 2) }

  function Lines(ps: seq<Printed>): seq<string> {
    seq(|ps|, k requires 0 <= k < |ps| => ps[k].Line())
  }

  function AllFrames(ps: seq<Printed>): seq<Frame> {
    if ps == [] then [] else AllFrames(ps[..|ps| - 1]) + ps[|ps| - 1].Frames()
  }

  function Messages(fs: seq<Frame>): (ms: seq<SubMessage>)
    ensures |ms| == |fs|
  {
    seq(|fs|, k requires 0 <= k < |fs| => MessageOf(fs[k]))
  }

  predicate Transmission(ps: seq<Printed>) { forall k | 0 <= k < |ps| :: ps[k].Valid() }

  predicate AllNumbered(ps: seq<Printed>) { forall k | 0 <= k < |AllFrames(ps)| :: Numbered(AllFrames(ps)[k]) }

  /** The history of a transmission is the list of its frames. */
  lemma {:induction false} EventsAreFrames(ps: seq<Printed>)
    requires Transmission(ps)
    ensures Events(Lines(ps)) == Messages(AllFrames(ps))
  {
    hide Printed.Line, Printed.Valid, Printed.Frames, Messages, SubMessages;
    if ps == [] {
      assert Messages([]) == [];
    } else {
      var n := |ps| - 1;
      EventsAreFrames(ps[..n]);
      assert Lines(ps)[..n] == Lines(ps[..n]);
      PrintedMessages(ps[n]);
      MessagesOfBoth(AllFrames(ps[..n]), ps[n].Frames());
    }
  }

  lemma MessagesOfBoth(fs: seq<Frame>, gs: seq<Frame>)
    ensures Messages(fs + gs) == Messages(fs) + Messages(gs)
  {
    hide MessageOf;
  }

  lemma {:induction false} FramesAreBytes(ps: seq<Printed>)
    requires Transmission(ps)
    ensures forall k | 0 <= k < |AllFrames(ps)| :: BytesOnly(AllFrames(ps)[k])
  {
    hide BytesOnly, Printed.Frames;
    if ps != [] {
      var n := |ps| - 1;
      FramesAreBytes(ps[..n]);
      assert ps[n].Valid();
      assert forall k | 0 <= k < |ps[n].Frames()| :: ps[n].Frames()[k] in ps[n].Frames();
    }
  }

  lemma PrintedMessages(p: Printed)
    requires p.Valid()
    ensures SubMessages(p.Line()) == Messages(p.Frames())
  {
    hide BytesOnly, MessageOf, SubMessages, PrintLine, Bytes;
    FramesRoundTrip(p.f0, p.f1, p.f2, p.f3, p.end);
  }

  /** Printed lines never end the thread, except by a force or torque frame of sensor 0. */
  lemma WhenPrintedLinesThrow(ps: seq<Printed>)
    requires Transmission(ps)
    ensures NoLineThrows(Lines(ps)) <==> AllNumbered(ps)
  {
    hide SubMessages, LineThrows;
    EventsAreFrames(ps);
    forall k | 0 <= k < |AllFrames(ps)|
      ensures Throws(Messages(AllFrames(ps))[k]) <==> !Numbered(AllFrames(ps)[k])
    {
    }
    NoLineThrowsIff(Lines(ps));
  }

  // ---- bounds ----

  /** Components that two bytes can spell. */
  predicate IsWordMessage(m: SubMessage) {
    0.0 <= m.x <= 65535.0 && 0.0 <= m.y <= 65535.0 && 0.0 <= m.z <= 65535.0
  }

  predicate AllPositive(row: seq<real>) { forall k | 0 <= k < |row| :: row[k] > 0.0 }

  lemma ToUnitRange(word: real, scale: real)
    requires 0.0 <= word <= 65535.0 && scale > 0.0
    ensures -scale <= ToUnit(word, scale) < scale
  {
    var share := (word - 32768.0) / 32768.0;
    assert -1.0 <= share < 1.0;
    ProductBetween(share, scale);
  }

  lemma ProductBetween(share: real, scale: real)
    requires -1.0 <= share < 1.0 && scale > 0.0
    ensures -scale <= share * scale < scale
  {
    assert (share + 1.0) * scale >= 0.0;
    assert (1.0 - share) * scale > 0.0;
  }

  predicate Between(v: Vec3, row: seq<real>, at: nat)
    requires at + 2 < |row|
  {
    && -row[at] <= v.x < row[at] && -row[at + 1] <= v.y < row[at + 1] && -row[at + 2] <= v.z < row[at + 2]
  }

  predicate InRange(w: Wrench, row: seq<real>)
    requires |row| == 6
  {
    Between(w.f, row, 0) && Between(w.m, row, 3)
  }

  /** With positive scales S and 16-bit components, every channel v ever published satisfies -S <= v < S. */
  lemma MeasurementRange(sc: Scaling, lines: seq<string>, i: nat)
    requires i < |sc| && NoLineThrows(lines)
    requires AllPositive(sc[i])
    requires forall j | 0 <= j < |Events(lines)| :: IsWordMessage(Events(lines)[j])
    ensures InRange(Block(Runs(sc, lines), i), sc[i])
  {
    hide Publications, Runs, Block, IsWordMessage, SlotFrom, LatestWrench, InRange;
    HistoryRefinement(sc, lines, i);
    LatestInRange(sc, lines, i);
  }

  lemma LatestInRange(sc: Scaling, lines: seq<string>, i: nat)
    requires i < |sc| && AllPositive(sc[i]) && WellFormed(Events(lines), Publications(lines, i), i)
    requires forall j | 0 <= j < |Events(lines)| :: IsWordMessage(Events(lines)[j])
    ensures InRange(LatestWrench(sc, lines, i), sc[i])
  {
    hide Publications, Events, Scaled, Between, IsWordMessage, AllPositive, Matches;
    var es, ps, row := Events(lines), Publications(lines, i), sc[i];
    if ps != [] {
      var p := ps[|ps| - 1];
      assert IsLast(es, p.lo, p.hi, p.force, i, Force) && IsLast(es, p.lo, p.hi, p.torque, i, Torque);
      ScaledRange(es[p.force], row, Force);
      ScaledRange(es[p.torque], row, Torque);
    } else {
      ZeroInRange(row);
    }
  }

  lemma ZeroInRange(row: seq<real>)
    requires |row| == 6 && AllPositive(row)
    ensures InRange(ZERO6, row)
  {
  }

  lemma ScaledRange(m: SubMessage, row: seq<real>, h: Half)
    requires |row| == 6 && IsWordMessage(m) && AllPositive(row)
    ensures Between(Scaled(m, row, h), row, if h == Force then 0 else 3)
  {
    hide ToUnit;
    var at := if h == Force then 0 else 3;
    ToUnitRange(m.x, row[at]);
    ToUnitRange(m.y, row[at + 1]);
    ToUnitRange(m.z, row[at + 2]);
  }

  /** From the bytes on the line to the channels: whatever byte frames are printed, the bounds hold. */
  lemma PrintedRange(sc: Scaling, ps: seq<Printed>, i: nat)
    requires i < |sc| && AllPositive(sc[i]) && Transmission(ps) && AllNumbered(ps)
    ensures InRange(Block(Runs(sc, Lines(ps)), i), sc[i])
  {
    hide Runs, Block, InRange, Events, AllFrames, AllNumbered;
    WhenPrintedLinesThrow(ps);
    EventsAreFrames(ps);
    FramesAreBytes(ps);
    forall j | 0 <= j < |Events(Lines(ps))|
      ensures IsWordMessage(Events(Lines(ps))[j])
    {
      assert BytesOnly(AllFrames(ps)[j]);
    }
    MeasurementRange(sc, Lines(ps), i);
  }

  // ---- recoverability ----

  predicate NoneZero(row: seq<real>) { forall k | 0 <= k < |row| :: row[k] != 0.0 }

  lemma ToUnitInjective(v: real, w: real, scale: real)
    requires scale != 0.0 && ToUnit(v, scale) == ToUnit(w, scale)
    ensures v == w
  {
    var a, b := (v - 32768.0) / 32768.0, (w - 32768.0) / 32768.0;
    assert (a - b) * scale == 0.0;
  }

  predicate SameWords(m: SubMessage, n: SubMessage) { m.x == n.x && m.y == n.y && m.z == n.z }

  lemma ScaledInjective(m: SubMessage, n: SubMessage, row: seq<real>, h: Half)
    requires |row| == 6 && NoneZero(row) && Scaled(m, row, h) == Scaled(n, row, h)
    ensures SameWords(m, n)
  {
    hide ToUnit;
    var at := if h == Force then 0 else 3;
    ToUnitInjective(m.x, n.x, row[at]);
    ToUnitInjective(m.y, n.y, row[at + 1]);
    ToUnitInjective(m.z, n.z, row[at + 2]);
  }

  /** The position in the history of the half of kind h that sensor i shows. */
  function ShownAt(lines: seq<string>, i: nat, h: Half): (j: nat)
    requires Publications(lines, i) != []
    ensures j < |Events(lines)| && Matches(Events(lines)[j], i, h)
  {
    PublicationsWellFormed(lines, i);
    var ps := Publications(lines, i);
    var p := ps[|ps| - 1];
    assert IsLast(Events(lines), p.lo, p.hi, p.force, i, Force) && IsLast(Events(lines), p.lo, p.hi, p.torque, i, Torque);
    if h == Force then p.force else p.torque
  }

  /**
   * What the channels are, number by number: those of sensor i's latest publication,
   * each one word of the force half or of the torque half in its own scale.
   */
  lemma PublishedValues(sc: Scaling, lines: seq<string>, i: nat)
    requires i < |sc| && NoLineThrows(lines) && Publications(lines, i) != []
    ensures var f, v := Events(lines)[ShownAt(lines, i, Force)], Runs(sc, lines).measurements;
            && f.source == i + 1 && f.kind == 1
            && 32768.0 * v[6 * i] == (f.x - 32768.0) * sc[i][0]
            && 32768.0 * v[6 * i + 1] == (f.y - 32768.0) * sc[i][1]
            && 32768.0 * v[6 * i + 2] == (f.z - 32768.0) * sc[i][2]
    ensures var t, v := Events(lines)[ShownAt(lines, i, Torque)], Runs(sc, lines).measurements;
            && t.source == i + 1 && t.kind == 2
            && 32768.0 * v[6 * i + 3] == (t.x - 32768.0) * sc[i][3]
            && 32768.0 * v[6 * i + 4] == (t.y - 32768.0) * sc[i][4]
            && 32768.0 * v[6 * i + 5] == (t.z - 32768.0) * sc[i][5]
  {
    hide Publications, Events, Runs, Scaled, WellFormed;
    HistoryRefinement(sc, lines, i);
    ScaledIs(Events(lines)[ShownAt(lines, i, Force)], sc[i]);
    ScaledIs(Events(lines)[ShownAt(lines, i, Torque)], sc[i]);
  }

  /** From the bytes on the line to the numbers a reader finds, for any printed byte frames. */
  lemma PrintedValues(sc: Scaling, ps: seq<Printed>, i: nat)
    requires i < |sc| && Transmission(ps) && AllNumbered(ps) && Publications(Lines(ps), i) != []
    ensures |AllFrames(ps)| == |Events(Lines(ps))|
    ensures var f, v := AllFrames(ps)[ShownAt(Lines(ps), i, Force)], Runs(sc, Lines(ps)).measurements;
            && f.address == i + 1 && f.kind == 1
            && 32768.0 * v[6 * i] == ((256 * f.x.1 + f.x.0) as real - 32768.0) * sc[i][0]
            && 32768.0 * v[6 * i + 1] == ((256 * f.y.1 + f.y.0) as real - 32768.0) * sc[i][1]
            && 32768.0 * v[6 * i + 2] == ((256 * f.z.1 + f.z.0) as real - 32768.0) * sc[i][2]
    ensures var t, v := AllFrames(ps)[ShownAt(Lines(ps), i, Torque)], Runs(sc, Lines(ps)).measurements;
            && t.address == i + 1 && t.kind == 2
            && 32768.0 * v[6 * i + 3] == ((256 * t.x.1 + t.x.0) as real - 32768.0) * sc[i][3]
            && 32768.0 * v[6 * i + 4] == ((256 * t.y.1 + t.y.0) as real - 32768.0) * sc[i][4]
            && 32768.0 * v[6 * i + 5] == ((256 * t.z.1 + t.z.0) as real - 32768.0) * sc[i][5]
  {
    hide Publications, Events, Runs, AllFrames, Lines, ShownAt;
    WhenPrintedLinesThrow(ps);
    EventsAreFrames(ps);
    PublishedValues(sc, Lines(ps), i);
  }

  /**
   * Recoverability: two runs that show the same wrench for a sensor have taken it
   * from the same words, whatever else each of them has received.
   */
  lemma PublishedDeterminesWords(sc: Scaling, lines: seq<string>, others: seq<string>, i: nat, h: Half)
    requires i < |sc| && NoneZero(sc[i]) && NoLineThrows(lines) && NoLineThrows(others)
    requires Publications(lines, i) != [] && Publications(others, i) != []
    requires Block(Runs(sc, lines), i) == Block(Runs(sc, others), i)
    ensures SameWords(Events(lines)[ShownAt(lines, i, h)], Events(others)[ShownAt(others, i, h)])
  {
    hide Publications, Events, Runs, Block, Scaled, SameWords, WellFormed, NoneZero;
    HistoryRefinement(sc, lines, i);
    HistoryRefinement(sc, others, i);
    ScaledInjective(Events(lines)[ShownAt(lines, i, h)], Events(others)[ShownAt(others, i, h)], sc[i], h);
  }

  lemma WordInjective(p: (nat, nat), q: (nat, nat))
    requires IsByte(p.0) && IsByte(p.1) && IsByte(q.0) && IsByte(q.1) && Word(p) == Word(q)
    ensures p == q
  {
    assert 256 * p.1 + p.0 == 256 * q.1 + q.0;
  }

  predicate SameBytes(f: Frame, g: Frame) { f.x == g.x && f.y == g.y && f.z == g.z }

  /** Down to the line: the shown wrench determines the six bytes of each of the two frames it came from. */
  lemma PublishedDeterminesBytes(sc: Scaling, ps: seq<Printed>, qs: seq<Printed>, i: nat, h: Half)
    requires i < |sc| && NoneZero(sc[i]) && Transmission(ps) && AllNumbered(ps) && Transmission(qs) && AllNumbered(qs)
    requires Publications(Lines(ps), i) != [] && Publications(Lines(qs), i) != []
    requires Block(Runs(sc, Lines(ps)), i) == Block(Runs(sc, Lines(qs)), i)
    ensures |AllFrames(ps)| == |Events(Lines(ps))| && |AllFrames(qs)| == |Events(Lines(qs))|
    ensures SameBytes(AllFrames(ps)[ShownAt(Lines(ps), i, h)], AllFrames(qs)[ShownAt(Lines(qs), i, h)])
  {
    hide Publications, Events, Runs, Block, NoneZero, AllFrames, Word, Lines, ShownAt;
    WhenPrintedLinesThrow(ps);
    WhenPrintedLinesThrow(qs);
    EventsAreFrames(ps);
    EventsAreFrames(qs);
    FramesAreBytes(ps);
    FramesAreBytes(qs);
    PublishedDeterminesWords(sc, Lines(ps), Lines(qs), i, h);
    var f, g := AllFrames(ps)[ShownAt(Lines(ps), i, h)], AllFrames(qs)[ShownAt(Lines(qs), i, h)];
    WordInjective(f.x, g.x);
    WordInjective(f.y, g.y);
    WordInjective(f.z, g.z);
  }

  // ---- lines that are not four sub-messages ----

  lemma {:induction false} NothingToPublish(sc: Scaling, st: NodeState, k: nat)
    requires Shaped(sc, st) && k <= |sc|
    requires forall i | 0 <= i < |sc| :: !(st.slots[i].forceFlag && st.slots[i].torqueFlag)
    ensures PublishUpTo(sc, st, k) == st
  {
    if k > 0 {
      NothingToPublish(sc, st, k - 1);
    }
  }

  /** After any run, an empty line or one without exactly 32 pieces changes neither buffers nor channels. */
  lemma OtherLinesAreIgnored(sc: Scaling, lines: seq<string>, line: string)
    requires NoLineThrows(lines) && (line == "" || |Tokens(line)| != 32)
    ensures !LineThrows(line) && RunOnce(sc, Runs(sc, lines), line) == Runs(sc, lines)
  {
    hide Tokens, Runs, Publications;
    assert SubMessages(line) == [];
    forall i | 0 <= i < |sc|
      ensures !(Runs(sc, lines).slots[i].forceFlag && Runs(sc, lines).slots[i].torqueFlag)
    {
      HistoryRefinement(sc, lines, i);
    }
    NothingToPublish(sc, Runs(sc, lines), |sc|);
  }

  // ---- throwing lines, told from the history ----

  predicate NoneThrows(ms: seq<SubMessage>) {
    forall j | 0 <= j < |ms| :: !Throws(ms[j])
  }

  lemma LineThrowsIff(line: string)
    ensures LineThrows(line) <==> !NoneThrows(SubMessages(line))
  {
    hide SubMessages, Throws;
    var ms := SubMessages(line);
    if LineThrows(line) {
      var m :| m in ms && Throws(m);
      var j :| 0 <= j < |ms| && ms[j] == m;
    } else {
      assert forall j | 0 <= j < |ms| :: ms[j] in ms;
    }
  }

  lemma NoneThrowsInBoth(es: seq<SubMessage>, ms: seq<SubMessage>)
    ensures NoneThrows(es + ms) <==> NoneThrows(es) && NoneThrows(ms)
  {
    hide Throws;
    assert forall j | 0 <= j < |ms| :: (es + ms)[|es| + j] == ms[j];
    assert forall j | 0 <= j < |es| :: (es + ms)[j] == es[j];
  }

  /** Whether some line throws can be told from the events. */
  lemma {:induction false} NoLineThrowsIff(lines: seq<string>)
    ensures NoLineThrows(lines) <==> NoneThrows(Events(lines))
  {
    hide SubMessages, NoneThrows, LineThrows;
    if lines == [] {
      assert NoneThrows([]) by { NoneThrowsEmpty(); }
    } else {
      var n := |lines| - 1;
      NoLineThrowsIff(lines[..n]);
      LineThrowsIff(lines[n]);
      NoneThrowsInBoth(Events(lines[..n]), SubMessages(lines[n]));
      assert lines == lines[..n] + [lines[n]];
    }
  }

  lemma NoneThrowsEmpty()
    ensures NoneThrows([])
  {
  }
}
