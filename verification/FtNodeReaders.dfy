/**
 * Readers beside the FT node's thread: the thread publishes sensor by sensor, one
 * critical section each, and a reader may copy all channels between any two of them.
 */
module FtNodeReaders {
  import opened FtNode
  import opened FtNodeHistory

  datatype Step =
    | Receive(line: string)   // the unlocked first part of a run
    | PublishNext             // one turn of the publishing loop
    | Snapshot                // a reader copies all channels

  /** turn is the next sensor of the publishing loop, or the number of sensors while the thread sleeps. */
  datatype Machine = Machine(st: NodeState, turn: nat, ended: bool)

  predicate Enabled(sc: Scaling, m: Machine, s: Step) {
    match s
    case Receive(_) => !m.ended && m.turn == |sc|
    case PublishNext => !m.ended && m.turn < |sc|
    case Snapshot => true
  }

  function Next(sc: Scaling, m: Machine, s: Step): (r: Machine)
    requires Shaped(sc, m.st) && Enabled(sc, m, s)
    ensures Shaped(sc, r.st)
  {
    match s
    case Receive(line) =>
      var st := Arrive(sc, m.st, line);
      if LineThrows(line) then Machine(st, m.turn, true) else Machine(st, 0, false)
    case PublishNext => Machine(Publish(sc, m.st, m.turn), m.turn + 1, false)
    case Snapshot => m
  }

  /** The interleavings of one thread and any number of readers. */
  predicate Possible(sc: Scaling, run: seq<Step>)
    decreases |run|, 0
  {
    run == [] || (Possible(sc, run[..|run| - 1]) && Enabled(sc, After(sc, run[..|run| - 1]), run[|run| - 1]))
  }

  function After(sc: Scaling, run: seq<Step>): (m: Machine)
    requires Possible(sc, run)
    ensures Shaped(sc, m.st)
    decreases |run|, 1
  {
    if run == [] then Machine(Initial(sc), |sc|, false) else Next(sc, After(sc, run[..|run| - 1]), run[|run| - 1])
  }

  /** The lines the thread has taken in, without one that ended it. */
  function LinesOf(run: seq<Step>): seq<string> {
    if run == [] then []
    else
      var earlier, last := LinesOf(run[..|run| - 1]), run[|run| - 1];
      if last.Receive? && !LineThrows(last.line) then earlier + [last.line] else earlier
  }

  /** The lines that have had their chance to be published for sensor i. */
  function SeenLines(sc: Scaling, run: seq<Step>, i: nat): seq<string>
    requires Possible(sc, run)
  {
    var lines := LinesOf(run);
    if i < After(sc, run).turn || lines == [] then lines else lines[..|lines| - 1]
  }

  /** Sensor i in the middle of a run: served already, or still to be served. */
  ghost predicate Served(sc: Scaling, m: Machine, lines: seq<string>, i: nat)
    requires Shaped(sc, m.st) && i < |sc|
  {
    if i < m.turn then
      if m.ended then Block(m.st, i) == Block(Runs(sc, lines), i) else Follows(sc, m.st, lines, i)
    else
      && lines != [] && !m.ended
      && m.st.slots[i] == SlotFrom(sc, Events(lines), WindowStart(Publications(lines[..|lines| - 1], i)), i)
      && Block(m.st, i) == Block(Runs(sc, lines[..|lines| - 1]), i)
  }

  lemma ReceiveServes(sc: Scaling, m: Machine, line: string, lines: seq<string>, i: nat)
    requires Shaped(sc, m.st) && i < |sc| && NoLineThrows(lines)
    requires !m.ended && m.turn == |sc| && Served(sc, m, lines, i)
    ensures Served(sc, Next(sc, m, Receive(line)), if LineThrows(line) then lines else lines + [line], i)
  {
    hide Publications, LineThrows, StoreAll, SlotFrom, SubMessages, LatestWrench, Runs;
    HistoryRefinement(sc, lines, i);
    if !LineThrows(line) {
      var more := lines + [line];
      assert more[..|more| - 1] == lines;
      ArriveFollows(sc, m.st, more, i);
    }
  }

  lemma PublishServes(sc: Scaling, m: Machine, lines: seq<string>, i: nat)
    requires Shaped(sc, m.st) && i < |sc| && NoLineThrows(lines)
    requires !m.ended && m.turn < |sc| && Served(sc, m, lines, i)
    ensures Served(sc, Next(sc, m, PublishNext), lines, i)
  {
    hide Publications, Publish, Block, SlotFrom, SubMessages, LatestWrench, Runs, LineThrows, WellFormed;
    PublishIsLocal(sc, m.st, m.turn, i);
    if i == m.turn {
      var earlier := lines[..|lines| - 1];
      HistoryRefinement(sc, earlier, i);
      PublishFollows(sc, Runs(sc, earlier), Publish(sc, m.st, i), lines, i);
    }
  }

  lemma {:induction false} AlwaysServed(sc: Scaling, run: seq<Step>, i: nat)
    requires Possible(sc, run) && i < |sc|
    ensures NoLineThrows(LinesOf(run)) && Served(sc, After(sc, run), LinesOf(run), i)
  {
    hide Served, Publish, Arrive, LineThrows, Enabled;
    if run == [] {
      InitiallyServed(sc, i);
    } else {
      var prefix, last := run[..|run| - 1], run[|run| - 1];
      AlwaysServed(sc, prefix, i);
      TurnsAreEnabled(sc, After(sc, prefix), last);
      match last
      case Receive(line) => ReceiveServes(sc, After(sc, prefix), line, LinesOf(prefix), i);
      case PublishNext => PublishServes(sc, After(sc, prefix), LinesOf(prefix), i);
      case Snapshot =>
    }
  }

  lemma TurnsAreEnabled(sc: Scaling, m: Machine, s: Step)
    requires Enabled(sc, m, s)
    ensures s.Receive? ==> !m.ended && m.turn == |sc|
    ensures s.PublishNext? ==> !m.ended && m.turn < |sc|
  {
  }

  lemma InitiallyServed(sc: Scaling, i: nat)
    requires i < |sc|
    ensures Served(sc, Machine(Initial(sc), |sc|, false), [], i)
  {
    NothingYet(sc, i);
  }

  /**
   * No torn wrench: under every interleaving, the six channels of a sensor in a
   * snapshot are one whole published wrench of that sensor, the latest one among
   * the lines it has seen (or zero), even if the thread has ended.
   */
  lemma SnapshotIsWhole(sc: Scaling, run: seq<Step>, i: nat)
    requires Possible(sc, run) && i < |sc|
    ensures var seen := SeenLines(sc, run, i);
            && WellFormed(Events(seen), Publications(seen, i), i)
            && Block(After(sc, run).st, i) == LatestWrench(sc, seen, i)
  {
    hide Publications, Block, SlotFrom, SubMessages, LatestWrench, Runs, After, LineThrows, WellFormed;
    AlwaysServed(sc, run, i);
    HistoryRefinement(sc, SeenLines(sc, run, i), i);
  }

  // ---- snapshots never go back ----

  lemma OneStepSeesMore(sc: Scaling, run: seq<Step>, s: Step, i: nat)
    requires Possible(sc, run + [s]) && i < |sc|
    ensures Possible(sc, run) && SeenLines(sc, run, i) <= SeenLines(sc, run + [s], i)
  {
    hide Publish, Arrive, LineThrows, After, LinesOf, Possible;
    OneStep(sc, run, s);
  }

  lemma OneStep(sc: Scaling, run: seq<Step>, s: Step)
    requires Possible(sc, run + [s])
    ensures Possible(sc, run) && Enabled(sc, After(sc, run), s) && After(sc, run + [s]) == Next(sc, After(sc, run), s)
    ensures LinesOf(run + [s]) == if s.Receive? && !LineThrows(s.line) then LinesOf(run) + [s.line] else LinesOf(run)
  {
    hide Next, Enabled, LineThrows;
    assert (run + [s])[..|run|] == run;
  }

  lemma {:induction false} MorePublications(lines: seq<string>, more: seq<string>, i: nat)
    requires lines <= more
    ensures Publications(lines, i) <= Publications(more, i)
    decreases |more|
  {
    hide LastMatch;
    if |lines| < |more| {
      assert more[..|more| - 1][..|lines|] == lines;
      MorePublications(lines, more[..|more| - 1], i);
    } else {
      assert lines == more;
    }
  }

  /** A later snapshot of a sensor shows the same publication or a later one. */
  lemma {:induction false} SnapshotsMoveForward(sc: Scaling, run: seq<Step>, rest: seq<Step>, i: nat)
    requires Possible(sc, run + rest) && i < |sc|
    ensures Possible(sc, run) && SeenLines(sc, run, i) <= SeenLines(sc, run + rest, i)
    ensures Publications(SeenLines(sc, run, i), i) <= Publications(SeenLines(sc, run + rest, i), i)
    decreases |rest|
  {
    hide SeenLines, Possible, Publications, Enabled;
    if rest == [] {
      assert run + rest == run;
    } else {
      var n := |rest| - 1;
      assert run + rest == (run + rest[..n]) + [rest[n]];
      OneStepSeesMore(sc, run + rest[..n], rest[n], i);
      SnapshotsMoveForward(sc, run, rest[..n], i);
    }
    MorePublications(SeenLines(sc, run, i), SeenLines(sc, run + rest, i), i);
  }

  // ---- the exception that ends the thread ----

  /** The step is a line with a half that names a sensor below 1. */
  predicate BringsBadHalf(s: Step) {
    s.Receive? && exists m <- SubMessages(s.line) :: m.source < 1 && (m.kind == 1 || m.kind == 2)
  }

  /**
   * In every interleaving the thread has ended exactly when some line received in
   * it has a half that names a sensor below 1.
   */
  lemma {:induction false} WhenTheThreadEnds(sc: Scaling, run: seq<Step>)
    requires Possible(sc, run)
    ensures After(sc, run).ended <==> exists s <- run :: BringsBadHalf(s)
  {
    hide SubMessages, Publish, Arrive;
    if run != [] {
      var prefix, last := run[..|run| - 1], run[|run| - 1];
      WhenTheThreadEnds(sc, prefix);
      assert run == prefix + [last];
      assert last.Receive? ==> (LineThrows(last.line) <==> BringsBadHalf(last));
    }
  }

  /** After that line only readers go on, and all they ever see is what had been published before it. */
  lemma {:induction false} NothingAfterTheEnd(sc: Scaling, run: seq<Step>, k: nat)
    requires Possible(sc, run) && k < |run| && BringsBadHalf(run[k])
    ensures Possible(sc, run[..k]) && After(sc, run).st.measurements == After(sc, run[..k]).st.measurements
    ensures forall n | k < n < |run| :: run[n].Snapshot?
    decreases |run|
  {
    hide SubMessages, Publish, Arrive, LineThrows, BringsBadHalf;
    var prefix, last := run[..|run| - 1], run[|run| - 1];
    if k < |run| - 1 {
      assert prefix[..k] == run[..k];
      NothingAfterTheEnd(sc, prefix, k);
      WhenTheThreadEnds(sc, prefix);
      assert prefix[k] in prefix;
    } else {
      EndingStep(sc, After(sc, prefix), last);
    }
  }

  lemma EndingStep(sc: Scaling, m: Machine, s: Step)
    requires Shaped(sc, m.st) && Enabled(sc, m, s) && BringsBadHalf(s)
    ensures Next(sc, m, s).st.measurements == m.st.measurements
  {
    hide SubMessages, StoreAll;
  }

  // ---- the atomic run is one of the interleavings ----

  function Turns(k: nat): seq<Step> {
    seq(k, _ => PublishNext)
  }

  /** A run that no reader interrupts does what Run does. */
  lemma {:induction false} UninterruptedRun(sc: Scaling, run: seq<Step>, line: string, k: nat)
    requires Possible(sc, run) && k <= |sc|
    requires !After(sc, run).ended && After(sc, run).turn == |sc| && !LineThrows(line)
    ensures Possible(sc, run + [Receive(line)] + Turns(k))
    ensures After(sc, run + [Receive(line)] + Turns(k))
         == Machine(PublishUpTo(sc, Arrive(sc, After(sc, run).st, line), k), k, false)
  {
    hide LineThrows, Publish, Arrive, After, Possible, StoreAll;
    if k == 0 {
      assert run + [Receive(line)] + Turns(0) == run + [Receive(line)];
      AddStep(sc, run, Receive(line));
    } else {
      UninterruptedRun(sc, run, line, k - 1);
      AddStep(sc, run + [Receive(line)] + Turns(k - 1), PublishNext);
      assert run + [Receive(line)] + Turns(k) == run + [Receive(line)] + Turns(k - 1) + [PublishNext];
    }
  }

  lemma AddStep(sc: Scaling, run: seq<Step>, s: Step)
    requires Possible(sc, run) && Enabled(sc, After(sc, run), s)
    ensures Possible(sc, run + [s]) && After(sc, run + [s]) == Next(sc, After(sc, run), s)
  {
    hide Next, Enabled;
    assert (run + [s])[..|run|] == run;
  }
}
