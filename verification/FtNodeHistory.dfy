/**
 * What the published channels of the FT node mean in terms of the sub-messages
 * received so far, told without buffers or flags.
 */
module FtNodeHistory {
  import opened Wrappers
  import opened Vectors
  import opened FtNode

  // ---- the events of a run ----

  function Events(lines: seq<string>): seq<SubMessage> {
    if lines == [] then [] else Events(lines[..|lines| - 1]) + SubMessages(lines[|lines| - 1])
  }

  /** m is a half of kind h for sensor i (sensors are numbered from 1 on the line). */
  predicate Matches(m: SubMessage, i: nat, h: Half) { m.source == i + 1 && m.kind == Code(h) }

  /** The latest matching event, from position lo on. */
  function LastMatch(es: seq<SubMessage>, lo: nat, i: nat, h: Half): (r: Option<nat>)
    ensures r.Some? ==> lo <= r.value < |es| && Matches(es[r.value], i, h)
    ensures r.Some? ==> forall j | r.value < j < |es| :: !Matches(es[j], i, h)
    ensures r.None? ==> forall j | lo <= j < |es| :: !Matches(es[j], i, h)
  {
    if |es| <= lo then None
    else if Matches(es[|es| - 1], i, h) then Some(|es| - 1)
    else LastMatch(es[..|es| - 1], lo, i, h)
  }

  /** One publication of a sensor: the window of events it draws on, and the two halves it takes from there. */
  datatype Publication = Publication(lo: nat, hi: nat, force: nat, torque: nat)

  function WindowStart(ps: seq<Publication>): nat {
    if ps == [] then 0 else ps[|ps| - 1].hi
  }

  /**
   * The publications of sensor i: one at the end of each line by which both halves
   * have arrived since the publication before.
   */
  function Publications(lines: seq<string>, i: nat): seq<Publication> {
    if lines == [] then []
    else
      var earlier, es := Publications(lines[..|lines| - 1], i), Events(lines);
      var lo := WindowStart(earlier);
      var force, torque := LastMatch(es, lo, i, Force), LastMatch(es, lo, i, Torque);
      if force.Some? && torque.Some? then earlier + [Publication(lo, |es|, force.value, torque.value)] else earlier
  }

  /** The wrench of sensor i according to the history: that of its latest publication, or zero. */
  function LatestWrench(sc: Scaling, lines: seq<string>, i: nat): Wrench
    requires i < |sc| && WellFormed(Events(lines), Publications(lines, i), i)
  {
    var es, ps := Events(lines), Publications(lines, i);
    if ps == [] then ZERO6
    else
      var p := ps[|ps| - 1];
      Wrench(Scaled(es[p.force], sc[i], Force), Scaled(es[p.torque], sc[i], Torque))
  }

  /** Publication k takes its halves from its own window; the windows follow each other without gap. */
  ghost predicate WellFormed(es: seq<SubMessage>, ps: seq<Publication>, i: nat) {
    forall k | 0 <= k < |ps| ::
      && ps[k].lo == WindowStart(ps[..k])
      && IsLast(es, ps[k].lo, ps[k].hi, ps[k].force, i, Force)
      && IsLast(es, ps[k].lo, ps[k].hi, ps[k].torque, i, Torque)
  }

  /** Event j is the last match between positions lo and hi. */
  ghost predicate IsLast(es: seq<SubMessage>, lo: nat, hi: nat, j: nat, i: nat, h: Half) {
    && lo <= j < hi <= |es| && Matches(es[j], i, h)
    && forall k | j < k < hi :: !Matches(es[k], i, h)
  }

  lemma LaterEvents(es: seq<SubMessage>, more: seq<SubMessage>, ps: seq<Publication>, i: nat)
    requires WellFormed(es, ps, i)
    ensures WellFormed(es + more, ps, i)
  {
    hide Matches;
    forall k, h, j | 0 <= k < |ps| && IsLast(es, ps[k].lo, ps[k].hi, j, i, h)
      ensures IsLast(es + more, ps[k].lo, ps[k].hi, j, i, h)
    {
    }
  }

  lemma OneMorePublication(es: seq<SubMessage>, ps: seq<Publication>, p: Publication, i: nat)
    requires WellFormed(es, ps, i) && p.lo == WindowStart(ps)
    requires IsLast(es, p.lo, p.hi, p.force, i, Force) && IsLast(es, p.lo, p.hi, p.torque, i, Torque)
    ensures WellFormed(es, ps + [p], i)
  {
    hide IsLast;
    var qs := ps + [p];
    assert qs[..|ps|] == ps;
    forall k | 0 <= k < |ps|
      ensures qs[k] == ps[k] && qs[..k] == ps[..k]
    {
    }
  }

  lemma {:induction false} PublicationsWellFormed(lines: seq<string>, i: nat)
    ensures WellFormed(Events(lines), Publications(lines, i), i)
    ensures WindowStart(Publications(lines, i)) <= |Events(lines)|
  {
    hide LastMatch, SubMessages, WellFormed;
    if lines == [] {
      NoPublication(i);
    } else {
      var earlier, es := lines[..|lines| - 1], Events(lines);
      PublicationsWellFormed(earlier, i);
      var ps := Publications(earlier, i);
      LaterEvents(Events(earlier), SubMessages(lines[|lines| - 1]), ps, i);
      if Publications(lines, i) != ps {
        OneMorePublication(es, ps, Publications(lines, i)[|ps|], i);
      }
    }
  }

  lemma NoPublication(i: nat)
    ensures WellFormed([], [], i)
  {
  }

  // ---- history refinement ----

  /** The waiting halves of sensor i, told from the events since position lo. */
  function SlotFrom(sc: Scaling, es: seq<SubMessage>, lo: nat, i: nat): Slot
    requires i < |sc|
  {
    var force, torque := LastMatch(es, lo, i, Force), LastMatch(es, lo, i, Torque);
    Slot(if force.Some? then Scaled(es[force.value], sc[i], Force) else ZERO3, force.Some?,
         if torque.Some? then Scaled(es[torque.value], sc[i], Torque) else ZERO3, torque.Some?)
  }

  /** One more event moves the slot of its sensor, and only that, to the new history. */
  lemma StoreFollowsHistory(sc: Scaling, slots: seq<Slot>, es: seq<SubMessage>, m: SubMessage, lo: nat, i: nat)
    requires |slots| == |sc| && i < |sc| && !Throws(m) && lo <= |es|
    requires slots[i] == SlotFrom(sc, es, lo, i)
    ensures Store(sc, slots, m)[i] == SlotFrom(sc, es + [m], lo, i)
  {
    hide Scaled;
    assert (es + [m])[..|es|] == es;
  }

  lemma {:induction false} StoreAllFollowsHistory(sc: Scaling, slots: seq<Slot>, es: seq<SubMessage>, ms: seq<SubMessage>,
                                                  lo: nat, i: nat)
    requires |slots| == |sc| && i < |sc| && lo <= |es| && forall m <- ms :: !Throws(m)
    requires slots[i] == SlotFrom(sc, es, lo, i)
    ensures StoreAll(sc, slots, ms)[i] == SlotFrom(sc, es + ms, lo, i)
    decreases |ms|
  {
    hide SlotFrom, Store;
    if ms == [] {
      assert es + ms == es;
    } else {
      var n := |ms| - 1;
      StoreAllFollowsHistory(sc, slots, es, ms[..n], lo, i);
      assert ms[n] in ms;
      StoreFollowsHistory(sc, StoreAll(sc, slots, ms[..n]), es + ms[..n], ms[n], lo, i);
      assert es + ms[..n] + [ms[n]] == es + ms;
    }
  }

  function Block(st: NodeState, i: nat): Wrench
    requires 6 * i + 5 < |st.measurements|
  {
    WrenchAt(st.measurements, 6 * i)
  }

  /** Publishing sensor k leaves every other sensor alone. */
  lemma PublishIsLocal(sc: Scaling, st: NodeState, k: nat, i: nat)
    requires Shaped(sc, st) && k < |sc| && i < |sc|
    ensures var st', slot := Publish(sc, st, k), st.slots[i];
            var ready := slot.forceFlag && slot.torqueFlag;
            && st'.slots[i] == (if i == k && ready then CLEARED else slot)
            && Block(st', i) == (if i == k && ready then Wrench(slot.force, slot.torque) else Block(st, i))
  {
    if i != k {
      assert 6 * i + 5 < 6 * k || 6 * k + 5 < 6 * i;
    }
  }

  /** After the first k turns of the publishing loop, exactly the sensors below k have been served. */
  lemma {:induction false} PublishUpToServes(sc: Scaling, st: NodeState, k: nat, i: nat)
    requires Shaped(sc, st) && k <= |sc| && i < |sc|
    ensures var st', slot := PublishUpTo(sc, st, k), st.slots[i];
            var served := i < k && slot.forceFlag && slot.torqueFlag;
            && st'.slots[i] == (if served then CLEARED else slot)
            && Block(st', i) == (if served then Wrench(slot.force, slot.torque) else Block(st, i))
  {
    hide Publish, Block;
    if k > 0 {
      PublishUpToServes(sc, st, k - 1, i);
      PublishIsLocal(sc, PublishUpTo(sc, st, k - 1), k - 1, i);
    }
  }

  /** The state after the lines, run by run; a thrown exception ends the thread, so no line may throw. */
  function Runs(sc: Scaling, lines: seq<string>): (st: NodeState)
    ensures Shaped(sc, st)
  {
    if lines == [] then Initial(sc) else RunOnce(sc, Runs(sc, lines[..|lines| - 1]), lines[|lines| - 1])
  }

  ghost predicate NoLineThrows(lines: seq<string>) {
    forall line <- lines :: !LineThrows(line)
  }

  /** What sensor i looks like after the lines, told from the history alone. */
  ghost predicate Follows(sc: Scaling, st: NodeState, lines: seq<string>, i: nat)
    requires Shaped(sc, st) && i < |sc|
  {
    var es, ps := Events(lines), Publications(lines, i);
    && WellFormed(es, ps, i) && WindowStart(ps) <= |es|
    && st.slots[i] == SlotFrom(sc, es, WindowStart(ps), i)
    && !(st.slots[i].forceFlag && st.slots[i].torqueFlag)
    && Block(st, i) == LatestWrench(sc, lines, i)
  }

  /** Between arrival and publication: the slot knows the new events, the channels do not. */
  lemma ArriveFollows(sc: Scaling, st: NodeState, lines: seq<string>, i: nat)
    requires lines != [] && Shaped(sc, st) && i < |sc| && !LineThrows(lines[|lines| - 1])
    requires Follows(sc, st, lines[..|lines| - 1], i)
    ensures var st' := Arrive(sc, st, lines[|lines| - 1]);
            && st'.slots[i] == SlotFrom(sc, Events(lines), WindowStart(Publications(lines[..|lines| - 1], i)), i)
            && Block(st', i) == Block(st, i)
  {
    hide SlotFrom, StoreAll, Publications, SubMessages;
    var earlier := lines[..|lines| - 1];
    StoreAllFollowsHistory(sc, st.slots, Events(earlier), SubMessages(lines[|lines| - 1]),
                           WindowStart(Publications(earlier, i)), i);
  }

  lemma PublishFollows(sc: Scaling, before: NodeState, st: NodeState, lines: seq<string>, i: nat)
    requires lines != [] && Shaped(sc, before) && Shaped(sc, st) && i < |sc|
    requires Follows(sc, before, lines[..|lines| - 1], i)
    requires var slot := SlotFrom(sc, Events(lines), WindowStart(Publications(lines[..|lines| - 1], i)), i);
             var ready := slot.forceFlag && slot.torqueFlag;
             && st.slots[i] == (if ready then CLEARED else slot)
             && Block(st, i) == (if ready then Wrench(slot.force, slot.torque) else Block(before, i))
    ensures Follows(sc, st, lines, i)
  {
    hide Scaled, Block, SubMessages, WellFormed;
    PublicationsWellFormed(lines, i);
    var earlier, es := lines[..|lines| - 1], Events(lines);
    var psBefore, ps := Publications(earlier, i), Publications(lines, i);
    if ps == psBefore {
      SameLatest(sc, lines, i);
    }
  }

  /** Without a new publication the latest wrench stays. */
  lemma SameLatest(sc: Scaling, lines: seq<string>, i: nat)
    requires lines != [] && i < |sc| && Publications(lines, i) == Publications(lines[..|lines| - 1], i)
    requires WellFormed(Events(lines), Publications(lines, i), i)
    requires WellFormed(Events(lines[..|lines| - 1]), Publications(lines, i), i)
    ensures LatestWrench(sc, lines, i) == LatestWrench(sc, lines[..|lines| - 1], i)
  {
    hide Publications, SubMessages, Scaled;
    var ps := Publications(lines, i);
    if ps != [] {
      assert IsLast(Events(lines[..|lines| - 1]), ps[|ps| - 1].lo, ps[|ps| - 1].hi, ps[|ps| - 1].force, i, Force);
    }
  }

  /**
   * History refinement: after any lines, the six channels of each sensor are the
   * latest force and the latest torque received since the publication before,
   * as of the latest line by which both had arrived; the buffers hold what came later.
   */
  lemma {:induction false} HistoryRefinement(sc: Scaling, lines: seq<string>, i: nat)
    requires i < |sc| && NoLineThrows(lines)
    ensures Follows(sc, Runs(sc, lines), lines, i)
  {
    hide Publish, PublishUpTo, StoreAll, LastMatch, Publications, Block, LineThrows, SlotFrom;
    if lines == [] {
      NothingYet(sc, i);
    } else {
      var earlier, line := lines[..|lines| - 1], lines[|lines| - 1];
      assert line in lines;
      HistoryRefinement(sc, earlier, i);
      var before := Runs(sc, earlier);
      ArriveFollows(sc, before, lines, i);
      PublishUpToServes(sc, Arrive(sc, before, line), |sc|, i);
      PublishFollows(sc, before, Runs(sc, lines), lines, i);
    }
  }

  lemma NothingYet(sc: Scaling, i: nat)
    requires i < |sc|
    ensures Follows(sc, Initial(sc), [], i)
  {
  }
}
