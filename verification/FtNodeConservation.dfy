/**
 * No half gets lost unnoticed in the FT node: each received half is published
 * once, overwritten by a later one before publication, or still waiting.
 */
module FtNodeConservation {
  import opened FtNode
  import opened FtNodeHistory

  /** The events that are halves of kind h for sensor i, as positions in the history. */
  function Received(es: seq<SubMessage>, i: nat, h: Half): set<nat> {
    set j: nat | j < |es| && Matches(es[j], i, h)
  }

  function Taken(p: Publication, h: Half): nat { if h == Force then p.force else p.torque }

  function Published(ps: seq<Publication>, h: Half): set<nat> {
    set k | 0 <= k < |ps| :: Taken(ps[k], h)
  }

  function Pending(es: seq<SubMessage>, ps: seq<Publication>, i: nat, h: Half): set<nat> {
    match LastMatch(es, WindowStart(ps), i, h)
    case None => {}
    case Some(j) => {j}
  }

  /** No publication of the sensor happens after event j and no later than event k. */
  predicate SameWindow(ps: seq<Publication>, j: nat, k: nat) {
    forall n | 0 <= n < |ps| :: !(j < ps[n].hi <= k)
  }

  /** A later half of the same kind arrives before event j could be published. */
  ghost predicate Superseded(es: seq<SubMessage>, ps: seq<Publication>, i: nat, h: Half, j: nat) {
    exists k: nat | j < k < |es| :: Matches(es[k], i, h) && SameWindow(ps, j, k)
  }

  ghost function Overwritten(es: seq<SubMessage>, ps: seq<Publication>, i: nat, h: Half): set<nat> {
    set j | j in Received(es, i, h) && Superseded(es, ps, i, h, j)
  }

  lemma TakenIsLast(es: seq<SubMessage>, ps: seq<Publication>, i: nat, h: Half, k: nat)
    requires WellFormed(es, ps, i) && k < |ps|
    ensures IsLast(es, ps[k].lo, ps[k].hi, Taken(ps[k], h), i, h)
  {
  }

  /** The windows of the publications do not overlap. */
  lemma {:induction false} WindowsAreOrdered(es: seq<SubMessage>, ps: seq<Publication>, i: nat, k: nat, n: nat)
    requires WellFormed(es, ps, i) && k < n < |ps|
    ensures ps[k].hi <= ps[n].lo
    decreases n
  {
    hide Matches;
    assert ps[n].lo == WindowStart(ps[..n]) == ps[n - 1].hi;
    if k < n - 1 {
      WindowsAreOrdered(es, ps, i, k, n - 1);
      TakenIsLast(es, ps, i, Force, n - 1);
    }
  }

  /** No half goes into two publications; the later publication takes the later half. */
  lemma TakenIncreases(es: seq<SubMessage>, ps: seq<Publication>, i: nat, h: Half, k: nat, n: nat)
    requires WellFormed(es, ps, i) && k < n < |ps|
    ensures Taken(ps[k], h) < Taken(ps[n], h)
  {
    WindowsAreOrdered(es, ps, i, k, n);
    TakenIsLast(es, ps, i, h, k);
    TakenIsLast(es, ps, i, h, n);
  }

  lemma {:induction false} PublishedCount(es: seq<SubMessage>, ps: seq<Publication>, i: nat, h: Half, n: nat)
    requires WellFormed(es, ps, i) && n <= |ps|
    ensures |Published(ps[..n], h)| == n
  {
    hide WellFormed;
    if n > 0 {
      PublishedCount(es, ps, i, h, n - 1);
      forall k | 0 <= k < n - 1
        ensures Taken(ps[k], h) != Taken(ps[n - 1], h)
      {
        TakenIncreases(es, ps, i, h, k, n - 1);
      }
      var earlier, t := Published(ps[..n - 1], h), Taken(ps[n - 1], h);
      assert t !in earlier;
      assert Published(ps[..n], h) == earlier + {t} by {
        assert forall k | 0 <= k < n - 1 :: ps[..n][k] == ps[..n - 1][k];
        assert ps[..n][n - 1] == ps[n - 1];
      }
    }
  }

  /** Every event before the open window lies in the window of some publication. */
  lemma {:induction false} WindowOf(es: seq<SubMessage>, ps: seq<Publication>, i: nat, n: nat, j: nat) returns (k: nat)
    requires WellFormed(es, ps, i) && n <= |ps| && j < WindowStart(ps[..n])
    ensures k < n && ps[k].lo <= j < ps[k].hi
  {
    assert ps[n - 1].lo == WindowStart(ps[..n - 1]);
    if j < ps[n - 1].lo {
      k := WindowOf(es, ps, i, n - 1, j);
    } else {
      k := n - 1;
    }
  }

  /** The half a publication takes is not overwritten; an earlier one in its window is. */
  lemma FateInWindow(es: seq<SubMessage>, ps: seq<Publication>, i: nat, h: Half, k: nat, j: nat)
    requires WellFormed(es, ps, i) && k < |ps| && ps[k].lo <= j < ps[k].hi && Matches(es[j], i, h)
    ensures Superseded(es, ps, i, h, j) <==> j != Taken(ps[k], h)
  {
    hide Matches;
    TakenIsLast(es, ps, i, h, k);
    var t := Taken(ps[k], h);
    if j != t {
      forall n | 0 <= n < |ps|
        ensures !(j < ps[n].hi <= t)
      {
        if n < k {
          WindowsAreOrdered(es, ps, i, n, k);
        } else if k < n {
          WindowsAreOrdered(es, ps, i, k, n);
          TakenIsLast(es, ps, i, h, n);
        }
      }
      assert SameWindow(ps, j, t);
    }
  }

  lemma WindowEndsOrdered(es: seq<SubMessage>, ps: seq<Publication>, i: nat, n: nat)
    requires WellFormed(es, ps, i) && n < |ps|
    ensures ps[n].hi <= WindowStart(ps)
  {
    hide Matches;
    if n < |ps| - 1 {
      WindowsAreOrdered(es, ps, i, n, |ps| - 1);
      TakenIsLast(es, ps, i, Force, |ps| - 1);
    }
  }

  /** In the open window everything but the latest half is overwritten. */
  lemma FateInOpenWindow(es: seq<SubMessage>, ps: seq<Publication>, i: nat, h: Half, j: nat)
    requires WellFormed(es, ps, i) && WindowStart(ps) <= j < |es| && Matches(es[j], i, h)
    ensures Superseded(es, ps, i, h, j) <==> j !in Pending(es, ps, i, h)
  {
    hide Matches, WellFormed;
    forall n | 0 <= n < |ps|
      ensures ps[n].hi <= j
    {
      WindowEndsOrdered(es, ps, i, n);
    }
    var last := LastMatch(es, WindowStart(ps), i, h);
    assert SameWindow(ps, j, last.value);
  }

  lemma PendingIsReceived(es: seq<SubMessage>, ps: seq<Publication>, i: nat, h: Half)
    requires WellFormed(es, ps, i)
    ensures Pending(es, ps, i, h) <= Received(es, i, h) && Pending(es, ps, i, h) !! Published(ps, h)
    ensures Pending(es, ps, i, h) !! Overwritten(es, ps, i, h)
  {
    hide WellFormed, Matches;
    forall j | j in Pending(es, ps, i, h)
      ensures j in Received(es, i, h) && j !in Published(ps, h) && j !in Overwritten(es, ps, i, h)
    {
      FateInOpenWindow(es, ps, i, h, j);
      forall k | 0 <= k < |ps|
        ensures Taken(ps[k], h) != j
      {
        TakenIsLast(es, ps, i, h, k);
        WindowEndsOrdered(es, ps, i, k);
      }
    }
  }

  lemma PublishedIsReceived(es: seq<SubMessage>, ps: seq<Publication>, i: nat, h: Half)
    requires WellFormed(es, ps, i)
    ensures Published(ps, h) <= Received(es, i, h) && Published(ps, h) !! Overwritten(es, ps, i, h)
  {
    hide WellFormed, Matches;
    forall j | j in Published(ps, h)
      ensures j in Received(es, i, h) && j !in Overwritten(es, ps, i, h)
    {
      var k :| 0 <= k < |ps| && Taken(ps[k], h) == j;
      TakenIsLast(es, ps, i, h, k);
      FateInWindow(es, ps, i, h, k, j);
    }
  }

  /** Published, overwritten or pending: every received half has exactly one fate. */
  lemma OneFate(es: seq<SubMessage>, ps: seq<Publication>, i: nat, h: Half)
    requires WellFormed(es, ps, i)
    ensures Received(es, i, h) == Published(ps, h) + Overwritten(es, ps, i, h) + Pending(es, ps, i, h)
    ensures Published(ps, h) !! Overwritten(es, ps, i, h) !! Pending(es, ps, i, h)
    ensures |Published(ps, h)| == |ps|
  {
    hide WellFormed, Matches, Superseded, Pending;
    assert ps[..|ps|] == ps;
    PublishedCount(es, ps, i, h, |ps|);
    PendingIsReceived(es, ps, i, h);
    PublishedIsReceived(es, ps, i, h);
    forall j | j in Received(es, i, h)
      ensures j in Published(ps, h) + Overwritten(es, ps, i, h) + Pending(es, ps, i, h)
    {
      if j < WindowStart(ps) {
        var k := WindowOf(es, ps, i, |ps|, j);
        FateInWindow(es, ps, i, h, k, j);
      } else {
        FateInOpenWindow(es, ps, i, h, j);
      }
    }
  }

  function Waiting(slot: Slot, h: Half): bool { if h == Force then slot.forceFlag else slot.torqueFlag }

  /**
   * Conservation, for either kind of half of each sensor over any run: received is
   * published plus overwritten plus the one that may still wait; force and torque
   * never wait together after a run.
   */
  lemma Conservation(sc: Scaling, lines: seq<string>, i: nat, h: Half)
    requires i < |sc| && NoLineThrows(lines)
    ensures var es, ps, slot := Events(lines), Publications(lines, i), Runs(sc, lines).slots[i];
            && |Received(es, i, h)| == |ps| + |Overwritten(es, ps, i, h)| + (if Waiting(slot, h) then 1 else 0)
            && !(Waiting(slot, Force) && Waiting(slot, Torque))
  {
    hide Publications, Runs, Received, Overwritten, Published, LastMatch, LatestWrench, Block;
    HistoryRefinement(sc, lines, i);
    OneFate(Events(lines), Publications(lines, i), i, h);
  }
}
