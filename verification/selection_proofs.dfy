/** The fold of `Selection` computes the body the `Reference` module describes:
    per tracked team, the first-seen earliest upcoming qualification match. */
module SelectionProofs {
  import opened Types
  import opened Selection
  import opened Reference

  /** What the accumulator may hold for one team at horizon (n, i), i.e. after
      visiting every position before match i of division n: no entry when the
      team has had no offer yet, otherwise the entry of its first-seen earliest
      offer so far. */
  ghost predicate TeamSummarised(current: Option<Entry>, streams: map<string, string>, batches: seq<Batch>, team: string, n: int, i: int)
  {
    match current
    case None => forall k, j :: Offered(batches, k, j, team) ==> !Before(k, j, n, i)
    case Some(e) => exists k, j :: FirstEarliestBefore(batches, team, k, j, n, i) && e == EntryAt(streams, batches, k, j)
  }

  /** The fold invariant at horizon (n, i): the accumulator holds exactly the
      tracked teams, each as `TeamSummarised` describes. */
  ghost predicate Summarises(acc: Upcoming, roster: seq<string>, streams: map<string, string>, batches: seq<Batch>, n: int, i: int)
  {
    && acc.Keys == (set t | t in roster)
    && forall t :: t in acc ==> TeamSummarised(acc[t], streams, batches, t, n, i)
  }

  /** A position that is no offer for the team leaves its entry correct. */
  lemma SkipKeeps(current: Option<Entry>, streams: map<string, string>, batches: seq<Batch>, team: string, n: nat, i: nat)
    requires n < |batches| && i < |batches[n].matches|
    requires !Offered(batches, n, i, team)
    requires TeamSummarised(current, streams, batches, team, n, i)
    ensures TeamSummarised(current, streams, batches, team, n, i + 1)
  {
    if current.Some? {
      var k, j :| FirstEarliestBefore(batches, team, k, j, n, i) && current.value == EntryAt(streams, batches, k, j);
      assert FirstEarliestBefore(batches, team, k, j, n, i + 1);
    }
  }

  /** An offer strictly earlier than everything seen so far, or the first offer,
      becomes the team's entry. */
  lemma TakeOffer(current: Option<Entry>, streams: map<string, string>, batches: seq<Batch>, team: string, n: nat, i: nat)
    requires n < |batches| && i < |batches[n].matches|
    requires Offered(batches, n, i, team)
    requires TeamSummarised(current, streams, batches, team, n, i)
    requires current.Some? ==> Time(batches[n].matches[i]) < Time(current.value.game)
    ensures TeamSummarised(Some(EntryAt(streams, batches, n, i)), streams, batches, team, n, i + 1)
  {
    if current.Some? {
      var k, j :| FirstEarliestBefore(batches, team, k, j, n, i) && current.value == EntryAt(streams, batches, k, j);
    }
    assert FirstEarliestBefore(batches, team, n, i, n, i + 1);
  }

  /** An offer no earlier than the stored entry leaves it in place. */
  lemma KeepEntry(e: Entry, streams: map<string, string>, batches: seq<Batch>, team: string, n: nat, i: nat)
    requires n < |batches| && i < |batches[n].matches|
    requires Offered(batches, n, i, team)
    requires TeamSummarised(Some(e), streams, batches, team, n, i)
    requires Time(e.game) <= Time(batches[n].matches[i])
    ensures TeamSummarised(Some(e), streams, batches, team, n, i + 1)
  {
    var k, j :| FirstEarliestBefore(batches, team, k, j, n, i) && e == EntryAt(streams, batches, k, j);
    assert FirstEarliestBefore(batches, team, k, j, n, i + 1);
  }

  /** One iteration of the inner loop keeps the invariant; an ineligible match
      is filtered out and leaves the accumulator alone. */
  lemma OfferStep(acc: Upcoming, roster: seq<string>, streams: map<string, string>, batches: seq<Batch>, n: nat, i: nat)
    requires n < |batches| && i < |batches[n].matches|
    requires Summarises(acc, roster, streams, batches, n, i)
    ensures var b := batches[n];
            var acc' := if Eligible(b.matches[i], b.now) then Offer(acc, roster, EntryAt(streams, batches, n, i)) else acc;
            Summarises(acc', roster, streams, batches, n, i + 1)
  {
    var b := batches[n];
    var m := b.matches[i];
    var e := EntryAt(streams, batches, n, i);
    var acc' := if Eligible(m, b.now) then Offer(acc, roster, e) else acc;
    forall t | t in acc'
      ensures TeamSummarised(acc'[t], streams, batches, t, n, i + 1)
    {
      assert TeamSummarised(acc[t], streams, batches, t, n, i);
      if !Offered(batches, n, i, t) {
        assert acc'[t] == acc[t];
        SkipKeeps(acc[t], streams, batches, t, n, i);
      } else if Improves(acc[t], m) {
        assert acc'[t] == Some(e);
        TakeOffer(acc[t], streams, batches, t, n, i);
      } else {
        assert acc'[t] == acc[t];
        KeepEntry(acc[t].value, streams, batches, t, n, i);
      }
    }
  }

  /** The accumulator after the inner loop has visited the first i matches of
      division n, the filter included. */
  function DivisionPrefixScan(acc: Upcoming, roster: seq<string>, streams: map<string, string>, batches: seq<Batch>, n: nat, i: nat): Upcoming
    requires n < |batches| && i <= |batches[n].matches|
  {
    var b := batches[n];
    ScanMatches(acc, roster, UpcomingQuals(b.matches[..i], b.now), b.division, StreamOf(streams, b.division))
  }

  /** Visiting one more match offers it when it passes the filter and does
      nothing otherwise. */
  lemma DivisionPrefixScanStep(acc: Upcoming, roster: seq<string>, streams: map<string, string>, batches: seq<Batch>, n: nat, i: nat)
    requires n < |batches| && 0 < i <= |batches[n].matches|
    ensures var b := batches[n];
            var prev := DivisionPrefixScan(acc, roster, streams, batches, n, i - 1);
            DivisionPrefixScan(acc, roster, streams, batches, n, i) ==
              if Eligible(b.matches[i - 1], b.now) then Offer(prev, roster, EntryAt(streams, batches, n, i - 1)) else prev
  {
    var b := batches[n];
    var ms := b.matches;
    var stream := StreamOf(streams, b.division);
    assert ms[..i][..i - 1] == ms[..i - 1];
    var quals := UpcomingQuals(ms[..i - 1], b.now);
    if Eligible(ms[i - 1], b.now) {
      assert UpcomingQuals(ms[..i], b.now) == quals + [ms[i - 1]];
      assert (quals + [ms[i - 1]])[..|quals|] == quals;
    } else {
      assert UpcomingQuals(ms[..i], b.now) == quals;
    }
  }

  /** Visiting the first i matches of division n keeps the invariant. */
  lemma {:induction false} ScanMatchesSummarises(acc: Upcoming, roster: seq<string>, streams: map<string, string>, batches: seq<Batch>, n: nat, i: nat)
    requires n < |batches| && i <= |batches[n].matches|
    requires Summarises(acc, roster, streams, batches, n, 0)
    ensures Summarises(DivisionPrefixScan(acc, roster, streams, batches, n, i), roster, streams, batches, n, i)
    decreases i
  {
    if i == 0 {
      assert batches[n].matches[..0] == [];
    } else {
      ScanMatchesSummarises(acc, roster, streams, batches, n, i - 1);
      DivisionPrefixScanStep(acc, roster, streams, batches, n, i);
      OfferStep(DivisionPrefixScan(acc, roster, streams, batches, n, i - 1), roster, streams, batches, n, i - 1);
    }
  }

  /** Finishing division n is the same horizon as starting division n + 1. */
  lemma NextDivision(acc: Upcoming, roster: seq<string>, streams: map<string, string>, batches: seq<Batch>, n: nat)
    requires n < |batches|
    requires Summarises(acc, roster, streams, batches, n, |batches[n].matches|)
    ensures Summarises(acc, roster, streams, batches, n + 1, 0)
  {
    var len := |batches[n].matches|;
    forall t | t in acc
      ensures TeamSummarised(acc[t], streams, batches, t, n + 1, 0)
    {
      assert TeamSummarised(acc[t], streams, batches, t, n, len);
      if acc[t].Some? {
        var k, j :| FirstEarliestBefore(batches, t, k, j, n, len) && acc[t].value == EntryAt(streams, batches, k, j);
        assert FirstEarliestBefore(batches, t, k, j, n + 1, 0);
      }
    }
  }

  /** Visiting the first n divisions keeps the invariant. */
  lemma {:induction false} ScanDivisionsSummarises(roster: seq<string>, streams: map<string, string>, batches: seq<Batch>, n: nat)
    requires n <= |batches|
    ensures Summarises(ScanDivisions(roster, streams, batches[..n]), roster, streams, batches, n, 0)
    decreases n
  {
    if n > 0 {
      ScanDivisionsSummarises(roster, streams, batches, n - 1);
      var prefix := batches[..n];
      assert prefix[..n - 1] == batches[..n - 1];
      var b := batches[n - 1];
      assert prefix[n - 1] == b;
      assert b.matches[..|b.matches|] == b.matches;
      ScanMatchesSummarises(ScanDivisions(roster, streams, batches[..n - 1]), roster, streams, batches, n - 1, |b.matches|);
      NextDivision(ScanDivisions(roster, streams, prefix), roster, streams, batches, n - 1);
    }
  }

  /** The handler's body meets the reference description. */
  lemma SelectIsNextMatches(roster: seq<string>, streams: map<string, string>, batches: seq<Batch>)
    ensures IsNextMatches(Select(roster, streams, batches), roster, streams, batches)
  {
    ScanDivisionsSummarises(roster, streams, batches, |batches|);
    assert batches[..|batches|] == batches;
    var acc := ScanDivisions(roster, streams, batches);
    var upcoming := Select(roster, streams, batches);
    forall t | t in roster
      ensures t in upcoming <==> exists k, j :: Offered(batches, k, j, t)
      ensures t in upcoming ==> exists k, j :: FirstEarliest(batches, t, k, j) && upcoming[t] == EntryAt(streams, batches, k, j)
    {
      assert TeamSummarised(acc[t], streams, batches, t, |batches|, 0);
      if t in upcoming {
        var k, j :| FirstEarliestBefore(batches, t, k, j, |batches|, 0) && acc[t].value == EntryAt(streams, batches, k, j);
        assert Offered(batches, k, j, t);
      }
    }
  }

  /** Two positions that are both the team's first-seen earliest offer coincide. */
  lemma FirstEarliestIsUnique(batches: seq<Batch>, team: string, k1: int, j1: int, k2: int, j2: int)
    requires FirstEarliest(batches, team, k1, j1)
    requires FirstEarliest(batches, team, k2, j2)
    ensures k1 == k2 && j1 == j2
  {
  }

  /** The reference description leaves no freedom: the fold's result is its only
      solution. */
  lemma SelectIsTheReference(upcoming: map<string, Entry>, roster: seq<string>, streams: map<string, string>, batches: seq<Batch>)
    requires IsNextMatches(upcoming, roster, streams, batches)
    ensures upcoming == Select(roster, streams, batches)
  {
    var selected := Select(roster, streams, batches);
    SelectIsNextMatches(roster, streams, batches);
    assert upcoming.Keys == selected.Keys;
    forall t | t in upcoming
      ensures upcoming[t] == selected[t]
    {
      var k1, j1 :| FirstEarliest(batches, t, k1, j1) && upcoming[t] == EntryAt(streams, batches, k1, j1);
      var k2, j2 :| FirstEarliest(batches, t, k2, j2) && selected[t] == EntryAt(streams, batches, k2, j2);
      FirstEarliestIsUnique(batches, t, k1, j1, k2, j2);
    }
  }

  /** Soundness: a team's entry is an upcoming qualification match from the
      division the entry names, the team plays in it, and the entry carries that
      division's stream link. */
  lemma Soundness(roster: seq<string>, streams: map<string, string>, batches: seq<Batch>, team: string)
    requires team in Select(roster, streams, batches)
    ensures var e := Select(roster, streams, batches)[team];
            exists k, j :: && ValidPos(batches, k, j)
                           && e.game == batches[k].matches[j]
                           && e.division == batches[k].division
                           && Eligible(e.game, batches[k].now)
                           && Contains(e.game, team)
                           && e.stream == StreamOf(streams, e.division)
  {
    SelectIsNextMatches(roster, streams, batches);
  }

  /** Completeness: a team is in the body exactly when it is tracked and plays in
      some upcoming qualification match of some division. */
  lemma Completeness(roster: seq<string>, streams: map<string, string>, batches: seq<Batch>, team: string)
    ensures team in Select(roster, streams, batches) <==>
            team in roster && exists k, j :: ValidPos(batches, k, j) && Eligible(batches[k].matches[j], batches[k].now) && Contains(batches[k].matches[j], team)
  {
    SelectIsNextMatches(roster, streams, batches);
    if team in roster && exists k, j :: ValidPos(batches, k, j) && Eligible(batches[k].matches[j], batches[k].now) && Contains(batches[k].matches[j], team) {
      var k, j :| ValidPos(batches, k, j) && Eligible(batches[k].matches[j], batches[k].now) && Contains(batches[k].matches[j], team);
      assert Offered(batches, k, j, team);
    }
  }

  /** Minimality: no upcoming qualification match of the team, in any division,
      starts before the chosen one. */
  lemma Minimality(roster: seq<string>, streams: map<string, string>, batches: seq<Batch>, team: string, k: int, j: int)
    requires team in Select(roster, streams, batches)
    requires ValidPos(batches, k, j) && Eligible(batches[k].matches[j], batches[k].now) && Contains(batches[k].matches[j], team)
    ensures Time(Select(roster, streams, batches)[team].game) <= Time(batches[k].matches[j])
  {
    SelectIsNextMatches(roster, streams, batches);
    assert Offered(batches, k, j, team);
  }

  /** Tie-break: among equally early matches of the team, the one visited first
      (earlier division, then earlier in the division's list) is kept. */
  lemma TieBreak(roster: seq<string>, streams: map<string, string>, batches: seq<Batch>, team: string, k: int, j: int)
    requires team in Select(roster, streams, batches)
    requires ValidPos(batches, k, j) && Eligible(batches[k].matches[j], batches[k].now) && Contains(batches[k].matches[j], team)
    requires Time(batches[k].matches[j]) == Time(Select(roster, streams, batches)[team].game)
    ensures exists k0, j0 :: && ValidPos(batches, k0, j0)
                             && Select(roster, streams, batches)[team] == EntryAt(streams, batches, k0, j0)
                             && (k0 < k || (k0 == k && j0 <= j))
  {
    SelectIsNextMatches(roster, streams, batches);
    assert Offered(batches, k, j, team);
  }
}
