/** A declarative statement of what the handler's body should be, independent of
    the fold: a match is identified by its position (k, j), match j of division k,
    and positions are ordered the way the handler visits them. */
module Reference {
  import opened Types

  predicate ValidPos(batches: seq<Batch>, k: int, j: int)
  {
    0 <= k < |batches| && 0 <= j < |batches[k].matches|
  }

  function MatchAt(batches: seq<Batch>, k: int, j: int): Match
    requires ValidPos(batches, k, j)
  {
    batches[k].matches[j]
  }

  /** The entry the handler would store for the match at (k, j). */
  function EntryAt(streams: map<string, string>, batches: seq<Batch>, k: int, j: int): Entry
    requires ValidPos(batches, k, j)
  {
    Entry(batches[k].matches[j], batches[k].division, StreamOf(streams, batches[k].division))
  }

  /** The match at (k, j) passes its division's filter and the team plays in it. */
  predicate Offered(batches: seq<Batch>, k: int, j: int, team: string)
  {
    ValidPos(batches, k, j) && Eligible(batches[k].matches[j], batches[k].now) && Contains(batches[k].matches[j], team)
  }

  /** Visiting order: divisions in list order, and within a division the matches
      in list order. */
  predicate Before(k1: int, j1: int, k2: int, j2: int)
  {
    k1 < k2 || (k1 == k2 && j1 < j2)
  }

  /** Among the team's offers visited before (n, i), the one at (k, j) has the
      least predicted time, and every offer visited before it is strictly later. */
  ghost predicate FirstEarliestBefore(batches: seq<Batch>, team: string, k: int, j: int, n: int, i: int)
  {
    && Offered(batches, k, j, team)
    && Before(k, j, n, i)
    && forall k', j' :: Offered(batches, k', j', team) && Before(k', j', n, i) ==>
         && Time(MatchAt(batches, k, j)) <= Time(MatchAt(batches, k', j'))
         && (Before(k', j', k, j) ==> Time(MatchAt(batches, k, j)) < Time(MatchAt(batches, k', j')))
  }

  /** The first-seen earliest offer for the team over all divisions. */
  ghost predicate FirstEarliest(batches: seq<Batch>, team: string, k: int, j: int)
  {
    FirstEarliestBefore(batches, team, k, j, |batches|, 0)
  }

  /** The promised response body: exactly the tracked teams with an offer, each
      mapped to the entry of its first-seen earliest offer. */
  ghost predicate IsNextMatches(upcoming: map<string, Entry>, roster: seq<string>, streams: map<string, string>, batches: seq<Batch>)
  {
    && (forall t :: t in upcoming ==> t in roster)
    && (forall t :: t in roster ==> (t in upcoming <==> exists k, j :: Offered(batches, k, j, t)))
    && (forall t :: t in upcoming ==>
          exists k, j :: FirstEarliest(batches, t, k, j) && upcoming[t] == EntryAt(streams, batches, k, j))
  }
}
