/** The selection body of the `/next-matches` handler, as the code performs it:
    every tracked team starts with no match; each division's matches are filtered
    to upcoming qualification matches; each of those is offered to the tracked
    teams on its alliances, replacing a team's entry when the team has none or the
    match is strictly earlier; teams still without a match are dropped. */
module Selection {
  import opened Types

  /** The accumulator: every tracked team, mapped to its best entry so far. */
  type Upcoming = map<string, Option<Entry>>

  /** Every tracked team, with no match yet. */
  function Init(roster: seq<string>): (acc: Upcoming)
    ensures acc.Keys == set t | t in roster
    ensures forall t :: t in acc ==> acc[t].None?
  {
    map t | t in roster :: None
  }

  /** The replacement test: no entry yet, or a truthy predicted time strictly
      before the stored entry's. */
  predicate Improves(current: Option<Entry>, m: Match)
  {
    current.None? || (Timed(m) && Time(m) < Time(current.value.game))
  }

  /** Offers one match, wrapped in its entry, to every tracked team. */
  function Offer(acc: Upcoming, roster: seq<string>, e: Entry): (acc': Upcoming)
    ensures acc'.Keys == acc.Keys
  {
    map t | t in acc :: if t in roster && Contains(e.game, t) && Improves(acc[t], e.game) then Some(e) else acc[t]
  }

  /** A team's entry only changes to the offered one, and only for a tracked team
      on its alliances; a team without an entry always takes it; an entry is
      replaced exactly when the offered match is strictly earlier. */
  lemma OfferChanges(acc: Upcoming, roster: seq<string>, e: Entry)
    ensures var acc' := Offer(acc, roster, e);
            forall t :: t in acc' ==> acc'[t] == acc[t] || (acc'[t] == Some(e) && t in roster && Contains(e.game, t))
    ensures var acc' := Offer(acc, roster, e);
            forall t :: t in acc && t in roster && Contains(e.game, t) && acc[t].None? ==> acc'[t] == Some(e)
    ensures var acc' := Offer(acc, roster, e);
            forall t :: t in acc' && acc'[t] != acc[t] && acc[t].Some? ==>
              Timed(e.game) && Time(e.game) < Time(acc[t].value.game)
    ensures var acc' := Offer(acc, roster, e);
            forall t ::
              (&& t in acc && t in roster && Contains(e.game, t) && acc[t].Some?
               && Timed(e.game) && Time(e.game) < Time(acc[t].value.game))
              ==> acc'[t] == Some(e)
  {
  }

  /** The matches of one division that pass the filter. */
  function UpcomingQuals(ms: seq<Match>, now: int): (quals: seq<Match>)
    ensures |quals| <= |ms|
    ensures forall m :: m in quals <==> m in ms && Eligible(m, now)
  {
    if |ms| == 0 then []
    else
      var init := ms[..|ms| - 1];
      assert ms == init + [ms[|ms| - 1]];
      var quals' := UpcomingQuals(init, now);
      if Eligible(ms[|ms| - 1], now) then quals' + [ms[|ms| - 1]] else quals'
  }

  /** The inner loop over one division's upcoming qualification matches. */
  function ScanMatches(acc: Upcoming, roster: seq<string>, quals: seq<Match>, division: string, stream: Option<string>): (acc': Upcoming)
    ensures acc'.Keys == acc.Keys
  {
    if |quals| == 0 then acc
    else
      var acc'' := ScanMatches(acc, roster, quals[..|quals| - 1], division, stream);
      Offer(acc'', roster, Entry(quals[|quals| - 1], division, stream))
  }

  /** After the inner loop, a team's entry either stays as it was or becomes one
      of the division's matches, with this division's name and stream and the
      team on its alliances; an entry never becomes later or disappears. */
  lemma {:induction false} ScanMatchesChanges(acc: Upcoming, roster: seq<string>, quals: seq<Match>, division: string, stream: Option<string>)
    ensures var acc' := ScanMatches(acc, roster, quals, division, stream);
            forall t :: t in acc' ==>
              || acc'[t] == acc[t]
              || (&& acc'[t].Some?
                  && acc'[t].value.game in quals
                  && acc'[t].value.division == division
                  && acc'[t].value.stream == stream
                  && t in roster
                  && Contains(acc'[t].value.game, t))
    ensures var acc' := ScanMatches(acc, roster, quals, division, stream);
            forall t :: t in acc && acc[t].Some? ==>
              acc'[t].Some? && Time(acc'[t].value.game) <= Time(acc[t].value.game)
  {
    if |quals| > 0 {
      var init := quals[..|quals| - 1];
      ScanMatchesChanges(acc, roster, init, division, stream);
      OfferChanges(ScanMatches(acc, roster, init, division, stream), roster, Entry(quals[|quals| - 1], division, stream));
      assert forall m :: m in init ==> m in quals;
    }
  }

  /** The outer loop over the divisions, in list order. */
  function ScanDivisions(roster: seq<string>, streams: map<string, string>, batches: seq<Batch>): (acc: Upcoming)
    ensures acc.Keys == set t | t in roster
  {
    if |batches| == 0 then Init(roster)
    else
      var last := batches[|batches| - 1];
      var acc' := ScanDivisions(roster, streams, batches[..|batches| - 1]);
      ScanMatches(acc', roster, UpcomingQuals(last.matches, last.now), last.division, StreamOf(streams, last.division))
  }

  /** Removes the teams that are still without a match. */
  function DropEmpty(acc: Upcoming): (upcoming: map<string, Entry>)
    ensures upcoming.Keys == set t | t in acc && acc[t].Some?
    ensures forall t :: t in upcoming ==> acc[t] == Some(upcoming[t])
  {
    map t | t in acc && acc[t].Some? :: acc[t].value
  }

  /** The response body for the given divisions' data. Untracked teams never
      appear in it. */
  function Select(roster: seq<string>, streams: map<string, string>, batches: seq<Batch>): (upcoming: map<string, Entry>)
    ensures forall t :: t in upcoming ==> t in roster
  {
    DropEmpty(ScanDivisions(roster, streams, batches))
  }
}
