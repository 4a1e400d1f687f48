/** The `/next-matches` request handler around the selection: for each division in
    order it resolves the division's URL from the environment, derives the event
    key, fetches the event's matches and reads the clock; any failure on the way
    turns the whole response into the single generic error. */
module Handler {
  import opened Types
  import opened EventKey
  import opened Selection
  import opened Reference
  import SelectionProofs

  const TbaBaseUrl := "https://www.thebluealliance.com/api/v3"
  const FailureMessage := "Failed to fetch next matches"

  /** One row of the division table: the division's name and the key under which
      its URL is looked up in the environment. */
  datatype DivisionConfig = DivisionConfig(name: string, envKey: string)

  /** The static tables the handler reads: tracked teams, divisions in iteration
      order, and stream links by division name. */
  datatype Config = Config(roster: seq<string>, divisions: seq<DivisionConfig>, streams: map<string, string>)

  /** Status 200 with the per-team body, or status 500 with `{error: ...}`. */
  datatype Response = Success(upcoming: map<string, Entry>) | Failure(error: string)

  /** The remote request for one event's matches. */
  function MatchesUrl(eventKey: string): string
  {
    TbaBaseUrl + "/event/" + eventKey + "/matches"
  }

  /** `process.env[key]`: undefined when the variable is not set. */
  function LookupEnv(env: map<string, string>, key: string): Option<string>
  {
    if key in env then Some(env[key]) else None
  }

  /** The matches of one division: an undefined URL makes `url.split` throw, and a
      failed request throws as well. */
  function FetchDivision(d: DivisionConfig, env: map<string, string>, fetch: string -> Result<seq<Match>>): Result<seq<Match>>
  {
    match LookupEnv(env, d.envKey)
    case None => Err("url is undefined")
    case Some(url) => fetch(MatchesUrl(LastSegment(url)))
  }

  predicate DivisionFails(d: DivisionConfig, env: map<string, string>, fetch: string -> Result<seq<Match>>)
  {
    FetchDivision(d, env, fetch).Err?
  }

  /** The data of every division, in order, with the i-th clock reading taken in
      the i-th iteration; the first failure aborts the whole loop. */
  function Gather(divisions: seq<DivisionConfig>, env: map<string, string>, fetch: string -> Result<seq<Match>>, clock: nat -> int): (r: Result<seq<Batch>>)
    ensures r.Err? <==> exists i :: 0 <= i < |divisions| && DivisionFails(divisions[i], env, fetch)
    ensures r.Ok? ==> |r.value| == |divisions|
    ensures r.Ok? ==> forall i :: 0 <= i < |divisions| ==>
                        r.value[i] == Batch(divisions[i].name, clock(i), FetchDivision(divisions[i], env, fetch).value)
  {
    if |divisions| == 0 then Ok([])
    else
      var n := |divisions| - 1;
      var init := divisions[..n];
      assert forall i :: 0 <= i < n ==> init[i] == divisions[i];
      match Gather(init, env, fetch, clock)
      case Err(reason) => Err(reason)
      case Ok(batches) =>
        match FetchDivision(divisions[n], env, fetch)
        case Err(reason) => Err(reason)
        case Ok(matches) => Ok(batches + [Batch(divisions[n].name, clock(n), matches)])
  }

  /** The handler: the generic error when any division fails, otherwise the
      per-team first-seen earliest upcoming qualification match over the data of
      every division. */
  function NextMatches(cfg: Config, env: map<string, string>, fetch: string -> Result<seq<Match>>, clock: nat -> int): (r: Response)
    ensures r.Failure? <==> exists i :: 0 <= i < |cfg.divisions| && DivisionFails(cfg.divisions[i], env, fetch)
    ensures r.Failure? ==> r.error == FailureMessage
    ensures r.Success? ==> Gather(cfg.divisions, env, fetch, clock).Ok?
    ensures r.Success? ==> IsNextMatches(r.upcoming, cfg.roster, cfg.streams, Gather(cfg.divisions, env, fetch, clock).value)
  {
    match Gather(cfg.divisions, env, fetch, clock)
    case Err(_) => Failure(FailureMessage)
    case Ok(batches) =>
      SelectionProofs.SelectIsNextMatches(cfg.roster, cfg.streams, batches);
      Success(Select(cfg.roster, cfg.streams, batches))
  }

  /** All or nothing: one failing division denies the result to every team. */
  lemma OneFailureFailsAll(cfg: Config, env: map<string, string>, fetch: string -> Result<seq<Match>>, clock: nat -> int, i: int)
    requires 0 <= i < |cfg.divisions|
    requires DivisionFails(cfg.divisions[i], env, fetch)
    ensures NextMatches(cfg, env, fetch, clock) == Failure(FailureMessage)
  {
  }

  /** The stream table has a row for every division. */
  predicate StreamsCover(cfg: Config)
  {
    forall i :: 0 <= i < |cfg.divisions| ==> cfg.divisions[i].name in cfg.streams
  }

  /** When the stream table covers the divisions, every entry of a successful
      response carries the stream link of the division it names. */
  lemma EntriesCarryStream(cfg: Config, env: map<string, string>, fetch: string -> Result<seq<Match>>, clock: nat -> int)
    requires StreamsCover(cfg)
    ensures var r := NextMatches(cfg, env, fetch, clock);
            r.Success? ==> forall team :: team in r.upcoming ==>
              && r.upcoming[team].division in cfg.streams
              && r.upcoming[team].stream == Some(cfg.streams[r.upcoming[team].division])
  {
    var r := NextMatches(cfg, env, fetch, clock);
    if r.Success? {
      var batches := Gather(cfg.divisions, env, fetch, clock).value;
      forall team | team in r.upcoming
        ensures r.upcoming[team].division in cfg.streams
        ensures r.upcoming[team].stream == Some(cfg.streams[r.upcoming[team].division])
      {
        var k, j :| FirstEarliest(batches, team, k, j) && r.upcoming[team] == EntryAt(cfg.streams, batches, k, j);
        assert batches[k].division == cfg.divisions[k].name;
      }
    }
  }
}
