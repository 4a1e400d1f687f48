/** Values shared by the selection and the request handler of the `/next-matches`
    endpoint: the remote match record (only the fields the selection reads), the
    per-team result entry, and one division's fetched data. */
module Types {

  datatype Option<+T> = None | Some(value: T)

  /** The outcome of anything that can throw inside the handler's `try` block. */
  datatype Result<+T> = Ok(value: T) | Err(reason: string)

  /** A match as the remote API reports it: `comp_level`, `predicted_time` in Unix
      seconds (absent or null when unscheduled), and the red and blue `team_keys`. */
  datatype Match = Match(compLevel: string, predictedTime: Option<int>, red: seq<string>, blue: seq<string>)

  /** One team's result: the chosen match (the JSON field `match`), the name of the
      division it was found in, and that division's stream link (absent when the
      stream table has no row for the division). */
  datatype Entry = Entry(game: Match, division: string, stream: Option<string>)

  /** One division's data for one request: its name, the clock reading taken in its
      loop iteration (milliseconds), and the matches fetched for it. */
  datatype Batch = Batch(division: string, now: int, matches: seq<Match>)

  const Qualification := "qm"

  /** The largest magnitude a JavaScript `Date` accepts, in milliseconds; beyond it
      the date is invalid and every comparison with it is false. */
  const MaxDateMillis := 8_640_000_000_000_000

  /** `predicted_time` is truthy: present and non-zero. */
  predicate Timed(m: Match)
  {
    m.predictedTime.Some? && m.predictedTime.value != 0
  }

  /** The predicted time in seconds; only read for timed matches. */
  function Time(m: Match): int
  {
    match m.predictedTime
    case Some(t) => t
    case None => 0
  }

  /** `new Date(m.predicted_time * 1000) > now` for a timed match. */
  predicate StartsAfter(m: Match, now: int)
  {
    -MaxDateMillis <= Time(m) * 1000 <= MaxDateMillis && Time(m) * 1000 > now
  }

  /** The filter of the handler: a qualification match with a truthy predicted
      time that lies after the division's clock reading. */
  predicate Eligible(m: Match, now: int)
  {
    m.compLevel == Qualification && Timed(m) && StartsAfter(m, now)
  }

  /** The stream link configured for a division, absent when there is none. */
  function StreamOf(streams: map<string, string>, division: string): Option<string>
  {
    if division in streams then Some(streams[division]) else None
  }

  /** The team is on the red or on the blue alliance. */
  predicate Contains(m: Match, team: string)
  {
    team in m.red + m.blue
  }
}
