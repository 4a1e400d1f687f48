# Next qualification match per tracked team

A Dafny model of the `/next-matches` endpoint of a small relay server. The
endpoint polls The Blue Alliance API for each championship division and returns,
for each tracked team, its single soonest upcoming qualification match, together
with the division it was found in and that division's stream link.

The model follows the handler's structure:

- `Types`: the match record, reduced to the fields the handler reads
  (`comp_level`, `predicted_time`, and the red and blue `team_keys`). It also
  holds the result entry and the eligibility filter. The entry's `match` field is
  called `game`, because `match` is a Dafny keyword.
- `EventKey`: `url.split('/').pop()`, modelled as a split function, its join
  inverse, and the last piece.
- `Selection`: the body of the handler as a pure fold, in the code's order. Every
  tracked team starts with no match. Each division's matches are filtered. Each
  surviving match is offered to the tracked teams on its alliances. A team's entry
  is replaced only when the team has none yet or the match is strictly earlier.
  Teams still without a match are dropped.
- `Reference`: a separate, declarative description of the intended result. Each
  match is identified by its position (division k, match j) in visiting order.
  Each team gets the first-seen match with the earliest predicted time among its
  eligible matches.
- `SelectionProofs`: proves that the fold computes exactly the reference result.
  It then states soundness, completeness, minimality and the tie-break as separate
  lemmas.
- `Handler`: the request. For each division in order, the handler looks up the
  URL in the environment, derives the event key, fetches the matches and reads the
  clock. If any division fails, the response is the single generic error.
- `Deployment`: the tables the server ships with (12 teams, 8 divisions, 8
  stream links).

The environment, the HTTP fetch and the clock are parameters:

- `env` is a `map<string, string>`.
- `fetch` is a function from the request URL to `Result<seq<Match>>`.
- `clock` is a function from the division's loop index to milliseconds.

The code reads the clock once per division, after that division's fetch, so each
division is filtered against its own reading.

Two behaviours of the code are kept as written:

- The division table stores each event page URL as the value that is then used
  as a key into `process.env` (index.js:20-29, 55). The model performs that
  lookup literally. Whether it succeeds depends on the environment given. When it
  fails, the response is the generic 500, exactly as for a failed fetch.
- `predicted_time` must be truthy, so a time of 0 is never eligible. A time is
  also never eligible when `predicted_time * 1000` lies outside the range of a
  JavaScript `Date` (±8.64e15 ms), because the comparison with an invalid date
  is false.

## Model

| member | source | states |
|---|---|---|
| Selection.UpcomingQuals | index.js:65-67 | a match survives the filter exactly when it is one of the division's matches, its level is `qm`, its predicted time is present and non-zero, and that time in milliseconds lies after the division's clock reading; nothing is added |
| Selection.Init | index.js:49-52 | the accumulator starts with exactly the tracked teams as keys, each with no match |
| Selection.OfferChanges | index.js:69-86 | offering one match changes a team's entry only to that match, only for a tracked team on its red or blue alliance; a team without an entry always takes it; a tracked team's existing entry is replaced if and only if the match is on one of its alliances and has a truthy, strictly earlier predicted time |
| Selection.ScanMatchesChanges | index.js:69-87 | after a division's inner loop, each team's entry is either unchanged or one of that division's filtered matches, with the division's name and stream and the team on an alliance; an entry never disappears or becomes later |
| Selection.ScanDivisions | index.js:49-88 | after any number of divisions the accumulator still holds exactly the tracked teams as keys |
| Selection.DropEmpty | index.js:90-93 | the body keeps exactly the teams that have an entry, with the entry unchanged; teams without one are omitted, not mapped to null |
| Selection.Select | index.js:71-72 | untracked teams in an alliance never appear in the body |
| SelectionProofs.OfferStep | index.js:69-86 | one offer keeps the invariant: every team without an entry has had no eligible match yet, and every team with an entry holds its first-seen earliest eligible match so far |
| SelectionProofs.ScanMatchesSummarises | index.js:65-87 | the invariant holds after the inner loop over the first i matches of a division, the filter included |
| SelectionProofs.ScanDivisionsSummarises | index.js:54-88 | the invariant holds after the outer loop over the first n divisions |
| SelectionProofs.SelectIsNextMatches | index.js:47-93 | the body holds exactly the tracked teams with an eligible match, each mapped to the entry of its first-seen earliest eligible match across all divisions |
| SelectionProofs.SelectIsTheReference | index.js:47-93 | any body meeting that description equals the fold's result, so the description determines the result completely |
| SelectionProofs.Soundness | index.js:65-83 | a team's entry holds a match from the division it names, that match passed the division's filter, the team is on its red or blue alliance, and the stream is the one configured for that division |
| SelectionProofs.Completeness | index.js:49-93 | a team is in the body if and only if it is tracked and is on an alliance of some eligible match of some division |
| SelectionProofs.Minimality | index.js:74-78 | the chosen match's predicted time is no later than that of any eligible match of the team, in any division |
| SelectionProofs.TieBreak | index.js:54-78 | when an eligible match of the team ties with the chosen one, the chosen one sits in an earlier division, or earlier in the same division's list, or is that match |
| EventKey.Split | index.js:56 | splitting on `/` yields at least one piece, and no piece contains `/` |
| EventKey.JoinSplit | index.js:56 | joining the pieces with `/` gives back the URL |
| EventKey.LastSegment | index.js:56 | the event key contains no `/` |
| EventKey.LastSegmentIsFinalSegment | index.js:56 | the event key ends the URL, contains no `/`, and is either the whole URL or preceded by `/` |
| EventKey.LastSegmentAfterSlash | index.js:56 | a URL ending in `/` followed by a slash-free segment has that segment as its event key (`.../event/2025cur` gives `2025cur`) |
| EventKey.LastSegmentWithoutSlash | index.js:56 | a URL without `/` is its own event key |
| Handler.Gather | index.js:54-63 | the loop fails if and only if `FetchDivision` fails for some division, that is, its URL is unset in the environment or the request for its event key's matches fails; otherwise it yields one batch per division, in order, with that division's name, its clock reading and its fetched matches |
| Handler.NextMatches | index.js:45-99 | the response is the error `Failed to fetch next matches` if and only if some division fails; otherwise the body is the first-seen earliest selection over every division's data |
| Handler.EntriesCarryStream | index.js:79-83 | when the stream table has a row for every division, every entry of a successful response carries the stream link of the division it names |
| Handler.OneFailureFailsAll | index.js:96-98 | a single failing division makes the whole response the generic error, with no partial results |
| Deployment.ShippedEventKeys | index.js:20-29 | the last segment of each of the eight shipped division URLs is its event code, `2025gal` … `2025mil` |
| Deployment.ShippedEndpointFails | index.js:54-56 | with the shipped table, an environment without a variable named after the first division's URL makes the deployed endpoint answer the generic error |
| Deployment.ShippedStreamsCoverDivisions | index.js:20-41 | every shipped division has a row in the stream table |

## Left out

- Express setup, routing, CORS, `app.listen` and the port (index.js:2-7, 43-45, 102-104): HTTP plumbing outside the handler's logic.
- The axios call and its authentication header (index.js:3, 10, 58-60): the fetch is a parameter that takes the request URL (built from the base URL and the event key, as in the code) and gives back a match list or a failure. Malformed payloads are counted as a failing fetch. So is a list with a match record that passes the filter at index.js:65-67 but lacks `alliances.red/blue.team_keys`, since the code throws at line 70 for it. A record that fails the filter and lacks those fields is ignored by the code, so it gives the same result as the list without that record.
- dotenv loading (index.js:1): the environment is a parameter.
- `console.error` logging and the JSON serialisation of the response (index.js:95, 97): the model returns the body as a map. The order of keys in the JSON object is not modelled.
- The rest of each remote match record, which the code passes through untouched: only the fields the handler reads are kept.
- Non-integer or non-numeric `predicted_time` values: times are whole seconds, and "absent or null" is `None`.
- Fetching the same request URL twice within one call is assumed to return the same answer, because the fetch is a function of the URL.
