/** The tables the server ships with: the tracked Israeli teams of 2025, the eight
    championship divisions in iteration order, and their stream links. */
module Deployment {
  import opened Types
  import opened EventKey
  import opened Handler

  const IsraelTeams: seq<string> := [
    "frc2231", "frc5951", "frc1690", "frc5990", "frc5654",
    "frc2630", "frc2230", "frc3339", "frc5987", "frc1942",
    "frc5614", "frc6738"
  ]

  /** Each division's environment key is the event page URL itself. */
  const Divisions: seq<DivisionConfig> := [
    DivisionConfig("galileo", "https://www.thebluealliance.com/event/2025gal"),
    DivisionConfig("archimedes", "https://www.thebluealliance.com/event/2025arc"),
    DivisionConfig("newton", "https://www.thebluealliance.com/event/2025new"),
    DivisionConfig("curie", "https://www.thebluealliance.com/event/2025cur"),
    DivisionConfig("daly", "https://www.thebluealliance.com/event/2025dal"),
    DivisionConfig("hopper", "https://www.thebluealliance.com/event/2025hop"),
    DivisionConfig("johnson", "https://www.thebluealliance.com/event/2025joh"),
    DivisionConfig("milstein", "https://www.thebluealliance.com/event/2025mil")
  ]

  const DivisionStreams: map<string, string> := map[
    "galileo" := "https://www.twitch.tv/firstinspires_galileo",
    "archimedes" := "https://www.twitch.tv/firstinspires_archimedes",
    "newton" := "https://www.twitch.tv/firstinspires_newton",
    "curie" := "https://www.twitch.tv/firstinspires_curie",
    "daly" := "https://www.twitch.tv/firstinspires_daly",
    "hopper" := "https://www.twitch.tv/firstinspires_hopper",
    "johnson" := "https://www.twitch.tv/firstinspires_johnson",
    "milstein" := "https://www.twitch.tv/firstinspires_milstein"
  ]

  const Shipped := Config(IsraelTeams, Divisions, DivisionStreams)

  const EventPage := "https://www.thebluealliance.com/event"

  /** The endpoint as deployed. */
  function Endpoint(env: map<string, string>, fetch: string -> Result<seq<Match>>, clock: nat -> int): Response
  {
    NextMatches(Shipped, env, fetch, clock)
  }

  /** The shipped table uses each event page URL as the environment key; when the
      environment has no variable of that name for the first division, `url` is
      undefined, `url.split` throws, and the deployed endpoint answers the generic
      error whatever the remote API returns. */
  lemma ShippedEndpointFails(env: map<string, string>, fetch: string -> Result<seq<Match>>, clock: nat -> int)
    requires Divisions[0].envKey !in env
    ensures Endpoint(env, fetch, clock) == Failure(FailureMessage)
  {
    assert DivisionFails(Shipped.divisions[0], env, fetch);
    OneFailureFailsAll(Shipped, env, fetch, clock, 0);
  }

  /** The last segment of each shipped division URL is its event code, in
      division order; the handler requests these codes when the environment maps
      each URL to itself. */
  lemma ShippedEventKeys()
    ensures LastSegment(Divisions[0].envKey) == "2025gal"
    ensures LastSegment(Divisions[1].envKey) == "2025arc"
    ensures LastSegment(Divisions[2].envKey) == "2025new"
    ensures LastSegment(Divisions[3].envKey) == "2025cur"
    ensures LastSegment(Divisions[4].envKey) == "2025dal"
    ensures LastSegment(Divisions[5].envKey) == "2025hop"
    ensures LastSegment(Divisions[6].envKey) == "2025joh"
    ensures LastSegment(Divisions[7].envKey) == "2025mil"
  {
    EventPageKey(Divisions[0].envKey, "2025gal");
    EventPageKey(Divisions[1].envKey, "2025arc");
    EventPageKey(Divisions[2].envKey, "2025new");
    EventPageKey(Divisions[3].envKey, "2025cur");
    EventPageKey(Divisions[4].envKey, "2025dal");
    EventPageKey(Divisions[5].envKey, "2025hop");
    EventPageKey(Divisions[6].envKey, "2025joh");
    EventPageKey(Divisions[7].envKey, "2025mil");
  }

  /** An event page URL has its event code as last segment. */
  lemma EventPageKey(url: string, code: string)
    requires Slash !in code
    requires url == EventPage + "/" + code
    ensures LastSegment(url) == code
  {
    LastSegmentAfterSlash(EventPage, code);
  }

  /** Every shipped division has a stream link: `StreamsCover(Shipped)` holds,
      which is the premise of `EntriesCarryStream`. */
  lemma ShippedStreamsCoverDivisions()
    ensures StreamsCover(Shipped)
  {
  }
}
