/** The shapes of the two providers' responses, reduced to the fields the
    pipeline reads, and the `find` / `filter` searches it runs over them.
    Every failed request is represented by an absent value. */
module Providers {
  import opened Wrappers
  import opened Ascii

  // ---- ranking provider (character profile) ----

  datatype Role = Tank | Dps | Healer

  /** The metric the analytics provider ranks parses by. */
  datatype Metric = DpsMetric | HpsMetric

  datatype Scores = Scores(all: real, dps: real, healer: real, tank: real,
                           spec0: real, spec1: real, spec2: real, spec3: real)

  /** The profile fields kept from the ranking provider's answer. */
  datatype Profile = Profile(race: string, className: string, activeSpecName: string,
                             activeSpecRole: Role, thumbnailUrl: string, scores: Scores)

  // ---- analytics provider ----

  /** One ranked run from the character-parses endpoint (`keyLevel` is the
      provider's `ilvlKeyOrPatch`). */
  datatype ParseEntry = ParseEntry(encounterID: int, reportID: string, fightID: int,
                                   startTime: int, keyLevel: int)

  /** One fight of a report; the optional fields may be missing from the answer. */
  datatype Fight = Fight(id: int, boss: int, startTime: int, endTime: int,
                         completionTime: Option<int>, keystoneLevel: Option<int>,
                         affixes: Option<seq<int>>)

  /** A report-fights answer; `fights` may be missing from a malformed answer. */
  datatype Report = Report(fights: Option<seq<Fight>>)

  datatype SummaryEntry = SummaryEntry(name: string, total: int)

  datatype DeathEvent = DeathEvent(name: string)

  /** A combat-summary answer; `totalTime` is in milliseconds. */
  datatype FightSummary = FightSummary(damageDone: seq<SummaryEntry>, healingDone: seq<SummaryEntry>,
                                       deathEvents: seq<DeathEvent>, totalTime: int)

  /** What a combat-summary request is keyed by: the report and the fight's time window. */
  datatype SummaryQuery = SummaryQuery(reportID: string, start: int, end: int)

  /** `fights.find((fight) => fight.id === id)`: the first fight with that id. */
  function FindFight(fights: seq<Fight>, id: int): (r: Option<Fight>)
    ensures r.None? <==> forall k :: 0 <= k < |fights| ==> fights[k].id != id
    ensures r.Some? ==> exists k :: 0 <= k < |fights| && fights[k] == r.value && fights[k].id == id
                          && forall j :: 0 <= j < k ==> fights[j].id != id
  {
    if fights == [] then None
    else if fights[0].id == id then Some(fights[0])
    else
      FindFight(fights[1..], id)
  }

  /** Case-insensitive name match against an already lowercased name. */
  predicate NameMatches(entryName: string, lowerName: string) {
    Lower(entryName) == lowerName
  }

  /** `entries.find((e) => e.name.toLowerCase() === name)?.total`: the total
      of the first entry whose lowercased name is `name`. */
  function FirstTotal(entries: seq<SummaryEntry>, name: string): (r: Option<int>)
    ensures r.None? <==> forall k :: 0 <= k < |entries| ==> !NameMatches(entries[k].name, name)
    ensures r.Some? ==> exists k :: 0 <= k < |entries| && NameMatches(entries[k].name, name)
                          && entries[k].total == r.value
                          && forall j :: 0 <= j < k ==> !NameMatches(entries[j].name, name)
  {
    if entries == [] then None
    else if NameMatches(entries[0].name, name) then Some(entries[0].total)
    else
      FirstTotal(entries[1..], name)
  }

  /** `deathEvents.filter((e) => e.name.toLowerCase() === name).length`. */
  function CountDeaths(events: seq<DeathEvent>, name: string): (n: nat)
    ensures n <= |events|
    ensures n == 0 <==> forall k :: 0 <= k < |events| ==> !NameMatches(events[k].name, name)
  {
    if events == [] then 0
    else (if NameMatches(events[0].name, name) then 1 else 0) + CountDeaths(events[1..], name)
  }

  /** Counting deaths distributes over concatenated event lists. */
  lemma {:induction false} CountDeathsAppend(a: seq<DeathEvent>, b: seq<DeathEvent>, name: string)
    ensures CountDeaths(a + b, name) == CountDeaths(a, name) + CountDeaths(b, name)
  {
    if a == [] {
      assert a + b == b;
    } else {
      assert (a + b)[1..] == a[1..] + b;
      CountDeathsAppend(a[1..], b, name);
    }
  }
}
