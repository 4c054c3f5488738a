/** `lookup`, the newer copy's orchestration: fetch the profile, fetch the
    character's ranked runs for the metric of its role, group them by
    dungeon and resolve every reference into rows. The provider answers are
    inputs (`Upstream`); a failed request is an absent value. */
module Lookup {
  import opened Wrappers
  import opened Ascii
  import opened Dungeons
  import opened Providers
  import opened RunIndex
  import opened Pipeline

  /** The newer copy's settings: level 15, five minutes, reading the fights
      of a report without any throws, missing affixes become `[]`. */
  const Current: Config := Config(15, 5 * 60 * 1000, false, true)

  /** `role === "HEALER" ? "hps" : "dps"`: healers are ranked by healing,
      everyone else by damage. */
  function MetricFor(role: Role): (m: Metric)
    ensures m == HpsMetric <==> role == Healer
    ensures m == DpsMetric <==> role != Healer
  {
    if role == Healer then HpsMetric else DpsMetric
  }

  /** The providers' answers for one character: the profile (None when the
      request fails), the ranked runs per metric, the reports by id and the
      combat summaries by query. */
  datatype Upstream = Upstream(profile: Option<Profile>, parses: map<Metric, seq<ParseEntry>>,
                               reports: map<string, Report>, summaries: map<SummaryQuery, FightSummary>)

  /** `getWclReports`: the ranked runs for a metric, `[]` when the request failed. */
  function ParsesFor(up: Upstream, m: Metric): (runs: seq<ParseEntry>)
    ensures m !in up.parses ==> runs == []
    ensures m in up.parses ==> runs == up.parses[m]
  {
    if m in up.parses then up.parses[m] else []
  }

  /** The profile fields together with one row list per dungeon. */
  datatype CharacterData = CharacterData(profile: Profile, wclData: seq<(int, seq<Row>)>)

  /** `null` for a missing profile, the data, or a rejected promise. */
  datatype LookupOutcome = NotFound | Found(data: CharacterData) | Rejected

  function Lookup(character: string, up: Upstream): (r: LookupOutcome)
    ensures r == NotFound <==> up.profile.None?
    ensures r.Found? ==> up.profile == Some(r.data.profile) && |r.data.wclData| == |Registry|
  {
    if up.profile.None? then NotFound
    else
      var p := up.profile.value;
      var tuples := ExtractDungeonData(ParsesFor(up, MetricFor(p.activeSpecRole)), true);
      var parses := GetParses(Current, tuples, Lower(character), up.reports, up.summaries);
      if parses.None? then Rejected else Found(CharacterData(p, parses.value))
  }

  /** Without a profile the lookup answers null, whatever else the
      providers would have answered. */
  lemma LookupWithoutProfile(character: string, up: Upstream)
    ensures Lookup(character, up) == NotFound <==> up.profile.None?
  {
  }

  /** The outcome depends on the ranked runs of the role's metric only, and
      on the character name only up to case. */
  lemma LookupInputs(c1: string, c2: string, up1: Upstream, up2: Upstream)
    requires Lower(c1) == Lower(c2)
    requires up1.profile == up2.profile && up1.reports == up2.reports && up1.summaries == up2.summaries
    requires up1.profile.Some? ==>
               var m := MetricFor(up1.profile.value.activeSpecRole);
               ParsesFor(up1, m) == ParsesFor(up2, m)
    ensures Lookup(c1, up1) == Lookup(c2, up2)
  {
  }

  /** A successful lookup carries the profile unchanged and one row list per
      registry dungeon, in registry order. Every row has a level of at
      least 15, a timestamp and affixes, and comes from one of the
      character's ranked runs in that dungeon: same report, same fight,
      timestamp its start time. */
  lemma LookupFound(character: string, up: Upstream)
    requires Lookup(character, up).Found?
    ensures var d := Lookup(character, up).data;
            var runs := ParsesFor(up, MetricFor(up.profile.value.activeSpecRole));
            && up.profile == Some(d.profile)
            && |d.wclData| == |Registry|
            && forall i :: 0 <= i < |Registry| ==>
                 && d.wclData[i].0 == Registry[i].id
                 && forall r :: r in d.wclData[i].1 ==>
                      && r.keyLevel >= 15 && r.timestamp.Some? && r.affixes.Some?
                      && exists e :: e in runs && e.encounterID == Registry[i].id
                           && e.reportID == r.reportID && e.fightID == r.fightID
                           && r.timestamp == Some(e.startTime)
  {
    var p := up.profile.value;
    var runs := ParsesFor(up, MetricFor(p.activeSpecRole));
    var tuples := ExtractDungeonData(runs, true);
    var name := Lower(character);
    ExtractDungeonDataSpec(runs, true);
    GetParsesShape(Current, tuples, name, up.reports, up.summaries);
    var w := Lookup(character, up).data.wclData;
    forall i, r | 0 <= i < |Registry| && r in w[i].1
      ensures && r.keyLevel >= 15 && r.timestamp.Some? && r.affixes.Some?
              && exists e :: e in runs && e.encounterID == Registry[i].id
                   && e.reportID == r.reportID && e.fightID == r.fightID
                   && r.timestamp == Some(e.startTime)
    {
      GroupRowOrigin(Current, Registry[i].id, runs, true, name, up.reports, up.summaries, r);
    }
  }
}
