/** The older copy of the pipeline, served by the API route's `handler`:
    level 10, ten minutes, a report without `fights` counts as having none,
    affixes passed through as given, and references without a start time. */
module ApiLookup {
  import opened Wrappers
  import opened Ascii
  import opened Dungeons
  import opened Providers
  import opened RunIndex
  import opened Pipeline
  import opened Lookup

  /** The older copy's settings. */
  const Legacy: Config := Config(10, 10 * 60 * 1000, true, false)

  /** A query-string parameter: absent, given once, or given several times. */
  datatype QueryValue = Missing | One(text: string) | Many(texts: seq<string>)

  datatype Query = Query(character: QueryValue, region: QueryValue, realm: QueryValue)

  /** Neither falsy (absent or empty) nor an array. */
  predicate Usable(v: QueryValue) {
    v.One? && v.text != ""
  }

  /** The guard at the top of `handler`. */
  predicate ValidQuery(q: Query)
    ensures ValidQuery(q) ==> q.character.One? && q.region.One? && q.realm.One?
    ensures ValidQuery(q) ==> q.character.text != "" && q.region.text != "" && q.realm.text != ""
  {
    Usable(q.character) && Usable(q.region) && Usable(q.realm)
  }

  /** The route's answers: 400, the JSON body, or a failed request (the
      rejected promise). */
  datatype Response = BadRequest | Json(data: CharacterData) | Failure

  /** `handler`, outside development mode. */
  function Handle(q: Query, up: Upstream): (r: Response)
    ensures r == BadRequest <==> !ValidQuery(q) || up.profile.None?
    ensures r.Json? ==> up.profile == Some(r.data.profile) && |r.data.wclData| == |Registry|
  {
    if !ValidQuery(q) then BadRequest
    else if up.profile.None? then BadRequest
    else
      var p := up.profile.value;
      var tuples := ExtractDungeonData(ParsesFor(up, MetricFor(p.activeSpecRole)), false);
      var parses := GetParses(Legacy, tuples, Lower(q.character.text), up.reports, up.summaries);
      if parses.None? then Failure else Json(CharacterData(p, parses.value))
  }

  /** The route answers 400 exactly when a parameter is missing, empty or
      repeated, or when there is no profile; in both cases what the
      analytics provider would answer plays no part. */
  lemma HandleBadRequest(q: Query, up: Upstream, other: Upstream)
    ensures Handle(q, up) == BadRequest <==>
              || q.character.Missing? || q.character == One("") || q.character.Many?
              || q.region.Missing? || q.region == One("") || q.region.Many?
              || q.realm.Missing? || q.realm == One("") || q.realm.Many?
              || up.profile.None?
    ensures Handle(q, up) == BadRequest && other.profile == up.profile ==> Handle(q, other) == BadRequest
  {
  }

  /** In this copy a report without `fights` never throws: the reference is
      dropped. */
  lemma LegacyMissingFights(ref: RunRef, name: string, reports: map<string, Report>,
                            summaries: map<SummaryQuery, FightSummary>)
    requires ref.reportID in reports && reports[ref.reportID].fights.None?
    ensures ResolveRef(Legacy, ref, name, reports, summaries) == Skip
  {
  }

  /** A JSON answer carries the profile and one row list per registry
      dungeon in registry order; every row has a level of at least 10, no
      timestamp, and comes from one of the character's ranked runs in that
      dungeon. */
  lemma HandleJson(q: Query, up: Upstream)
    requires Handle(q, up).Json?
    ensures var d := Handle(q, up).data;
            var runs := ParsesFor(up, MetricFor(up.profile.value.activeSpecRole));
            && up.profile == Some(d.profile)
            && |d.wclData| == |Registry|
            && forall i :: 0 <= i < |Registry| ==>
                 && d.wclData[i].0 == Registry[i].id
                 && forall r :: r in d.wclData[i].1 ==>
                      && r.keyLevel >= 10 && r.timestamp.None?
                      && exists e :: e in runs && e.encounterID == Registry[i].id
                           && e.reportID == r.reportID && e.fightID == r.fightID
  {
    var p := up.profile.value;
    var runs := ParsesFor(up, MetricFor(p.activeSpecRole));
    var tuples := ExtractDungeonData(runs, false);
    var name := Lower(q.character.text);
    ExtractDungeonDataSpec(runs, false);
    GetParsesShape(Legacy, tuples, name, up.reports, up.summaries);
    var w := Handle(q, up).data.wclData;
    forall i, r | 0 <= i < |Registry| && r in w[i].1
      ensures && r.keyLevel >= 10 && r.timestamp.None?
              && exists e :: e in runs && e.encounterID == Registry[i].id
                   && e.reportID == r.reportID && e.fightID == r.fightID
    {
      GroupRowOrigin(Legacy, Registry[i].id, runs, false, name, up.reports, up.summaries, r);
    }
  }

  /** Rows of this copy pass the fight's affixes through unchanged, absent
      ones included. */
  lemma LegacyAffixes(ref: RunRef, name: string, reports: map<string, Report>,
                      summaries: map<SummaryQuery, FightSummary>)
    requires ResolveRef(Legacy, ref, name, reports, summaries).Keep?
    ensures ResolveRef(Legacy, ref, name, reports, summaries).row.affixes ==
              FindFight(reports[ref.reportID].fights.GetOr([]), ref.fightID).value.affixes
  {
    KeepOnlyWhen(Legacy, ref, name, reports, summaries);
  }
}
