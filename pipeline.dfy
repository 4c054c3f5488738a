/** `getParses`: every run reference is resolved against the fetched report
    and combat summary into at most one row. Both copies of the application
    run the same steps; they differ in the settings gathered in `Config`.
    A step that throws in the source (reading the fights of a report that
    has none in the newer copy, or looking up the timer of a boss that is
    not a registry dungeon) is a `Crash`: `Promise.all` then rejects, and
    so does the whole lookup. */
module Pipeline {
  import opened Wrappers
  import opened JsMath
  import opened Dungeons
  import opened Providers
  import opened JsObject
  import opened RunIndex

  /** The settings the two copies differ in: the minimum key level, the
      minimum summary duration in ms, whether a report without `fights`
      counts as having none (`report.fights ?? []`) rather than throwing,
      and whether missing affixes become `[]` (`fight.affixes ?? []`). */
  datatype Config = Config(minLevel: int, minDurationMs: int,
                           fightsDefaultEmpty: bool, affixesDefaultEmpty: bool)

  /** Both copies use a positive minimum level and a positive minimum duration. */
  predicate ValidConfig(c: Config) {
    c.minLevel > 0 && c.minDurationMs > 0
  }

  /** One accepted run. `timestamp` is the reference's start time, absent in
      the older copy whose references carry none. */
  datatype Row = Row(dps: int, hps: int, deaths: nat, keyLevel: int, reportID: string,
                     fightID: int, affixes: Option<seq<int>>, inTime: int,
                     timestamp: Option<int>)

  /** What resolving one reference yields: a row, nothing (`return null`),
      or an exception. */
  datatype Step = Keep(row: Row) | Skip | Crash

  /** `isDungeonInTime` and the older copy's inline tier: 3, 2 or 1 for the
      first of the budgets `plus3`, `plus2`, `plus1` the completion time
      stays within, 0 when it exceeds them all. */
  function InTime(t: Timer, completion: int): (r: int)
    ensures 0 <= r <= 3
  {
    if completion <= t.plus3 then 3
    else if completion <= t.plus2 then 2
    else if completion <= t.plus1 then 1
    else 0
  }

  /** With the registry's decreasing budgets, the tier is at least k exactly
      when the run stayed within the k-th budget. */
  lemma InTimeTiers(t: Timer, completion: int)
    requires t.plus1 >= t.plus2 >= t.plus3
    ensures InTime(t, completion) >= 1 <==> completion <= t.plus1
    ensures InTime(t, completion) >= 2 <==> completion <= t.plus2
    ensures InTime(t, completion) == 3 <==> completion <= t.plus3
  {
  }

  /** A slower run never gets a better tier. */
  lemma InTimeMonotone(t: Timer, c1: int, c2: int)
    requires c1 <= c2
    ensures InTime(t, c1) >= InTime(t, c2)
  {
  }

  /** Halls of Atonement (31 minutes) finished in 18 minutes is tier 3, in
      20 minutes tier 2, in 25 minutes tier 1 and in 32 minutes over time. */
  lemma InTimeHallsOfAtonement()
    ensures InTime(Registry[3].timer, 18 * 60000) == 3
    ensures InTime(Registry[3].timer, 20 * 60000) == 2
    ensures InTime(Registry[3].timer, 25 * 60000) == 1
    ensures InTime(Registry[3].timer, 32 * 60000) == 0
  {
    HallsOfAtonementTimer();
  }

  /** `!fight.keystoneLevel || fight.keystoneLevel < min || !fight.completionTime`:
      a missing or zero level, a level below the minimum, a missing or zero
      completion time. */
  predicate FightRejected(c: Config, f: Fight)
    ensures ValidConfig(c) ==>
              (!FightRejected(c, f) <==>
                 && f.keystoneLevel.Some? && f.keystoneLevel.value >= c.minLevel
                 && f.completionTime.Some? && f.completionTime.value != 0)
  {
    || f.keystoneLevel.None? || f.keystoneLevel.value == 0 || f.keystoneLevel.value < c.minLevel
    || f.completionTime.None? || f.completionTime.value == 0
  }

  /** The summary request for a fight: the report and the fight's window. */
  function QueryFor(reportID: string, f: Fight): (q: SummaryQuery)
    ensures q.reportID == reportID && q.start == f.startTime && q.end == f.endTime
  {
    SummaryQuery(reportID, f.startTime, f.endTime)
  }

  /** The row built from an accepted fight and its summary. */
  function MakeRow(c: Config, ref: RunRef, f: Fight, s: FightSummary, t: Timer, name: string): (r: Row)
    requires s.totalTime > 0
    requires f.keystoneLevel.Some? && f.completionTime.Some?
    ensures r.reportID == ref.reportID && r.fightID == ref.fightID && r.timestamp == ref.startTime
    ensures r.keyLevel == f.keystoneLevel.value && 0 <= r.inTime <= 3
    ensures c.affixesDefaultEmpty ==> r.affixes.Some?
    ensures var dmg := FirstTotal(s.damageDone, name).GetOr(0);
            2 * s.totalTime * r.dps - s.totalTime <= 2000 * dmg < 2 * s.totalTime * r.dps + s.totalTime
    ensures var heal := FirstTotal(s.healingDone, name).GetOr(0);
            2 * s.totalTime * r.hps - s.totalTime <= 2000 * heal < 2 * s.totalTime * r.hps + s.totalTime
    ensures r.deaths == 0 <==> forall k :: 0 <= k < |s.deathEvents| ==> !NameMatches(s.deathEvents[k].name, name)
    ensures r.inTime == InTime(t, f.completionTime.value)
    ensures r.deaths == CountDeaths(s.deathEvents, name)
    ensures r.affixes == if c.affixesDefaultEmpty then Some(f.affixes.GetOr([])) else f.affixes
  {
    Row(RoundDiv(FirstTotal(s.damageDone, name).GetOr(0) * 1000, s.totalTime),
        RoundDiv(FirstTotal(s.healingDone, name).GetOr(0) * 1000, s.totalTime),
        CountDeaths(s.deathEvents, name),
        f.keystoneLevel.value, ref.reportID, ref.fightID,
        if c.affixesDefaultEmpty then Some(f.affixes.GetOr([])) else f.affixes,
        InTime(t, f.completionTime.value),
        ref.startTime)
  }

  /** The mapper inside `getParses` for one reference; `name` is the
      character name, lowercased. */
  function ResolveRef(c: Config, ref: RunRef, name: string, reports: map<string, Report>,
                      summaries: map<SummaryQuery, FightSummary>): (st: Step)
    requires ValidConfig(c)
    ensures ref.reportID !in reports ==> st == Skip
    ensures st.Keep? ==> && st.row.reportID == ref.reportID && st.row.fightID == ref.fightID
                         && st.row.timestamp == ref.startTime && st.row.keyLevel >= c.minLevel
  {
    if ref.reportID !in reports then Skip
    else
      var report := reports[ref.reportID];
      if report.fights.None? && !c.fightsDefaultEmpty then Crash
      else
        var found := FindFight(report.fights.GetOr([]), ref.fightID);
        if found.None? || FightRejected(c, found.value) then Skip
        else
          var f := found.value;
          var q := QueryFor(ref.reportID, f);
          if q !in summaries || summaries[q].totalTime < c.minDurationMs then Skip
          else
            var timer := Get(DungeonMeta, f.boss);
            if timer.None? then Crash
            else Keep(MakeRow(c, ref, f, summaries[q], timer.value, name))
  }

  /** Each reason the source gives for `return null` drops the reference. */
  lemma SkipReasons(c: Config, ref: RunRef, name: string, reports: map<string, Report>,
                    summaries: map<SummaryQuery, FightSummary>)
    requires ValidConfig(c)
    ensures ref.reportID !in reports ==> ResolveRef(c, ref, name, reports, summaries) == Skip
    ensures ref.reportID in reports ==>
              var fights := reports[ref.reportID].fights;
              var found := FindFight(fights.GetOr([]), ref.fightID);
              (fights.Some? || c.fightsDefaultEmpty) ==>
                && (found.None? ==> ResolveRef(c, ref, name, reports, summaries) == Skip)
                && (found.Some? && FightRejected(c, found.value) ==>
                      ResolveRef(c, ref, name, reports, summaries) == Skip)
                && (found.Some? && !FightRejected(c, found.value) ==>
                      var q := QueryFor(ref.reportID, found.value);
                      (q !in summaries || summaries[q].totalTime < c.minDurationMs) ==>
                        ResolveRef(c, ref, name, reports, summaries) == Skip)
  {
  }

  /** A boss id that is not a registry dungeon: `dungeonMeta[boss]` is
      undefined and destructuring it throws. */
  predicate UnknownBoss(boss: int) {
    forall i :: 0 <= i < |Registry| ==> Registry[i].id != boss
  }

  /** A row is produced when the report is there with its fights, the fight
      is found at a level of at least the minimum with a non-zero completion
      time, its summary is there and lasts at least the minimum, and its boss
      is a registry dungeon; the row is built from that fight, that summary
      and that dungeon's timer. */
  lemma KeepWhen(c: Config, ref: RunRef, name: string, reports: map<string, Report>,
                 summaries: map<SummaryQuery, FightSummary>, f: Fight, i: int)
    requires ValidConfig(c)
    requires ref.reportID in reports
    requires reports[ref.reportID].fights.Some? || c.fightsDefaultEmpty
    requires FindFight(reports[ref.reportID].fights.GetOr([]), ref.fightID) == Some(f)
    requires f.keystoneLevel.Some? && f.keystoneLevel.value >= c.minLevel
    requires f.completionTime.Some? && f.completionTime.value != 0
    requires QueryFor(ref.reportID, f) in summaries
    requires summaries[QueryFor(ref.reportID, f)].totalTime >= c.minDurationMs
    requires 0 <= i < |Registry| && Registry[i].id == f.boss
    ensures ResolveRef(c, ref, name, reports, summaries) ==
              Keep(MakeRow(c, ref, f, summaries[QueryFor(ref.reportID, f)], Registry[i].timer, name))
  {
    DungeonMetaTimerAt(i);
  }

  /** Conversely, a row is produced only under those conditions. */
  lemma KeepOnlyWhen(c: Config, ref: RunRef, name: string, reports: map<string, Report>,
                     summaries: map<SummaryQuery, FightSummary>)
    requires ValidConfig(c)
    requires ResolveRef(c, ref, name, reports, summaries).Keep?
    ensures ref.reportID in reports
    ensures reports[ref.reportID].fights.Some? || c.fightsDefaultEmpty
    ensures var found := FindFight(reports[ref.reportID].fights.GetOr([]), ref.fightID);
            && found.Some?
            && found.value.keystoneLevel.Some? && found.value.keystoneLevel.value >= c.minLevel
            && found.value.completionTime.Some? && found.value.completionTime.value != 0
            && QueryFor(ref.reportID, found.value) in summaries
            && summaries[QueryFor(ref.reportID, found.value)].totalTime >= c.minDurationMs
            && !UnknownBoss(found.value.boss)
  {
    DungeonMetaTimers();
  }

  /** The source throws for a report without `fights` exactly where it does
      not default them, and for an otherwise accepted fight whose boss is
      not a registry dungeon. */
  lemma CrashWhen(c: Config, ref: RunRef, name: string, reports: map<string, Report>,
                  summaries: map<SummaryQuery, FightSummary>)
    requires ValidConfig(c)
    ensures ref.reportID in reports && reports[ref.reportID].fights.None? ==>
              (ResolveRef(c, ref, name, reports, summaries) == Crash <==> !c.fightsDefaultEmpty)
    ensures ref.reportID in reports && (reports[ref.reportID].fights.Some? || c.fightsDefaultEmpty) ==>
              var found := FindFight(reports[ref.reportID].fights.GetOr([]), ref.fightID);
              found.Some? && !FightRejected(c, found.value)
                && QueryFor(ref.reportID, found.value) in summaries
                && summaries[QueryFor(ref.reportID, found.value)].totalTime >= c.minDurationMs ==>
                (ResolveRef(c, ref, name, reports, summaries) == Crash <==> UnknownBoss(found.value.boss))
  {
    DungeonMetaTimers();
  }

  /** What any produced row carries: the reference's ids and timestamp, a
      level of at least the minimum, the tier of the completion time against
      the timer of the boss's registry dungeon, the fight's affixes (`[]`
      when missing, where they default), dps and hps that are the matched
      totals per second rounded to the nearest integer (0 when no entry
      matches), and the number of matching death events. */
  lemma RowFacts(c: Config, ref: RunRef, name: string, reports: map<string, Report>,
                 summaries: map<SummaryQuery, FightSummary>)
    requires ValidConfig(c)
    requires ResolveRef(c, ref, name, reports, summaries).Keep?
    ensures var r := ResolveRef(c, ref, name, reports, summaries).row;
            var f := FindFight(reports[ref.reportID].fights.GetOr([]), ref.fightID).value;
            var s := summaries[QueryFor(ref.reportID, f)];
            var dmg := FirstTotal(s.damageDone, name).GetOr(0);
            var heal := FirstTotal(s.healingDone, name).GetOr(0);
            && r.reportID == ref.reportID && r.fightID == ref.fightID
            && r.timestamp == ref.startTime
            && r.keyLevel == f.keystoneLevel.value && r.keyLevel >= c.minLevel
            && 0 <= r.inTime <= 3
            && (c.affixesDefaultEmpty ==> r.affixes.Some?)
            && 2 * s.totalTime * r.dps - s.totalTime <= 2000 * dmg < 2 * s.totalTime * r.dps + s.totalTime
            && 2 * s.totalTime * r.hps - s.totalTime <= 2000 * heal < 2 * s.totalTime * r.hps + s.totalTime
            && (r.deaths == 0 <==> forall k :: 0 <= k < |s.deathEvents| ==> !NameMatches(s.deathEvents[k].name, name))
            && r.deaths == CountDeaths(s.deathEvents, name)
            && r.affixes == (if c.affixesDefaultEmpty then Some(f.affixes.GetOr([])) else f.affixes)
            && exists i :: 0 <= i < |Registry| && Registry[i].id == f.boss
                           && r.inTime == InTime(Registry[i].timer, f.completionTime.value)
  {
    KeepOnlyWhen(c, ref, name, reports, summaries);
    var f := FindFight(reports[ref.reportID].fights.GetOr([]), ref.fightID).value;
    var i :| 0 <= i < |Registry| && Registry[i].id == f.boss;
    DungeonMetaTimerAt(i);
  }

  /** The outcomes of one dungeon's references, in reference order
      (`reports.map(...)` awaited by `Promise.all`). */
  function Steps(c: Config, refs: seq<RunRef>, name: string, reports: map<string, Report>,
                 summaries: map<SummaryQuery, FightSummary>): (steps: seq<Step>)
    requires ValidConfig(c)
    ensures |steps| == |refs|
    ensures forall k :: 0 <= k < |refs| ==> steps[k] == ResolveRef(c, refs[k], name, reports, summaries)
  {
    if refs == [] then [] else [ResolveRef(c, refs[0], name, reports, summaries)] + Steps(c, refs[1..], name, reports, summaries)
  }

  /** `Promise.all` followed by `filter(Boolean)`: None when any step
      threw, otherwise the rows of the steps that kept one, in order. */
  function Gather(steps: seq<Step>): (r: Option<seq<Row>>)
    ensures r.Some? ==> |r.value| <= |steps|
    ensures (forall k :: 0 <= k < |steps| ==> steps[k] == Skip) ==> r == Some([])
  {
    if steps == [] then Some([])
    else
      var rest := Gather(steps[1..]);
      if steps[0].Crash? || rest.None? then None
      else Some((if steps[0].Keep? then [steps[0].row] else []) + rest.value)
  }

  /** Gathering fails exactly when some step threw. */
  lemma {:induction false} GatherFails(steps: seq<Step>)
    ensures Gather(steps).None? <==> exists k :: 0 <= k < |steps| && steps[k].Crash?
  {
    if steps != [] {
      GatherFails(steps[1..]);
      if !steps[0].Crash? && exists k :: 0 <= k < |steps| && steps[k].Crash? {
        var k :| 0 <= k < |steps| && steps[k].Crash?;
        assert steps[1..][k - 1] == steps[k];
      }
    }
  }

  /** Gathering concatenated steps concatenates their rows. */
  lemma {:induction false} GatherAppend(a: seq<Step>, b: seq<Step>)
    ensures Gather(a + b) == if Gather(a).Some? && Gather(b).Some? then Some(Gather(a).value + Gather(b).value) else None
  {
    if a == [] {
      assert a + b == b;
      if Gather(b).Some? {
        assert [] + Gather(b).value == Gather(b).value;
      }
    } else {
      assert (a + b)[0] == a[0];
      assert (a + b)[1..] == a[1..] + b;
      GatherAppend(a[1..], b);
      var ra, rb := Gather(a[1..]), Gather(b);
      if !a[0].Crash? && ra.Some? && rb.Some? {
        var head := if a[0].Keep? then [a[0].row] else [];
        assert head + (ra.value + rb.value) == head + ra.value + rb.value;
      }
    }
  }

  /** Every gathered row is the row of some step, every kept row is
      gathered, and there are at most as many rows as steps. */
  lemma {:induction false} GatherRows(steps: seq<Step>)
    requires Gather(steps).Some?
    ensures var rows := Gather(steps).value;
            && |rows| <= |steps|
            && (forall r :: r in rows ==> exists k :: 0 <= k < |steps| && steps[k] == Keep(r))
            && (forall k :: 0 <= k < |steps| && steps[k].Keep? ==> steps[k].row in rows)
  {
    if steps != [] {
      GatherRows(steps[1..]);
      var rows, rest := Gather(steps).value, Gather(steps[1..]).value;
      forall r | r in rows ensures exists k :: 0 <= k < |steps| && steps[k] == Keep(r) {
        if r !in rest {
          assert steps[0] == Keep(r);
        } else {
          var k :| 0 <= k < |steps[1..]| && steps[1..][k] == Keep(r);
          assert steps[k + 1] == steps[1..][k];
        }
      }
      forall k | 0 <= k < |steps| && steps[k].Keep? ensures steps[k].row in rows {
        if k > 0 {
          assert steps[1..][k - 1] == steps[k];
        }
      }
    }
  }

  /** One dungeon's rows: its references resolved and gathered. */
  function ResolveGroup(c: Config, refs: seq<RunRef>, name: string, reports: map<string, Report>,
                        summaries: map<SummaryQuery, FightSummary>): (r: Option<seq<Row>>)
    requires ValidConfig(c)
    ensures r.Some? ==> |r.value| <= |refs|
  {
    Gather(Steps(c, refs, name, reports, summaries))
  }

  /** A dungeon's rows fail exactly when one of its references throws;
      otherwise every row is the row of one of its references and every
      reference that yields a row contributes it. */
  lemma ResolveGroupSpec(c: Config, refs: seq<RunRef>, name: string,
                         reports: map<string, Report>, summaries: map<SummaryQuery, FightSummary>)
    requires ValidConfig(c)
    ensures var g := ResolveGroup(c, refs, name, reports, summaries);
            && (g.None? <==> exists k :: 0 <= k < |refs| && ResolveRef(c, refs[k], name, reports, summaries) == Crash)
            && (g.Some? ==>
                  && |g.value| <= |refs|
                  && (forall r :: r in g.value ==>
                        exists k :: 0 <= k < |refs| && ResolveRef(c, refs[k], name, reports, summaries) == Keep(r))
                  && (forall k :: 0 <= k < |refs| && ResolveRef(c, refs[k], name, reports, summaries).Keep? ==>
                        ResolveRef(c, refs[k], name, reports, summaries).row in g.value))
  {
    var steps := Steps(c, refs, name, reports, summaries);
    GatherFails(steps);
    if Gather(steps).Some? {
      GatherRows(steps);
    }
  }

  /** Resolving concatenated reference lists concatenates their rows, so
      the rows keep the order of their references. */
  lemma ResolveGroupAppend(c: Config, a: seq<RunRef>, b: seq<RunRef>, name: string,
                           reports: map<string, Report>, summaries: map<SummaryQuery, FightSummary>)
    requires ValidConfig(c)
    ensures var ra, rb := ResolveGroup(c, a, name, reports, summaries), ResolveGroup(c, b, name, reports, summaries);
            ResolveGroup(c, a + b, name, reports, summaries) ==
              if ra.Some? && rb.Some? then Some(ra.value + rb.value) else None
  {
    var sa, sb := Steps(c, a, name, reports, summaries), Steps(c, b, name, reports, summaries);
    var sab := Steps(c, a + b, name, reports, summaries);
    forall k | 0 <= k < |sab| ensures sab[k] == (sa + sb)[k] {
      if k < |a| {
        assert (a + b)[k] == a[k];
      } else {
        assert (a + b)[k] == b[k - |a|];
      }
    }
    assert sab == sa + sb;
    GatherAppend(sa, sb);
  }

  /** `getParses`: each dungeon's pair with its rows, or None when any
      reference throws (`Promise.all` rejects). */
  function GetParses(c: Config, tuples: seq<(int, seq<RunRef>)>, name: string,
                     reports: map<string, Report>, summaries: map<SummaryQuery, FightSummary>)
    : (r: Option<seq<(int, seq<Row>)>>)
    requires ValidConfig(c)
    ensures r.Some? ==> |r.value| == |tuples|
  {
    if tuples == [] then Some([])
    else
      var group := ResolveGroup(c, tuples[0].1, name, reports, summaries);
      var rest := GetParses(c, tuples[1..], name, reports, summaries);
      if group.None? || rest.None? then None
      else Some([(tuples[0].0, group.value)] + rest.value)
  }

  /** The lookup fails exactly when one dungeon's group fails. */
  lemma {:induction false} GetParsesFails(c: Config, tuples: seq<(int, seq<RunRef>)>, name: string,
                                          reports: map<string, Report>, summaries: map<SummaryQuery, FightSummary>)
    requires ValidConfig(c)
    ensures GetParses(c, tuples, name, reports, summaries).None? <==>
              exists i :: 0 <= i < |tuples| && ResolveGroup(c, tuples[i].1, name, reports, summaries).None?
  {
    if tuples != [] {
      GetParsesFails(c, tuples[1..], name, reports, summaries);
      if exists i :: 0 <= i < |tuples| && ResolveGroup(c, tuples[i].1, name, reports, summaries).None? {
        var i :| 0 <= i < |tuples| && ResolveGroup(c, tuples[i].1, name, reports, summaries).None?;
        if i > 0 {
          assert tuples[1..][i - 1] == tuples[i];
        }
      }
      if GetParses(c, tuples, name, reports, summaries).None? &&
         ResolveGroup(c, tuples[0].1, name, reports, summaries).Some? {
        var i :| 0 <= i < |tuples[1..]| && ResolveGroup(c, tuples[1..][i].1, name, reports, summaries).None?;
        assert tuples[1..][i] == tuples[i + 1];
      }
    }
  }

  /** A successful lookup holds, at each position, the dungeon id of that
      tuple together with its group's rows. */
  lemma {:induction false} GetParsesAt(c: Config, tuples: seq<(int, seq<RunRef>)>, name: string,
                                       reports: map<string, Report>, summaries: map<SummaryQuery, FightSummary>)
    requires ValidConfig(c)
    requires GetParses(c, tuples, name, reports, summaries).Some?
    ensures var out := GetParses(c, tuples, name, reports, summaries).value;
            forall i :: 0 <= i < |tuples| ==>
              out[i].0 == tuples[i].0 && ResolveGroup(c, tuples[i].1, name, reports, summaries) == Some(out[i].1)
  {
    if tuples != [] {
      GetParsesAt(c, tuples[1..], name, reports, summaries);
      var out := GetParses(c, tuples, name, reports, summaries).value;
      var rest := GetParses(c, tuples[1..], name, reports, summaries).value;
      forall i | 0 <= i < |tuples|
        ensures out[i].0 == tuples[i].0 && ResolveGroup(c, tuples[i].1, name, reports, summaries) == Some(out[i].1)
      {
        if i > 0 {
          assert tuples[1..][i - 1] == tuples[i];
          assert out[i] == rest[i - 1];
        }
      }
    }
  }

  /** The parses keep the dungeon order and ids, each paired with its
      group's rows; they fail exactly when some group fails. */
  lemma GetParsesShape(c: Config, tuples: seq<(int, seq<RunRef>)>, name: string,
                       reports: map<string, Report>, summaries: map<SummaryQuery, FightSummary>)
    requires ValidConfig(c)
    ensures var out := GetParses(c, tuples, name, reports, summaries);
            && (out.None? <==> exists i :: 0 <= i < |tuples| && ResolveGroup(c, tuples[i].1, name, reports, summaries).None?)
            && (out.Some? ==>
                  && |out.value| == |tuples|
                  && forall i :: 0 <= i < |tuples| ==>
                       out.value[i] == (tuples[i].0, ResolveGroup(c, tuples[i].1, name, reports, summaries).value))
  {
    GetParsesFails(c, tuples, name, reports, summaries);
    if GetParses(c, tuples, name, reports, summaries).Some? {
      GetParsesAt(c, tuples, name, reports, summaries);
    }
  }

  /** A row of one dungeon's group comes from a run of that dungeon: same
      report and fight, the run's start time as timestamp where references
      keep it, and a level of at least the minimum. */
  lemma GroupRowOrigin(c: Config, id: int, runs: seq<ParseEntry>, keepStart: bool, name: string,
                       reports: map<string, Report>, summaries: map<SummaryQuery, FightSummary>, r: Row)
    requires ValidConfig(c)
    requires ResolveGroup(c, GroupFor(id, runs, keepStart), name, reports, summaries).Some?
    requires r in ResolveGroup(c, GroupFor(id, runs, keepStart), name, reports, summaries).value
    ensures r.keyLevel >= c.minLevel && (c.affixesDefaultEmpty ==> r.affixes.Some?)
    ensures exists e :: e in runs && e.encounterID == id && e.reportID == r.reportID && e.fightID == r.fightID
              && r.timestamp == (if keepStart then Some(e.startTime) else None)
  {
    var refs := GroupFor(id, runs, keepStart);
    ResolveGroupSpec(c, refs, name, reports, summaries);
    var k :| 0 <= k < |refs| && ResolveRef(c, refs[k], name, reports, summaries) == Keep(r);
    RowFacts(c, refs[k], name, reports, summaries);
    GroupForMember(id, runs, keepStart, refs[k]);
  }
}
