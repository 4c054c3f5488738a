# wow-wcl-rio-lookup: the run-aggregation core in Dafny

The application looks up a World of Warcraft character. It fetches the
character's profile from the ranking provider and the character's ranked
Mythic+ runs from the analytics provider. It then builds one table per
dungeon of the current season. Each row holds one run: DPS, HPS, deaths, key
level, affixes, the timing tier (0 to 3 "chests") and the start time.

This project models that pipeline and proves what each stage promises.

- **Dungeon registry** (`Dungeons`, `RunIndex`): the eight dungeons with their
  three time budgets, and the `dungeonMeta` object keyed by dungeon id.
- **Run index** (`RunIndex`): `extractWclDungeonData` groups the ranked runs by
  dungeon, sorts each group by key level with the source's comparator, and
  keeps only the fight reference.
- **Resolution** (`Pipeline`): every reference is resolved against the fetched
  report and combat summary. The result is a row, a silent drop (`return
  null`) or a thrown exception. The two copies of the pipeline differ in a few
  settings (`Config`):
  - the current `lookup` (`Lookup`): level 15, five minutes, timestamps, and
    affixes defaulted to `[]`;
  - the older API route `handler` (`ApiLookup`): level 10, ten minutes, no
    timestamps, and `fights ?? []`.
- **Arithmetic and strings** (`JsMath`, `Ascii`, `Format`): `Math.round` of a
  quotient, ASCII `toLowerCase`/`toUpperCase`, `capitalize` and
  `formatCharacter`.
- **Keystone table footer** (`KeystoneTable`): the average over timed runs and
  the share of timed runs.
- **Search history** (`LocalStorage`): a class over the one storage slot,
  with `Add`, `Remove` and `Get`.

Network answers are inputs:
- `Upstream.profile` is None when the profile request fails.
- `Upstream.parses` is keyed by metric.
- `reports` and `summaries` are maps; a failed request is an absent key.

A JavaScript exception inside the per-reference mapper is the `Crash` step.
`Promise.all` then rejects, so `getParses` yields None and `Lookup` yields
`Rejected`.

Two failures while resolving a reference throw instead of dropping it, and
`Promise.all` then rejects the whole lookup (`Pipeline.CrashWhen`):

- a report answer with no `fights` list, in the current copy only, throws at
  `report.fights.find` (src/utils/lookup.ts:393);
- a boss id missing from `dungeonMeta`, in both copies, throws at the
  destructuring (src/utils/lookup.ts:361, src/pages/api/lookup.ts:409).

A fight is rejected when its level is missing, zero or below the minimum, or
its completion time is missing or zero: the checks are falsiness tests (`!fight.keystoneLevel`,
`!fight.completionTime`) followed by the level comparison
(`Pipeline.FightRejected`).

## Model

| member | source | states |
|---|---|---|
| Dungeons.CreateTimer | src/utils/dungeons.ts:2-6 | the budgets are the minutes in ms and exactly 4/5 and 3/5 of it, strictly decreasing for a positive time |
| Dungeons.RegistryIdsAscending | src/utils/dungeons.ts:8-32 | eight dungeons whose ids strictly ascend along the list, hence distinct |
| Dungeons.RegistrySlugsDistinct | src/utils/dungeons.ts:8-32 | no two dungeons share a slug |
| Dungeons.RegistryTimers | src/utils/dungeons.ts:8-32 | every timer is `createTimer` of its listed minutes, with `plus1 > plus2 > plus3 > 0` |
| Dungeons.HallsOfAtonementTimer | src/utils/dungeons.ts:19-24 | Halls of Atonement (12287) has budgets 1,860,000 / 1,488,000 / 1,116,000 ms |
| JsMath.RoundDiv | src/utils/lookup.ts:412-424 | `Math.round(p / q)` for q > 0: the result r satisfies `r - 1/2 <= p/q < r + 1/2` |
| JsMath.RoundDivUnique | src/utils/lookup.ts:412-424 | any integer within half a step of the quotient is the rounded value |
| JsMath.RoundDivExact | src/components/KeystoneTable.tsx:19-22 | an exact quotient rounds to itself |
| JsMath.RoundDivBetween | src/components/KeystoneTable.tsx:19-22 | a quotient between two integers rounds to a value between them |
| Ascii.UpperChar | src/utils/format.ts:2 | a lowercase letter maps to its uppercase letter; every other character is unchanged |
| Ascii.LowerChar | src/utils/lookup.ts:477 | an uppercase letter maps to its lowercase letter; every other character is unchanged |
| Ascii.Upper | src/utils/format.ts:9 | `toUpperCase` maps each character and keeps the length |
| Ascii.Lower | src/utils/lookup.ts:416 | `toLowerCase` maps each character and keeps the length |
| Ascii.LowerIdempotent | src/utils/lookup.ts:416 | lowercasing an already lowercased name changes nothing |
| Ascii.UpperHasNoLower | src/utils/format.ts:9 | an uppercased region holds no lowercase letter |
| Format.Capitalize | src/utils/format.ts:1-2 | same length; the first character is uppercased and the rest is unchanged; the empty string stays empty |
| Format.CapitalizeIdempotent | src/utils/format.ts:1-2 | capitalizing twice is capitalizing once |
| Format.FormatCharacter | src/utils/format.ts:4-9 | the label is four characters longer than its three parts |
| Format.FormatCharacterParts | src/utils/format.ts:4-9 | the label splits into the capitalized name, " @ ", the capitalized realm, "-" and the uppercased region |
| Providers.FindFight | src/utils/lookup.ts:393 | None iff no fight has the id; otherwise the first fight with that id |
| Providers.FirstTotal | src/utils/lookup.ts:414-424 | None iff no entry's lowercased name matches; otherwise the total of the first match |
| Providers.CountDeaths | src/utils/lookup.ts:426-429 | at most the number of events; zero iff no event's lowercased name matches |
| Providers.CountDeathsAppend | src/utils/lookup.ts:426-429 | counting distributes over concatenated event lists |
| JsObject.Keys | src/utils/lookup.ts:167-168 | `Object.keys` lists the entries' keys in entry order |
| JsObject.Get | src/utils/lookup.ts:361 | `o[k]` is None iff no entry has key k; otherwise the value of an entry with key k |
| JsObject.Set | src/utils/lookup.ts:154 | the object stays ordered by key; k maps to the new value and every other key keeps its value |
| JsObject.SetAbove | src/utils/lookup.ts:154 | setting a key above every present key appends it |
| RunIndex.BuildMeta | src/utils/lookup.ts:152-159 | the reduction yields an object ordered by key |
| RunIndex.BuildMetaKeys | src/utils/lookup.ts:152-159 | built from dungeons with ascending ids, the keys are exactly the ids in order |
| RunIndex.BuildMetaAbsent | src/utils/lookup.ts:152-159 | an id no dungeon has maps to nothing |
| RunIndex.BuildMetaPresent | src/utils/lookup.ts:152-159 | a dungeon's id maps to its timer unless a later dungeon reuses the id |
| RunIndex.DungeonMetaKeys | src/utils/lookup.ts:166-168 | `Object.keys(dungeonMeta)` is the registry's id list in registry order |
| RunIndex.DungeonMetaTimers | src/utils/lookup.ts:152-159 | every registry id maps to its own timer, and every other id to nothing |
| RunIndex.Compare | src/utils/lookup.ts:175-189 | the comparator returns 1 iff the second run has the higher level, otherwise 0 or -1 |
| RunIndex.CompareInconsistent | src/utils/lookup.ts:175-189 | two runs of one level are 0 one way and -1 the other, and a run compares -1 with itself |
| RunIndex.InsertByLevel | src/utils/lookup.ts:175-189 | inserting a run lengthens the group by exactly one |
| RunIndex.SortByLevel | src/utils/lookup.ts:174-189 | sorting keeps the number of runs |
| RunIndex.InsertPermutes | src/utils/lookup.ts:175-189 | insertion adds exactly the inserted run |
| RunIndex.InsertKeepsOrder | src/utils/lookup.ts:175-189 | insertion keeps key levels non-increasing |
| RunIndex.SortByLevelSpec | src/utils/lookup.ts:174-189 | the sorted group is a permutation of the group with key levels never increasing |
| RunIndex.SortSnoc | src/utils/lookup.ts:175-189 | sorting a group with one more run inserts that run into the sorted group |
| RunIndex.SortExample | src/utils/lookup.ts:175-189 | runs at levels 18, 20, 20, 15 come out as 20, 20, 18, 15 |
| RunIndex.ForEncounter | src/utils/lookup.ts:171-173 | the filter never lengthens the list, and every run it keeps belongs to the dungeon |
| RunIndex.ForEncounterMember | src/utils/lookup.ts:171-173 | every kept run is one of the character's runs and belongs to the dungeon |
| RunIndex.ForEncounterSpec | src/utils/lookup.ts:171-173 | the filter keeps every run of the dungeon, as often as it occurs, and nothing else |
| RunIndex.Sanitize | src/utils/lookup.ts:191-195 | the reference keeps fight and report, and the start time only in the current copy |
| RunIndex.Project | src/utils/lookup.ts:191-195 | the map keeps the length and sanitizes each run in place |
| RunIndex.ProjectAppend | src/utils/lookup.ts:191-195 | projecting distributes over concatenation |
| RunIndex.ProjectPermutation | src/utils/lookup.ts:191-195 | projecting maps permutations to permutations |
| RunIndex.Pairs | src/utils/lookup.ts:169-198 | one `(id, refs)` pair per id |
| RunIndex.PairsAt | src/utils/lookup.ts:169-198 | pair i is the i-th id together with that id's group |
| RunIndex.Collect | src/utils/lookup.ts:169-198 | the reduction adds exactly one pair per id to its start value |
| RunIndex.CollectSpec | src/utils/lookup.ts:169-198 | the reduction appends one pair per id, in order, to its start value |
| RunIndex.GroupFor | src/utils/lookup.ts:170-195 | a dungeon's group holds at most as many references as the character has runs |
| RunIndex.GroupForSpec | src/utils/lookup.ts:170-195 | a group is sorted by level, is a permutation of the projected runs of that dungeon, and is empty when the dungeon has no run |
| RunIndex.GroupForMember | src/utils/lookup.ts:170-195 | every reference in a group comes from a run of that dungeon |
| RunIndex.GroupForComplete | src/utils/lookup.ts:170-195 | every run of the dungeon appears in its group |
| RunIndex.ExtractDungeonData | src/utils/lookup.ts:166-199 | one pair per registry dungeon |
| RunIndex.ExtractDungeonDataSpec | src/utils/lookup.ts:166-199 | one pair per registry dungeon, in registry order, each holding that dungeon's group |
| Pipeline.InTime | src/utils/lookup.ts:357-376 | the tier is between 0 and 3 |
| Pipeline.InTimeTiers | src/utils/lookup.ts:363-375 | with decreasing budgets, tier >= 1, >= 2 and == 3 hold exactly when the completion time is within plus1, plus2 and plus3 |
| Pipeline.InTimeMonotone | src/pages/api/lookup.ts:409-418 | a slower run never gets a better tier |
| Pipeline.InTimeHallsOfAtonement | src/utils/lookup.ts:357-376 | Halls of Atonement in 18, 20, 25 and 32 minutes earns tiers 3, 2, 1 and 0 |
| Pipeline.FightRejected | src/utils/lookup.ts:396-403 | a fight passes iff its level is present and at least the minimum and its completion time is present and not zero |
| Pipeline.MakeRow | src/utils/lookup.ts:412-446 | the row carries the reference's ids and start time and the fight's level; the tier is `isDungeonInTime` of the completion time against the given timer; dps and hps are the per-second totals of the first matching entry (0 when none) rounded to the nearest integer; deaths are the number of matching death events (zero iff none matches); affixes are the fight's, `[]` when missing in the current copy |
| Pipeline.ResolveRef | src/utils/lookup.ts:386-447 | a reference whose report is missing is dropped; a produced row carries the reference's ids and start time and a level at least the minimum |
| Pipeline.QueryFor | src/utils/lookup.ts:320-330 | the summary is requested for the report and the fight's time window |
| Pipeline.SkipReasons | src/utils/lookup.ts:386-410 | a missing report, a missing or rejected fight, or a missing or short summary drops the reference |
| Pipeline.KeepWhen | src/utils/lookup.ts:386-446 | when every check passes and the boss is a registry dungeon, the reference yields the row built from that fight, summary and timer |
| Pipeline.KeepOnlyWhen | src/utils/lookup.ts:386-446 | a row is produced only when every check passes and the boss is a registry dungeon |
| Pipeline.CrashWhen | src/utils/lookup.ts:393 | a report without `fights` throws iff this copy does not default it; an accepted fight throws iff its boss is not in the registry |
| Pipeline.RowFacts | src/utils/lookup.ts:412-446 | a produced row carries the reference's ids and start time, the fight's level (at least the minimum), the tier of the completion time against the timer of the boss's registry dungeon, the fight's affixes (`[]` when missing in the current copy), dps and hps as the rounded per-second totals, and the number of matching death events |
| Pipeline.Steps | src/utils/lookup.ts:385-386 | one outcome per reference, in reference order |
| Pipeline.Gather | src/utils/lookup.ts:385-450 | the gathered rows are never more than the outcomes, and outcomes that all drop gather to no rows |
| Pipeline.GatherFails | src/utils/lookup.ts:385-450 | `Promise.all` rejects iff some reference threw |
| Pipeline.GatherAppend | src/utils/lookup.ts:385-450 | gathering concatenated outcomes concatenates the rows |
| Pipeline.GatherRows | src/utils/lookup.ts:450 | `filter(Boolean)` keeps exactly the rows, each one produced by some reference |
| Pipeline.ResolveGroup | src/utils/lookup.ts:384-451 | a group yields at most one row per reference |
| Pipeline.ResolveGroupSpec | src/utils/lookup.ts:384-451 | a group fails iff one of its references throws; otherwise its rows are exactly the rows its references produce |
| Pipeline.ResolveGroupAppend | src/utils/lookup.ts:384-451 | resolving concatenated reference lists concatenates their rows |
| Pipeline.GetParses | src/utils/lookup.ts:378-454 | a successful result has one entry per dungeon tuple |
| Pipeline.GetParsesFails | src/utils/lookup.ts:378-454 | the outer `Promise.all` rejects iff some dungeon's group rejects |
| Pipeline.GetParsesAt | src/utils/lookup.ts:378-454 | in a successful result, entry i holds the i-th dungeon id and the rows of that dungeon's group |
| Pipeline.GetParsesShape | src/utils/lookup.ts:378-454 | fails iff some group fails; otherwise it keeps the dungeon order and ids, each with its group's rows |
| Pipeline.GroupRowOrigin | src/utils/lookup.ts:386-446 | each row of a group meets the minimum level, and comes from a run of that dungeon with the same report and fight, stamped with that run's start time |
| Lookup.MetricFor | src/utils/lookup.ts:136 | healers are ranked by hps, everyone else by dps |
| Lookup.ParsesFor | src/utils/lookup.ts:132-149 | the runs answered for the metric, and no runs when that request failed (a non-ok response or a thrown fetch yields `[]`) |
| Lookup.Lookup | src/utils/lookup.ts:458-483 | null iff the profile is absent; a result keeps the profile and has one entry per registry dungeon |
| Lookup.LookupWithoutProfile | src/utils/lookup.ts:463-467 | the lookup answers null iff the profile is absent |
| Lookup.LookupInputs | src/utils/lookup.ts:458-477 | the outcome depends only on the lowercased name and the runs of the role's metric |
| Lookup.LookupFound | src/utils/lookup.ts:458-483 | a result keeps the profile and has one group per registry dungeon in order; each row is level 15 or higher, has a timestamp and affixes, and comes from one of the character's runs |
| ApiLookup.ValidQuery | src/pages/api/lookup.ts:442-452 | an accepted query has exactly one non-empty value for each of character, region and realm |
| ApiLookup.Handle | src/pages/api/lookup.ts:438-482 | 400 iff the query is rejected or the profile is absent; a JSON answer keeps the profile and has one entry per registry dungeon |
| ApiLookup.HandleBadRequest | src/pages/api/lookup.ts:442-467 | 400 iff a parameter is missing, empty or repeated, or there is no profile; the analytics answers play no part |
| ApiLookup.LegacyMissingFights | src/pages/api/lookup.ts:369-371 | a report without `fights` drops the reference instead of throwing |
| ApiLookup.HandleJson | src/pages/api/lookup.ts:438-482 | a JSON answer keeps the profile and has one group per registry dungeon in order; each row is level 10 or higher, has no timestamp, and comes from one of the character's runs |
| ApiLookup.LegacyAffixes | src/pages/api/lookup.ts:420-429 | the row's affixes are the fight's, absent when the fight has none |
| KeystoneTable.TimedKeys | src/components/KeystoneTable.tsx:13 | the filter never lengthens the table |
| KeystoneTable.TimedKeysSpec | src/components/KeystoneTable.tsx:13 | the filter keeps every timed run, as often as it occurs, and nothing else |
| KeystoneTable.TimedKeysCount | src/components/KeystoneTable.tsx:13 | all runs timed keeps all of them; none timed keeps none |
| KeystoneTable.TimedKeysIdempotent | src/components/KeystoneTable.tsx:13 | filtering twice is filtering once |
| KeystoneTable.TimedKeysAppend | src/components/KeystoneTable.tsx:13 | filtering distributes over concatenation |
| KeystoneTable.InTimePercent | src/components/KeystoneTable.tsx:55-59 | NaN (None) iff the table is empty; otherwise 100 times the number of timed runs divided by the number of runs, rounded to the nearest integer (halves up), hence between 0 and 100 |
| KeystoneTable.InTimePercentExtremes | src/components/KeystoneTable.tsx:55-59 | only timed runs show 100 %, no timed run shows 0 % |
| KeystoneTable.SumMetric | src/components/KeystoneTable.tsx:20 | the sum over a single run is that run's value |
| KeystoneTable.AvgTimedMetric | src/components/KeystoneTable.tsx:9-23 | 0 when no run is timed; otherwise the column's sum over the timed runs divided by their count, rounded to the nearest integer (halves up) |
| KeystoneTable.SumRemoveAt | src/components/KeystoneTable.tsx:20 | taking one run out of the sum subtracts exactly its value |
| KeystoneTable.AvgIgnoresUntimed | src/components/KeystoneTable.tsx:9-23 | an untimed run does not change the average |
| KeystoneTable.SumAppend | src/components/KeystoneTable.tsx:20 | the sum over a concatenation is the sum of the sums |
| KeystoneTable.SumPermutation | src/components/KeystoneTable.tsx:20 | the sum does not depend on the order of the runs |
| KeystoneTable.AvgPermutation | src/components/KeystoneTable.tsx:9-23 | the average does not depend on the order of the runs |
| KeystoneTable.SumBounds | src/components/KeystoneTable.tsx:20 | per-run bounds bound the sum |
| KeystoneTable.AvgBetween | src/components/KeystoneTable.tsx:9-23 | with a timed run, the average lies between the smallest and the largest value among the timed runs |
| LocalStorage.SearchHistory.constructor | src/utils/localStorage.ts:1-14 | without storage nothing is stored; otherwise the slot holds what was found |
| LocalStorage.SearchHistory.Add | src/utils/localStorage.ts:24-56 | without storage nothing changes; otherwise the slot becomes `NextEntries` of the old slot (corrected as under Findings) |
| LocalStorage.SearchHistory.Remove | src/utils/localStorage.ts:58-69 | an empty slot stays empty; otherwise the slot loses the entry at the index |
| LocalStorage.SearchHistory.Get | src/utils/localStorage.ts:71-83 | the stored list, or `[]` without storage or without a stored list |
| LocalStorage.NextEntriesAsWritten | src/utils/localStorage.ts:45-50 | as written, the new list contains the search and is at most one longer than the stored one |
| LocalStorage.NextEntries | src/utils/localStorage.ts:24-56 | as corrected, the new list contains the search, is at most one longer than the stored one, and a stored list of at most 10 stays at most 10 |
| LocalStorage.RemoveIndex | src/utils/localStorage.ts:63-65 | the filter removes one entry for an index in range and none otherwise |
| LocalStorage.AddDuplicate | src/utils/localStorage.ts:34-43 | a search already in the history leaves it unchanged |
| LocalStorage.AddFirst | src/utils/localStorage.ts:53-55 | with nothing stored, the history becomes the one new search |
| LocalStorage.AddBelowCapacity | src/utils/localStorage.ts:45-52 | with a length other than 10, the new search goes in front of all the old ones |
| LocalStorage.AsWrittenFull | src/utils/localStorage.ts:45-50 | as written, a new search added to 10 entries leaves two entries: the new one and the oldest |
| LocalStorage.AsWrittenForgetsRecent | src/utils/localStorage.ts:45-50 | a concrete history of 10 distinct entries loses its nine most recent entries as written, but keeps 10 as corrected |
| LocalStorage.AddFull | src/utils/localStorage.ts:45-50 | as corrected, a full history loses only its oldest entry and stays at 10 |
| LocalStorage.AddKeepsWellFormed | src/utils/localStorage.ts:24-56 | adding keeps the history distinct and at most 10 long, contains the search, and puts a new search in front |
| LocalStorage.AddKeepsRecent | src/utils/localStorage.ts:45-50 | every old entry except a full history's oldest moves one place back |
| LocalStorage.RemoveSpec | src/utils/localStorage.ts:63-65 | an index in range removes exactly that entry, shifting the later ones down; any other index changes nothing |
| LocalStorage.RemoveKeepsWellFormed | src/utils/localStorage.ts:58-69 | removing keeps the history distinct and at most 10 long |

## Left out

- The network requests are inputs (`Upstream`), not calls: URLs, API keys, HTTP status codes, JSON parsing and the profile fetch itself.
- Concurrency is not modelled. `Promise.all` is modelled by its result: all rows in reference order, or a rejection when any mapper throws.
- Floating point is replaced by exact integers and rationals:
  - `Math.round(total / (totalTime / 1000))` becomes `RoundDiv(1000 * total, totalTime)`.
  - The timer factors 0.8 and 0.6 are exact.
  - The footer's `(timed / n) * 100` becomes `RoundDiv(100 * timed, n)`.
  - `Math.round` rounds halves up, as `RoundDiv` does.
- Number formatting (`toLocaleString`) and all rendering (React components, hooks, `formatDistance`) are not modelled.
- String case mapping covers ASCII letters only; other Unicode case mappings are not modelled. Strings are sequences of Unicode scalar values: JavaScript's `slice(0, 1)` in `capitalize` takes one UTF-16 code unit, so `Format.Capitalize` differs from it on a first character outside the Basic Multilingual Plane.
- RunIndex.SortByLevel: the comparator is inconsistent, so the engine's order for runs of equal level is implementation-defined. The model is a stable insertion sort, and only a permutation with non-increasing key levels is promised.
- Pipeline.RowFacts: dps and hps are stated as exactly rounded rationals, not as IEEE-754 results.
- The profile's score fields are passed through unchanged and their content is not modelled.
- The development-mode dummy answer (src/pages/api/lookup.ts:454-458), the cache-expiration middleware and the `nc` routing are not part of this model.
- `dungeonMeta` keys are modelled as array-index integers only; a JavaScript object's other (non-index) string keys cannot occur here.
- The storage probe (src/utils/localStorage.ts:1-14) becomes the `available` flag; `JSON.stringify`/`JSON.parse` become the slot holding the list itself.
- LocalStorage.SearchHistory.Remove: the source calls `localStorage.getItem` even without storage, which throws during server rendering. The model has no slot without storage, so `Remove` changes nothing there.
- LocalStorage.SearchHistory.Add: implements the corrected behaviour for a full history (see Findings); the as-written behaviour is `NextEntriesAsWritten`.
- Parse entries whose JSON lacks fields, and summaries whose `damageDone`, `healingDone` or `deathEvents` are missing (which would throw), are not modelled: those fields are always present in the model.

## Findings

| source | as written | input that shows it | evidently intended | confidence | as-written member | corrected member |
|---|---|---|---|---|---|---|
| src/utils/localStorage.ts:45-50 | a full history of exactly 10 entries keeps only `existingEntries.slice(-1)`, its oldest entry | 10 distinct stored searches plus a new 11th search: the history becomes `[new, oldest]`, dropping the nine most recent | drop only the oldest entry (`slice(0, -1)`), keeping the 10 most recent searches | likely; not executed | LocalStorage.AsWrittenForgetsRecent | LocalStorage.AddFull |
