/** The run index normalizer: `dungeonMeta` (the registry keyed by dungeon
    id) and `extractWclDungeonData`, which groups the character's ranked runs
    by dungeon, sorts each group by key level and reduces every run to a
    reference. Both copies of the application share this logic; the older
    one drops `startTime` from the references (`keepStart` false). */
module RunIndex {
  import opened Wrappers
  import opened Dungeons
  import opened Providers
  import opened JsObject

  /** A reference to one fight of one report. */
  datatype RunRef = RunRef(fightID: int, reportID: string, startTime: Option<int>)

  // ---- dungeonMeta ----

  /** `dungeons.reduce((carry, d) => { carry[d.id] = d.timer; ... }, {})`. */
  function BuildMeta(ds: seq<Dungeon>): (o: IndexedObject<Timer>)
    ensures Valid(o)
  {
    if ds == [] then IndexedObject([])
    else Set(BuildMeta(ds[..|ds| - 1]), ds[|ds| - 1].id, ds[|ds| - 1].timer)
  }

  const DungeonMeta: IndexedObject<Timer> := BuildMeta(Registry)

  /** An object listing the ids of all but the last dungeon has every key
      below the last dungeon's id. */
  lemma KeysBelowLast(o: IndexedObject<Timer>, ds: seq<Dungeon>)
    requires |ds| > 0 && IdsAscending(ds)
    requires Keys(o) == Ids(ds[..|ds| - 1])
    ensures forall i :: 0 <= i < |o.entries| ==> o.entries[i].0 < ds[|ds| - 1].id
  {
    var n := |ds| - 1;
    forall i | 0 <= i < |o.entries| ensures o.entries[i].0 < ds[n].id {
      assert o.entries[i].0 == Keys(o)[i] == Ids(ds[..n])[i] == ds[i].id;
    }
  }

  /** Setting a key above the listed ones appends it to the key list. */
  lemma SetAboveKeys(o: IndexedObject<Timer>, k: int, v: Timer)
    requires Valid(o)
    requires forall i :: 0 <= i < |o.entries| ==> o.entries[i].0 < k
    ensures Keys(Set(o, k, v)) == Keys(o) + [k]
  {
    SetAbove(o, k, v);
    KeysAppend(o, k, v);
  }

  /** The id list of a non-empty list is that of its prefix plus the last id. */
  lemma IdsSnoc(ds: seq<Dungeon>)
    requires |ds| > 0
    ensures Ids(ds) == Ids(ds[..|ds| - 1]) + [ds[|ds| - 1].id]
  {
    var n := |ds| - 1;
    var front := Ids(ds[..n]);
    var a, b := Ids(ds), front + [ds[n].id];
    assert |front| == n && |a| == n + 1 && |b| == n + 1;
    forall k | 0 <= k < n + 1 ensures a[k] == b[k] {
      if k < n {
        assert b[k] == front[k] == ds[..n][k].id == ds[k].id;
      } else {
        assert b[k] == ds[n].id;
      }
    }
    assert a == b;
  }

  /** Built from dungeons with strictly ascending ids, the object lists
      exactly those ids, in that order. */
  lemma {:induction false} BuildMetaKeys(ds: seq<Dungeon>)
    requires IdsAscending(ds)
    ensures Keys(BuildMeta(ds)) == Ids(ds)
  {
    if ds != [] {
      var n := |ds| - 1;
      var init := ds[..n];
      var o := BuildMeta(init);
      assert IdsAscending(init) by {
        forall i, j | 0 <= i < j < n ensures init[i].id < init[j].id {
          assert init[i] == ds[i] && init[j] == ds[j];
        }
      }
      BuildMetaKeys(init);
      KeysBelowLast(o, ds);
      assert BuildMeta(ds) == Set(o, ds[n].id, ds[n].timer);
      SetAboveKeys(o, ds[n].id, ds[n].timer);
      IdsSnoc(ds);
    }
  }

  /** Appending an entry appends its key. */
  lemma KeysAppend(o: IndexedObject<Timer>, k: int, v: Timer)
    ensures Keys(IndexedObject(o.entries + [(k, v)])) == Keys(o) + [k]
  {
  }

  /** Ids no listed dungeon has map to nothing in the built object. */
  lemma {:induction false} BuildMetaAbsent(ds: seq<Dungeon>, k: int)
    requires forall i :: 0 <= i < |ds| ==> ds[i].id != k
    ensures Get(BuildMeta(ds), k) == None
  {
    if ds != [] {
      var n := |ds| - 1;
      var init := ds[..n];
      assert forall i :: 0 <= i < n ==> init[i] == ds[i];
      BuildMetaAbsent(init, k);
    }
  }

  /** A dungeon's id maps to its timer unless a later dungeon reuses the id
      (the later assignment overwrites). */
  lemma {:induction false} BuildMetaPresent(ds: seq<Dungeon>, i: int)
    requires 0 <= i < |ds|
    requires forall j :: i < j < |ds| ==> ds[j].id != ds[i].id
    ensures Get(BuildMeta(ds), ds[i].id) == Some(ds[i].timer)
  {
    var n := |ds| - 1;
    var init := ds[..n];
    var o := BuildMeta(init);
    assert BuildMeta(ds) == Set(o, ds[n].id, ds[n].timer);
    if i < n {
      forall j | i < j < |init| ensures init[j].id != init[i].id {
        assert init[j] == ds[j];
      }
      BuildMetaPresent(init, i);
      assert Get(o, init[i].id) == Some(init[i].timer);
    }
  }

  /** `Object.keys(dungeonMeta)` is the registry's id list in registry
      order. */
  lemma DungeonMetaKeys()
    ensures Keys(DungeonMeta) == Ids(Registry)
  {
    RegistryIdsAscending();
    BuildMetaKeys(Registry);
  }

  /** Every registry id maps to that dungeon's timer; every other id to nothing. */
  lemma DungeonMetaTimerAt(i: int)
    requires 0 <= i < |Registry|
    ensures Get(DungeonMeta, Registry[i].id) == Some(Registry[i].timer)
  {
    var ds := Registry;
    RegistryIdsAscending();
    forall j | i < j < |ds| ensures ds[j].id != ds[i].id {
      assert ds[i].id < ds[j].id;
    }
    BuildMetaPresent(ds, i);
  }

  lemma DungeonMetaTimers()
    ensures forall i :: 0 <= i < |Registry| ==> Get(DungeonMeta, Registry[i].id) == Some(Registry[i].timer)
    ensures forall k :: (forall i :: 0 <= i < |Registry| ==> Registry[i].id != k) ==> Get(DungeonMeta, k) == None
  {
    var ds := Registry;
    RegistryIdsAscending();
    forall k | forall i :: 0 <= i < |ds| ==> ds[i].id != k
      ensures Get(BuildMeta(ds), k) == None
    {
      BuildMetaAbsent(ds, k);
    }
    forall i | 0 <= i < |ds| ensures Get(BuildMeta(ds), ds[i].id) == Some(ds[i].timer) {
      assert forall j :: i < j < |ds| ==> ds[j].id != ds[i].id by {
        forall j | i < j < |ds| ensures ds[j].id != ds[i].id {
          assert ds[i].id < ds[j].id;
        }
      }
      BuildMetaPresent(ds, i);
    }
  }

  // ---- ordering of one dungeon's runs ----

  /** The comparator handed to `sort`: positive puts `a` after `b`. It is 1
      exactly when `b` has the strictly higher key level. */
  function Compare(a: ParseEntry, b: ParseEntry): (r: int)
    ensures r == 1 <==> b.keyLevel > a.keyLevel
    ensures -1 <= r <= 1
  {
    var isHigherLevel := b.keyLevel > a.keyLevel;
    var isNewer := b.startTime > a.startTime;
    var isSameLevel := b.keyLevel == a.keyLevel;
    if isHigherLevel then 1
    else if isNewer && isSameLevel then 0
    else -1
  }

  /** The comparator is not a consistent comparison: between two runs of one
      level it answers "equal" one way round and "before" the other, and it
      never answers 0 for a run compared with itself. The order `sort` gives
      such runs is therefore implementation-defined. */
  lemma CompareInconsistent()
    ensures var a := ParseEntry(12284, "r", 1, 100, 20);
            var b := ParseEntry(12284, "r", 2, 200, 20);
            Compare(a, b) == 0 && Compare(b, a) == -1 && Compare(a, a) == -1
  {
  }

  /** Key levels never increase along the sequence. */
  predicate NonIncreasing(s: seq<ParseEntry>) {
    forall i, j :: 0 <= i < j < |s| ==> s[i].keyLevel >= s[j].keyLevel
  }

  /** Inserts `x` in front of the first run the comparator places after it. */
  function InsertByLevel(x: ParseEntry, s: seq<ParseEntry>): (r: seq<ParseEntry>)
    ensures |r| == |s| + 1
  {
    if s == [] then [x]
    else if Compare(s[0], x) == 1 then [x] + s
    else [s[0]] + InsertByLevel(x, s[1..])
  }

  /** The model's `sort` with that comparator: an insertion sort that
      places every run after the runs of at least its level. */
  function SortByLevel(s: seq<ParseEntry>): (r: seq<ParseEntry>)
    ensures |r| == |s|
  {
    if s == [] then [] else InsertByLevel(s[|s| - 1], SortByLevel(s[..|s| - 1]))
  }

  /** Insertion adds exactly the inserted run. */
  lemma {:induction false} InsertPermutes(x: ParseEntry, s: seq<ParseEntry>)
    ensures multiset(InsertByLevel(x, s)) == multiset(s) + multiset{x}
  {
    if s != [] && Compare(s[0], x) != 1 {
      InsertPermutes(x, s[1..]);
      assert s == [s[0]] + s[1..];
    }
  }

  /** Insertion keeps a non-increasing sequence non-increasing. */
  lemma {:induction false} InsertKeepsOrder(x: ParseEntry, s: seq<ParseEntry>)
    requires NonIncreasing(s)
    ensures NonIncreasing(InsertByLevel(x, s))
  {
    if s != [] && Compare(s[0], x) != 1 {
      var tail := InsertByLevel(x, s[1..]);
      InsertKeepsOrder(x, s[1..]);
      InsertBelow(x, s[1..], s[0].keyLevel);
      var r := [s[0]] + tail;
      forall i, j | 0 <= i < j < |r| ensures r[i].keyLevel >= r[j].keyLevel {
        assert r[j] == tail[j - 1];
        if i > 0 {
          assert r[i] == tail[i - 1];
        }
      }
    }
  }

  /** Inserting a run at most some level into runs at most that level
      yields runs at most that level. */
  lemma {:induction false} InsertBelow(x: ParseEntry, s: seq<ParseEntry>, b: int)
    requires x.keyLevel <= b
    requires forall k :: 0 <= k < |s| ==> s[k].keyLevel <= b
    ensures forall k :: 0 <= k < |InsertByLevel(x, s)| ==> InsertByLevel(x, s)[k].keyLevel <= b
  {
    if s != [] && Compare(s[0], x) != 1 {
      assert forall k :: 0 <= k < |s[1..]| ==> s[1..][k] == s[k + 1];
      InsertBelow(x, s[1..], b);
    }
  }
  /** The sorted runs are a permutation of the input with key levels never
      increasing: what `sort` promises with this comparator, whatever order
      it gives runs of equal level. */
  lemma {:induction false} SortByLevelSpec(s: seq<ParseEntry>)
    ensures NonIncreasing(SortByLevel(s))
    ensures multiset(SortByLevel(s)) == multiset(s)
  {
    if s != [] {
      var init := s[..|s| - 1];
      SortByLevelSpec(init);
      InsertKeepsOrder(s[|s| - 1], SortByLevel(init));
      InsertPermutes(s[|s| - 1], SortByLevel(init));
      assert s == init + [s[|s| - 1]];
    }
  }

  /** Sorting a sequence with one more run at the end inserts that run. */
  lemma SortSnoc(s: seq<ParseEntry>, x: ParseEntry)
    ensures SortByLevel(s + [x]) == InsertByLevel(x, SortByLevel(s))
  {
    assert (s + [x])[..|s|] == s;
  }

  /** Runs at levels 18, 20, 20, 15 come out as 20, 20, 18, 15. Which of
      the two level-20 runs comes first is the model's stable choice; the
      program's order for them is up to the engine's `sort`. */
  lemma {:induction false} SortExample(a: ParseEntry, b: ParseEntry, c: ParseEntry, d: ParseEntry)
    requires a.keyLevel == 18 && b.keyLevel == 20 && c.keyLevel == 20 && d.keyLevel == 15
    ensures SortByLevel([a, b, c, d]) == [b, c, a, d]
  {
    SortSnoc([], a);
    assert [] + [a] == [a];
    SortSnoc([a], b);
    assert [a] + [b] == [a, b];
    assert SortByLevel([a, b]) == [b, a];
    SortSnoc([a, b], c);
    assert [a, b] + [c] == [a, b, c];
    assert [b, a][1..] == [a];
    assert InsertByLevel(c, [a]) == [c, a];
    assert SortByLevel([a, b, c]) == [b, c, a];
    SortSnoc([a, b, c], d);
    assert [a, b, c] + [d] == [a, b, c, d];
    assert [b, c, a][1..] == [c, a] && [c, a][1..] == [a] && [a][1..] == [];
    assert InsertByLevel(d, [a]) == [a, d];
    assert InsertByLevel(d, [c, a]) == [c, a, d];
  }

  // ---- grouping by dungeon ----

  /** `reports.filter((report) => report.encounterID === id)`. */
  function ForEncounter(id: int, s: seq<ParseEntry>): (r: seq<ParseEntry>)
    ensures |r| <= |s|
    ensures forall k :: 0 <= k < |r| ==> r[k].encounterID == id
  {
    if s == [] then []
    else (if s[0].encounterID == id then [s[0]] else []) + ForEncounter(id, s[1..])
  }

  /** The filter keeps every run of the dungeon, as often as it occurs, and
      nothing else. */
  lemma {:induction false} ForEncounterSpec(id: int, s: seq<ParseEntry>)
    ensures forall x :: multiset(ForEncounter(id, s))[x] == if x.encounterID == id then multiset(s)[x] else 0
  {
    if s != [] {
      ForEncounterSpec(id, s[1..]);
      assert s == [s[0]] + s[1..];
    }
  }

  /** The reference kept for a run: fight and report, and the start time
      when `keepStart`. */
  function Sanitize(e: ParseEntry, keepStart: bool): (ref: RunRef)
    ensures ref.fightID == e.fightID && ref.reportID == e.reportID
    ensures ref.startTime == if keepStart then Some(e.startTime) else None
  {
    RunRef(e.fightID, e.reportID, if keepStart then Some(e.startTime) else None)
  }

  /** `.map(({ fightID, reportID, ... }) => ({ fightID, reportID, ... }))`. */
  function Project(s: seq<ParseEntry>, keepStart: bool): (r: seq<RunRef>)
    ensures |r| == |s|
    ensures forall i :: 0 <= i < |s| ==> r[i] == Sanitize(s[i], keepStart)
  {
    if s == [] then [] else [Sanitize(s[0], keepStart)] + Project(s[1..], keepStart)
  }

  /** Projection distributes over concatenation. */
  lemma ProjectAppend(a: seq<ParseEntry>, b: seq<ParseEntry>, keepStart: bool)
    ensures Project(a + b, keepStart) == Project(a, keepStart) + Project(b, keepStart)
  {
    var l, r := Project(a + b, keepStart), Project(a, keepStart) + Project(b, keepStart);
    assert |l| == |r|;
    forall i | 0 <= i < |l| ensures l[i] == r[i] {
      if i < |a| {
        assert (a + b)[i] == a[i];
      } else {
        assert (a + b)[i] == b[i - |a|];
      }
    }
  }

  /** Taking out the element at `j` takes it out of the multiset. */
  lemma RemoveAt<T>(t: seq<T>, j: nat)
    requires j < |t|
    ensures multiset(t) == multiset(t[..j] + t[j + 1..]) + multiset{t[j]}
  {
    assert t == t[..j] + [t[j]] + t[j + 1..];
  }

  /** Multiset addition cancels. */
  lemma Cancel<T>(a: multiset<T>, b: multiset<T>, x: T)
    requires a + multiset{x} == b + multiset{x}
    ensures a == b
  {
    forall y ensures a[y] == b[y] {
      assert (a + multiset{x})[y] == (b + multiset{x})[y];
    }
  }

  /** Projecting without the element at `j` is the projection without its image. */
  lemma ProjectRemoveAt(t: seq<ParseEntry>, j: nat, keepStart: bool)
    requires j < |t|
    ensures Project(t[..j] + t[j + 1..], keepStart) == Project(t, keepStart)[..j] + Project(t, keepStart)[j + 1..]
  {
    ProjectAppend(t[..j], t[j + 1..], keepStart);
    assert Project(t[..j], keepStart) == Project(t, keepStart)[..j];
    assert Project(t[j + 1..], keepStart) == Project(t, keepStart)[j + 1..];
  }

  /** Projecting a sequence is projecting it without its `j`th element, plus
      that element's image. */
  lemma ProjectRemoveMultiset(t: seq<ParseEntry>, j: nat, keepStart: bool)
    requires j < |t|
    ensures multiset(Project(t, keepStart)) == multiset(Project(t[..j] + t[j + 1..], keepStart)) + multiset{Sanitize(t[j], keepStart)}
  {
    RemoveAt(Project(t, keepStart), j);
    ProjectRemoveAt(t, j, keepStart);
  }

  /** Taking the first element of one sequence and an equal element of a
      permutation of it leaves two permutations of each other. */
  lemma RemoveMatching<T>(s: seq<T>, t: seq<T>, j: nat)
    requires multiset(s) == multiset(t)
    requires s != [] && j < |t| && t[j] == s[0]
    ensures multiset(s[1..]) == multiset(t[..j] + t[j + 1..])
  {
    RemoveAt(s, 0);
    RemoveAt(t, j);
    assert s[..0] + s[1..] == s[1..];
    Cancel(multiset(s[1..]), multiset(t[..j] + t[j + 1..]), s[0]);
  }

  /** Projection maps permutations to permutations. */
  lemma {:induction false} ProjectPermutation(s: seq<ParseEntry>, t: seq<ParseEntry>, keepStart: bool)
    requires multiset(s) == multiset(t)
    ensures multiset(Project(s, keepStart)) == multiset(Project(t, keepStart))
    decreases |s|
  {
    if s == [] {
      assert t == [] by {
        assert |t| == |multiset(t)|;
      }
    } else {
      assert s[0] in multiset(t);
      var j :| 0 <= j < |t| && t[j] == s[0];
      RemoveMatching(s, t, j);
      ProjectPermutation(s[1..], t[..j] + t[j + 1..], keepStart);
      ProjectPermutationStep(s, t, j, keepStart);
    }
  }

  /** The inductive step: the images of two matching elements are equal, so
      permutations of the rests give permutations of the whole. */
  lemma ProjectPermutationStep(s: seq<ParseEntry>, t: seq<ParseEntry>, j: nat, keepStart: bool)
    requires s != [] && j < |t| && t[j] == s[0]
    requires multiset(Project(s[1..], keepStart)) == multiset(Project(t[..j] + t[j + 1..], keepStart))
    ensures multiset(Project(s, keepStart)) == multiset(Project(t, keepStart))
  {
    ProjectRemoveMultiset(s, 0, keepStart);
    assert s[..0] + s[1..] == s[1..];
    ProjectRemoveMultiset(t, j, keepStart);
  }
  /** One dungeon's reference list. */
  function GroupFor(id: int, reports: seq<ParseEntry>, keepStart: bool): (r: seq<RunRef>)
    ensures |r| <= |reports|
  {
    Project(SortByLevel(ForEncounter(id, reports)), keepStart)
  }

  /** The `reduce` over the dungeon ids, appending one `(id, refs)` pair per id. */
  function Collect(carry: seq<(int, seq<RunRef>)>, ids: seq<int>, reports: seq<ParseEntry>,
                   keepStart: bool): (r: seq<(int, seq<RunRef>)>)
    ensures |r| == |carry| + |ids|
    decreases |ids|
  {
    if ids == [] then carry
    else Collect(carry + [(ids[0], GroupFor(ids[0], reports, keepStart))], ids[1..], reports, keepStart)
  }

  /** One `(id, refs)` pair per id, in order. */
  function Pairs(ids: seq<int>, reports: seq<ParseEntry>, keepStart: bool): (r: seq<(int, seq<RunRef>)>)
    ensures |r| == |ids|
  {
    if ids == [] then [] else [(ids[0], GroupFor(ids[0], reports, keepStart))] + Pairs(ids[1..], reports, keepStart)
  }

  /** The `i`th pair holds the `i`th id and that id's group. */
  lemma {:induction false} PairsAt(ids: seq<int>, reports: seq<ParseEntry>, keepStart: bool)
    ensures forall i :: 0 <= i < |ids| ==>
              Pairs(ids, reports, keepStart)[i] == (ids[i], GroupFor(ids[i], reports, keepStart))
  {
    if ids != [] {
      PairsAt(ids[1..], reports, keepStart);
      var r := Pairs(ids, reports, keepStart);
      forall i | 1 <= i < |ids| ensures r[i] == (ids[i], GroupFor(ids[i], reports, keepStart)) {
        assert r[i] == Pairs(ids[1..], reports, keepStart)[i - 1];
        assert ids[1..][i - 1] == ids[i];
      }
    }
  }

  /** The reduction appends one pair per id, in order, to what it started with. */
  lemma {:induction false} CollectSpec(carry: seq<(int, seq<RunRef>)>, ids: seq<int>,
                                       reports: seq<ParseEntry>, keepStart: bool)
    ensures Collect(carry, ids, reports, keepStart) == carry + Pairs(ids, reports, keepStart)
    decreases |ids|
  {
    if ids == [] {
      assert carry + [] == carry;
    } else {
      var p := (ids[0], GroupFor(ids[0], reports, keepStart));
      var rest := Pairs(ids[1..], reports, keepStart);
      CollectSpec(carry + [p], ids[1..], reports, keepStart);
      assert carry + [p] + rest == carry + ([p] + rest);
    }
  }

  /** `extractWclDungeonData`. */
  function ExtractDungeonData(reports: seq<ParseEntry>, keepStart: bool): (r: seq<(int, seq<RunRef>)>)
    ensures |r| == |Registry|
  {
    DungeonMetaKeys();
    Collect([], Keys(DungeonMeta), reports, keepStart)
  }

  /** A dungeon's reference list is the projection of its runs sorted by
      non-increasing key level: a permutation of the projections of exactly
      the runs whose encounter id is the dungeon's, empty when it has none. */
  lemma GroupForSpec(id: int, reports: seq<ParseEntry>, keepStart: bool)
    ensures NonIncreasing(SortByLevel(ForEncounter(id, reports)))
    ensures multiset(GroupFor(id, reports, keepStart)) == multiset(Project(ForEncounter(id, reports), keepStart))
    ensures (forall k :: 0 <= k < |reports| ==> reports[k].encounterID != id) ==> GroupFor(id, reports, keepStart) == []
  {
    var f := ForEncounter(id, reports);
    SortByLevelSpec(f);
    ProjectPermutation(SortByLevel(f), f, keepStart);
    if forall k :: 0 <= k < |reports| ==> reports[k].encounterID != id {
      ForEncounterSpec(id, reports);
      assert |SortByLevel(f)| == 0 by {
        assert |multiset(SortByLevel(f))| == |multiset(f)|;
      }
    }
  }

  /** Every reference in a dungeon's list is the projection of one of the
      dungeon's runs. */
  lemma GroupForMember(id: int, reports: seq<ParseEntry>, keepStart: bool, ref: RunRef)
    requires ref in GroupFor(id, reports, keepStart)
    ensures exists e :: e in reports && e.encounterID == id && ref == Sanitize(e, keepStart)
  {
    var f := ForEncounter(id, reports);
    var sorted := SortByLevel(f);
    var p := Project(sorted, keepStart);
    assert ref in p;
    var m :| 0 <= m < |p| && p[m] == ref;
    var e := sorted[m];
    assert e in multiset(f) by {
      SortByLevelSpec(f);
      assert e in multiset(sorted);
    }
    ForEncounterMember(id, reports, e);
  }

  /** A run kept by the filter is a run of the input. */
  lemma {:induction false} ForEncounterMember(id: int, s: seq<ParseEntry>, e: ParseEntry)
    requires e in ForEncounter(id, s)
    ensures e in s && e.encounterID == id
  {
    if s != [] && e != s[0] {
      var head := if s[0].encounterID == id then [s[0]] else [];
      assert e !in head;
      ForEncounterMember(id, s[1..], e);
    }
  }
  /** Every run of the dungeon is projected into its list. */
  lemma GroupForComplete(id: int, reports: seq<ParseEntry>, keepStart: bool, e: ParseEntry)
    requires e in reports && e.encounterID == id
    ensures Sanitize(e, keepStart) in GroupFor(id, reports, keepStart)
  {
    var f := ForEncounter(id, reports);
    var sorted := SortByLevel(f);
    assert e in multiset(f) by {
      assert e in multiset(reports);
      ForEncounterSpec(id, reports);
    }
    assert e in multiset(sorted) by {
      SortByLevelSpec(f);
    }
    var m :| 0 <= m < |sorted| && sorted[m] == e;
    assert Project(sorted, keepStart)[m] == Sanitize(e, keepStart);
  }
  /** One pair per registry dungeon, in registry (ascending id) order, each
      holding that dungeon's reference list. */
  lemma ExtractDungeonDataSpec(reports: seq<ParseEntry>, keepStart: bool)
    ensures var r := ExtractDungeonData(reports, keepStart);
            && |r| == |Registry|
            && forall i :: 0 <= i < |r| ==> r[i] == (Registry[i].id, GroupFor(Registry[i].id, reports, keepStart))
  {
    var ids := Keys(DungeonMeta);
    assert ids == Ids(Registry) by {
      DungeonMetaKeys();
    }
    CollectSpec([], ids, reports, keepStart);
    PairsAt(ids, reports, keepStart);
    var ps := Pairs(ids, reports, keepStart);
    assert [] + ps == ps;
    forall i | 0 <= i < |ps| ensures ps[i] == (Registry[i].id, GroupFor(Registry[i].id, reports, keepStart)) {
      assert ids[i] == Registry[i].id;
    }
  }
}
