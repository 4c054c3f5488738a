/** The static dungeon registry and the three-tier timers derived from each
    dungeon's base minute count. */
module Dungeons {

  /** Time budgets in milliseconds: `plus1` for a timed run, `plus2` and
      `plus3` for the two faster bonus tiers. */
  datatype Timer = Timer(plus1: int, plus2: int, plus3: int)

  datatype Dungeon = Dungeon(id: int, name: string, timer: Timer, slug: string)

  /** `createTimer`: the base time, 80 % of it and 60 % of it, in ms. The
      factors 0.8 and 0.6 are applied exactly (m * 48000 and m * 36000). */
  function CreateTimer(minutes: int): (t: Timer)
    ensures t.plus1 == minutes * 60 * 1000
    ensures 5 * t.plus2 == 4 * t.plus1 && 5 * t.plus3 == 3 * t.plus1
    ensures minutes > 0 ==> t.plus1 > t.plus2 > t.plus3 > 0
  {
    Timer(minutes * 60 * 1000, minutes * 48000, minutes * 36000)
  }

  /** `dungeons`, in the order the source lists them. */
  const Registry: seq<Dungeon> := [
    Dungeon(12284, "Sanguine Depths", CreateTimer(41), "SD"),
    Dungeon(12285, "Spires of Ascension", CreateTimer(39), "SoA"),
    Dungeon(12286, "The Necrotic Wake", CreateTimer(36), "NW"),
    Dungeon(12287, "Halls of Atonement", CreateTimer(31), "HoA"),
    Dungeon(12289, "Plaguefall", CreateTimer(38), "PF"),
    Dungeon(12290, "Mists of Tirna Scithe", CreateTimer(30), "MoTS"),
    Dungeon(12291, "De Other Side", CreateTimer(43), "DOS"),
    Dungeon(12293, "Theatre of Pain", CreateTimer(37), "TOP")
  ]

  /** The base minute count each registry entry's timer was created from. */
  const RegistryMinutes: seq<int> := [41, 39, 36, 31, 38, 30, 43, 37]

  function Ids(ds: seq<Dungeon>): (ids: seq<int>)
    ensures |ids| == |ds|
    ensures forall i :: 0 <= i < |ds| ==> ids[i] == ds[i].id
  {
    if ds == [] then [] else [ds[0].id] + Ids(ds[1..])
  }

  /** Ids strictly ascending along the list, hence pairwise distinct. */
  predicate IdsAscending(ds: seq<Dungeon>) {
    forall i, j :: 0 <= i < j < |ds| ==> ds[i].id < ds[j].id
  }

  /** Each listed id is below the next one. */
  predicate IdsAscendingStep(ds: seq<Dungeon>) {
    forall i :: 0 <= i < |ds| - 1 ==> ds[i].id < ds[i + 1].id
  }

  lemma {:induction false} AscendingStepIsStrict(ds: seq<Dungeon>)
    requires IdsAscendingStep(ds)
    ensures IdsAscending(ds)
  {
    if |ds| > 1 {
      var tail := ds[1..];
      assert IdsAscendingStep(tail) by {
        forall i | 0 <= i < |tail| - 1 ensures tail[i].id < tail[i + 1].id {
          assert tail[i] == ds[i + 1] && tail[i + 1] == ds[i + 2];
        }
      }
      AscendingStepIsStrict(tail);
      forall i, j | 0 <= i < j < |ds| ensures ds[i].id < ds[j].id {
        if i > 0 {
          assert tail[i - 1] == ds[i] && tail[j - 1] == ds[j];
        } else if j > 1 {
          assert tail[0] == ds[1] && tail[j - 1] == ds[j];
        }
      }
    }
  }

  /** The registry lists eight dungeons with ids strictly ascending, hence
      pairwise distinct. */
  lemma RegistryIdsAscending()
    ensures |Registry| == 8
    ensures IdsAscending(Registry)
  {
    assert IdsAscendingStep(Registry);
    AscendingStepIsStrict(Registry);
  }

  /** No two registry dungeons share a slug. */
  lemma RegistrySlugsDistinct()
    ensures forall i, j :: 0 <= i < j < |Registry| ==> Registry[i].slug != Registry[j].slug
  {
    forall i, j | 0 <= i < j < |Registry| ensures Registry[i].slug != Registry[j].slug {
      assert Registry[i].slug[0] != Registry[j].slug[0] || |Registry[i].slug| != |Registry[j].slug|
        || Registry[i].slug[1] != Registry[j].slug[1];
    }
  }

  /** Every registry timer is `createTimer` of its listed minute count, so
      its tiers are positive and strictly decreasing. */
  lemma RegistryTimers()
    ensures |RegistryMinutes| == |Registry|
    ensures forall i :: 0 <= i < |Registry| ==> Registry[i].timer == CreateTimer(RegistryMinutes[i])
    ensures forall i :: 0 <= i < |Registry| ==>
              Registry[i].timer.plus1 > Registry[i].timer.plus2 > Registry[i].timer.plus3 > 0
  {
  }

  /** Halls of Atonement (12287) has a 31-minute timer: 1,860,000 /
      1,488,000 / 1,116,000 ms. */
  lemma HallsOfAtonementTimer()
    ensures Registry[3].id == 12287 && Registry[3].timer == Timer(1860000, 1488000, 1116000)
  {
  }
}
