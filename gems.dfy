/**
 * The gem data of types.ts and constants.tsx, and the pure helpers of App.tsx
 * that build or rebuild the row of gems: `generateRandomGem`, the re-draw of
 * unlocked gems on a spin, and the lock toggle.
 */
module Gems {
  datatype GemType = Diamond | Ruby | Sapphire | Emerald | Amethyst | Topaz

  datatype Gem = Gem(id: string, kind: GemType, locked: bool)

  datatype GameState = Idle | Spinning | Cooldown | GameOver

  const GridSize: nat := 3
  const InitialTokens: int := 50
  const SpinCost: int := 1

  /** `GEM_TYPES`: every gem type, in declaration order. */
  const GemTypes: seq<GemType> := [Diamond, Ruby, Sapphire, Emerald, Amethyst, Topaz]

  /** A random draw is an index into GemTypes (`Math.floor(Math.random() * 6)`). */
  predicate ValidDraws(draws: seq<nat>) {
    forall i :: 0 <= i < |draws| ==> draws[i] < |GemTypes|
  }

  predicate DistinctIds(gems: seq<Gem>) {
    forall i, j :: 0 <= i < |gems| && 0 <= j < |gems| && gems[i].id == gems[j].id ==> i == j
  }

  predicate AtMostOneLocked(gems: seq<Gem>) {
    forall i, j :: 0 <= i < |gems| && 0 <= j < |gems| && gems[i].locked && gems[j].locked ==> i == j
  }

  /** The shape the row of gems keeps throughout a session. */
  predicate WellFormed(gems: seq<Gem>) {
    |gems| == GridSize && DistinctIds(gems) && AtMostOneLocked(gems)
  }

  /** `generateRandomGem` with the random draw passed in: the gem keeps the
      given id and lock, and its type is the drawn one. */
  function GenerateGem(id: string, draw: nat, locked: bool): (g: Gem)
    requires draw < |GemTypes|
    ensures g.id == id && g.locked == locked
  {
    Gem(id, GemTypes[draw], locked)
  }

  /** The generator can produce every gem type. */
  lemma EveryTypeDrawable(id: string, locked: bool, t: GemType)
    ensures exists d :: 0 <= d < |GemTypes| && GenerateGem(id, d, locked) == Gem(id, t, locked)
  {
    var d := match t
      case Diamond => 0
      case Ruby => 1
      case Sapphire => 2
      case Emerald => 3
      case Amethyst => 4
      case Topaz => 5;
    assert GenerateGem(id, d, locked) == Gem(id, t, locked);
  }

  /** Different draws give different gem types: each type has exactly one
      draw, so a uniform draw picks each type equally often. */
  lemma DrawsDistinguishTypes(id: string, locked: bool, d1: nat, d2: nat)
    requires d1 < |GemTypes| && d2 < |GemTypes|
    ensures GenerateGem(id, d1, locked).kind == GenerateGem(id, d2, locked).kind <==> d1 == d2
  {
  }

  /** The id `gem-<i>` of the i-th initial gem (one decimal digit suffices). */
  function GemId(i: nat): (id: string)
    requires i < 10
    ensures |id| == 5 && id[..4] == "gem-" && id[4] == (48 + i) as char
  {
    "gem-" + [(48 + i) as char]
  }

  /** The initial row: one unlocked gem per position, with ids gem-0, gem-1, gem-2. */
  function InitialGems(draws: seq<nat>): (gems: seq<Gem>)
    requires |draws| == GridSize && ValidDraws(draws)
    ensures WellFormed(gems)
    ensures forall i :: 0 <= i < |gems| ==> gems[i].id == GemId(i) && !gems[i].locked && gems[i].kind == GemTypes[draws[i]]
  {
    var gems := seq(GridSize, i requires 0 <= i < GridSize => GenerateGem(GemId(i), draws[i], false));
    assert forall i :: 0 <= i < |gems| ==> gems[i].id[4] == (48 + i) as char;
    gems
  }

  /** The spin's `gems.map`: a locked gem stays exactly as it was; every other
      gem keeps its id, gets a freshly drawn type and stays unlocked. */
  function Redraw(gems: seq<Gem>, draws: seq<nat>): (r: seq<Gem>)
    requires |draws| == |gems| && ValidDraws(draws)
    ensures |r| == |gems|
    ensures forall i :: 0 <= i < |gems| && gems[i].locked ==> r[i] == gems[i]
    ensures forall i :: 0 <= i < |gems| && !gems[i].locked ==>
      r[i].id == gems[i].id && !r[i].locked && r[i].kind == GemTypes[draws[i]]
    ensures WellFormed(gems) ==> WellFormed(r)
  {
    seq(|gems|, i requires 0 <= i < |gems| => if gems[i].locked then gems[i] else GenerateGem(gems[i].id, draws[i], false))
  }

  /** `handleLockGem`'s `prevGems.map`: the gem with the given id flips its
      lock and every other gem is unlocked; ids and types never change. */
  function ToggleLock(gems: seq<Gem>, idToToggle: string): (r: seq<Gem>)
    ensures |r| == |gems|
    ensures forall i :: 0 <= i < |gems| ==> r[i].id == gems[i].id && r[i].kind == gems[i].kind
    ensures forall i :: 0 <= i < |gems| ==> (r[i].locked <==> gems[i].id == idToToggle && !gems[i].locked)
    ensures DistinctIds(gems) ==> AtMostOneLocked(r)
  {
    seq(|gems|, i requires 0 <= i < |gems| => gems[i].(locked := if gems[i].id == idToToggle then !gems[i].locked else false))
  }

  /** Toggling the same gem twice gives it back its own lock and leaves every
      other gem unlocked. */
  lemma ToggleTwice(gems: seq<Gem>, id: string)
    ensures forall i :: 0 <= i < |gems| ==>
      (ToggleLock(ToggleLock(gems, id), id)[i].locked <==> gems[i].id == id && gems[i].locked)
  {
  }
}
