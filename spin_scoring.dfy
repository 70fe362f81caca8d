/**
 * The scoring block of `handleSpin` in App.tsx: tally the gem types, take the
 * highest count, map it to a base score, pick the winning type and apply the
 * combo multiplier.
 *
 * `ScoreGems` follows the source loop for loop over a record of counts whose
 * keys keep their insertion order (the order JavaScript gives `for…in` over
 * string keys). The functions below it are its specification; the lemmas say
 * what the specification means for a row of `GridSize` gems.
 */
module SpinScoring {
  import opened Wrappers
  import opened Gems

  /** The number of gems of type `t`. */
  function Count(gems: seq<Gem>, t: GemType): nat {
    if gems == [] then 0
    else Count(gems[..|gems| - 1], t) + (if gems[|gems| - 1].kind == t then 1 else 0)
  }

  /** A type has a positive count exactly when some gem has that type. */
  lemma {:induction false} CountPositive(gems: seq<Gem>, t: GemType)
    ensures Count(gems, t) > 0 <==> exists i :: 0 <= i < |gems| && gems[i].kind == t
  {
    if gems != [] {
      var init := gems[..|gems| - 1];
      CountPositive(init, t);
      assert forall i :: 0 <= i < |init| ==> init[i] == gems[i];
    }
  }

  /** The largest count among the types of the first `n` gems, or 0. */
  function MaxUpTo(gems: seq<Gem>, n: nat): (m: nat)
    requires n <= |gems|
    ensures forall i :: 0 <= i < n ==> Count(gems, gems[i].kind) <= m
    ensures n == 0 ==> m == 0
    ensures n > 0 ==> exists i :: 0 <= i < n && Count(gems, gems[i].kind) == m
  {
    if n == 0 then 0
    else
      var m := MaxUpTo(gems, n - 1);
      var c := Count(gems, gems[n - 1].kind);
      if c > m then c else m
  }

  /** `maxCount`: the highest count of any type, or 0 when there are no gems. */
  function MaxCount(gems: seq<Gem>): nat {
    MaxUpTo(gems, |gems|)
  }

  /** MaxCount is the highest count of any gem type, and it is reached by
      some gem unless there are none. */
  lemma MaxCountIsMax(gems: seq<Gem>)
    ensures forall t :: Count(gems, t) <= MaxCount(gems)
    ensures gems == [] ==> MaxCount(gems) == 0
    ensures gems != [] ==> exists i :: 0 <= i < |gems| && Count(gems, gems[i].kind) == MaxCount(gems)
  {
    assert MaxCount(gems) == MaxUpTo(gems, |gems|);
    forall t ensures Count(gems, t) <= MaxCount(gems) {
      CountPositive(gems, t);
      if Count(gems, t) > 0 {
        var i :| 0 <= i < |gems| && gems[i].kind == t;
      }
    }
  }

  /** A bound above every count, reached by some type or equal to 0, is MaxCount. */
  lemma MaxCountUnique(gems: seq<Gem>, m: nat)
    requires forall t :: Count(gems, t) <= m
    requires m == 0 || exists t :: Count(gems, t) == m
    ensures m == MaxCount(gems)
  {
    MaxCountIsMax(gems);
    if m > 0 {
      var t :| Count(gems, t) == m;
      CountPositive(gems, t);
      var i :| 0 <= i < |gems| && gems[i].kind == t;
    }
  }

  /** The base score tiers: a pair pays 10, three of a kind 50. */
  function BaseScore(maxCount: nat): nat {
    if maxCount == 2 then 10 else if maxCount == 3 then 50 else 0
  }

  /** The first index at or after `from` whose gem's type has count `m`, or |gems|. */
  function FirstWithCount(gems: seq<Gem>, m: nat, from: nat): (i: nat)
    requires from <= |gems|
    ensures from <= i <= |gems|
    ensures i < |gems| ==> Count(gems, gems[i].kind) == m
    ensures forall j :: from <= j < i ==> Count(gems, gems[j].kind) != m
    decreases |gems| - from
  {
    if from == |gems| then from
    else if Count(gems, gems[from].kind) == m then from
    else FirstWithCount(gems, m, from + 1)
  }

  /** `currentWinningType`: null without a base score, else the type of the
      first gem whose type reaches the highest count. */
  function WinningType(gems: seq<Gem>): Option<GemType> {
    var m := MaxCount(gems);
    var i := FirstWithCount(gems, m, 0);
    if BaseScore(m) == 0 || i == |gems| then None else Some(gems[i].kind)
  }

  /** `currentWin`: the base score times `1 + comboStreak / 10`, in integers. */
  function SpinWin(gems: seq<Gem>, comboStreak: nat): nat {
    BaseScore(MaxCount(gems)) * (10 + comboStreak) / 10
  }

  /** Without a base score there is no winning type; with one, the winning
      type is that of the first gem whose type reaches the highest count. */
  lemma WinningTypeIsFirstMax(gems: seq<Gem>)
    ensures BaseScore(MaxCount(gems)) == 0 ==> WinningType(gems) == None
    ensures BaseScore(MaxCount(gems)) > 0 ==>
      (exists i :: 0 <= i < |gems| &&
        WinningType(gems) == Some(gems[i].kind) &&
        Count(gems, gems[i].kind) == MaxCount(gems) &&
        forall j :: 0 <= j < i ==> Count(gems, gems[j].kind) < MaxCount(gems))
  {
    var m := MaxCount(gems);
    MaxCountIsMax(gems);
    if BaseScore(m) > 0 {
      var w :| 0 <= w < |gems| && Count(gems, gems[w].kind) == m;
      var i := FirstWithCount(gems, m, 0);
      assert i <= w;
      forall j | 0 <= j < i ensures Count(gems, gems[j].kind) < m {
        assert Count(gems, gems[j].kind) != m;
      }
    }
  }

  /** Two different types together count at most the number of gems. */
  lemma {:induction false} CountPair(gems: seq<Gem>, a: GemType, b: GemType)
    requires a != b
    ensures Count(gems, a) + Count(gems, b) <= |gems|
  {
    if gems != [] {
      CountPair(gems[..|gems| - 1], a, b);
    }
  }

  /** With GridSize gems a winning type is the only type with the highest
      count, so the first-appearance tie-break never has to choose. */
  lemma WinningTypeUnique(gems: seq<Gem>, t: GemType)
    requires |gems| == GridSize
    requires BaseScore(MaxCount(gems)) > 0 && Count(gems, t) == MaxCount(gems)
    ensures WinningType(gems) == Some(t)
  {
    WinningTypeIsFirstMax(gems);
    var i :| 0 <= i < |gems| && WinningType(gems) == Some(gems[i].kind) && Count(gems, gems[i].kind) == MaxCount(gems);
    if gems[i].kind != t {
      CountPair(gems, gems[i].kind, t);
    }
  }

  lemma CountOfThree(gems: seq<Gem>, t: GemType)
    requires |gems| == 3
    ensures Count(gems, t) == (if gems[0].kind == t then 1 else 0) + (if gems[1].kind == t then 1 else 0) + (if gems[2].kind == t then 1 else 0)
  {
    var one, two := gems[..1], gems[..2];
    assert one[..0] == [] && two[..1] == one && gems[..2] == two;
    assert Count(one, t) == (if gems[0].kind == t then 1 else 0);
    assert Count(two, t) == Count(one, t) + (if gems[1].kind == t then 1 else 0);
  }

  /** With GridSize gems: three of a kind scores 50, exactly one pair 10, and
      three different types nothing. */
  lemma BaseScoreOfThree(gems: seq<Gem>)
    requires |gems| == GridSize
    ensures BaseScore(MaxCount(gems)) == 50 <==> gems[0].kind == gems[1].kind == gems[2].kind
    ensures BaseScore(MaxCount(gems)) == 10 <==>
      (gems[0].kind == gems[1].kind || gems[1].kind == gems[2].kind || gems[0].kind == gems[2].kind) &&
      !(gems[0].kind == gems[1].kind == gems[2].kind)
    ensures BaseScore(MaxCount(gems)) == 0 <==>
      gems[0].kind != gems[1].kind && gems[1].kind != gems[2].kind && gems[0].kind != gems[2].kind
  {
    CountOfThree(gems, gems[0].kind);
    CountOfThree(gems, gems[1].kind);
    CountOfThree(gems, gems[2].kind);
    var c0, c1, c2 := Count(gems, gems[0].kind), Count(gems, gems[1].kind), Count(gems, gems[2].kind);
    var m1 := c0;
    var m2 := if c1 > m1 then c1 else m1;
    assert MaxUpTo(gems, 1) == m1;
    assert MaxUpTo(gems, 2) == m2;
    assert MaxCount(gems) == if c2 > m2 then c2 else m2;
  }

  /** The integer win equals the exact product `baseScore * (1 + 0.1 * comboStreak)`,
      so the source's rounding never changes it (up to floating-point error). */
  lemma WinIsExactProduct(gems: seq<Gem>, comboStreak: nat)
    ensures SpinWin(gems, comboStreak) as real == (BaseScore(MaxCount(gems)) as real) * (1.0 + 0.1 * comboStreak as real)
  {
    var b := BaseScore(MaxCount(gems));
    assert b == 0 || b == 10 || b == 50;
    if b == 10 {
      assert b * (10 + comboStreak) == 10 * (10 + comboStreak);
    } else if b == 50 {
      assert b * (10 + comboStreak) == 10 * (50 + 5 * comboStreak);
    }
  }

  /** `counts` holds the count of every type present and no other key,
      `keys` lists the same types in order of first appearance, and `firsts`
      says where each of them first appears. */
  ghost predicate TallyOf(gems: seq<Gem>, counts: map<GemType, nat>, keys: seq<GemType>, firsts: seq<nat>) {
    (forall t :: t in counts <==> Count(gems, t) > 0) &&
    (forall t :: t in counts ==> counts[t] == Count(gems, t)) &&
    (forall t :: t in counts <==> t in keys) &&
    |firsts| == |keys| &&
    (forall k :: 0 <= k < |keys| ==> firsts[k] < |gems| && gems[firsts[k]].kind == keys[k]) &&
    (forall k, p :: 0 <= k < |keys| && 0 <= p < firsts[k] ==> gems[p].kind != keys[k]) &&
    (forall a, b :: 0 <= a < b < |keys| ==> firsts[a] < firsts[b])
  }

  /** The largest value in the record is MaxCount. */
  lemma TallyMax(gems: seq<Gem>, counts: map<GemType, nat>, keys: seq<GemType>, firsts: seq<nat>, m: nat)
    requires TallyOf(gems, counts, keys, firsts)
    requires forall a :: 0 <= a < |keys| ==> counts[keys[a]] <= m
    requires m == 0 || exists a :: 0 <= a < |keys| && counts[keys[a]] == m
    ensures m == MaxCount(gems)
  {
    forall t ensures Count(gems, t) <= m {
      if t in counts {
        var a :| 0 <= a < |keys| && keys[a] == t;
      }
    }
    if m > 0 {
      var a :| 0 <= a < |keys| && counts[keys[a]] == m;
      assert Count(gems, keys[a]) == m;
    }
    MaxCountUnique(gems, m);
  }

  /** The first key, in record order, holding `m` is the type of the first
      gem whose type has count `m`. */
  lemma TallyFirstKey(gems: seq<Gem>, counts: map<GemType, nat>, keys: seq<GemType>, firsts: seq<nat>, m: nat, k: nat)
    requires TallyOf(gems, counts, keys, firsts)
    requires k < |keys| && counts[keys[k]] == m
    requires forall a :: 0 <= a < k ==> counts[keys[a]] != m
    ensures FirstWithCount(gems, m, 0) == firsts[k] && gems[firsts[k]].kind == keys[k]
  {
    forall j | 0 <= j < firsts[k] ensures Count(gems, gems[j].kind) != m {
      CountPositive(gems, gems[j].kind);
      var a :| 0 <= a < |keys| && keys[a] == gems[j].kind;
      assert firsts[a] <= j;
    }
  }

  /** One more gem counts once more for its own type only. */
  lemma CountSnoc(done: seq<Gem>, g: Gem, t: GemType)
    ensures Count(done + [g], t) == Count(done, t) + (if g.kind == t then 1 else 0)
  {
    assert (done + [g])[..|done|] == done;
  }

  /** Counting a gem whose type is already in the record. */
  lemma TallySeen(gems: seq<Gem>, i: nat, counts: map<GemType, nat>, keys: seq<GemType>, firsts: seq<nat>)
    requires i < |gems| && TallyOf(gems[..i], counts, keys, firsts) && gems[i].kind in counts
    ensures TallyOf(gems[..i + 1], counts[gems[i].kind := counts[gems[i].kind] + 1], keys, firsts)
  {
    var done, next, t := gems[..i], gems[..i + 1], gems[i].kind;
    assert next == done + [gems[i]];
    forall u ensures Count(next, u) == Count(done, u) + (if u == t then 1 else 0) {
      CountSnoc(done, gems[i], u);
    }
    forall k | 0 <= k < |keys| ensures firsts[k] < |next| && next[firsts[k]] == done[firsts[k]] {
    }
    forall k, p | 0 <= k < |keys| && 0 <= p < firsts[k] ensures next[p].kind != keys[k] {
      assert next[p] == done[p];
    }
  }

  /** Counting a gem whose type is not yet in the record: the type is keyed last. */
  lemma TallyFresh(gems: seq<Gem>, i: nat, counts: map<GemType, nat>, keys: seq<GemType>, firsts: seq<nat>)
    requires i < |gems| && TallyOf(gems[..i], counts, keys, firsts) && gems[i].kind !in counts
    ensures TallyOf(gems[..i + 1], counts[gems[i].kind := 1], keys + [gems[i].kind], firsts + [i])
  {
    var done, next, t := gems[..i], gems[..i + 1], gems[i].kind;
    var keys', firsts' := keys + [t], firsts + [i];
    assert next == done + [gems[i]];
    forall u ensures Count(next, u) == Count(done, u) + (if u == t then 1 else 0) {
      CountSnoc(done, gems[i], u);
    }
    CountPositive(done, t);
    forall k | 0 <= k < |keys'| ensures firsts'[k] < |next| && next[firsts'[k]].kind == keys'[k] {
      if k < |keys| {
        assert next[firsts[k]] == done[firsts[k]];
      }
    }
    forall k, p | 0 <= k < |keys'| && 0 <= p < firsts'[k] ensures next[p].kind != keys'[k] {
      assert next[p] == done[p];
    }
  }

  /** With a base score, the first key in record order holding `maxCount`
      is the winning type. */
  lemma TallyWinningType(gems: seq<Gem>, counts: map<GemType, nat>, keys: seq<GemType>, firsts: seq<nat>, k: nat)
    requires TallyOf(gems, counts, keys, firsts)
    requires BaseScore(MaxCount(gems)) > 0
    requires k < |keys| && counts[keys[k]] == MaxCount(gems)
    requires forall a :: 0 <= a < k ==> counts[keys[a]] != MaxCount(gems)
    ensures WinningType(gems) == Some(keys[k])
  {
    TallyFirstKey(gems, counts, keys, firsts, MaxCount(gems), k);
  }

  /** The record of counts of the scoring block, built gem by gem. */
  method Tally(gems: seq<Gem>) returns (counts: map<GemType, nat>, keys: seq<GemType>, ghost firsts: seq<nat>)
    ensures forall t :: t in counts ==> counts[t] == Count(gems, t) > 0
    ensures forall t :: t in keys <==> Count(gems, t) > 0
    ensures TallyOf(gems, counts, keys, firsts)
  {
    counts := map[];
    keys := [];
    firsts := [];
    for i := 0 to |gems|
      invariant TallyOf(gems[..i], counts, keys, firsts)
    {
      var t := gems[i].kind;
      if t in counts {
        TallySeen(gems, i, counts, keys, firsts);
      } else {
        TallyFresh(gems, i, counts, keys, firsts);
        keys := keys + [t];
        firsts := firsts + [i];
      }
      counts := counts[t := (if t in counts then counts[t] else 0) + 1];
    }
    assert gems[..|gems|] == gems;
  }

  /** `Math.max(...Object.values(counts), 0)`. */
  method MaxValue(counts: map<GemType, nat>, keys: seq<GemType>) returns (maxCount: nat)
    requires forall a :: 0 <= a < |keys| ==> keys[a] in counts
    ensures forall a :: 0 <= a < |keys| ==> counts[keys[a]] <= maxCount
    ensures maxCount == 0 || exists a :: 0 <= a < |keys| && counts[keys[a]] == maxCount
  {
    maxCount := 0;
    for k := 0 to |keys|
      invariant forall a :: 0 <= a < k ==> counts[keys[a]] <= maxCount
      invariant maxCount == 0 || exists a :: 0 <= a < k && counts[keys[a]] == maxCount
    {
      if counts[keys[k]] > maxCount {
        maxCount := counts[keys[k]];
      }
    }
  }

  /** The `for…in` search with `break`: the first key, in record order,
      whose count is `maxCount`, or None. */
  method FirstKeyWithCount(counts: map<GemType, nat>, keys: seq<GemType>, maxCount: nat)
    returns (found: Option<GemType>, ghost k: nat)
    requires forall a :: 0 <= a < |keys| ==> keys[a] in counts
    ensures found.Some? ==> k < |keys| && found.value == keys[k] && counts[keys[k]] == maxCount
    ensures forall a :: 0 <= a < |keys| && (found.Some? ==> a < k) ==> counts[keys[a]] != maxCount
    ensures (exists a :: 0 <= a < |keys| && counts[keys[a]] == maxCount) ==> found.Some?
  {
    found, k := None, 0;
    for i := 0 to |keys|
      invariant forall a :: 0 <= a < i ==> counts[keys[a]] != maxCount
      invariant found == None
    {
      if counts[keys[i]] == maxCount {
        found, k := Some(keys[i]), i;
        break;
      }
    }
  }

  /** `maxCount`: the largest value in the record, which is MaxCount. */
  method HighestCount(ghost gems: seq<Gem>, counts: map<GemType, nat>, keys: seq<GemType>, ghost firsts: seq<nat>)
    returns (maxCount: nat)
    requires TallyOf(gems, counts, keys, firsts)
    ensures maxCount == MaxCount(gems)
  {
    maxCount := MaxValue(counts, keys);
    TallyMax(gems, counts, keys, firsts, maxCount);
  }

  /** The winning type search of the scoring block, run when there is a base score. */
  method WinningKey(ghost gems: seq<Gem>, counts: map<GemType, nat>, keys: seq<GemType>, ghost firsts: seq<nat>, maxCount: nat)
    returns (currentWinningType: Option<GemType>)
    requires TallyOf(gems, counts, keys, firsts)
    requires maxCount == MaxCount(gems) && BaseScore(maxCount) > 0
    ensures currentWinningType == WinningType(gems)
  {
    MaxCountIsMax(gems);
    ghost var i :| 0 <= i < |gems| && Count(gems, gems[i].kind) == maxCount;
    assert gems[i].kind in counts;
    ghost var k;
    currentWinningType, k := FirstKeyWithCount(counts, keys, maxCount);
    TallyWinningType(gems, counts, keys, firsts, k);
  }

  /** The scoring block of `handleSpin`, returning its locals. */
  method ScoreGems(gems: seq<Gem>, comboStreak: nat)
    returns (maxCount: nat, baseScore: nat, currentWin: nat, currentWinningType: Option<GemType>)
    ensures maxCount == MaxCount(gems)
    ensures baseScore == BaseScore(maxCount)
    ensures currentWin == SpinWin(gems, comboStreak)
    ensures currentWinningType == WinningType(gems)
  {
    var counts, keys, firsts := Tally(gems);
    maxCount := HighestCount(gems, counts, keys, firsts);

    baseScore := 0;
    if maxCount == 2 { baseScore := 10; }
    if maxCount == 3 { baseScore := 50; }

    currentWin := 0;
    currentWinningType := None;
    if baseScore > 0 {
      currentWinningType := WinningKey(gems, counts, keys, firsts, maxCount);
      currentWin := baseScore * (10 + comboStreak) / 10;
    }
  }
}
