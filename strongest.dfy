/**
 * The "strongest" selection of the view model: a weighted stat score per
 * creature, the first maximum of the list in list order (Kotlin's
 * `maxByOrNull`), and the promotion of that entry to the front of the list
 * (`remove` followed by `add(0, …)`).
 */
module Strongest {

  import opened Wrappers
  import opened PokemonEntities
  import KotlinInt

  /** Which of the three stats the user ticked. */
  datatype Criteria = Criteria(useAttack: bool, useDefense: bool, useHP: bool)

  predicate AnySelected(c: Criteria) {
    c.useAttack || c.useDefense || c.useHP
  }

  /** What one stat entry adds to the score: its base value when it is one of the ticked stats. */
  function Contribution(s: Stat, c: Criteria): int {
    if s.stat.name == "attack" then (if c.useAttack then s.baseStat else 0)
    else if s.stat.name == "defense" then (if c.useDefense then s.baseStat else 0)
    else if s.stat.name == "hp" then (if c.useHP then s.baseStat else 0)
    else 0
  }

  /** The value the accumulator holds after visiting `stats` left to right, in `Int` arithmetic. */
  function Score(stats: seq<Stat>, c: Criteria): int {
    if stats == [] then 0
    else KotlinInt.Add(Score(stats[..|stats| - 1], c), Contribution(stats[|stats| - 1], c))
  }

  /** Sum of the base values of all entries for the stat called `name`; 0 when there is none. */
  function StatTotal(stats: seq<Stat>, name: string): int {
    if stats == [] then 0
    else StatTotal(stats[1..], name) + (if stats[0].stat.name == name then stats[0].baseStat else 0)
  }

  /** The intended score, as a mathematical integer: the totals of the ticked stats. */
  function WeightedTotal(stats: seq<Stat>, c: Criteria): int {
    (if c.useAttack then StatTotal(stats, "attack") else 0)
    + (if c.useDefense then StatTotal(stats, "defense") else 0)
    + (if c.useHP then StatTotal(stats, "hp") else 0)
  }

  function ItemScore(e: Entry, c: Criteria): int {
    Score(e.1.stats, c)
  }

  /** A stat that does not occur in the list contributes nothing. */
  lemma {:induction false} MissingStatAddsNothing(stats: seq<Stat>, name: string)
    requires forall i :: 0 <= i < |stats| ==> stats[i].stat.name != name
    ensures StatTotal(stats, name) == 0
  {
    if stats != [] {
      MissingStatAddsNothing(stats[1..], name);
    }
  }

  lemma {:induction false} StatTotalSnoc(stats: seq<Stat>, s: Stat, name: string)
    ensures StatTotal(stats + [s], name)
         == StatTotal(stats, name) + (if s.stat.name == name then s.baseStat else 0)
  {
    if stats != [] {
      assert (stats + [s])[1..] == stats[1..] + [s];
      StatTotalSnoc(stats[1..], s, name);
    }
  }

  lemma WeightedTotalSnoc(stats: seq<Stat>, s: Stat, c: Criteria)
    ensures WeightedTotal(stats + [s], c) == WeightedTotal(stats, c) + Contribution(s, c)
  {
    StatTotalSnoc(stats, s, "attack");
    StatTotalSnoc(stats, s, "defense");
    StatTotalSnoc(stats, s, "hp");
  }

  /**
   * The accumulated score is the weighted total of the ticked stats,
   * truncated to a 32-bit `Int`.
   */
  lemma {:induction false} ScoreIsWrappedTotal(stats: seq<Stat>, c: Criteria)
    ensures Score(stats, c) == KotlinInt.Wrap(WeightedTotal(stats, c))
  {
    if stats == [] {
    } else {
      var init, last := stats[..|stats| - 1], stats[|stats| - 1];
      assert stats == init + [last];
      ScoreIsWrappedTotal(init, c);
      WeightedTotalSnoc(init, last, c);
      KotlinInt.WrapAddLeft(WeightedTotal(init, c), Contribution(last, c));
    }
  }

  /** With no overflow, the score is exactly the weighted total. */
  lemma ScoreWithoutOverflow(stats: seq<Stat>, c: Criteria)
    requires KotlinInt.IsInt(WeightedTotal(stats, c))
    ensures Score(stats, c) == WeightedTotal(stats, c)
  {
    ScoreIsWrappedTotal(stats, c);
  }

  /** The selector lambda of `findStrongestPokemon`: a `forEach` that accumulates `score`. */
  method ComputeScore(detail: PokemonDetail, c: Criteria) returns (score: int)
    ensures score == Score(detail.stats, c)
    ensures score == KotlinInt.Wrap(WeightedTotal(detail.stats, c))
  {
    var stats := detail.stats;
    score := 0;
    var i := 0;
    while i < |stats|
      invariant 0 <= i <= |stats|
      invariant score == Score(stats[..i], c)
    {
      var it := stats[i];
      if it.stat.name == "attack" {
        if c.useAttack { score := KotlinInt.Add(score, it.baseStat); }
      } else if it.stat.name == "defense" {
        if c.useDefense { score := KotlinInt.Add(score, it.baseStat); }
      } else if it.stat.name == "hp" {
        if c.useHP { score := KotlinInt.Add(score, it.baseStat); }
      }
      assert stats[..i + 1][..i] == stats[..i];
      i := i + 1;
    }
    assert stats[..i] == stats;
    ScoreIsWrappedTotal(stats, c);
  }

  /**
   * `k` is the first position of a maximum score: no entry scores more, and
   * every entry before it scores strictly less.
   */
  ghost predicate IsFirstMax(s: seq<Entry>, c: Criteria, k: int) {
    && 0 <= k < |s|
    && (forall j :: 0 <= j < |s| ==> ItemScore(s[j], c) <= ItemScore(s[k], c))
    && (forall j :: 0 <= j < k ==> ItemScore(s[j], c) < ItemScore(s[k], c))
  }

  /** The position `maxByOrNull` picks in a non-empty list; it is the one and only first maximum. */
  function FirstMaxIndex(s: seq<Entry>, c: Criteria): (k: nat)
    requires |s| > 0
    ensures IsFirstMax(s, c, k)
  {
    if |s| == 1 then 0
    else
      var init := s[..|s| - 1];
      var k := FirstMaxIndex(init, c);
      assert forall j :: 0 <= j < |init| ==> init[j] == s[j];
      if ItemScore(s[k], c) < ItemScore(s[|s| - 1], c) then |s| - 1 else k
  }

  /** There is only one first maximum, so it is the one `FirstMaxIndex` finds. */
  lemma FirstMaxUnique(s: seq<Entry>, c: Criteria, k: int)
    requires IsFirstMax(s, c, k)
    ensures k == FirstMaxIndex(s, c)
  {
  }

  /** Extending a prefix by one element: the new element wins only with a strictly higher score. */
  lemma FirstMaxIndexStep(list: seq<Entry>, c: Criteria, i: nat)
    requires 1 <= i < |list|
    ensures var k := FirstMaxIndex(list[..i], c);
      && k < i
      && FirstMaxIndex(list[..i + 1], c)
         == if ItemScore(list[k], c) < ItemScore(list[i], c) then i else k
  {
    var s := list[..i + 1];
    assert s[..|s| - 1] == list[..i];
    assert s[|s| - 1] == list[i];
  }

  /**
   * Kotlin's `maxByOrNull`: null on an empty list; otherwise the first
   * element whose selector value is largest (a later element replaces the
   * current best only when it scores strictly more).
   */
  method MaxByOrNull(list: seq<Entry>, c: Criteria) returns (r: Option<Entry>)
    ensures r == None <==> list == []
    ensures list != [] ==> r == Some(list[FirstMaxIndex(list, c)])
  {
    if |list| == 0 {
      return None;
    }
    var maxElem := list[0];
    if |list| == 1 {
      return Some(maxElem);
    }
    var maxValue := ComputeScore(maxElem.1, c);
    ghost var k := 0;
    var i := 1;
    while i < |list|
      invariant 1 <= i <= |list|
      invariant 0 <= k < i
      invariant k == FirstMaxIndex(list[..i], c)
      invariant maxElem == list[k] && maxValue == ItemScore(list[k], c)
    {
      var e := list[i];
      var v := ComputeScore(e.1, c);
      FirstMaxIndexStep(list, c, i);
      if maxValue < v {
        maxElem, maxValue, k := e, v, i;
      }
      i := i + 1;
    }
    assert list[..i] == list;
    r := Some(maxElem);
  }

  /** Kotlin's `MutableList.remove(element)`: drops the first element equal to `x`, if any. */
  function RemoveFirst<T(==)>(s: seq<T>, x: T): (r: seq<T>)
    ensures x in s ==> |r| == |s| - 1
    ensures x !in s ==> r == s
  {
    if s == [] then []
    else if s[0] == x then s[1..]
    else [s[0]] + RemoveFirst(s[1..], x)
  }

  /** `remove` takes away exactly one copy of `x` when there is one, and nothing else. */
  lemma {:induction false} RemoveFirstMultiset<T>(s: seq<T>, x: T)
    ensures multiset(RemoveFirst(s, x)) == multiset(s) - multiset{x}
  {
    if s != [] {
      assert s == [s[0]] + s[1..];
      RemoveFirstMultiset(s[1..], x);
    }
  }

  /** `remove(x)` followed by `add(0, x)`. */
  function Promote(s: seq<Entry>, x: Entry): (r: seq<Entry>)
    ensures |r| == |RemoveFirst(s, x)| + 1
    ensures r[0] == x
  {
    [x] + RemoveFirst(s, x)
  }

  /** The reference shape of the result: the entry at `k` first, all others in their old order. */
  function MoveToFront<T>(s: seq<T>, k: nat): seq<T>
    requires k < |s|
  {
    [s[k]] + s[..k] + s[k + 1..]
  }

  lemma MoveToFrontIsPermutation<T>(s: seq<T>, k: nat)
    requires k < |s|
    ensures |MoveToFront(s, k)| == |s|
    ensures MoveToFront(s, k)[0] == s[k]
    ensures multiset(MoveToFront(s, k)) == multiset(s)
    ensures forall j :: 0 <= j < k ==> MoveToFront(s, k)[j + 1] == s[j]
    ensures forall j :: k < j < |s| ==> MoveToFront(s, k)[j] == s[j]
  {
    assert s == s[..k] + [s[k]] + s[k + 1..];
  }

  /** Removing the first occurrence of `s[k]`, when none comes earlier, removes position `k`. */
  lemma {:induction false} RemoveFirstAt<T>(s: seq<T>, k: nat)
    requires k < |s|
    requires forall j :: 0 <= j < k ==> s[j] != s[k]
    ensures RemoveFirst(s, s[k]) == s[..k] + s[k + 1..]
  {
    if k > 0 {
      var x, tail := s[k], s[1..];
      assert tail[k - 1] == x;
      assert s[0] != x;
      assert RemoveFirst(s, x) == [s[0]] + RemoveFirst(tail, x);
      assert forall j :: 0 <= j < k - 1 ==> tail[j] == s[j + 1];
      RemoveFirstAt(tail, k - 1);
      assert tail[..k - 1] == s[1..k];
      assert tail[k..] == s[k + 1..];
      assert [s[0]] + s[1..k] == s[..k];
    }
  }

  /**
   * In the caller's usage (the list scored is the view model's own list),
   * `remove` + `add(0, …)` of the first maximum moves exactly that entry to
   * the front: a permutation with everything else in its old order.
   */
  lemma PromoteFirstMax(s: seq<Entry>, c: Criteria)
    requires |s| > 0
    ensures Promote(s, s[FirstMaxIndex(s, c)]) == MoveToFront(s, FirstMaxIndex(s, c))
  {
    var k := FirstMaxIndex(s, c);
    forall j | 0 <= j < k
      ensures s[j] != s[k]
    {
      assert ItemScore(s[j], c) < ItemScore(s[k], c);
    }
    RemoveFirstAt(s, k);
  }

  /**
   * Once the first maximum is at the front, selecting again with the same
   * criteria picks index 0, which holds the same entry.
   */
  lemma SelectAgainPicksFront(s: seq<Entry>, c: Criteria)
    requires |s| > 0
    ensures FirstMaxIndex(MoveToFront(s, FirstMaxIndex(s, c)), c) == 0
  {
    var k := FirstMaxIndex(s, c);
    MoveToFrontIsPermutation(s, k);
    var t := MoveToFront(s, k);
    forall j | 0 <= j < |t|
      ensures ItemScore(t[j], c) <= ItemScore(t[0], c)
    {
      if 0 < j <= k {
        assert t[j] == s[j - 1];
      } else if j > k {
        assert t[j] == s[j];
      }
    }
    FirstMaxUnique(t, c, 0);
  }

  /** Promoting the entry that is already at the front leaves the list as it is. */
  lemma {:induction false} PromoteFront(t: seq<Entry>)
    requires |t| > 0
    ensures Promote(t, t[0]) == t
  {
    assert t == [t[0]] + t[1..];
  }
}
