/** pages/Achievements.tsx: the order in which badges are shown (unlocked
    first, then by descending progress ratio) and the unlocked counter.
    `[...badges].sort(cmp)` sorts a copy, so the store's list is an input
    here and is never reordered. */
module Achievements {
  import opened Types
  import opened Seqs
  import opened Store

  /** The progress ratio `currentProgress / maxProgress`. */
  function Ratio(b: Badge): real
    requires b.maxProgress > 0
  {
    b.currentProgress as real / b.maxProgress as real
  }

  /** The comparator, with the ratio difference multiplied through by both
      (positive) maxima: negative puts `a` first, positive puts `b` first. */
  function Compare(a: Badge, b: Badge): (r: int)
    ensures !a.isLocked && b.isLocked ==> r < 0
    ensures a.isLocked && !b.isLocked ==> r > 0
  {
    if a.isLocked == b.isLocked then b.currentProgress * a.maxProgress - a.currentProgress * b.maxProgress
    else if a.isLocked then 1
    else -1
  }

  lemma MulPositiveReal(t: real, x: real, y: real)
    requires t > 0.0
    ensures x <= y <==> x * t <= y * t
  {
  }

  /** For badges with positive maxima the integer comparator has the sign of
      the source's `b.currentProgress / b.maxProgress - a.currentProgress / a.maxProgress`. */
  lemma CompareMatchesRatio(a: Badge, b: Badge)
    requires a.maxProgress > 0 && b.maxProgress > 0 && a.isLocked == b.isLocked
    ensures Compare(a, b) <= 0 <==> Ratio(b) - Ratio(a) <= 0.0
    ensures Compare(a, b) >= 0 <==> Ratio(b) - Ratio(a) >= 0.0
  {
    var ma, mb := a.maxProgress as real, b.maxProgress as real;
    var ra, rb := Ratio(a), Ratio(b);
    var t := ma * mb;
    assert ra * t == a.currentProgress as real * mb;
    assert rb * t == b.currentProgress as real * ma;
    assert (Compare(a, b) as real) == rb * t - ra * t;
    MulPositiveReal(t, ra, rb);
    MulPositiveReal(t, rb, ra);
  }

  /** Swapping the arguments negates the comparator. */
  lemma CompareAntisymmetric(a: Badge, b: Badge)
    ensures Compare(b, a) == -Compare(a, b)
  {
  }

  /** With positive maxima the comparator's order is transitive. */
  lemma CompareTransitive(a: Badge, b: Badge, c: Badge)
    requires a.maxProgress > 0 && b.maxProgress > 0 && c.maxProgress > 0
    requires Compare(a, b) <= 0 && Compare(b, c) <= 0
    ensures Compare(a, c) <= 0
  {
    if a.isLocked == b.isLocked == c.isLocked {
      CompareMatchesRatio(a, b);
      CompareMatchesRatio(b, c);
      CompareMatchesRatio(a, c);
    }
  }

  ghost predicate PositiveMaxima(s: seq<Badge>)
  {
    forall i :: 0 <= i < |s| ==> s[i].maxProgress > 0
  }

  ghost predicate Sorted(s: seq<Badge>)
  {
    forall i, j :: 0 <= i < j < |s| ==> Compare(s[i], s[j]) <= 0
  }

  /** Inserts `x` before the first element it does not follow; placing it
      ahead of its equals keeps earlier badges ahead of later ties. */
  function Insert(x: Badge, s: seq<Badge>): (r: seq<Badge>)
    ensures multiset(r) == multiset(s) + multiset{x}
    ensures |r| == |s| + 1
  {
    if s == [] || Compare(x, s[0]) <= 0 then [x] + s
    else
      assert s == [s[0]] + s[1..];
      [s[0]] + Insert(x, s[1..])
  }

  /** The order `Array.prototype.sort` (a stable sort) gives the copy;
      `SortBadgesStable` shows ties keep their input order. */
  function SortBadges(s: seq<Badge>): (r: seq<Badge>)
    ensures multiset(r) == multiset(s)
    ensures |r| == |s|
  {
    if s == [] then []
    else
      assert s == [s[0]] + s[1..];
      Insert(s[0], SortBadges(s[1..]))
  }

  lemma {:induction false} InsertSorted(x: Badge, s: seq<Badge>)
    requires PositiveMaxima(s) && x.maxProgress > 0 && Sorted(s)
    ensures Sorted(Insert(x, s))
    decreases |s|
  {
    var r := Insert(x, s);
    if s == [] || Compare(x, s[0]) <= 0 {
      forall j | 1 <= j < |r|
        ensures Compare(x, r[j]) <= 0
      {
        if j > 1 {
          CompareTransitive(x, s[0], s[j - 1]);
        }
      }
    } else {
      InsertSorted(x, s[1..]);
      HeadPrecedesInsertion(x, s);
    }
  }

  /** When `x` goes after the head, the head precedes everything the
      insertion into the tail produces. */
  lemma HeadPrecedesInsertion(x: Badge, s: seq<Badge>)
    requires s != [] && Sorted(s) && Compare(x, s[0]) > 0
    ensures forall j :: 0 <= j < |Insert(x, s[1..])| ==> Compare(s[0], Insert(x, s[1..])[j]) <= 0
  {
    var rest := Insert(x, s[1..]);
    CompareAntisymmetric(x, s[0]);
    forall j | 0 <= j < |rest|
      ensures Compare(s[0], rest[j]) <= 0
    {
      assert rest[j] in multiset(rest);
      if rest[j] != x {
        assert rest[j] in multiset(s[1..]);
        var k :| 0 <= k < |s[1..]| && s[1..][k] == rest[j];
        assert s[k + 1] == rest[j];
      }
    }
  }

  /** The displayed order is sorted by the comparator. */
  lemma {:induction false} SortBadgesSorted(s: seq<Badge>)
    requires PositiveMaxima(s)
    ensures Sorted(SortBadges(s))
    decreases |s|
  {
    if s != [] {
      SortBadgesSorted(s[1..]);
      var rest := SortBadges(s[1..]);
      forall i | 0 <= i < |rest|
        ensures rest[i].maxProgress > 0
      {
        assert rest[i] in multiset(s[1..]);
      }
      InsertSorted(s[0], rest);
    }
  }

  /** The badges the comparator ties with `t`: same lock state, same ratio. */
  function TiedWith(t: Badge): Badge -> bool
  {
    (b: Badge) => Compare(b, t) == 0
  }

  /** Two badges tied with a third are tied with each other. */
  lemma TiesShareOrder(a: Badge, b: Badge, t: Badge)
    requires a.maxProgress > 0 && b.maxProgress > 0 && t.maxProgress > 0
    ensures Compare(a, t) == 0 && Compare(b, t) == 0 ==> Compare(a, b) == 0
  {
    CompareAntisymmetric(a, t);
    CompareAntisymmetric(b, t);
    CompareAntisymmetric(a, b);
    if Compare(a, t) == 0 && Compare(b, t) == 0 {
      CompareTransitive(a, t, b);
      CompareTransitive(b, t, a);
    }
  }

  /** Among the badges tied with `t`, inserting `x` wherever it lands is
      the same as putting it in front. */
  lemma {:induction false} InsertKeepsTies(x: Badge, s: seq<Badge>, t: Badge)
    requires PositiveMaxima(s) && x.maxProgress > 0 && t.maxProgress > 0
    ensures Filter(TiedWith(t), Insert(x, s)) == Filter(TiedWith(t), [x] + s)
    decreases |s|
  {
    if s == [] || Compare(x, s[0]) <= 0 {
      assert Insert(x, s) == [x] + s;
    } else {
      var p, tail := TiedWith(t), s[1..];
      var ins := Insert(x, tail);
      assert Insert(x, s) == [s[0]] + ins;
      assert s == [s[0]] + tail;
      calc {
        Filter(p, Insert(x, s));
      == { FilterAppend(p, [s[0]], ins); }
        Filter(p, [s[0]]) + Filter(p, ins);
      == { InsertKeepsTies(x, tail, t); }
        Filter(p, [s[0]]) + Filter(p, [x] + tail);
      == { FilterAppend(p, [x], tail); }
        Filter(p, [s[0]]) + (Filter(p, [x]) + Filter(p, tail));
      == { TiesShareOrder(x, s[0], t); SingletonFiltersCommute(p, s[0], x, Filter(p, tail)); }
        Filter(p, [x]) + (Filter(p, [s[0]]) + Filter(p, tail));
      == { FilterAppend(p, [s[0]], tail); }
        Filter(p, [x]) + Filter(p, s);
      == { FilterAppend(p, [x], s); }
        Filter(p, [x] + s);
      }
    }
  }

  /** Two elements of which at most one is kept can be filtered in either order. */
  lemma SingletonFiltersCommute<T>(p: T -> bool, a: T, b: T, rest: seq<T>)
    requires !(p(a) && p(b))
    ensures Filter(p, [a]) + (Filter(p, [b]) + rest) == Filter(p, [b]) + (Filter(p, [a]) + rest)
  {
    assert [a][1..] == [] && [b][1..] == [];
  }

  /** The sort is stable: the badges tied with any `t` keep their input order. */
  lemma {:induction false} SortBadgesStable(s: seq<Badge>, t: Badge)
    requires PositiveMaxima(s) && t.maxProgress > 0
    ensures Filter(TiedWith(t), SortBadges(s)) == Filter(TiedWith(t), s)
    decreases |s|
  {
    if s != [] {
      var p, tail := TiedWith(t), s[1..];
      var rest := SortBadges(tail);
      assert SortBadges(s) == Insert(s[0], rest);
      assert s == [s[0]] + tail;
      SortedKeepsMaxima(tail);
      calc {
        Filter(p, SortBadges(s));
      == { InsertKeepsTies(s[0], rest, t); }
        Filter(p, [s[0]] + rest);
      == { FilterAppend(p, [s[0]], rest); }
        Filter(p, [s[0]]) + Filter(p, rest);
      == { SortBadgesStable(tail, t); }
        Filter(p, [s[0]]) + Filter(p, tail);
      == { FilterAppend(p, [s[0]], tail); }
        Filter(p, s);
      }
    }
  }

  /** Sorting keeps every maximum positive, since it keeps the badges. */
  lemma SortedKeepsMaxima(s: seq<Badge>)
    requires PositiveMaxima(s)
    ensures PositiveMaxima(SortBadges(s))
  {
    var r := SortBadges(s);
    forall i | 0 <= i < |r|
      ensures r[i].maxProgress > 0
    {
      assert r[i] in multiset(s);
    }
  }

  /** The shown list holds the same badges, every unlocked badge comes
      before every locked one, and within the same lock state the progress
      ratio never increases. */
  lemma SortedBadgesOrder(s: seq<Badge>)
    requires PositiveMaxima(s)
    ensures multiset(SortBadges(s)) == multiset(s)
    ensures forall i, j :: 0 <= i < j < |s| && !SortBadges(s)[j].isLocked ==> !SortBadges(s)[i].isLocked
    ensures forall i, j :: 0 <= i < j < |s| && SortBadges(s)[i].isLocked == SortBadges(s)[j].isLocked ==>
              SortBadges(s)[i].maxProgress > 0 && SortBadges(s)[j].maxProgress > 0 &&
              Ratio(SortBadges(s)[i]) >= Ratio(SortBadges(s)[j])
  {
    var r := SortBadges(s);
    SortBadgesSorted(s);
    forall i | 0 <= i < |r|
      ensures r[i].maxProgress > 0
    {
      assert r[i] in multiset(s);
    }
    forall i, j | 0 <= i < j < |r| && r[i].isLocked == r[j].isLocked
      ensures Ratio(r[i]) >= Ratio(r[j])
    {
      CompareMatchesRatio(r[i], r[j]);
    }
  }

  predicate IsUnlocked(b: Badge)
  {
    !b.isLocked
  }

  /** `badges.filter(b => !b.isLocked).length` */
  function UnlockedCount(badges: seq<Badge>): (n: nat)
    ensures n <= |badges|
  {
    |Filter(IsUnlocked, badges)|
  }

  function UnlockedIndicator(b: Badge): int
  {
    if b.isLocked then 0 else 1
  }

  lemma {:induction false} UnlockedCountIsSum(s: seq<Badge>)
    ensures UnlockedCount(s) == SumOf(UnlockedIndicator, s)
    decreases |s|
  {
    if s != [] {
      UnlockedCountIsSum(s[1..]);
    }
  }

  /** In a list with every unlocked badge first, the unlocked ones are
      exactly the first `UnlockedCount` entries. */
  lemma {:induction false} UnlockedPrefix(r: seq<Badge>)
    requires forall i, j :: 0 <= i < j < |r| && !r[j].isLocked ==> !r[i].isLocked
    ensures forall i :: 0 <= i < |r| ==> (!r[i].isLocked <==> i < UnlockedCount(r))
    decreases |r|
  {
    if r != [] {
      if r[0].isLocked {
        FilterNoneKept(IsUnlocked, r);
      } else {
        UnlockedPrefix(r[1..]);
        assert Filter(IsUnlocked, r) == [r[0]] + Filter(IsUnlocked, r[1..]);
      }
    }
  }

  /** Sorting does not change the counter, and the counter is exactly how
      many leading cards of the shown list are unlocked. */
  lemma UnlockedCounterMatchesDisplay(s: seq<Badge>)
    requires PositiveMaxima(s)
    ensures UnlockedCount(SortBadges(s)) == UnlockedCount(s) <= |s|
    ensures forall i :: 0 <= i < |s| ==> (!SortBadges(s)[i].isLocked <==> i < UnlockedCount(s))
  {
    var r := SortBadges(s);
    UnlockedCountIsSum(s);
    UnlockedCountIsSum(r);
    SumOfPermutation(UnlockedIndicator, r, s);
    SortedBadgesOrder(s);
    UnlockedPrefix(r);
  }

  /** The store's badge list, the catalog with some badges unlocked, always
      meets the positive-maxima condition, so its shown order is sorted and
      its counter is the number of leading unlocked cards. */
  lemma StoreBadgesDisplay(badges: seq<Badge>)
    requires CatalogShaped(badges)
    ensures Sorted(SortBadges(badges))
    ensures forall i :: 0 <= i < |badges| ==> (!SortBadges(badges)[i].isLocked <==> i < UnlockedCount(badges))
  {
    CatalogShapedHasPositiveGoals(badges);
    SortBadgesSorted(badges);
    UnlockedCounterMatchesDisplay(badges);
  }
}
