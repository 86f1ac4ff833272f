/** Hand evaluation: packages/game-rules/src/hand-rank.ts. Labels are left out. */
module HandRank {
  import opened Prelude
  import opened Cards

  // ----- compareScores -----

  /** `a[i] ?? 0`. */
  function Digit(a: seq<int>, i: nat): int
  {
    if i < |a| then a[i] else 0
  }

  function CompareFrom(a: seq<int>, b: seq<int>, i: nat): (d: int)
    decreases |a| + |b| - i
  {
    if i >= Max(|a|, |b|) then 0
    else if Digit(a, i) != Digit(b, i) then Digit(a, i) - Digit(b, i)
    else CompareFrom(a, b, i + 1)
  }

  function Compare(a: seq<int>, b: seq<int>): int
  {
    CompareFrom(a, b, 0)
  }

  method CompareScores(a: seq<int>, b: seq<int>) returns (r: int)
    ensures r == Compare(a, b)
  {
    var n := Max(|a|, |b|);
    var i := 0;
    while i < n
      invariant 0 <= i <= n
      invariant Compare(a, b) == CompareFrom(a, b, i)
    {
      var d := Digit(a, i) - Digit(b, i);
      if d != 0 {
        return d;
      }
      i := i + 1;
    }
    return 0;
  }

  ghost predicate AgreeBelow(a: seq<int>, b: seq<int>, k: nat)
  {
    forall i: nat :: i < k ==> Digit(a, i) == Digit(b, i)
  }

  /** Lexicographic order on the lists padded with zeros for ever. */
  ghost predicate LexGreater(a: seq<int>, b: seq<int>)
  {
    exists k: nat :: AgreeBelow(a, b, k) && Digit(a, k) > Digit(b, k)
  }

  lemma {:induction false} CompareFromIsLex(a: seq<int>, b: seq<int>, i: nat)
    requires AgreeBelow(a, b, i)
    ensures CompareFrom(a, b, i) > 0 <==> LexGreater(a, b)
    ensures CompareFrom(a, b, i) < 0 <==> LexGreater(b, a)
    ensures CompareFrom(a, b, i) == 0 <==> forall j: nat :: Digit(a, j) == Digit(b, j)
    decreases |a| + |b| - i
  {
    if i < Max(|a|, |b|) {
      if Digit(a, i) == Digit(b, i) {
        CompareFromIsLex(a, b, i + 1);
      } else {
        assert AgreeBelow(b, a, i);
      }
    } else {
      assert forall j: nat :: j >= i ==> Digit(a, j) == 0 && Digit(b, j) == 0;
    }
  }

  /** `compareScores` is lexicographic order on zero-padded lists. */
  lemma {:induction false} CompareIsLexicographic(a: seq<int>, b: seq<int>)
    ensures Compare(a, b) > 0 <==> LexGreater(a, b)
    ensures Compare(a, b) < 0 <==> LexGreater(b, a)
    ensures Compare(a, b) == 0 <==> forall j: nat :: Digit(a, j) == Digit(b, j)
  {
    CompareFromIsLex(a, b, 0);
  }

  lemma {:induction false} LexTransitive(a: seq<int>, b: seq<int>, c: seq<int>)
    requires LexGreater(a, b) && LexGreater(b, c)
    ensures LexGreater(a, c)
  {
    var j: nat :| AgreeBelow(a, b, j) && Digit(a, j) > Digit(b, j);
    var k: nat :| AgreeBelow(b, c, k) && Digit(b, k) > Digit(c, k);
    var m := Min(j, k);
    assert AgreeBelow(a, c, m) && Digit(a, m) > Digit(c, m);
  }

  /** ... and a total preorder. */
  lemma {:induction false} CompareIsTotalPreorder(a: seq<int>, b: seq<int>, c: seq<int>)
    ensures Compare(a, a) == 0
    ensures Compare(a, b) <= 0 <==> Compare(b, a) >= 0
    ensures Compare(a, b) >= 0 && Compare(b, c) >= 0 ==> Compare(a, c) >= 0
    ensures Compare(a, b) >= 0 && Compare(b, c) >= 0 && Compare(a, c) == 0 ==> Compare(a, b) == 0 && Compare(b, c) == 0
  {
    CompareIsLexicographic(a, a);
    CompareIsLexicographic(a, b);
    CompareIsLexicographic(b, a);
    CompareIsLexicographic(b, c);
    CompareIsLexicographic(a, c);
    if Compare(a, b) > 0 && Compare(b, c) > 0 {
      LexTransitive(a, b, c);
    } else if Compare(a, b) == 0 && Compare(b, c) > 0 {
      var k: nat :| AgreeBelow(b, c, k) && Digit(b, k) > Digit(c, k);
      assert AgreeBelow(a, c, k) && Digit(a, k) > Digit(c, k);
    } else if Compare(a, b) > 0 && Compare(b, c) == 0 {
      var k: nat :| AgreeBelow(a, b, k) && Digit(a, k) > Digit(b, k);
      assert AgreeBelow(a, c, k) && Digit(a, k) > Digit(c, k);
    }
  }

  // ----- Sorting values, highest first -----

  ghost predicate Descending(s: seq<int>)
  {
    forall i, j :: 0 <= i < j < |s| ==> s[i] >= s[j]
  }

  function InsertDesc(s: seq<int>, x: int): (r: seq<int>)
    requires Descending(s)
    ensures Descending(r) && |r| == |s| + 1
    ensures r[0] == if |s| == 0 then x else Max(x, s[0])
  {
    if |s| == 0 || x >= s[0] then [x] + s
    else
      var rest := InsertDesc(s[1..], x);
      assert forall j :: 0 <= j < |rest| ==> rest[j] <= rest[0] <= s[0];
      [s[0]] + rest
  }

  lemma {:induction false} InsertDescContents(s: seq<int>, x: int)
    requires Descending(s)
    ensures multiset(InsertDesc(s, x)) == multiset{x} + multiset(s)
  {
    if |s| > 0 && x < s[0] {
      InsertDescContents(s[1..], x);
      Headed(s);
    }
  }

  function SortDesc(s: seq<int>): (r: seq<int>)
    ensures Descending(r)
  {
    if |s| == 0 then [] else InsertDesc(SortDesc(s[1..]), s[0])
  }

  lemma {:induction false} SortDescContents(s: seq<int>)
    ensures multiset(SortDesc(s)) == multiset(s)
  {
    if |s| > 0 {
      SortDescContents(s[1..]);
      InsertDescContents(SortDesc(s[1..]), s[0]);
      Headed(s);
    }
  }

  lemma {:induction false} Headed<T>(s: seq<T>)
    requires |s| > 0
    ensures multiset(s) == multiset{s[0]} + multiset(s[1..])
    ensures multiset(s[1..]) == multiset(s) - multiset{s[0]}
  {
    assert s == [s[0]] + s[1..];
  }

  lemma {:induction false} SameHead(a: seq<int>, b: seq<int>)
    requires Descending(a) && Descending(b) && multiset(a) == multiset(b) && |a| > 0
    ensures |b| > 0 && a[0] == b[0]
  {
    assert a[0] in multiset(b);
    assert b[0] in multiset(a);
  }

  lemma {:induction false} SortedUnique(a: seq<int>, b: seq<int>)
    requires Descending(a) && Descending(b) && multiset(a) == multiset(b)
    ensures a == b
  {
    if |a| == 0 {
      assert |multiset(b)| == 0;
    } else {
      SameHead(a, b);
      Headed(a);
      Headed(b);
      SortedUnique(a[1..], b[1..]);
      assert a == [a[0]] + a[1..] && b == [b[0]] + b[1..];
    }
  }

  // ----- Ranking five cards -----

  datatype Category = HighCard | Pair | TwoPair | ThreeKind | Straight | Flush | FullHouse | FourKind | StraightFlush

  datatype Ranked = Ranked(category: Category, score: seq<int>)

  function Values(cards: seq<Card>): (r: seq<int>)
    ensures |r| == |cards|
  {
    seq(|cards|, i requires 0 <= i < |cards| => cards[i].rank)
  }

  predicate SameSuit(cards: seq<Card>)
  {
    forall i :: 0 <= i < |cards| ==> cards[i].suit == cards[0].suit
  }

  /** How often `v` occurs. */
  function Occurrences(vals: seq<int>, v: int): nat
  {
    if |vals| == 0 then 0 else Occurrences(vals[..|vals| - 1], v) + if vals[|vals| - 1] == v then 1 else 0
  }

  /** The distinct values of a list, in order of first appearance. */
  function Distinct(vals: seq<int>): (r: seq<int>)
  {
    if |vals| == 0 then []
    else
      var front := Distinct(vals[..|vals| - 1]);
      if vals[|vals| - 1] in front then front else front + [vals[|vals| - 1]]
  }

  /** Whether `v` sorts before `w`: more copies first, then the higher value. */
  predicate CountsBefore(vals: seq<int>, v: int, w: int)
  {
    || Occurrences(vals, v) > Occurrences(vals, w)
    || (Occurrences(vals, v) == Occurrences(vals, w) && v > w)
  }

  function InsertByCount(vals: seq<int>, s: seq<int>, v: int): (r: seq<int>)
    ensures |r| == |s| + 1
  {
    if |s| == 0 || CountsBefore(vals, v, s[0]) then [v] + s
    else [s[0]] + InsertByCount(vals, s[1..], v)
  }

  function SortByCount(vals: seq<int>, s: seq<int>): (r: seq<int>)
    ensures |r| == |s|
  {
    if |s| == 0 then [] else InsertByCount(vals, SortByCount(vals, s[1..]), s[0])
  }

  /** The values that occur exactly `k` times, in the order of `s`. */
  function WithCount(vals: seq<int>, s: seq<int>, k: nat): seq<int>
  {
    if |s| == 0 then []
    else (if Occurrences(vals, s[0]) == k then [s[0]] else []) + WithCount(vals, s[1..], k)
  }

  /** First window of five descending distinct values spanning four, from window `i` on. */
  function StraightDown(uniq: seq<int>, i: nat): (r: Option<int>)
    decreases |uniq| - i
  {
    if i + 5 > |uniq| then None
    else if uniq[i] - uniq[i + 4] == 4 && |Distinct(uniq[i..i + 5])| == 5 then
      Some(if uniq[i] == 14 && uniq[i + 4] == 1 then 5 else uniq[i])
    else StraightDown(uniq, i + 1)
  }

  /** First window of five consecutive ascending values, from window `i` on. */
  function StraightUp(asc: seq<int>, i: nat): (r: Option<int>)
    decreases |asc| - i
  {
    if i + 5 > |asc| then None
    else if asc[i + 1] == asc[i] + 1 && asc[i + 2] == asc[i] + 2 && asc[i + 3] == asc[i] + 3
      && asc[i + 4] == asc[i] + 4 then
      Some(if asc[i + 4] == 14 && asc[i] == 10 then 14 else asc[i + 4])
    else StraightUp(asc, i + 1)
  }

  function Reverse(s: seq<int>): seq<int>
  {
    if |s| == 0 then [] else Reverse(s[1..]) + [s[0]]
  }

  function IsStraight(vals: seq<int>): Option<int>
  {
    var uniq := SortDesc(Distinct(vals));
    var down := StraightDown(if 14 in uniq then uniq + [1] else uniq, 0);
    if down.Some? then down
    else
      var asc := Reverse(uniq);
      StraightUp(if 14 in asc then [1] + asc else asc, 0)
  }

  /** Ranking, given the sorted values and whether all suits match. */
  function RankSorted(vals: seq<int>, flush: bool): Ranked
  {
    var byCount := SortByCount(vals, Distinct(vals));
    var value0, value1 := Digit(byCount, 0), Digit(byCount, 1);
    var count0, count1 := Occurrences(vals, value0), Occurrences(vals, value1);
    var singles := WithCount(vals, byCount, 1);
    var straight := IsStraight(vals);
    if flush && straight.Some? then Ranked(StraightFlush, [8, straight.value])
    else if count0 == 4 then Ranked(FourKind, [7, value0] + singles)
    else if count0 == 3 && count1 == 2 then Ranked(FullHouse, [6, value0, value1])
    else if flush then Ranked(Flush, [5] + vals)
    else if straight.Some? then Ranked(Straight, [4, straight.value])
    else if count0 == 3 then Ranked(ThreeKind, [3, value0] + singles)
    else if count0 == 2 && count1 == 2 then
      Ranked(TwoPair, [2, Max(value0, value1), Min(value0, value1)] + singles)
    else if count0 == 2 then Ranked(Pair, [1, value0] + singles)
    else Ranked(HighCard, [0] + vals)
  }

  function RankFive(cards: seq<Card>): Ranked
    requires |cards| == 5
  {
    RankSorted(SortDesc(Values(cards)), SameSuit(cards))
  }

  // ----- combinations and bestHand -----

  function Prepend<T>(x: T, lists: seq<seq<T>>): (r: seq<seq<T>>)
    ensures |r| == |lists|
    ensures forall i :: 0 <= i < |lists| ==> r[i] == [x] + lists[i]
  {
    seq(|lists|, i requires 0 <= i < |lists| => [x] + lists[i])
  }

  function Combinations<T>(arr: seq<T>, k: nat): (r: seq<seq<T>>)
    ensures forall i :: 0 <= i < |r| ==> |r[i]| == k
  {
    if k == 0 then [[]]
    else if |arr| < k then []
    else Prepend(arr[0], Combinations(arr[1..], k - 1)) + Combinations(arr[1..], k)
  }

  /** Every combination is a sub-multiset of the list ... */
  lemma {:induction false} CombinationsWithin<T>(arr: seq<T>, k: nat, i: nat)
    requires i < |Combinations(arr, k)|
    ensures multiset(Combinations(arr, k)[i]) <= multiset(arr)
    decreases |arr|, 1
  {
    if k > 0 {
      if i < |Combinations(arr[1..], k - 1)| {
        WithinWithHead(arr, k, i);
      } else {
        WithinWithoutHead(arr, k, i);
      }
    }
  }

  lemma {:induction false} WithinWithHead<T>(arr: seq<T>, k: nat, i: nat)
    requires 0 < k <= |arr| && i < |Combinations(arr[1..], k - 1)|
    ensures i < |Combinations(arr, k)| && multiset(Combinations(arr, k)[i]) <= multiset(arr)
    decreases |arr|, 0
  {
    CombinationsWithin(arr[1..], k - 1, i);
    ConsWithin(arr, Combinations(arr[1..], k - 1)[i]);
    CombinationAt(arr, k, i);
  }

  lemma {:induction false} WithinWithoutHead<T>(arr: seq<T>, k: nat, i: nat)
    requires 0 < k <= |arr| && |Combinations(arr[1..], k - 1)| <= i < |Combinations(arr, k)|
    ensures multiset(Combinations(arr, k)[i]) <= multiset(arr)
    decreases |arr|, 0
  {
    CombinationAt(arr, k, i);
    var j := i - |Combinations(arr[1..], k - 1)|;
    CombinationsWithin(arr[1..], k, j);
    TailWithin(arr, Combinations(arr[1..], k)[j]);
  }

  lemma {:induction false} TailWithin<T>(arr: seq<T>, c: seq<T>)
    requires |arr| > 0 && multiset(c) <= multiset(arr[1..])
    ensures multiset(c) <= multiset(arr)
  {
    Headed(arr);
  }

  lemma {:induction false} ConsWithin<T>(arr: seq<T>, c: seq<T>)
    requires |arr| > 0 && multiset(c) <= multiset(arr[1..])
    ensures multiset([arr[0]] + c) <= multiset(arr)
  {
    Headed(arr);
  }

  lemma {:induction false} SubMultisetSize<T>(m: multiset<T>, n: multiset<T>)
    requires m <= n
    ensures |m| <= |n|
  {
    assert n == m + (n - m);
  }

  lemma {:induction false} WithoutHead<T>(arr: seq<T>, m: multiset<T>)
    requires |arr| > 0 && m <= multiset(arr)
    ensures m - multiset{arr[0]} <= multiset(arr[1..])
    ensures arr[0] !in m ==> m <= multiset(arr[1..])
    ensures arr[0] in m ==> |m - multiset{arr[0]}| == |m| - 1
  {
    Headed(arr);
    assert arr[0] !in m ==> m - multiset{arr[0]} == m;
  }

  lemma {:induction false} ConsContents<T>(x: T, d: seq<T>, m: multiset<T>)
    requires x in m && multiset(d) == m - multiset{x}
    ensures multiset([x] + d) == m
  {
  }

  /** ... and every sub-multiset of the right size is the contents of one. */
  lemma {:induction false} CombinationsComplete<T>(arr: seq<T>, k: nat, m: multiset<T>) returns (i: nat)
    requires m <= multiset(arr) && |m| == k
    ensures i < |Combinations(arr, k)| && multiset(Combinations(arr, k)[i]) == m
    decreases |arr|, 1
  {
    SubMultisetSize(m, multiset(arr));
    if k == 0 {
      i := 0;
    } else if arr[0] in m {
      i := CompleteWithHead(arr, k, m);
    } else {
      i := CompleteWithoutHead(arr, k, m);
    }
  }

  lemma {:induction false} CompleteWithHead<T>(arr: seq<T>, k: nat, m: multiset<T>) returns (i: nat)
    requires 0 < k <= |arr| && m <= multiset(arr) && |m| == k && arr[0] in m
    ensures i < |Combinations(arr, k)| && multiset(Combinations(arr, k)[i]) == m
    decreases |arr|, 0
  {
    WithoutHead(arr, m);
    i := CombinationsComplete(arr[1..], k - 1, m - multiset{arr[0]});
    HeadJoins(arr, k, m, i);
  }

  lemma {:induction false} HeadJoins<T>(arr: seq<T>, k: nat, m: multiset<T>, i: nat)
    requires 0 < k <= |arr| && arr[0] in m
    requires i < |Combinations(arr[1..], k - 1)|
    requires multiset(Combinations(arr[1..], k - 1)[i]) == m - multiset{arr[0]}
    ensures i < |Combinations(arr, k)| && multiset(Combinations(arr, k)[i]) == m
  {
    CombinationAt(arr, k, i);
    ConsContents(arr[0], Combinations(arr[1..], k - 1)[i], m);
  }

  lemma {:induction false} CompleteWithoutHead<T>(arr: seq<T>, k: nat, m: multiset<T>) returns (i: nat)
    requires 0 < k <= |arr| && m <= multiset(arr) && |m| == k && arr[0] !in m
    ensures i < |Combinations(arr, k)| && multiset(Combinations(arr, k)[i]) == m
    decreases |arr|, 0
  {
    WithoutHead(arr, m);
    var j := CombinationsComplete(arr[1..], k, m);
    i := TailJoins(arr, k, j);
  }

  lemma {:induction false} TailJoins<T>(arr: seq<T>, k: nat, j: nat) returns (i: nat)
    requires 0 < k <= |arr| && j < |Combinations(arr[1..], k)|
    ensures i < |Combinations(arr, k)| && Combinations(arr, k)[i] == Combinations(arr[1..], k)[j]
  {
    i := |Combinations(arr[1..], k - 1)| + j;
    CombinationAt(arr, k, i);
  }

  lemma {:induction false} CombinationAt<T>(arr: seq<T>, k: nat, i: nat)
    requires 0 < k <= |arr|
    ensures var with, without := Combinations(arr[1..], k - 1), Combinations(arr[1..], k);
            && |Combinations(arr, k)| == |with| + |without|
            && (i < |with| ==> Combinations(arr, k)[i] == [arr[0]] + with[i])
            && (|with| <= i < |with| + |without| ==> Combinations(arr, k)[i] == without[i - |with|])
  {
  }

  lemma {:induction false} CombinationsNonEmpty<T>(arr: seq<T>, k: nat)
    requires |arr| >= k
    ensures |Combinations(arr, k)| > 0
  {
    if k > 0 {
      CombinationsNonEmpty(arr[1..], k - 1);
    }
  }

  function RankAll(hands: seq<seq<Card>>): (r: seq<Ranked>)
    requires forall i :: 0 <= i < |hands| ==> |hands[i]| == 5
    ensures |r| == |hands|
    ensures forall i :: 0 <= i < |hands| ==> r[i] == RankFive(hands[i])
  {
    seq(|hands|, i requires 0 <= i < |hands| => RankFive(hands[i]))
  }

  /** The first of the top-scoring hands among the first `n`. */
  function BestOf(hands: seq<Ranked>, n: nat): (r: Ranked)
    requires 0 < n <= |hands|
  {
    if n == 1 then hands[0]
    else
      var best := BestOf(hands, n - 1);
      if Compare(hands[n - 1].score, best.score) > 0 then hands[n - 1] else best
  }

  lemma {:induction false} BestOfIsMaximal(hands: seq<Ranked>, n: nat)
    requires 0 < n <= |hands|
    ensures BestOf(hands, n) in hands
    ensures forall i :: 0 <= i < n ==> Compare(BestOf(hands, n).score, hands[i].score) >= 0
  {
    var last, best := hands[n - 1], BestOf(hands, n);
    CompareIsTotalPreorder(best.score, last.score, last.score);
    if n > 1 {
      var prev := BestOf(hands, n - 1);
      BestOfIsMaximal(hands, n - 1);
      CompareIsTotalPreorder(last.score, prev.score, prev.score);
      CompareIsTotalPreorder(prev.score, prev.score, prev.score);
      forall i | 0 <= i < n - 1
        ensures Compare(best.score, hands[i].score) >= 0
      {
        CompareIsTotalPreorder(best.score, prev.score, hands[i].score);
      }
    }
  }

  function Padding(c: Card, n: nat): (r: seq<Card>)
    ensures |r| == n
  {
    seq(n, _ => c)
  }

  function BestOfCards(all: seq<Card>): Ranked
    requires |all| >= 1
  {
    if |all| < 5 then RankFive(all + Padding(all[0], 5 - |all|))
    else
      CombinationsNonEmpty(all, 5);
      var hands := RankAll(Combinations(all, 5));
      BestOf(hands, |hands|)
  }

  function BestHand(hole: seq<Card>, board: seq<Card>): Ranked
    requires |hole| + |board| >= 1
  {
    BestOfCards(hole + board)
  }

  method FindBest(hands: seq<Ranked>) returns (r: Ranked)
    requires |hands| > 0
    ensures r == BestOf(hands, |hands|)
  {
    var best: Option<Ranked> := None;
    for i := 0 to |hands|
      invariant best == if i == 0 then None else Some(BestOf(hands, i))
    {
      if best.None? || Compare(hands[i].score, best.value.score) > 0 {
        best := Some(hands[i]);
      }
    }
    return best.value;
  }

  // ----- Order does not matter -----

  lemma {:induction false} Without<T>(b: seq<T>, j: nat)
    requires j < |b|
    ensures multiset(b[..j] + b[j + 1..]) == multiset(b) - multiset{b[j]}
  {
    assert b == b[..j] + [b[j]] + b[j + 1..];
  }

  lemma {:induction false} SameWithout<T>(a: seq<T>, i: nat, b: seq<T>, j: nat)
    requires i < |a| && j < |b| && a[i] == b[j] && multiset(a) == multiset(b)
    ensures multiset(a[..i] + a[i + 1..]) == multiset(b[..j] + b[j + 1..])
  {
    Without(a, i);
    Without(b, j);
  }

  lemma {:induction false} ValuesWithout(b: seq<Card>, j: nat)
    requires j < |b|
    ensures multiset(Values(b)) == multiset{b[j].rank as int} + multiset(Values(b[..j] + b[j + 1..]))
  {
    var v := Values(b);
    Without(v, j);
    assert Values(b[..j] + b[j + 1..]) == v[..j] + v[j + 1..];
    assert v[j] in multiset(v);
  }

  lemma {:induction false} ValuesOfPermutation(a: seq<Card>, b: seq<Card>)
    requires multiset(a) == multiset(b)
    ensures multiset(Values(a)) == multiset(Values(b))
  {
    if |a| == 0 {
      assert |multiset(b)| == 0;
    } else {
      assert a[0] in multiset(b);
      var j :| 0 <= j < |b| && b[j] == a[0];
      SameWithout(a, 0, b, j);
      ValuesOfPermutation(a[..0] + a[1..], b[..j] + b[j + 1..]);
      ValuesWithout(a, 0);
      ValuesWithout(b, j);
    }
  }

  lemma {:induction false} SameSuitOfPermutation(a: seq<Card>, b: seq<Card>)
    requires |a| > 0 && |b| > 0 && multiset(a) == multiset(b) && SameSuit(a)
    ensures SameSuit(b)
  {
    forall i | 0 <= i < |b|
      ensures b[i].suit == a[0].suit
    {
      assert b[i] in multiset(a);
      assert b[i] in a;
    }
  }

  lemma {:induction false} RankFiveIgnoresOrder(a: seq<Card>, b: seq<Card>)
    requires |a| == 5 && |b| == 5 && multiset(a) == multiset(b)
    ensures RankFive(a) == RankFive(b)
  {
    ValuesOfPermutation(a, b);
    SortDescContents(Values(a));
    SortDescContents(Values(b));
    SortedUnique(SortDesc(Values(a)), SortDesc(Values(b)));
    if SameSuit(a) {
      SameSuitOfPermutation(a, b);
    } else if SameSuit(b) {
      SameSuitOfPermutation(b, a);
    }
  }

  ghost predicate FiveOf(f: seq<Card>, all: seq<Card>)
  {
    |f| == 5 && multiset(f) <= multiset(all)
  }

  lemma {:induction false} BestHandAttained(all: seq<Card>) returns (f: seq<Card>)
    requires |all| >= 5
    ensures FiveOf(f, all) && BestOfCards(all) == RankFive(f)
  {
    var combos := Combinations(all, 5);
    CombinationsNonEmpty(all, 5);
    var hands := RankAll(combos);
    BestOfIsMaximal(hands, |hands|);
    var i :| 0 <= i < |hands| && hands[i] == BestOf(hands, |hands|);
    f := combos[i];
    CombinationsWithin(all, 5, i);
  }

  lemma {:induction false} BestHandUnbeaten(all: seq<Card>, f: seq<Card>)
    requires |all| >= 5 && FiveOf(f, all)
    ensures Compare(BestOfCards(all).score, RankFive(f).score) >= 0
  {
    var combos := Combinations(all, 5);
    CombinationsNonEmpty(all, 5);
    var hands := RankAll(combos);
    BestOfIsMaximal(hands, |hands|);
    var k := CombinationsComplete(all, 5, multiset(f));
    RankFiveIgnoresOrder(f, combos[k]);
    assert hands[k] == RankFive(f);
  }

  /** The best hand is one of the five-card hands, and no five-card hand beats it. */
  lemma {:induction false} BestHandIsBest(all: seq<Card>)
    requires |all| >= 5
    ensures exists f :: FiveOf(f, all) && BestOfCards(all) == RankFive(f)
    ensures forall f :: FiveOf(f, all) ==> Compare(BestOfCards(all).score, RankFive(f).score) >= 0
  {
    var f := BestHandAttained(all);
    forall f | FiveOf(f, all)
      ensures Compare(BestOfCards(all).score, RankFive(f).score) >= 0
    {
      BestHandUnbeaten(all, f);
    }
  }

  /** Adding cards never makes the best hand worse. */
  lemma {:induction false} BestHandGrows(few: seq<Card>, many: seq<Card>)
    requires |few| >= 5 && |many| >= 5 && multiset(few) <= multiset(many)
    ensures Compare(BestOfCards(many).score, BestOfCards(few).score) >= 0
  {
    var f := BestHandAttained(few);
    BestHandUnbeaten(many, f);
  }

  /** With fewer than five cards the first one fills up the hand. */
  lemma {:induction false} FewCardsAreFilledUp(hole: seq<Card>, board: seq<Card>, f: seq<Card>)
    requires 1 <= |hole| + |board| < 5 && |f| == 5 && hole + board <= f
    requires forall i :: |hole| + |board| <= i < 5 ==> f[i] == (hole + board)[0]
    ensures BestHand(hole, board) == RankFive(f)
  {
    var all := hole + board;
    assert f == all + Padding(all[0], 5 - |all|);
  }
}
