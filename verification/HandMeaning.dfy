/** What `rankFive` (packages/game-rules/src/hand-rank.ts) ranks: a textbook reading of five sorted values,
    which the counting and window search of the source are held to. */
module HandMeaning {
  import opened Prelude
  import opened Cards
  import opened HandRank

  // ----- The textbook ranking -----

  /** Highest card of the straight, the ace counting low in five-high. */
  function TextbookStraight(a: int, b: int, c: int, d: int, e: int): Option<int>
  {
    if a == b + 1 && b == c + 1 && c == d + 1 && d == e + 1 then Some(a)
    else if a == 14 && b == 5 && c == 4 && d == 3 && e == 2 then Some(5)
    else None
  }

  /** Five values, highest first. Five equal values, which no deck holds, rank as nothing in particular. */
  function Textbook(a: int, b: int, c: int, d: int, e: int, flush: bool): Ranked
  {
    var straight := TextbookStraight(a, b, c, d, e);
    if flush && straight.Some? then Ranked(StraightFlush, [8, straight.value])
    else if a == d != e then Ranked(FourKind, [7, a, e])
    else if a != b == e then Ranked(FourKind, [7, b, a])
    else if a == c != d == e then Ranked(FullHouse, [6, a, d])
    else if a == b != c == e then Ranked(FullHouse, [6, c, a])
    else if flush then Ranked(Flush, [5, a, b, c, d, e])
    else if straight.Some? then Ranked(Straight, [4, straight.value])
    else if a == e then Ranked(HighCard, [0, a, b, c, d, e])
    else if a == c then Ranked(ThreeKind, [3, a, d, e])
    else if b == d then Ranked(ThreeKind, [3, b, a, e])
    else if c == e then Ranked(ThreeKind, [3, c, a, b])
    else if a == b && c == d then Ranked(TwoPair, [2, a, c, e])
    else if a == b && d == e then Ranked(TwoPair, [2, a, d, c])
    else if b == c && d == e then Ranked(TwoPair, [2, b, d, a])
    else if a == b then Ranked(Pair, [1, a, c, d, e])
    else if b == c then Ranked(Pair, [1, b, a, d, e])
    else if c == d then Ranked(Pair, [1, c, a, b, e])
    else if d == e then Ranked(Pair, [1, d, a, b, c])
    else Ranked(HighCard, [0, a, b, c, d, e])
  }

  // ----- Distinct values and their counts -----

  lemma {:induction false} DistinctAppend(s: seq<int>, x: int)
    ensures Distinct(s + [x]) == if x in Distinct(s) then Distinct(s) else Distinct(s) + [x]
  {
    assert (s + [x])[..|s|] == s;
  }

  /** `d` lists the distinct values of a descending list ending in `y`. */
  ghost predicate EndsIn(d: seq<int>, y: int)
  {
    |d| > 0 && d[|d| - 1] == y && forall i :: 0 <= i < |d| ==> d[i] >= y
  }

  lemma {:induction false} NextValue(s: seq<int>, d: seq<int>, y: int, x: int)
    requires d == Distinct(s) && EndsIn(d, y) && x <= y
    ensures Distinct(s + [x]) == (if x == y then d else d + [x]) && EndsIn(Distinct(s + [x]), x)
  {
    DistinctAppend(s, x);
    if x == y {
      assert d[|d| - 1] == x;
    }
  }

  function Unless(same: bool, x: int): seq<int>
  {
    if same then [] else [x]
  }

  lemma {:induction false} DistinctOfTwo(a: int, b: int)
    requires a >= b
    ensures Distinct([a, b]) == [a] + Unless(a == b, b) && EndsIn(Distinct([a, b]), b)
  {
    DistinctOfOne(a);
    NextValue([a], [a], a, b);
    assert [a] + [b] == [a, b];
  }

  lemma {:induction false} DistinctOfOne(a: int)
    ensures Distinct([a]) == [a] && EndsIn([a], a)
  {
    assert [a][..0] == [];
  }

  lemma {:induction false} DistinctOfThree(a: int, b: int, c: int)
    requires a >= b >= c
    ensures Distinct([a, b, c]) == [a] + Unless(a == b, b) + Unless(b == c, c) && EndsIn(Distinct([a, b, c]), c)
  {
    DistinctOfTwo(a, b);
    NextValue([a, b], Distinct([a, b]), b, c);
    assert [a, b] + [c] == [a, b, c];
  }

  lemma {:induction false} DistinctOfFour(a: int, b: int, c: int, d: int)
    requires a >= b >= c >= d
    ensures Distinct([a, b, c, d]) == [a] + Unless(a == b, b) + Unless(b == c, c) + Unless(c == d, d)
    ensures EndsIn(Distinct([a, b, c, d]), d)
  {
    DistinctOfThree(a, b, c);
    NextValue([a, b, c], Distinct([a, b, c]), c, d);
    assert [a, b, c] + [d] == [a, b, c, d];
  }

  lemma {:induction false} DistinctOfFive(a: int, b: int, c: int, d: int, e: int)
    requires a >= b >= c >= d >= e
    ensures Distinct([a, b, c, d, e])
            == [a] + Unless(a == b, b) + Unless(b == c, c) + Unless(c == d, d) + Unless(d == e, e)
  {
    DistinctOfFour(a, b, c, d);
    NextValue([a, b, c, d], Distinct([a, b, c, d]), d, e);
    assert [a, b, c, d] + [e] == [a, b, c, d, e];
  }

  function One(same: bool): nat
  {
    if same then 1 else 0
  }

  lemma {:induction false} CountAppend(s: seq<int>, x: int, v: int)
    ensures Occurrences(s + [x], v) == Occurrences(s, v) + One(x == v)
  {
    assert (s + [x])[..|s|] == s;
  }

  lemma {:induction false} CountOfThree(a: int, b: int, c: int, v: int)
    ensures Occurrences([a, b, c], v) == One(a == v) + One(b == v) + One(c == v)
  {
    CountAppend([], a, v);
    assert [] + [a] == [a];
    CountAppend([a], b, v);
    assert [a] + [b] == [a, b];
    CountAppend([a, b], c, v);
    assert [a, b] + [c] == [a, b, c];
  }

  lemma {:induction false} CountOfFive(a: int, b: int, c: int, d: int, e: int, v: int)
    ensures Occurrences([a, b, c, d, e], v) == One(a == v) + One(b == v) + One(c == v) + One(d == v) + One(e == v)
  {
    CountOfThree(a, b, c, v);
    CountAppend([a, b, c], d, v);
    assert [a, b, c] + [d] == [a, b, c, d];
    CountAppend([a, b, c, d], e, v);
    assert [a, b, c, d] + [e] == [a, b, c, d, e];
  }

  // ----- Sorting by count -----

  ghost predicate Falling(s: seq<int>)
  {
    forall i, j :: 0 <= i < j < |s| ==> s[i] > s[j]
  }

  /** All of `s` occur `m` times. */
  ghost predicate AllCount(vals: seq<int>, s: seq<int>, m: nat)
  {
    forall i :: 0 <= i < |s| ==> Occurrences(vals, s[i]) == m
  }

  lemma {:induction false} SortEqual(vals: seq<int>, s: seq<int>, m: nat)
    requires Falling(s) && AllCount(vals, s, m)
    ensures SortByCount(vals, s) == s
  {
    if |s| > 0 {
      SortEqual(vals, s[1..], m);
      assert s == [s[0]] + s[1..];
    }
  }

  /** A value with more copies than the others, which have equally many, comes first. */
  lemma {:induction false} SortOneUp(vals: seq<int>, x: seq<int>, v: int, y: seq<int>, m: nat)
    requires Falling(x + [v] + y) && AllCount(vals, x, m) && AllCount(vals, y, m) && Occurrences(vals, v) > m
    ensures SortByCount(vals, x + [v] + y) == [v] + x + y
  {
    var s := x + [v] + y;
    if |x| == 0 {
      assert s == [v] + y && s[1..] == y;
      TailFalls(s);
      SortEqual(vals, y, m);
      InsertFirst(vals, y, v);
    } else {
      TailFalls(s);
      assert s[1..] == x[1..] + [v] + y;
      SortOneUp(vals, x[1..], v, y, m);
      assert [v] + x[1..] + y == [v] + (x[1..] + y);
      InsertSecond(vals, v, x[1..] + y, x[0]);
      assert x == [x[0]] + x[1..];
      assert [v, x[0]] + (x[1..] + y) == [v] + x + y;
      assert s[0] == x[0];
    }
  }

  /** A value with fewer copies than the others comes last. */
  lemma {:induction false} SortOneDown(vals: seq<int>, x: seq<int>, v: int, y: seq<int>, m: nat)
    requires Falling(x + [v] + y) && AllCount(vals, x, m) && AllCount(vals, y, m) && Occurrences(vals, v) < m
    ensures SortByCount(vals, x + [v] + y) == x + y + [v]
  {
    var s := x + [v] + y;
    TailFalls(s);
    if |x| == 0 {
      assert s == [v] + y && s[1..] == y;
      SortEqual(vals, y, m);
      InsertLast(vals, y, v);
      assert x + y + [v] == y + [v];
    } else {
      assert s[1..] == x[1..] + [v] + y && s[0] == x[0];
      SortOneDown(vals, x[1..], v, y, m);
      LeadsRest(vals, x, v, y, m);
    }
  }

  lemma {:induction false} LeadsRest(vals: seq<int>, x: seq<int>, v: int, y: seq<int>, m: nat)
    requires Falling(x + [v] + y) && AllCount(vals, x, m) && AllCount(vals, y, m) && Occurrences(vals, v) < m && |x| > 0
    ensures InsertByCount(vals, x[1..] + y + [v], x[0]) == x + y + [v]
  {
    var s, rest := x + [v] + y, x[1..] + y + [v];
    assert s[0] == x[0];
    if |x| > 1 {
      assert rest[0] == x[1] == s[1];
    } else if |y| > 0 {
      assert rest[0] == y[0] == s[2];
    } else {
      assert rest[0] == v;
    }
    InsertFirst(vals, rest, x[0]);
    assert [x[0]] + rest == x + y + [v];
  }

  lemma {:induction false} InsertLast(vals: seq<int>, s: seq<int>, v: int)
    requires forall i :: 0 <= i < |s| ==> !CountsBefore(vals, v, s[i])
    ensures InsertByCount(vals, s, v) == s + [v]
  {
    if |s| > 0 {
      InsertLast(vals, s[1..], v);
      assert s + [v] == [s[0]] + (s[1..] + [v]);
    }
  }

  lemma {:induction false} TailFalls(s: seq<int>)
    requires Falling(s) && |s| > 0
    ensures Falling(s[1..]) && forall i :: 0 <= i < |s| - 1 ==> s[0] > s[1..][i]
  {
  }

  lemma {:induction false} InsertFirst(vals: seq<int>, s: seq<int>, v: int)
    requires |s| > 0 ==> CountsBefore(vals, v, s[0])
    ensures InsertByCount(vals, s, v) == [v] + s
  {
  }

  lemma {:induction false} InsertSecond(vals: seq<int>, first: int, s: seq<int>, v: int)
    requires !CountsBefore(vals, v, first) && (|s| > 0 ==> CountsBefore(vals, v, s[0]))
    ensures InsertByCount(vals, [first] + s, v) == [first, v] + s
  {
    assert ([first] + s)[1..] == s;
    InsertFirst(vals, s, v);
  }

  lemma {:induction false} SinglesAppend(vals: seq<int>, s: seq<int>, t: seq<int>, k: nat)
    ensures WithCount(vals, s + t, k) == WithCount(vals, s, k) + WithCount(vals, t, k)
  {
    if |s| == 0 {
      assert s + t == t;
    } else {
      var st, rest := s + t, s[1..];
      assert st[1..] == rest + t && st[0] == s[0];
      SinglesAppend(vals, rest, t, k);
      SinglesFirst(vals, s, k);
      SinglesFirst(vals, st, k);
      Regroup(Unless(Occurrences(vals, s[0]) != k, s[0]), WithCount(vals, rest, k), WithCount(vals, t, k));
    }
  }

  lemma {:induction false} Regroup(a: seq<int>, b: seq<int>, c: seq<int>)
    ensures a + (b + c) == a + b + c
  {
  }

  lemma {:induction false} SinglesFirst(vals: seq<int>, s: seq<int>, k: nat)
    requires |s| > 0
    ensures WithCount(vals, s, k) == Unless(Occurrences(vals, s[0]) != k, s[0]) + WithCount(vals, s[1..], k)
  {
  }

  lemma {:induction false} SinglesAll(vals: seq<int>, s: seq<int>, m: nat, k: nat)
    requires AllCount(vals, s, m)
    ensures WithCount(vals, s, k) == if m == k then s else []
  {
    if |s| > 0 {
      SinglesAll(vals, s[1..], m, k);
      assert s == [s[0]] + s[1..];
    }
  }

  // ----- Straights -----

  lemma {:induction false} SortDescStays(s: seq<int>)
    requires Descending(s)
    ensures SortDesc(s) == s
  {
    SortDescContents(s);
    SortedUnique(SortDesc(s), s);
  }

  lemma {:induction false} ReverseAt(s: seq<int>, i: nat)
    requires i < |s|
    ensures |Reverse(s)| == |s| && Reverse(s)[i] == s[|s| - 1 - i]
  {
    ReverseSize(s);
    ReverseSize(s[1..]);
    if i < |s| - 1 {
      ReverseAt(s[1..], i);
    }
  }

  lemma {:induction false} ReverseSize(s: seq<int>)
    ensures |Reverse(s)| == |s|
  {
    if |s| > 0 {
      ReverseSize(s[1..]);
    }
  }

  /** Descending and ascending lists the two searches look through. */
  function LowAceDown(uniq: seq<int>): seq<int>
  {
    if 14 in uniq then uniq + [1] else uniq
  }

  function LowAceUp(asc: seq<int>): seq<int>
  {
    if 14 in asc then [1] + asc else asc
  }

  lemma {:induction false} NoWindowDown(u: seq<int>, i: nat)
    requires forall j :: i <= j && j + 5 <= |u| ==> u[j] - u[j + 4] != 4
    ensures StraightDown(u, i) == None
    decreases |u| - i
  {
    if i + 5 <= |u| {
      assert u[i] - u[i + 4] != 4;
      NoWindowDown(u, i + 1);
    }
  }

  lemma {:induction false} NoWindowUp(u: seq<int>, i: nat)
    requires forall j :: i <= j && j + 5 <= |u| ==> u[j + 4] != u[j] + 4
    ensures StraightUp(u, i) == None
    decreases |u| - i
  {
    if i + 5 <= |u| {
      assert u[i + 4] != u[i] + 4;
      NoWindowUp(u, i + 1);
    }
  }

  lemma {:induction false} FewValuesNoStraight(uniq: seq<int>)
    requires Falling(uniq) && |uniq| <= 4 && forall i :: 0 <= i < |uniq| ==> 2 <= uniq[i] <= 14
    ensures StraightDown(LowAceDown(uniq), 0) == None && StraightUp(LowAceUp(Reverse(uniq)), 0) == None
  {
    var asc := Reverse(uniq);
    ReverseSize(uniq);
    if |uniq| == 4 {
      ReverseAt(uniq, 3);
    }
    NoWindowDown(LowAceDown(uniq), 0);
    if 14 in asc && |uniq| == 4 {
      AceIsTop(uniq);
    }
    NoWindowUp(LowAceUp(asc), 0);
  }

  lemma {:induction false} AceIsTop(uniq: seq<int>)
    requires Falling(uniq) && |uniq| > 0 && 14 in Reverse(uniq) && forall i :: 0 <= i < |uniq| ==> 2 <= uniq[i] <= 14
    ensures uniq[0] == 14 && 14 in uniq
  {
    ReverseSize(uniq);
    var i :| 0 <= i < |Reverse(uniq)| && Reverse(uniq)[i] == 14;
    ReverseAt(uniq, i);
  }

  lemma {:induction false} ReverseOfFive(a: int, b: int, c: int, d: int, e: int)
    ensures Reverse([a, b, c, d, e]) == [e, d, c, b, a]
  {
    var s := [a, b, c, d, e];
    ReverseAt(s, 0);
    ReverseAt(s, 1);
    ReverseAt(s, 2);
    ReverseAt(s, 3);
    ReverseAt(s, 4);
  }

  lemma {:induction false} FiveValuesStraight(a: int, b: int, c: int, d: int, e: int)
    requires 14 >= a > b > c > d > e >= 2
    ensures var uniq := [a, b, c, d, e]; var down := StraightDown(LowAceDown(uniq), 0);
            (if down.Some? then down else StraightUp(LowAceUp(Reverse(uniq)), 0)) == TextbookStraight(a, b, c, d, e)
  {
    var uniq := [a, b, c, d, e];
    var u := LowAceDown(uniq);
    ReverseOfFive(a, b, c, d, e);
    if a - e == 4 {
      FirstWindow(u, a, b, c, d, e);
    } else if a == 14 && b == 5 {
      assert u == [14, 5, 4, 3, 2, 1];
      WheelWindow();
    } else {
      NoWindowDown(u, 0);
      NoWindowUp(LowAceUp(Reverse(uniq)), 0);
    }
  }

  lemma {:induction false} FirstWindow(u: seq<int>, a: int, b: int, c: int, d: int, e: int)
    requires |u| >= 5 && u[..5] == [a, b, c, d, e] && a > b > c > d > e >= 2 && a - e == 4
    ensures StraightDown(u, 0) == Some(a)
  {
    DistinctOfFive(a, b, c, d, e);
    assert u[0..5] == [a, b, c, d, e];
  }

  lemma {:induction false} WheelWindow()
    ensures StraightDown([14, 5, 4, 3, 2, 1], 0) == Some(5)
  {
    var u := [14, 5, 4, 3, 2, 1];
    DistinctOfFive(5, 4, 3, 2, 1);
    assert u[1..6] == [5, 4, 3, 2, 1];
    assert StraightDown(u, 1) == Some(5);
  }

  lemma {:induction false} SearchUnfolds(vals: seq<int>, uniq: seq<int>)
    requires Distinct(vals) == uniq && Falling(uniq)
    ensures var down := StraightDown(LowAceDown(uniq), 0);
            IsStraight(vals) == if down.Some? then down else StraightUp(LowAceUp(Reverse(uniq)), 0)
  {
    SortDescStays(uniq);
  }

  lemma {:induction false} StraightOfFive(a: int, b: int, c: int, d: int, e: int)
    requires 14 >= a >= b >= c >= d >= e >= 2
    ensures IsStraight([a, b, c, d, e]) == TextbookStraight(a, b, c, d, e)
  {
    DistinctOfFive(a, b, c, d, e);
    UniqFalls(a, b, c, d, e);
    StraightByValues(a, b, c, d, e, Distinct([a, b, c, d, e]));
  }

  lemma {:induction false} StraightByValues(a: int, b: int, c: int, d: int, e: int, uniq: seq<int>)
    requires 14 >= a >= b >= c >= d >= e >= 2
    requires Distinct([a, b, c, d, e]) == uniq && Falling(uniq) && |uniq| <= 5
    requires forall i :: 0 <= i < |uniq| ==> 2 <= uniq[i] <= 14
    requires if |uniq| == 5 then uniq == [a, b, c, d, e] else a == b || b == c || c == d || d == e
    ensures IsStraight([a, b, c, d, e]) == TextbookStraight(a, b, c, d, e)
  {
    SearchUnfolds([a, b, c, d, e], uniq);
    if |uniq| == 5 {
      assert a == uniq[0] && b == uniq[1] && c == uniq[2] && d == uniq[3] && e == uniq[4];
      FiveValuesStraight(a, b, c, d, e);
    } else {
      FewValuesNoStraight(uniq);
    }
  }

  lemma {:induction false} UniqFalls(a: int, b: int, c: int, d: int, e: int)
    requires 14 >= a >= b >= c >= d >= e >= 2
    ensures var uniq := [a] + Unless(a == b, b) + Unless(b == c, c) + Unless(c == d, d) + Unless(d == e, e);
            && Falling(uniq) && |uniq| <= 5
            && (if |uniq| == 5 then uniq == [a, b, c, d, e] else a == b || b == c || c == d || d == e)
            && forall i :: 0 <= i < |uniq| ==> 2 <= uniq[i] <= 14
  {
  }

  // ----- The ranking, by how the values repeat -----

  /** Flush and straight decide unless the counts outrank them. */
  function Plain(vals: seq<int>, flush: bool, otherwise: Ranked): Ranked
  {
    var straight := IsStraight(vals);
    if flush && straight.Some? then Ranked(StraightFlush, [8, straight.value])
    else if flush then Ranked(Flush, [5] + vals)
    else if straight.Some? then Ranked(Straight, [4, straight.value])
    else otherwise
  }

  /** `v` is repeated `m` times, the others (`x` above it, `y` below) occur once. */
  ghost predicate OneRepeated(vals: seq<int>, x: seq<int>, v: int, y: seq<int>, m: nat)
  {
    && Distinct(vals) == x + [v] + y && Falling(x + [v] + y) && |x| + |y| > 0
    && AllCount(vals, x, 1) && AllCount(vals, y, 1) && Occurrences(vals, v) == m > 1
  }

  lemma {:induction false} RepeatedShape(vals: seq<int>, x: seq<int>, v: int, y: seq<int>, m: nat)
    requires OneRepeated(vals, x, v, y, m)
    ensures SortByCount(vals, Distinct(vals)) == [v] + (x + y)
    ensures WithCount(vals, [v] + (x + y), 1) == x + y
    ensures Occurrences(vals, (x + y)[0]) == 1
  {
    SortOneUp(vals, x, v, y, 1);
    assert [v] + x + y == [v] + (x + y);
    assert AllCount(vals, x + y, 1);
    assert AllCount(vals, [v], m);
    SinglesAppend(vals, [v], x + y, 1);
    SinglesAll(vals, [v], m, 1);
    SinglesAll(vals, x + y, 1, 1);
  }

  lemma {:induction false} RankRepeated(vals: seq<int>, flush: bool, x: seq<int>, v: int, y: seq<int>, m: nat)
    requires OneRepeated(vals, x, v, y, m) && m <= 4 && IsStraight(vals) == None
    ensures RankSorted(vals, flush)
         == if m == 4 then Ranked(FourKind, [7, v] + (x + y))
            else Plain(vals, flush, if m == 3 then Ranked(ThreeKind, [3, v] + (x + y))
              else Ranked(Pair, [1, v] + (x + y)))
  {
    RepeatedShape(vals, x, v, y, m);
  }

  /** Three of `v`, two of the other value. */
  lemma {:induction false} RankFull(vals: seq<int>, flush: bool, x: seq<int>, v: int, y: seq<int>)
    requires Distinct(vals) == x + [v] + y && Falling(x + [v] + y) && |x| + |y| == 1 && IsStraight(vals) == None
    requires AllCount(vals, x, 2) && AllCount(vals, y, 2) && Occurrences(vals, v) == 3
    ensures RankSorted(vals, flush) == Ranked(FullHouse, [6, v, (x + y)[0]])
  {
    SortOneUp(vals, x, v, y, 2);
    assert [v] + x + y == [v] + (x + y);
  }

  /** Two pairs and `v`. */
  lemma {:induction false} RankTwoPair(vals: seq<int>, flush: bool, x: seq<int>, v: int, y: seq<int>)
    requires Distinct(vals) == x + [v] + y && Falling(x + [v] + y) && |x| + |y| == 2 && IsStraight(vals) == None
    requires AllCount(vals, x, 2) && AllCount(vals, y, 2) && Occurrences(vals, v) == 1
    ensures RankSorted(vals, flush) == Plain(vals, flush, Ranked(TwoPair, [2, (x + y)[0], (x + y)[1], v]))
  {
    SortOneDown(vals, x, v, y, 2);
    TwoPairSingles(vals, x + y, v);
    PairsInOrder(x, v, y);
  }

  lemma {:induction false} PairsInOrder(x: seq<int>, v: int, y: seq<int>)
    requires Falling(x + [v] + y) && |x| + |y| == 2
    ensures (x + y)[0] > (x + y)[1]
  {
    var s := x + [v] + y;
    assert s[0] > s[1] && s[0] > s[2] && s[1] > s[2];
  }

  lemma {:induction false} TwoPairSingles(vals: seq<int>, pairs: seq<int>, v: int)
    requires AllCount(vals, pairs, 2) && Occurrences(vals, v) == 1
    ensures WithCount(vals, pairs + [v], 1) == [v]
  {
    assert AllCount(vals, [v], 1);
    SinglesAppend(vals, pairs, [v], 1);
    SinglesAll(vals, pairs, 2, 1);
    SinglesAll(vals, [v], 1, 1);
  }

  lemma {:induction false} RankDistinct(vals: seq<int>, flush: bool)
    requires |vals| == 5 && Distinct(vals) == vals && Falling(vals) && AllCount(vals, vals, 1)
    ensures RankSorted(vals, flush) == Plain(vals, flush, Ranked(HighCard, [0] + vals))
  {
    SortEqual(vals, vals, 1);
  }

  lemma {:induction false} RankAllSame(vals: seq<int>, flush: bool, v: int)
    requires |vals| == 5 && Distinct(vals) == [v] && Occurrences(vals, v) == 5 && Occurrences(vals, 0) == 0
    requires IsStraight(vals) == None
    ensures RankSorted(vals, flush) == Plain(vals, flush, Ranked(HighCard, [0] + vals))
  {
    assert SortByCount(vals, [v]) == [v];
  }

  // ----- The sixteen ways five sorted values repeat -----

  ghost predicate Sorted5(a: int, b: int, c: int, d: int, e: int)
  {
    14 >= a >= b >= c >= d >= e >= 2
  }

  function CountIn(a: int, b: int, c: int, d: int, e: int, v: int): nat
  {
    One(a == v) + One(b == v) + One(c == v) + One(d == v) + One(e == v)
  }

  /** A value `v` that occurs `n` times, among values above (`x`) and below it (`y`) that occur `m` times each. */
  datatype Shape = Shape(x: seq<int>, v: int, y: seq<int>, n: nat, m: nat)

  /** How five sorted values that are neither all alike nor all different repeat. */
  function ShapeOf(a: int, b: int, c: int, d: int, e: int): Shape
  {
    if a == b == c then
      if c == d then Shape([], a, [e], 4, 1) else if d == e then Shape([], a, [d], 3, 2) else Shape([], a, [d, e], 3, 1)
    else if a == b then
      if c == d == e then Shape([a], c, [], 3, 2)
      else if c == d then Shape([a, c], e, [], 1, 2)
      else if d == e then Shape([a], c, [d], 1, 2)
      else Shape([], a, [c, d, e], 2, 1)
    else if b == c then
      if c == d == e then Shape([a], b, [], 4, 1)
      else if c == d then Shape([a], b, [e], 3, 1)
      else if d == e then Shape([], a, [b, d], 1, 2)
      else Shape([a], b, [d, e], 2, 1)
    else
      if c == d == e then Shape([a, b], c, [], 3, 1)
      else if c == d then Shape([a, b], c, [e], 2, 1)
      else Shape([a, b, c], d, [], 2, 1)
  }

  ghost predicate Mixed(a: int, b: int, c: int, d: int, e: int)
  {
    Sorted5(a, b, c, d, e) && a != e && (a == b || b == c || c == d || d == e)
  }

  ghost predicate Regular(s: Shape)
  {
    if s.m == 1 then 2 <= s.n <= 4 && |s.x| + |s.y| > 0
    else s.m == 2 && (if s.n == 3 then |s.x| + |s.y| == 1 else s.n == 1 && |s.x| + |s.y| == 2)
  }

  lemma {:induction false} ShapeIsRegular(a: int, b: int, c: int, d: int, e: int)
    requires Mixed(a, b, c, d, e)
    ensures Regular(ShapeOf(a, b, c, d, e))
  {
  }

  /** What a shape makes of a hand: such a hand holds no straight. */
  function ByShape(vals: seq<int>, flush: bool, s: Shape): Ranked
    requires Regular(s)
  {
    var rest := s.x + s.y;
    if s.n == 4 then Ranked(FourKind, [7, s.v] + rest)
    else if s.m == 2 && s.n == 3 then Ranked(FullHouse, [6, s.v, rest[0]])
    else if flush then Ranked(Flush, [5] + vals)
    else if s.n == 3 then Ranked(ThreeKind, [3, s.v] + rest)
    else if s.n == 2 then Ranked(Pair, [1, s.v] + rest)
    else Ranked(TwoPair, [2, rest[0], rest[1], s.v])
  }

  lemma {:induction false} RankShape(vals: seq<int>, flush: bool, s: Shape)
    requires Regular(s) && Distinct(vals) == s.x + [s.v] + s.y && Falling(Distinct(vals)) && IsStraight(vals) == None
    requires AllCount(vals, s.x, s.m) && AllCount(vals, s.y, s.m) && Occurrences(vals, s.v) == s.n
    ensures RankSorted(vals, flush) == ByShape(vals, flush, s)
  {
    if s.m == 1 {
      RankRepeated(vals, flush, s.x, s.v, s.y, s.n);
    } else if s.n == 3 {
      RankFull(vals, flush, s.x, s.v, s.y);
    } else {
      RankTwoPair(vals, flush, s.x, s.v, s.y);
    }
  }

  lemma {:induction false} ShapeLists(a: int, b: int, c: int, d: int, e: int)
    requires Mixed(a, b, c, d, e)
    ensures var s := ShapeOf(a, b, c, d, e);
            [a] + Unless(a == b, b) + Unless(b == c, c) + Unless(c == d, d) + Unless(d == e, e) == s.x + [s.v] + s.y
  {
  }

  lemma {:induction false} ShapeCounts(a: int, b: int, c: int, d: int, e: int)
    requires Mixed(a, b, c, d, e)
    ensures var s := ShapeOf(a, b, c, d, e);
            && CountIn(a, b, c, d, e, s.v) == s.n
            && (forall i :: 0 <= i < |s.x| ==> CountIn(a, b, c, d, e, s.x[i]) == s.m)
            && (forall i :: 0 <= i < |s.y| ==> CountIn(a, b, c, d, e, s.y[i]) == s.m)
  {
  }

  lemma {:induction false} ShapeHolds(a: int, b: int, c: int, d: int, e: int, s: Shape)
    requires Mixed(a, b, c, d, e) && s == ShapeOf(a, b, c, d, e)
    ensures var vals := [a, b, c, d, e];
            && Distinct(vals) == s.x + [s.v] + s.y && Falling(Distinct(vals)) && Occurrences(vals, s.v) == s.n
            && AllCount(vals, s.x, s.m) && AllCount(vals, s.y, s.m)
  {
    DistinctOfFive(a, b, c, d, e);
    UniqFalls(a, b, c, d, e);
    ShapeLists(a, b, c, d, e);
    ShapeCounts(a, b, c, d, e);
    CountOfFive(a, b, c, d, e, s.v);
    forall v
      ensures Occurrences([a, b, c, d, e], v) == CountIn(a, b, c, d, e, v)
    {
      CountOfFive(a, b, c, d, e, v);
    }
  }

  lemma {:induction false} ShapeReads(vals: seq<int>, a: int, b: int, c: int, d: int, e: int, flush: bool)
    requires vals == [a, b, c, d, e] && Mixed(a, b, c, d, e)
    requires Regular(ShapeOf(a, b, c, d, e))
    ensures ByShape(vals, flush, ShapeOf(a, b, c, d, e)) == Textbook(a, b, c, d, e, flush)
  {
  }

  lemma {:induction false} MixedIsTextbook(a: int, b: int, c: int, d: int, e: int, vals: seq<int>, flush: bool)
    requires Mixed(a, b, c, d, e) && vals == [a, b, c, d, e]
    ensures RankSorted(vals, flush) == Textbook(a, b, c, d, e, flush)
  {
    var s := ShapeOf(a, b, c, d, e);
    StraightOfFive(a, b, c, d, e);
    ShapeIsRegular(a, b, c, d, e);
    ShapeHolds(a, b, c, d, e, s);
    RankShape(vals, flush, s);
    ShapeReads(vals, a, b, c, d, e, flush);
  }

  lemma {:induction false} SameCounts(a: int)
    ensures var vals := [a, a, a, a, a];
            Distinct(vals) == [a] && Occurrences(vals, a) == 5 && (a != 0 ==> Occurrences(vals, 0) == 0)
  {
    DistinctOfFive(a, a, a, a, a);
    CountOfFive(a, a, a, a, a, a);
    CountOfFive(a, a, a, a, a, 0);
  }

  lemma {:induction false} ApartCounts(a: int, b: int, c: int, d: int, e: int)
    requires a > b > c > d > e
    ensures var vals := [a, b, c, d, e]; Distinct(vals) == vals && AllCount(vals, vals, 1)
  {
    var vals := [a, b, c, d, e];
    DistinctOfFive(a, b, c, d, e);
    forall i | 0 <= i < 5
      ensures Occurrences(vals, vals[i]) == 1
    {
      CountOfFive(a, b, c, d, e, vals[i]);
    }
  }

  /** Without a repetition that counts, flush and straight decide. */
  lemma {:induction false} PlainReads(vals: seq<int>, a: int, b: int, c: int, d: int, e: int, flush: bool)
    requires vals == [a, b, c, d, e] && Sorted5(a, b, c, d, e) && !Mixed(a, b, c, d, e)
    requires IsStraight(vals) == TextbookStraight(a, b, c, d, e)
    ensures Plain(vals, flush, Ranked(HighCard, [0] + vals)) == Textbook(a, b, c, d, e, flush)
  {
  }

  /** Five sorted values rank as the textbook says. */
  lemma {:induction false} SortedIsTextbook(a: int, b: int, c: int, d: int, e: int, flush: bool)
    requires Sorted5(a, b, c, d, e)
    ensures RankSorted([a, b, c, d, e], flush) == Textbook(a, b, c, d, e, flush)
  {
    var vals := [a, b, c, d, e];
    if Mixed(a, b, c, d, e) {
      MixedIsTextbook(a, b, c, d, e, vals, flush);
    } else {
      StraightOfFive(a, b, c, d, e);
      PlainReads(vals, a, b, c, d, e, flush);
      if a == e {
        SameCounts(a);
        RankAllSame(vals, flush, a);
      } else {
        ApartCounts(a, b, c, d, e);
        RankDistinct(vals, flush);
      }
    }
  }

  lemma {:induction false} ValuesInRange(cards: seq<Card>)
    requires forall i :: 0 <= i < |cards| ==> RealCard(cards[i])
    ensures var v := SortDesc(Values(cards)); |v| == |cards| && forall i :: 0 <= i < |v| ==> 2 <= v[i] <= 14
  {
    var v, w := SortDesc(Values(cards)), Values(cards);
    SortDescContents(w);
    assert |v| == |multiset(v)| == |multiset(w)| == |w|;
    forall i | 0 <= i < |v|
      ensures 2 <= v[i] <= 14
    {
      assert v[i] in multiset(w);
      var j :| 0 <= j < |w| && w[j] == v[i];
    }
  }

  /** `rankFive` ranks five real cards as the textbook ranks their values, highest first. */
  lemma {:induction false} RankFiveIsTextbook(cards: seq<Card>)
    requires |cards| == 5 && forall i :: 0 <= i < 5 ==> RealCard(cards[i])
    ensures var v := SortDesc(Values(cards));
            |v| == 5 && RankFive(cards) == Textbook(v[0], v[1], v[2], v[3], v[4], SameSuit(cards))
  {
    var v := SortDesc(Values(cards));
    ValuesInRange(cards);
    SortedIsTextbook(v[0], v[1], v[2], v[3], v[4], SameSuit(cards));
    assert v == [v[0], v[1], v[2], v[3], v[4]];
  }

  // ----- The best hand -----

  /** How many entries a textbook score has, by its first. */
  function Entries(category: int): nat
  {
    if category == 8 || category == 4 then 2 else if category == 7 || category == 6 then 3
    else if category == 3 || category == 2 then 4 else if category == 1 then 5 else 6
  }

  function CategoryOf(digit: int): Category
  {
    if digit == 8 then StraightFlush else if digit == 7 then FourKind else if digit == 6 then FullHouse
    else if digit == 5 then Flush else if digit == 4 then Straight else if digit == 3 then ThreeKind
    else if digit == 2 then TwoPair else if digit == 1 then Pair else HighCard
  }

  lemma {:induction false} TextbookEntries(a: int, b: int, c: int, d: int, e: int, flush: bool)
    ensures var r := Textbook(a, b, c, d, e, flush);
            |r.score| == Entries(r.score[0]) && r.category == CategoryOf(r.score[0])
  {
  }

  lemma {:induction false} TiesAreEqual(f: seq<Card>, g: seq<Card>)
    requires |f| == |g| == 5
    requires forall i :: 0 <= i < 5 ==> RealCard(f[i]) && RealCard(g[i])
    requires Compare(RankFive(f).score, RankFive(g).score) == 0
    ensures RankFive(f) == RankFive(g)
  {
    var x, y := RankFive(f).score, RankFive(g).score;
    RankFiveEntries(f);
    RankFiveEntries(g);
    CompareIsLexicographic(x, y);
    assert Digit(x, 0) == Digit(y, 0);
    forall i | 0 <= i < |x|
      ensures x[i] == y[i]
    {
      assert Digit(x, i) == Digit(y, i);
    }
  }

  lemma {:induction false} RankFiveEntries(f: seq<Card>)
    requires |f| == 5 && forall i :: 0 <= i < 5 ==> RealCard(f[i])
    ensures var r := RankFive(f); |r.score| == Entries(r.score[0]) && r.category == CategoryOf(r.score[0])
  {
    RankFiveIsTextbook(f);
    var v := SortDesc(Values(f));
    TextbookEntries(v[0], v[1], v[2], v[3], v[4], SameSuit(f));
  }

  lemma {:induction false} PickedAreReal(f: seq<Card>, all: seq<Card>)
    requires FiveOf(f, all) && forall i :: 0 <= i < |all| ==> RealCard(all[i])
    ensures forall i :: 0 <= i < 5 ==> RealCard(f[i])
  {
    forall i | 0 <= i < 5
      ensures RealCard(f[i])
    {
      assert f[i] in multiset(f);
      assert f[i] in multiset(all);
      var j :| 0 <= j < |all| && all[j] == f[i];
    }
  }

  /** The order of the cards does not matter: the best hands tie, and for real cards they are the same in
      category and score. */
  lemma {:induction false} BestHandIgnoresOrder(a: seq<Card>, b: seq<Card>)
    requires |a| >= 5 && |b| >= 5 && multiset(a) == multiset(b)
    ensures Compare(BestOfCards(a).score, BestOfCards(b).score) == 0
    ensures (forall i :: 0 <= i < |a| ==> RealCard(a[i])) ==> BestOfCards(a) == BestOfCards(b)
  {
    BestHandGrows(a, b);
    BestHandGrows(b, a);
    CompareIsTotalPreorder(BestOfCards(a).score, BestOfCards(b).score, []);
    if forall i :: 0 <= i < |a| ==> RealCard(a[i]) {
      var f := BestHandAttained(a);
      var g := BestHandAttained(b);
      PickedAreReal(f, a);
      PickedAreReal(g, a);
      TiesAreEqual(f, g);
    }
  }
}
