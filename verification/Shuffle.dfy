/** Fisher-Yates shuffling (packages/dealer-deck/src/shuffle.ts, packages/game-rules/src/cards.ts):
    which index sequences give which permutations, and how many random words give each. */
module Shuffle {
  import opened Prelude

  // ----- The shuffle -----

  function Swap<T>(s: seq<T>, i: nat, j: nat): (r: seq<T>)
    requires i < |s| && j < |s|
    ensures |r| == |s|
  {
    s[i := s[j]][j := s[i]]
  }

  /** Step `i` of a shuffle of at least `i + 1` cards may pick any index up to `i`. */
  ghost predicate Indices(js: seq<nat>)
  {
    forall i :: 0 <= i < |js| ==> js[i] <= i
  }

  /** Swap the last card with card `js[n]`, then shuffle the rest. */
  function Shuffled<T>(s: seq<T>, js: seq<nat>): (r: seq<T>)
    requires |js| == |s| && Indices(js)
    ensures |r| == |s|
    decreases |s|
  {
    if |s| <= 1 then s
    else
      var n := |s| - 1;
      var t := Swap(s, n, js[n]);
      Shuffled(t[..n], js[..n]) + [t[n]]
  }

  /** The loop as it runs: swaps `i`, `i - 1`, ..., 1 on the whole list. */
  function SwapDown<T>(s: seq<T>, js: seq<nat>, i: nat): (r: seq<T>)
    requires |js| == |s| && Indices(js) && i < |s|
    ensures |r| == |s|
    decreases i
  {
    if i == 0 then s else SwapDown(Swap(s, i, js[i]), js, i - 1)
  }

  method SwapInPlace<T>(a: array<T>, i: nat, j: nat)
    requires j <= i < a.Length
    modifies a
    ensures a[..] == Swap(old(a[..]), i, j)
  {
    a[i], a[j] := a[j], a[i];
  }

  /** The source's loop, in place, from the last card down. */
  method ShuffleInPlace<T>(a: array<T>, js: seq<nat>)
    requires |js| == a.Length && Indices(js)
    modifies a
    ensures a[..] == Shuffled(old(a[..]), js)
  {
    if a.Length == 0 {
      return;
    }
    var i := a.Length - 1;
    LoopIsShuffle(a[..], js);
    while i >= 1
      invariant 0 <= i < a.Length
      invariant SwapDown(a[..], js, i) == Shuffled(old(a[..]), js)
    {
      SwapInPlace(a, i, js[i]);
      i := i - 1;
    }
  }

  lemma {:induction false} LoopIsShuffle<T>(s: seq<T>, js: seq<nat>)
    requires |js| == |s| > 0 && Indices(js)
    ensures SwapDown(s, js, |s| - 1) == Shuffled(s, js)
  {
    SwapDownSplits(s, js, |s| - 1);
    assert s[..|s|] == s && js[..|s|] == js;
  }

  lemma {:induction false} SwapDownSplits<T>(s: seq<T>, js: seq<nat>, i: nat)
    requires |js| == |s| && Indices(js) && i < |s|
    ensures SwapDown(s, js, i) == Shuffled(s[..i + 1], js[..i + 1]) + s[i + 1..]
    decreases i
  {
    if i > 0 {
      var t := Swap(s, i, js[i]);
      SwapDownSplits(t, js, i - 1);
      FrontSwap(s, i, js[i]);
      assert js[..i + 1][..i] == js[..i];
    }
  }

  lemma {:induction false} FrontSwap<T>(s: seq<T>, i: nat, j: nat)
    requires j <= i < |s|
    ensures Swap(s, i, j)[..i] == Swap(s[..i + 1], i, j)[..i]
    ensures Swap(s, i, j)[i..] == [Swap(s[..i + 1], i, j)[i]] + s[i + 1..]
  {
  }

  lemma {:induction false} SwapContents<T>(s: seq<T>, i: nat, j: nat)
    requires i < |s| && j < |s|
    ensures multiset(Swap(s, i, j)) == multiset(s)
  {
  }

  lemma {:induction false} LastSplit<T>(s: seq<T>)
    requires |s| > 0
    ensures multiset(s) == multiset(s[..|s| - 1]) + multiset{s[|s| - 1]}
  {
    assert s == s[..|s| - 1] + [s[|s| - 1]];
  }

  /** Whatever indices are drawn, the result is a permutation. */
  lemma {:induction false} ShufflePermutes<T>(s: seq<T>, js: seq<nat>)
    requires |js| == |s| && Indices(js)
    ensures multiset(Shuffled(s, js)) == multiset(s)
    decreases |s|
  {
    if |s| > 1 {
      var n := |s| - 1;
      var t := Swap(s, n, js[n])[..n];
      ShufflePermutes(t, js[..n]);
      PutBackLast(s, js[n], Shuffled(t, js[..n]));
    }
  }

  lemma {:induction false} PutBackLast<T>(s: seq<T>, j: nat, front: seq<T>)
    requires j < |s| && multiset(front) == multiset(Swap(s, |s| - 1, j)[..|s| - 1])
    ensures multiset(front + [Swap(s, |s| - 1, j)[|s| - 1]]) == multiset(s)
  {
    var t := Swap(s, |s| - 1, j);
    SwapContents(s, |s| - 1, j);
    LastSplit(t);
  }

  // ----- Index sequences and permutations correspond one to one -----

  ghost predicate AllDifferent<T>(s: seq<T>)
  {
    forall i, j :: 0 <= i < j < |s| ==> s[i] != s[j]
  }

  lemma {:induction false} CountsOfDifferent<T>(s: seq<T>, x: T)
    requires AllDifferent(s)
    ensures multiset(s)[x] <= 1
  {
    if |s| > 0 {
      var n := |s| - 1;
      CountsOfDifferent(s[..n], x);
      LastSplit(s);
      if x == s[n] {
        assert x !in s[..n];
        assert x !in multiset(s[..n]);
      }
    }
  }

  lemma {:induction false} DifferentByCounts<T>(s: seq<T>, i: nat, j: nat)
    requires i < j < |s| && multiset(s)[s[i]] <= 1
    ensures s[i] != s[j]
  {
    assert s == s[..i + 1] + s[i + 1..];
    assert multiset(s) == multiset(s[..i + 1]) + multiset(s[i + 1..]);
    assert s[i] in s[..i + 1] by {
      assert s[..i + 1][i] == s[i];
    }
    assert s[j] in s[i + 1..] by {
      assert s[i + 1..][j - i - 1] == s[j];
    }
    assert s[i] in multiset(s[..i + 1]) && s[j] in multiset(s[i + 1..]);
  }

  /** A permutation of different cards has no card twice either. */
  lemma {:induction false} DifferentStays<T>(s: seq<T>, p: seq<T>)
    requires AllDifferent(s) && multiset(p) == multiset(s)
    ensures AllDifferent(p)
  {
    forall i, j | 0 <= i < j < |p|
      ensures p[i] != p[j]
    {
      CountsOfDifferent(s, p[i]);
      DifferentByCounts(p, i, j);
    }
  }

  lemma {:induction false} SwapDifferent<T>(s: seq<T>, j: nat)
    requires AllDifferent(s) && j < |s|
    ensures AllDifferent(Swap(s, |s| - 1, j)[..|s| - 1])
  {
  }

  /** Different indices give different permutations. */
  lemma {:induction false} ShuffleInjective<T>(s: seq<T>, js: seq<nat>, ks: seq<nat>)
    requires AllDifferent(s) && |js| == |ks| == |s| && Indices(js) && Indices(ks)
    requires Shuffled(s, js) == Shuffled(s, ks)
    ensures js == ks
    decreases |s|
  {
    if |s| > 1 {
      var n := |s| - 1;
      var t, u := Swap(s, n, js[n]), Swap(s, n, ks[n]);
      var x, y := Shuffled(t[..n], js[..n]), Shuffled(u[..n], ks[..n]);
      assert (x + [t[n]])[n] == t[n] && (y + [u[n]])[n] == u[n];
      assert s[js[n]] == s[ks[n]];
      assert js[n] == ks[n];
      assert (x + [t[n]])[..n] == x && (y + [u[n]])[..n] == y;
      SwapDifferent(s, js[n]);
      ShuffleInjective(t[..n], js[..n], ks[..n]);
      assert js == js[..n] + [js[n]] && ks == ks[..n] + [ks[n]];
    }
  }

  lemma {:induction false} FindIn<T>(s: seq<T>, p: seq<T>) returns (j: nat)
    requires |p| > 0 && multiset(p) == multiset(s)
    ensures |p| == |s| && j < |s| && s[j] == p[|p| - 1]
  {
    assert |p| == |multiset(p)| == |multiset(s)| == |s|;
    assert p[|p| - 1] in multiset(s);
    j :| 0 <= j < |s| && s[j] == p[|p| - 1];
  }

  /** Every permutation is reached. */
  lemma {:induction false} ShuffleSurjective<T>(s: seq<T>, p: seq<T>) returns (js: seq<nat>)
    requires multiset(p) == multiset(s)
    ensures |js| == |s| && Indices(js) && Shuffled(s, js) == p
    decreases |p|
  {
    if |p| == 0 {
      assert |multiset(s)| == 0;
      js := [];
    } else {
      var j := FindIn(s, p);
      var n := |s| - 1;
      SwapFront(s, p, j);
      var front := ShuffleSurjective(Swap(s, n, j)[..n], p[..n]);
      js := front + [j];
      ShuffleLast(s, front, j);
      assert p == p[..n] + [p[n]];
    }
  }

  lemma {:induction false} SwapFront<T>(s: seq<T>, p: seq<T>, j: nat)
    requires |s| == |p| > 0 && multiset(p) == multiset(s) && j < |s| && s[j] == p[|p| - 1]
    ensures multiset(p[..|p| - 1]) == multiset(Swap(s, |s| - 1, j)[..|s| - 1])
  {
    var t := Swap(s, |s| - 1, j);
    SwapContents(s, |s| - 1, j);
    assert t[|t| - 1] == s[j];
    SameFront(t, p);
  }

  lemma {:induction false} SameFront<T>(t: seq<T>, p: seq<T>)
    requires |t| == |p| > 0 && multiset(t) == multiset(p) && t[|t| - 1] == p[|p| - 1]
    ensures multiset(t[..|t| - 1]) == multiset(p[..|p| - 1])
  {
    LastSplit(t);
    LastSplit(p);
    var x := multiset{t[|t| - 1]};
    assert multiset(t[..|t| - 1]) == multiset(t) - x;
    assert multiset(p[..|p| - 1]) == multiset(p) - x;
  }

  lemma {:induction false} ShuffleLast<T>(s: seq<T>, front: seq<nat>, j: nat)
    requires |s| == |front| + 1 && Indices(front) && j < |s|
    ensures Indices(front + [j])
    ensures Shuffled(s, front + [j]) == Shuffled(Swap(s, |front|, j)[..|front|], front) + [s[j]]
  {
    var n := |front|;
    assert (front + [j])[..n] == front;
    if n == 0 {
      assert s == [s[0]] && Swap(s, 0, j)[..0] == [];
    }
  }

  // ----- Rejection sampling -----

  const WORDS: nat := 0x1_0000_0000

  /** A product as repeated addition, which keeps counting free of non-linear arithmetic. */
  function Times(x: nat, y: nat): nat
  {
    if y == 0 then 0 else Times(x, y - 1) + x
  }

  lemma {:induction false} TimesIsProduct(x: nat, y: nat)
    ensures Times(x, y) == x * y
  {
    if y > 0 {
      TimesIsProduct(x, y - 1);
      ProductStep(x, y);
    }
  }

  lemma {:induction false} ProductStep(x: nat, y: nat)
    ensures x * y == x * (y - 1) + x
  {
  }

  /** How many accepted words each residue gets. */
  function Quota(bound: nat): nat
    requires bound > 0
  {
    WORDS / bound
  }

  /** Words below this are accepted: the largest multiple of `bound` that fits. */
  function Limit(bound: nat): (l: nat)
    requires bound > 0
  {
    Times(Quota(bound), bound)
  }

  /** Numbers below `m` with remainder `r`. */
  function Class(m: nat, bound: nat, r: nat): set<nat>
    requires bound > 0
  {
    set x: nat | x < m && x % bound == r
  }

  lemma {:induction false} NextMultiple(q: nat, bound: nat, x: nat)
    requires bound > 0 && q * bound <= x < q * bound + bound
    ensures x % bound == x - q * bound
  {
    ModUnique(x, bound, q, x - q * bound);
  }

  lemma {:induction false} ClassExtends(q: nat, e: nat, bound: nat, r: nat)
    requires r < bound && e <= bound
    ensures Class(q * bound + e, bound, r)
         == if r < e then Class(q * bound, bound, r) + {q * bound + r} else Class(q * bound, bound, r)
  {
    forall x: nat | q * bound <= x < q * bound + e
      ensures x % bound == r <==> x == q * bound + r
    {
      NextMultiple(q, bound, x);
    }
  }

  lemma {:induction false} ClassFresh(m: nat, bound: nat, r: nat)
    requires bound > 0
    ensures |Class(m, bound, r) + {m + r}| == |Class(m, bound, r)| + 1
  {
  }

  lemma {:induction false} ClassOfMultiple(q: nat, bound: nat, r: nat)
    requires r < bound
    ensures |Class(q * bound, bound, r)| == q
  {
    if q == 0 {
      assert Class(0, bound, r) == {};
    } else {
      ProductStep(bound, q);
      assert q * bound == (q - 1) * bound + bound;
      ClassExtends(q - 1, bound, bound, r);
      ClassOfMultiple(q - 1, bound, r);
      ClassFresh((q - 1) * bound, bound, r);
    }
  }

  /** Rejection sampling: each residue is drawn by exactly floor(2^32 / bound) accepted words. */
  lemma {:induction false} AcceptedWordsAreEven(bound: nat, r: nat)
    requires r < bound
    ensures |Class(Limit(bound), bound, r)| == Quota(bound)
  {
    ClassOfMultiple(Quota(bound), bound, r);
    TimesIsProduct(Quota(bound), bound);
  }

  /** Plain remainders favour the small residues: one more word each below 2^32 mod bound. */
  lemma {:induction false} RemaindersFavourSmall(bound: nat, r: nat)
    requires r < bound
    ensures |Class(WORDS, bound, r)| == Quota(bound) + if r < WORDS % bound then 1 else 0
  {
    var q, e := WORDS / bound, WORDS % bound;
    DivisionEquation(WORDS, bound);
    ClassExtends(q, e, bound, r);
    ClassOfMultiple(q, bound, r);
  }

  /** So plain remainders are even exactly when the bound divides 2^32. */
  lemma {:induction false} RemaindersEvenIff(bound: nat)
    requires bound > 0
    ensures (forall r, r' :: 0 <= r < bound && 0 <= r' < bound ==>
              |Class(WORDS, bound, r)| == |Class(WORDS, bound, r')|)
       <==> WORDS % bound == 0
  {
    forall r | 0 <= r < bound
      ensures |Class(WORDS, bound, r)| == Quota(bound) + if r < WORDS % bound then 1 else 0
    {
      RemaindersFavourSmall(bound, r);
    }
    assert |Class(WORDS, bound, 0)| == WORDS / bound + (if 0 < WORDS % bound then 1 else 0);
    assert |Class(WORDS, bound, bound - 1)| == WORDS / bound;
  }

  // ----- Sequences of words -----

  function Prepend(b: set<nat>, a: set<seq<nat>>): set<seq<nat>>
  {
    set x, s | x in b && s in a :: [x] + s
  }

  lemma {:induction false} InPrepend(b: set<nat>, a: set<seq<nat>>, ws: seq<nat>)
    requires |ws| > 0
    ensures ws in Prepend(b, a) <==> ws[0] in b && ws[1..] in a
  {
    assert ws == [ws[0]] + ws[1..];
    if ws in Prepend(b, a) {
      var x, s :| x in b && s in a && ws == [x] + s;
      assert ws[1..] == s;
    }
  }

  lemma {:induction false} PrependOne(x: nat, a: set<seq<nat>>)
    ensures |Prepend({x}, a)| == |a|
    decreases |a|
  {
    if a == {} {
      assert Prepend({x}, a) == {};
    } else {
      var s :| s in a;
      PrependOne(x, a - {s});
      SplitTails(x, a, s);
    }
  }

  lemma {:induction false} SplitTails(x: nat, a: set<seq<nat>>, s: seq<nat>)
    requires s in a
    ensures Prepend({x}, a) == Prepend({x}, a - {s}) + {[x] + s}
    ensures [x] + s !in Prepend({x}, a - {s})
  {
    forall ws | ws in Prepend({x}, a)
      ensures ws in Prepend({x}, a - {s}) + {[x] + s}
    {
      InPrepend({x}, a, ws);
      InPrepend({x}, a - {s}, ws);
      assert ws == [ws[0]] + ws[1..];
    }
    InPrepend({x}, a - {s}, [x] + s);
    assert ([x] + s)[1..] == s;
  }

  lemma {:induction false} SplitHeads(b: set<nat>, a: set<seq<nat>>, x: nat)
    requires x in b
    ensures Prepend(b, a) == Prepend(b - {x}, a) + Prepend({x}, a)
    ensures Prepend(b - {x}, a) !! Prepend({x}, a)
  {
    forall y, s, t | s in a && t in a && y in b - {x}
      ensures [y] + s != [x] + t
    {
      assert ([y] + s)[0] == y && ([x] + t)[0] == x;
    }
  }

  lemma {:induction false} PrependPeel(b: set<nat>, a: set<seq<nat>>, x: nat)
    requires x in b
    ensures |Prepend(b, a)| == |Prepend(b - {x}, a)| + |a|
    ensures |b - {x}| == |b| - 1
  {
    PrependOne(x, a);
    SplitHeads(b, a, x);
  }

  lemma {:induction false} PrependSize(b: set<nat>, a: set<seq<nat>>)
    ensures |Prepend(b, a)| == Times(|a|, |b|)
    decreases |b|
  {
    if b == {} {
      assert Prepend(b, a) == {};
    } else {
      var x :| x in b;
      PrependSize(b - {x}, a);
      PrependPeel(b, a, x);
    }
  }

  /** All sequences of `n` words. */
  function AllWords(n: nat): set<seq<nat>>
  {
    if n == 0 then {[]} else Prepend(Class(WORDS, 1, 0), AllWords(n - 1))
  }

  lemma {:induction false} InAllWords(n: nat, ws: seq<nat>)
    ensures ws in AllWords(n) <==> |ws| == n && forall k :: 0 <= k < n ==> ws[k] < WORDS
  {
    if n > 0 {
      if |ws| > 0 {
        InPrepend(Class(WORDS, 1, 0), AllWords(n - 1), ws);
        InAllWords(n - 1, ws[1..]);
        assert forall k :: 0 < k < |ws| ==> ws[k] == ws[1..][k - 1];
      }
    }
  }

  // ----- How many words produce a permutation -----

  /** Words below this are used: all of them for plain remainders, the accepted ones for rejection sampling. */
  function Ceiling(plain: bool, bound: nat): (c: nat)
    requires bound > 0
    ensures c <= WORDS
  {
    LimitFits(bound);
    if plain then WORDS else Limit(bound)
  }

  lemma {:induction false} LimitFits(bound: nat)
    requires bound > 0
    ensures Limit(bound) <= WORDS
  {
    DivisionEquation(WORDS, bound);
    TimesIsProduct(Quota(bound), bound);
  }

  /** One used word per step, in the order they are read: the first picks for the last card. */
  ghost predicate Accepted(ws: seq<nat>, plain: bool)
  {
    forall k :: 0 <= k < |ws| ==> ws[k] < Ceiling(plain, |ws| + 1 - k)
  }

  /** The indices a sequence of words selects; the first card has no choice. */
  function Selected(ws: seq<nat>): (js: seq<nat>)
    ensures |js| == |ws| + 1 && Indices(js)
  {
    seq(|ws| + 1, i requires 0 <= i < |ws| + 1 => if i == 0 then 0 else ws[|ws| - i] % (i + 1))
  }

  /** Words that pick index `r` out of `bound`. */
  function Row(plain: bool, bound: nat, r: nat): set<nat>
    requires bound > 0
  {
    Class(Ceiling(plain, bound), bound, r)
  }

  /** The words that select exactly the indices `js`. */
  function Draws(js: seq<nat>, plain: bool): set<seq<nat>>
    requires |js| > 0 && Indices(js)
  {
    var n := |js| - 1;
    if n == 0 then {[]} else Prepend(Row(plain, n + 1, js[n]), Draws(js[..n], plain))
  }

  /** Their number. */
  function Weight(js: seq<nat>, plain: bool): nat
    requires |js| > 0 && Indices(js)
  {
    var n := |js| - 1;
    if n == 0 then 1 else Times(Weight(js[..n], plain), |Row(plain, n + 1, js[n])|)
  }

  lemma {:induction false} DrawsSize(js: seq<nat>, plain: bool)
    requires |js| > 0 && Indices(js)
    ensures |Draws(js, plain)| == Weight(js, plain)
  {
    var n := |js| - 1;
    if n > 0 {
      DrawsSize(js[..n], plain);
      PrependSize(Row(plain, n + 1, js[n]), Draws(js[..n], plain));
    }
  }

  lemma {:induction false} SelectedFront(ws: seq<nat>)
    requires |ws| > 0
    ensures var n := |ws|;
            Selected(ws)[..n] == Selected(ws[1..]) && Selected(ws)[n] == ws[0] % (n + 1)
  {
  }

  lemma {:induction false} AcceptedFront(ws: seq<nat>, plain: bool)
    requires |ws| > 0
    ensures Accepted(ws, plain) <==> Accepted(ws[1..], plain) && ws[0] < Ceiling(plain, |ws| + 1)
  {
    assert forall k :: 0 <= k < |ws| - 1 ==> ws[1..][k] == ws[k + 1];
    if Accepted(ws[1..], plain) && ws[0] < Ceiling(plain, |ws| + 1) {
      forall k | 0 <= k < |ws|
        ensures ws[k] < Ceiling(plain, |ws| + 1 - k)
      {
        if k > 0 {
          assert ws[1..][k - 1] < Ceiling(plain, |ws[1..]| + 1 - (k - 1));
        }
      }
    }
  }

  lemma {:induction false} DrawsLength(js: seq<nat>, ws: seq<nat>, plain: bool)
    requires |js| > 0 && Indices(js)
    ensures ws in Draws(js, plain) ==> |ws| == |js| - 1
  {
    var n := |js| - 1;
    if n > 0 && ws in Draws(js, plain) {
      var x, s :| x in Row(plain, n + 1, js[n]) && s in Draws(js[..n], plain) && ws == [x] + s;
      DrawsLength(js[..n], s, plain);
    }
  }

  lemma {:induction false} DrawsAreSelections(js: seq<nat>, ws: seq<nat>, plain: bool)
    requires |js| > 0 && Indices(js) && |ws| == |js| - 1
    ensures ws in Draws(js, plain) <==> Accepted(ws, plain) && Selected(ws) == js
  {
    var n := |js| - 1;
    if n == 0 {
      assert ws == [] && Selected(ws) == [0] == js;
    } else {
      DrawsAreSelections(js[..n], ws[1..], plain);
      InPrepend(Row(plain, n + 1, js[n]), Draws(js[..n], plain), ws);
      AcceptedFront(ws, plain);
      SelectedSplits(js, ws);
    }
  }

  lemma {:induction false} SelectedSplits(js: seq<nat>, ws: seq<nat>)
    requires |js| == |ws| + 1 && |ws| > 0
    ensures var n := |ws|;
            Selected(ws) == js <==> Selected(ws[1..]) == js[..n] && ws[0] % (n + 1) == js[n]
  {
    var n := |ws|;
    SelectedFront(ws);
    assert js == js[..n] + [js[n]] && Selected(ws) == Selected(ws)[..n] + [Selected(ws)[n]];
  }

  lemma {:induction false} DrawsAreWords(js: seq<nat>, ws: seq<nat>, plain: bool)
    requires |js| > 0 && Indices(js) && ws in Draws(js, plain)
    ensures ws in AllWords(|js| - 1)
  {
    DrawsLength(js, ws, plain);
    DrawsAreSelections(js, ws, plain);
    InAllWords(|js| - 1, ws);
  }

  /** The sequences of used words, one for each card but the first, that turn `s` into `p`. */
  ghost function Producing<T(!new)>(s: seq<T>, p: seq<T>, plain: bool): set<seq<nat>>
    requires |s| > 0
  {
    set ws | ws in AllWords(|s| - 1) && |ws| == |s| - 1 && Accepted(ws, plain) && Shuffled(s, Selected(ws)) == p
  }

  lemma {:induction false} ProducingIsDraws<T(!new)>(s: seq<T>, js: seq<nat>, plain: bool)
    requires |js| == |s| > 0 && AllDifferent(s) && Indices(js)
    ensures Producing(s, Shuffled(s, js), plain) == Draws(js, plain)
    ensures |Producing(s, Shuffled(s, js), plain)| == Weight(js, plain)
  {
    var p := Shuffled(s, js);
    forall ws: seq<nat>
      ensures ws in Producing(s, p, plain) <==> ws in Draws(js, plain)
    {
      if ws in Draws(js, plain) {
        DrawsAreWords(js, ws, plain);
        InAllWords(|s| - 1, ws);
        DrawsAreSelections(js, ws, plain);
      }
      if ws in Producing(s, p, plain) {
        ShuffleInjective(s, js, Selected(ws));
        DrawsAreSelections(js, ws, plain);
      }
    }
    assert Producing(s, p, plain) == Draws(js, plain);
    DrawsSize(js, plain);
  }

  // ----- Rejection sampling is fair -----

  function EvenWeight(n: nat): nat
  {
    if n == 0 then 1 else Times(EvenWeight(n - 1), Quota(n + 1))
  }

  lemma {:induction false} RejectionWeight(js: seq<nat>)
    requires |js| > 0 && Indices(js)
    ensures Weight(js, false) == EvenWeight(|js| - 1)
  {
    var n := |js| - 1;
    if n > 0 {
      RejectionWeight(js[..n]);
      AcceptedWordsAreEven(n + 1, js[n]);
    }
  }

  /** The shuffle of accepted words is exactly fair: equally many sequences produce each permutation. */
  lemma {:induction false} ShuffleIsFair<T(!new)>(s: seq<T>, p: seq<T>)
    requires |s| > 0 && AllDifferent(s) && multiset(p) == multiset(s)
    ensures |Producing(s, p, false)| == EvenWeight(|s| - 1)
  {
    var js := ShuffleSurjective(s, p);
    ProducingIsDraws(s, js, false);
    RejectionWeight(js);
  }

  // ----- Plain remainders are not -----

  lemma {:induction false} PlainRow(bound: nat, r: nat)
    requires r < bound
    ensures |Row(true, bound, r)| == Quota(bound) + if r < WORDS % bound then 1 else 0
    ensures |Row(true, bound, 0)| > 0
  {
    RemaindersFavourSmall(bound, r);
    RemaindersFavourSmall(bound, 0);
    DivisionEquation(WORDS, bound);
  }

  ghost predicate BoundsDivide(n: nat)
  {
    forall b :: 2 <= b <= n ==> WORDS % b == 0
  }

  lemma {:induction false} DividingWeight(js: seq<nat>)
    requires |js| > 0 && Indices(js) && BoundsDivide(|js|)
    ensures Weight(js, true) == EvenWeight(|js| - 1)
  {
    var n := |js| - 1;
    if n > 0 {
      DividingWeight(js[..n]);
      PlainRow(n + 1, js[n]);
    }
  }

  /** Always the first card; or, where it matters, the third card stays. */
  function Picks(n: nat, third: nat): (js: seq<nat>)
    requires third <= 2
    ensures |js| == n && Indices(js)
  {
    seq(n, i requires 0 <= i < n => if i == 2 then third else 0)
  }

  /** 3 does not divide 2^32, so picking the first of three is likelier than picking the last. */
  lemma {:induction false} ThirdCardWeighs(n: nat)
    requires n >= 3
    ensures 0 < Weight(Picks(n, 2), true) < Weight(Picks(n, 0), true)
  {
    var low, high := Picks(n, 2), Picks(n, 0);
    assert low[..n - 1] == Picks(n - 1, 2) && high[..n - 1] == Picks(n - 1, 0);
    PlainRow(n, high[n - 1]);
    if n == 3 {
      assert low[..2] == high[..2] == [0, 0];
      PlainRow(3, 2);
      PlainRow(2, 0);
      assert [0, 0][..1] == [0];
      assert Weight([0], true) == 1;
      Scaled(|Row(true, 3, 2)|, |Row(true, 3, 0)|, Weight([0, 0], true));
    } else {
      ThirdCardWeighs(n - 1);
      Scaled(Weight(low[..n - 1], true), Weight(high[..n - 1], true), |Row(true, n, 0)|);
    }
  }

  lemma {:induction false} Scaled(x: nat, y: nat, k: nat)
    requires 0 < x < y && k > 0
    ensures 0 < Times(x, k) < Times(y, k)
    ensures 0 < Times(k, x) < Times(k, y)
  {
    TimesIsProduct(x, k);
    TimesIsProduct(y, k);
    TimesIsProduct(k, x);
    TimesIsProduct(k, y);
    MulOrder(k, x, y);
    MulAtLeast(x, k);
    assert x * k == k * x && y * k == k * y;
  }

  /** Equally many word sequences for every permutation. */
  ghost predicate PlainIsFair<T(!new)>(s: seq<T>)
    requires |s| > 0
  {
    forall p: seq<T>, q: seq<T> :: multiset(p) == multiset(s) == multiset(q) ==>
      |Producing(s, p, true)| == |Producing(s, q, true)|
  }

  /** Two permutations that plain remainders do not produce equally often. */
  lemma {:induction false} PlainFavours<T(!new)>(s: seq<T>) returns (p: seq<T>, q: seq<T>)
    requires |s| >= 3 && AllDifferent(s)
    ensures multiset(p) == multiset(s) == multiset(q)
    ensures |Producing(s, p, true)| > |Producing(s, q, true)| > 0
  {
    p, q := Shuffled(s, Picks(|s|, 0)), Shuffled(s, Picks(|s|, 2));
    ShufflePermutes(s, Picks(|s|, 0));
    ShufflePermutes(s, Picks(|s|, 2));
    ProducingIsDraws(s, Picks(|s|, 0), true);
    ProducingIsDraws(s, Picks(|s|, 2), true);
    ThirdCardWeighs(|s|);
  }

  /** Shuffling by plain remainders is fair exactly when every bound used divides 2^32. */
  lemma {:induction false} PlainIsFairIff<T(!new)>(s: seq<T>)
    requires |s| > 0 && AllDifferent(s)
    ensures PlainIsFair(s) <==> BoundsDivide(|s|)
    ensures PlainIsFair(s) <==> |s| <= 2
  {
    if |s| >= 3 {
      var p, q := PlainFavours(s);
      assert WORDS % 3 != 0;
    } else {
      assert BoundsDivide(|s|);
      forall p: seq<T>, q: seq<T> | multiset(p) == multiset(s) == multiset(q)
        ensures |Producing(s, p, true)| == |Producing(s, q, true)|
      {
        EvenWhenDividing(s, p);
        EvenWhenDividing(s, q);
      }
    }
  }

  lemma {:induction false} EvenWhenDividing<T(!new)>(s: seq<T>, p: seq<T>)
    requires |s| > 0 && AllDifferent(s) && multiset(p) == multiset(s) && BoundsDivide(|s|)
    ensures |Producing(s, p, true)| == EvenWeight(|s| - 1)
  {
    var js := ShuffleSurjective(s, p);
    ProducingIsDraws(s, js, true);
    DividingWeight(js);
  }

  // ----- A shuffle as drawing cards -----

  /** The cards left after drawing the one at `j`: the last one takes its place. */
  function WithoutDrawn<T>(s: seq<T>, j: nat): (r: seq<T>)
    requires j < |s|
    ensures |r| == |s| - 1
  {
    s[j := s[|s| - 1]][..|s| - 1]
  }

  /** The last card is the one its index draws, and the cards before it are the shuffle of those left. */
  lemma {:induction false} LastIsDrawn<T>(s: seq<T>, js: seq<nat>)
    requires |js| == |s| > 0 && Indices(js)
    ensures var n := |s| - 1;
            Shuffled(s, js)[n] == s[js[n]] && Shuffled(s, js)[..n] == Shuffled(WithoutDrawn(s, js[n]), js[..n])
  {
    var n := |s| - 1;
    if n > 0 {
      assert Swap(s, n, js[n])[..n] == WithoutDrawn(s, js[n]);
    }
  }
}
