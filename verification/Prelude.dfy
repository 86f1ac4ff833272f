/** Option and Result, finite sums of chip counts, and the few arithmetic facts the proofs share. */
module Prelude {
  datatype Option<+T> = None | Some(value: T)

  datatype Result<+T, +E> = Ok(value: T) | Err(error: E)

  const DECK_SIZE: nat := 52

  function Min(a: int, b: int): (r: int)
  {
    if a < b then a else b
  }

  function Max(a: int, b: int): (r: int)
  {
    if a < b then b else a
  }

  // ----- Sums -----

  function Sum(s: seq<int>): int
  {
    if |s| == 0 then 0 else Sum(s[..|s| - 1]) + s[|s| - 1]
  }

  lemma {:induction false} SumAppend(s: seq<int>, t: seq<int>)
    ensures Sum(s + t) == Sum(s) + Sum(t)
  {
    if |t| == 0 {
      assert s + t == s;
    } else {
      SumAppend(s, t[..|t| - 1]);
      assert (s + t)[..|s + t| - 1] == s + t[..|t| - 1];
    }
  }

  lemma {:induction false} SumUpdate(s: seq<int>, i: nat, v: int)
    requires i < |s|
    ensures Sum(s[i := v]) == Sum(s) - s[i] + v
  {
    var n := |s| - 1;
    if i == n {
      assert s[i := v][..n] == s[..n];
    } else {
      SumUpdate(s[..n], i, v);
      assert s[i := v][..n] == s[..n][i := v];
    }
  }

  /** A sum of non-negative terms bounds each of them. */
  lemma {:induction false} SumBounds(s: seq<int>)
    requires forall i :: 0 <= i < |s| ==> s[i] >= 0
    ensures Sum(s) >= 0
    ensures forall i :: 0 <= i < |s| ==> s[i] <= Sum(s)
  {
    if |s| > 0 {
      SumBounds(s[..|s| - 1]);
      assert forall i :: 0 <= i < |s| - 1 ==> s[..|s| - 1][i] == s[i];
    }
  }

  lemma {:induction false} SumAdd(a: seq<int>, b: seq<int>, c: seq<int>)
    requires |a| == |b| == |c|
    requires forall i :: 0 <= i < |a| ==> c[i] == a[i] + b[i]
    ensures Sum(c) == Sum(a) + Sum(b)
  {
    if |a| > 0 {
      var n := |a| - 1;
      SumAdd(a[..n], b[..n], c[..n]);
    }
  }

  lemma {:induction false} SumMonotone(a: seq<int>, b: seq<int>)
    requires |a| == |b|
    requires forall i :: 0 <= i < |a| ==> a[i] <= b[i]
    ensures Sum(a) <= Sum(b)
  {
    if |a| > 0 {
      SumMonotone(a[..|a| - 1], b[..|b| - 1]);
    }
  }

  lemma {:induction false} SumScale(a: seq<int>, b: seq<int>, k: int)
    requires |a| == |b|
    requires forall i :: 0 <= i < |a| ==> b[i] == k * a[i]
    ensures Sum(b) == k * Sum(a)
  {
    if |a| > 0 {
      SumScale(a[..|a| - 1], b[..|b| - 1], k);
    }
  }

  lemma {:induction false} SumZero(s: seq<int>)
    requires forall i :: 0 <= i < |s| ==> s[i] == 0
    ensures Sum(s) == 0
  {
    if |s| > 0 {
      SumZero(s[..|s| - 1]);
    }
  }

  lemma {:induction false} SumPositiveWitness(s: seq<int>)
    requires Sum(s) > 0
    ensures exists i :: 0 <= i < |s| && s[i] > 0
  {
    if forall i :: 0 <= i < |s| ==> s[i] <= 0 {
      SumMonotone(s, seq(|s|, _ => 0));
      SumZero(seq(|s|, _ => 0));
    }
  }

  // ----- Cardinalities -----

  lemma {:induction false} SubsetSize<T>(a: set<T>, b: set<T>)
    requires a <= b
    ensures |a| <= |b|
    ensures |a| == |b| ==> a == b
  {
    assert b == a + (b - a);
    assert |b| == |a| + |b - a|;
  }

  lemma {:induction false} RangeSize(s: set<nat>, n: nat)
    requires forall i :: i in s ==> i < n
    ensures |s| <= n
  {
    if n == 0 {
      assert s == {};
    } else {
      RangeSize(s - {n - 1}, n - 1);
      if n - 1 in s {
        assert |s| == |s - {n - 1}| + 1;
      } else {
        assert s - {n - 1} == s;
      }
    }
  }

  // ----- Division -----

  lemma {:induction false} ModUnique(x: nat, n: nat, q: nat, r: nat)
    requires 0 <= r < n && x == q * n + r
    ensures x % n == r && x / n == q
  {
    DivisionEquation(x, n);
    QuotientUnique(n, x / n, x % n, q, r);
  }

  lemma {:induction false} DivisionEquation(x: nat, n: nat)
    requires n > 0
    ensures x == (x / n) * n + x % n
  {
  }

  lemma {:induction false} QuotientUnique(n: nat, q: int, r: nat, q': int, r': nat)
    requires r < n && r' < n && q * n + r == q' * n + r'
    ensures q == q' && r == r'
  {
    MulDifference(n, q, q');
    if q < q' {
      MulAtLeast(q' - q, n);
    } else if q' < q {
      MulAtLeast(q - q', n);
    }
  }

  lemma {:induction false} MulDifference(n: nat, q: int, q': int)
    ensures (q' - q) * n == q' * n - q * n
    ensures (q - q') * n == q * n - q' * n
  {
  }

  lemma {:induction false} MulAtLeast(k: int, n: nat)
    requires k >= 1
    ensures k * n >= n
  {
  }

  lemma {:induction false} MulOrder(t: int, x: int, y: int)
    requires t > 0
    ensures t * x < t * y <==> x < y
  {
    if x < y {
      MulAtLeast(y - x, t);
      assert t * y == t * x + (y - x) * t;
    } else if y < x {
      MulAtLeast(x - y, t);
      assert t * x == t * y + (x - y) * t;
    }
  }

  // ----- Sequences of facts -----

  /** What holds first and is handed on at every step holds throughout. */
  lemma {:induction false} Carried(marks: seq<bool>, k: nat)
    requires k < |marks| && marks[0] && forall j: nat :: j < k && marks[j] ==> marks[j + 1]
    ensures marks[k]
  {
    if k > 0 {
      Carried(marks, k - 1);
      assert marks[k - 1 + 1];
    }
  }
}
