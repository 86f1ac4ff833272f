/** The ordered Merkle commitment to a deck: `merkleRoot` and `merkleProof`
    (packages/protocol-vectors-ts/src/merkle.ts, crates/protocol-vectors-rs/src/lib.rs) and the card
    openings of packages/dealer-deck/src/deck.ts. Digests are values of any type; the hash of a pair
    is a parameter. */
module Merkle {
  import opened Prelude

  /** The all-zero digest and the hash of two digests side by side. */
  datatype Hasher<!H> = Hasher(zero: H, pair: (H, H) -> H)

  datatype Step<H> = Step(sibling: H, isLeft: bool)

  // ----- Powers of two -----

  function Pow2(d: nat): (r: nat)
    ensures r > 0
  {
    if d == 0 then 1 else 2 * Pow2(d - 1)
  }

  lemma {:induction false} Pow2Exceeds(d: nat)
    ensures Pow2(d) > d
  {
    if d > 0 {
      Pow2Exceeds(d - 1);
    }
  }

  /** Bitwise and. */
  function And(a: nat, b: nat): nat
  {
    if a == 0 || b == 0 then 0 else 2 * And(a / 2, b / 2) + (if a % 2 == 1 && b % 2 == 1 then 1 else 0)
  }

  lemma {:induction false} AndSelf(a: nat)
    ensures And(a, a) == a
  {
    if a > 0 {
      AndSelf(a / 2);
    }
  }

  /** The source's test `n & (n - 1)` vanishes exactly at the powers of two. */
  lemma {:induction false} AndTestsPowers(n: nat)
    requires n > 0
    ensures And(n, n - 1) == 0 <==> exists d: nat :: n == Pow2(d)
  {
    if n == 1 {
      assert n == Pow2(0);
    } else if n % 2 == 0 {
      AndTestsPowers(n / 2);
      assert (n - 1) / 2 == n / 2 - 1;
      HalvePower(n);
    } else {
      AndSelf(n / 2);
      assert (n - 1) / 2 == n / 2;
      OddIsNoPower(n);
    }
  }

  lemma {:induction false} HalvePower(n: nat)
    requires n > 1 && n % 2 == 0
    ensures (exists d: nat :: n == Pow2(d)) <==> (exists d: nat :: n / 2 == Pow2(d))
  {
    if d: nat :| n == Pow2(d) {
      assert d > 0;
      assert Pow2(d) == 2 * Pow2(d - 1);
      assert n / 2 == Pow2(d - 1);
    }
    if d: nat :| n / 2 == Pow2(d) {
      var e := d + 1;
      assert Pow2(e) == 2 * Pow2(d);
      assert n == Pow2(e);
    }
  }

  lemma {:induction false} OddIsNoPower(n: nat)
    requires n > 1 && n % 2 == 1
    ensures !exists d: nat :: n == Pow2(d)
  {
    forall d: nat
      ensures n != Pow2(d)
    {
      if d > 0 {
        assert Pow2(d) == 2 * Pow2(d - 1);
      }
    }
  }

  lemma {:induction false} Pow2Grows(d: nat, e: nat)
    requires d < e
    ensures Pow2(d) < Pow2(e)
  {
    if d + 1 < e {
      Pow2Grows(d, e - 1);
    }
  }

  /** Least `d`, from `from` on, with `n` leaves fitting in a tree of depth `d`. */
  function DepthFrom(n: nat, from: nat): (d: nat)
    ensures d >= from && Pow2(d) >= n
    ensures forall e :: from <= e < d ==> Pow2(e) < n
    decreases n - from
  {
    Pow2Exceeds(from);
    if Pow2(from) >= n then from else DepthFrom(n, from + 1)
  }

  function Depth(n: nat): (d: nat)
    ensures Pow2(d) >= n && forall e: nat :: e < d ==> Pow2(e) < n
  {
    DepthFrom(n, 0)
  }

  // ----- Building the root -----

  function Repeat<H>(x: H, n: nat): (r: seq<H>)
    ensures |r| == n && forall i :: 0 <= i < n ==> r[i] == x
  {
    seq(n, _ => x)
  }

  /** The leaves, followed by zero digests up to a power of two. */
  function Padded<H>(hash: Hasher<H>, leaves: seq<H>): (r: seq<H>)
    ensures |r| == Pow2(Depth(|leaves|)) && leaves <= r
    ensures forall i :: |leaves| <= i < |r| ==> r[i] == hash.zero
  {
    leaves + Repeat(hash.zero, Pow2(Depth(|leaves|)) - |leaves|)
  }

  /** One level up: `half` parents of twice as many children. */
  function Halve<H>(hash: Hasher<H>, level: seq<H>, half: nat): (r: seq<H>)
    requires |level| == 2 * half
    ensures |r| == half
    ensures forall i :: 0 <= i < half ==> r[i] == hash.pair(level[2 * i], level[2 * i + 1])
  {
    if half == 0 then []
    else Halve(hash, level[..2 * half - 2], half - 1) + [hash.pair(level[2 * half - 2], level[2 * half - 1])]
  }

  /** One level up in a tree of depth `d`. */
  function Up<H>(hash: Hasher<H>, level: seq<H>, d: nat): (r: seq<H>)
    requires d > 0 && |level| == Pow2(d)
    ensures |r| == Pow2(d - 1)
  {
    Halve(hash, level, Pow2(d - 1))
  }

  function Root<H>(hash: Hasher<H>, level: seq<H>, d: nat): (r: H)
    requires |level| == Pow2(d)
    decreases d
  {
    if d == 0 then level[0] else Root(hash, Up(hash, level, d), d - 1)
  }

  function MerkleRoot<H>(hash: Hasher<H>, leaves: seq<H>): (r: H)
  {
    if |leaves| == 0 then hash.zero else Root(hash, Padded(hash, leaves), Depth(|leaves|))
  }

  /** The padding loop. */
  method Pad<H>(hash: Hasher<H>, leaves: seq<H>) returns (level: seq<H>)
    requires |leaves| > 0
    ensures level == Padded(hash, leaves)
  {
    level := leaves;
    var n, d := |leaves|, Depth(|leaves|);
    while And(|level|, |level| - 1) != 0
      invariant n <= |level| <= Pow2(d)
      invariant level == leaves + Repeat(hash.zero, |level| - n)
      decreases Pow2(d) - |level|
    {
      NotYetFull(|level|, d);
      level := level + [hash.zero];
    }
    FullIsDepth(|level|, n, d);
  }

  lemma {:induction false} NotYetFull(size: nat, d: nat)
    requires 0 < size <= Pow2(d) && And(size, size - 1) != 0
    ensures size < Pow2(d)
  {
    AndTestsPowers(size);
  }

  lemma {:induction false} FullIsDepth(size: nat, n: nat, d: nat)
    requires 0 < n <= size <= Pow2(d) && And(size, size - 1) == 0 && d == Depth(n)
    ensures size == Pow2(d)
  {
    AndTestsPowers(size);
    var e: nat :| size == Pow2(e);
    if d < e {
      Pow2Grows(d, e);
    }
  }

  /** The levels, bottom up. */
  function Layers<H>(hash: Hasher<H>, level: seq<H>, d: nat): (r: seq<seq<H>>)
    requires |level| == Pow2(d)
    ensures |r| == d + 1 && r[0] == level
    decreases d
  {
    if d == 0 then [level] else [level] + Layers(hash, Up(hash, level, d), d - 1)
  }

  /** The pairing loops, keeping every level. */
  method BuildLayers<H>(hash: Hasher<H>, leaves: seq<H>) returns (root: H, layers: seq<seq<H>>)
    ensures root == MerkleRoot(hash, leaves)
    ensures |leaves| > 0 ==> layers == Layers(hash, Padded(hash, leaves), Depth(|leaves|))
    ensures |leaves| == 0 ==> layers == [[hash.zero]]
  {
    if |leaves| == 0 {
      return hash.zero, [[hash.zero]];
    }
    var level := Pad(hash, leaves);
    root, layers := Collapse(hash, level, Depth(|leaves|));
  }

  method Collapse<H>(hash: Hasher<H>, leaves: seq<H>, ghost depth: nat) returns (root: H, layers: seq<seq<H>>)
    requires |leaves| == Pow2(depth)
    ensures root == Root(hash, leaves, depth) && layers == Layers(hash, leaves, depth)
  {
    var level := leaves;
    layers := [];
    ghost var d := depth;
    while |level| > 1
      invariant |level| == Pow2(d)
      invariant Root(hash, level, d) == Root(hash, leaves, depth)
      invariant layers + Layers(hash, level, d) == Layers(hash, leaves, depth)
      decreases d
    {
      LayersUnfold(hash, layers, level, d);
      layers := layers + [level];
      level := PairUp(hash, level, Pow2(d - 1));
      d := d - 1;
    }
    Pow2Exceeds(d);
    layers := layers + [level];
    root := level[0];
  }

  lemma {:induction false} LayersUnfold<H>(hash: Hasher<H>, below: seq<seq<H>>, level: seq<H>, d: nat)
    requires |level| == Pow2(d) && |level| > 1
    ensures d > 0 && |level| == 2 * Pow2(d - 1)
    ensures below + Layers(hash, level, d) == below + [level] + Layers(hash, Up(hash, level, d), d - 1)
    ensures Root(hash, level, d) == Root(hash, Up(hash, level, d), d - 1)
  {
  }

  method PairUp<H>(hash: Hasher<H>, level: seq<H>, ghost half: nat) returns (next: seq<H>)
    requires |level| == 2 * half
    ensures next == Halve(hash, level, half)
  {
    next := [];
    var i := 0;
    while i < |level|
      invariant |next| <= half && i == 2 * |next|
      invariant next == Halve(hash, level, half)[..|next|]
    {
      next := next + [hash.pair(level[i], level[i + 1])];
      i := i + 2;
    }
  }

  // ----- Openings -----

  function Climb<H>(hash: Hasher<H>, h: H, step: Step<H>): (r: H)
  {
    if step.isLeft then hash.pair(step.sibling, h) else hash.pair(h, step.sibling)
  }

  function ClimbAll<H>(hash: Hasher<H>, h: H, proof: seq<Step<H>>): (r: H)
  {
    if |proof| == 0 then h else ClimbAll(hash, Climb(hash, h, proof[0]), proof[1..])
  }

  predicate Accepted<H(==)>(hash: Hasher<H>, leaf: H, proof: seq<Step<H>>, root: H)
  {
    ClimbAll(hash, leaf, proof) == root
  }

  method VerifyMerkleProof<H(==)>(hash: Hasher<H>, leaf: H, proof: seq<Step<H>>, root: H) returns (ok: bool)
    ensures ok == Accepted(hash, leaf, proof, root)
  {
    var h := leaf;
    for i := 0 to |proof|
      invariant ClimbAll(hash, h, proof[i..]) == ClimbAll(hash, leaf, proof)
    {
      h := if proof[i].isLeft then hash.pair(proof[i].sibling, h) else hash.pair(h, proof[i].sibling);
    }
    ok := h == root;
  }

  /** The other child of the same parent. */
  function Twin(i: nat): (r: nat)
    ensures r / 2 == i / 2 && r != i
  {
    if i % 2 == 0 then i + 1 else i - 1
  }

  /** Sibling path from leaf `i` to the root. */
  function Path<H>(hash: Hasher<H>, level: seq<H>, d: nat, i: nat): (r: seq<Step<H>>)
    requires |level| == Pow2(d) && i < |level|
    ensures |r| == d
    decreases d
  {
    if d == 0 then []
    else [Step(level[Twin(i)], Twin(i) < i)] + Path(hash, Up(hash, level, d), d - 1, i / 2)
  }

  method MerkleProof<H>(hash: Hasher<H>, leaves: seq<H>, index: nat) returns (proof: seq<Step<H>>)
    requires index < |leaves|
    ensures proof == Path(hash, Padded(hash, leaves), Depth(|leaves|), index)
  {
    var root, layers := BuildLayers(hash, leaves);
    proof := PathUp(hash, layers, Padded(hash, leaves), Depth(|leaves|), index);
  }

  method PathUp<H>(hash: Hasher<H>, layers: seq<seq<H>>, ghost level: seq<H>, ghost depth: nat, index: nat)
    returns (proof: seq<Step<H>>)
    requires |level| == Pow2(depth) && index < |level| && layers == Layers(hash, level, depth)
    ensures proof == Path(hash, level, depth, index)
  {
    var idx: nat := index;
    ghost var at, left := level, depth;
    proof := [];
    for d := 0 to |layers| - 1
      invariant Climbing(hash, layers, d, at, left, idx)
      invariant proof + Path(hash, at, left, idx) == Path(hash, level, depth, index)
    {
      var step;
      step, at, left := StepAt(hash, layers, d, at, left, idx, proof);
      proof := proof + [step];
      idx := idx / 2;
    }
  }

  method StepAt<H>(hash: Hasher<H>, layers: seq<seq<H>>, d: nat, ghost at: seq<H>, ghost left: nat, idx: nat,
                   ghost proof: seq<Step<H>>)
    returns (step: Step<H>, ghost at': seq<H>, ghost left': nat)
    requires Climbing(hash, layers, d, at, left, idx) && left > 0
    ensures Climbing(hash, layers, d + 1, at', left', idx / 2)
    ensures proof + [step] + Path(hash, at', left', idx / 2) == proof + Path(hash, at, left, idx)
  {
    at', left' := Up(hash, at, left), left - 1;
    PathExtends(hash, proof, at, left, idx);
    LayerAt(hash, layers, d, at, left, idx);
    var sibling := Twin(idx);
    step := Step(layers[d][sibling], sibling < idx);
  }

  /** Layers `k` and up are those of the tree over `at`, where node `i` is being climbed from. */
  ghost predicate Climbing<H>(hash: Hasher<H>, layers: seq<seq<H>>, k: nat, at: seq<H>, d: nat, i: nat)
  {
    |at| == Pow2(d) && i < |at| && k + d + 1 == |layers| && layers[k..] == Layers(hash, at, d)
  }

  lemma {:induction false} LayerAt<H>(hash: Hasher<H>, layers: seq<seq<H>>, k: nat, level: seq<H>, d: nat, i: nat)
    requires Climbing(hash, layers, k, level, d, i) && d > 0
    ensures layers[k] == level && Climbing(hash, layers, k + 1, Up(hash, level, d), d - 1, i / 2)
  {
    PathUnfolds(hash, level, d, i);
    assert layers[k] == layers[k..][0];
    assert layers[k + 1..] == layers[k..][1..];
  }

  lemma {:induction false} PathUnfolds<H>(hash: Hasher<H>, level: seq<H>, d: nat, i: nat)
    requires |level| == Pow2(d) && i < |level| && d > 0
    ensures i / 2 < Pow2(d - 1) && Twin(i) < |level|
    ensures Path(hash, level, d, i)
         == [Step(level[Twin(i)], Twin(i) < i)] + Path(hash, Up(hash, level, d), d - 1, i / 2)
    ensures Root(hash, level, d) == Root(hash, Up(hash, level, d), d - 1)
  {
  }

  lemma {:induction false} PathExtends<H>(hash: Hasher<H>, below: seq<Step<H>>, level: seq<H>, d: nat, i: nat)
    requires |level| == Pow2(d) && i < |level| && d > 0
    ensures i / 2 < Pow2(d - 1) && Twin(i) < |level|
    ensures below + Path(hash, level, d, i)
         == below + [Step(level[Twin(i)], Twin(i) < i)] + Path(hash, Up(hash, level, d), d - 1, i / 2)
  {
    PathUnfolds(hash, level, d, i);
  }

  lemma {:induction false} ParentAt<H>(hash: Hasher<H>, level: seq<H>, half: nat, i: nat)
    requires |level| == 2 * half && i < |level|
    ensures Twin(i) < |level| && i / 2 < half
    ensures Climb(hash, level[i], Step(level[Twin(i)], Twin(i) < i)) == Halve(hash, level, half)[i / 2]
  {
  }

  lemma {:induction false} ClimbUnfolds<H>(hash: Hasher<H>, h: H, step: Step<H>, rest: seq<Step<H>>)
    ensures ClimbAll(hash, h, [step] + rest) == ClimbAll(hash, Climb(hash, h, step), rest)
  {
    assert ([step] + rest)[1..] == rest;
  }

  /** Every position's sibling path is accepted. */
  lemma {:induction false} PathAccepted<H>(hash: Hasher<H>, level: seq<H>, d: nat, i: nat)
    requires |level| == Pow2(d) && i < |level|
    ensures ClimbAll(hash, level[i], Path(hash, level, d, i)) == Root(hash, level, d)
    decreases d
  {
    if d > 0 {
      FirstClimb(hash, level, d, i);
      PathAccepted(hash, Up(hash, level, d), d - 1, i / 2);
    }
  }

  lemma {:induction false} FirstClimb<H>(hash: Hasher<H>, level: seq<H>, d: nat, i: nat)
    requires |level| == Pow2(d) && i < |level| && d > 0
    ensures i / 2 < Pow2(d - 1)
    ensures Root(hash, level, d) == Root(hash, Up(hash, level, d), d - 1)
    ensures ClimbAll(hash, level[i], Path(hash, level, d, i))
         == ClimbAll(hash, Up(hash, level, d)[i / 2], Path(hash, Up(hash, level, d), d - 1, i / 2))
  {
    PathUnfolds(hash, level, d, i);
    ParentAt(hash, level, Pow2(d - 1), i);
    ClimbUnfolds(hash, level[i], Step(level[Twin(i)], Twin(i) < i), Path(hash, Up(hash, level, d), d - 1, i / 2));
  }

  // ----- Binding -----

  /** Collision-free on pairs. */
  ghost predicate Injective<H(!new)>(hash: Hasher<H>)
  {
    forall a: H, b: H, c: H, d: H {:trigger hash.pair(a, b), hash.pair(c, d)} ::
      hash.pair(a, b) == hash.pair(c, d) ==> a == c && b == d
  }

  /** Position a proof's directions spell out. */
  function Position<H>(proof: seq<Step<H>>): (i: nat)
    ensures i < Pow2(|proof|)
  {
    if |proof| == 0 then 0 else 2 * Position(proof[1..]) + if proof[0].isLeft then 1 else 0
  }

  /** A full-depth proof that is accepted opens exactly the leaf its directions point at, with exactly
      that leaf's sibling path. */
  lemma {:induction false} FullDepthBinds<H(!new)>(hash: Hasher<H>, level: seq<H>, d: nat, x: H, proof: seq<Step<H>>)
    requires Injective(hash) && |level| == Pow2(d) && |proof| == d
    requires ClimbAll(hash, x, proof) == Root(hash, level, d)
    ensures x == level[Position(proof)]
    ensures proof == Path(hash, level, d, Position(proof))
    decreases d
  {
    if d > 0 {
      var up, step, rest := Up(hash, level, d), proof[0], proof[1..];
      assert proof == [step] + rest;
      ClimbUnfolds(hash, x, step, rest);
      FullDepthBinds(hash, up, d - 1, Climb(hash, x, step), rest);
      var i, j := Position(proof), Position(rest);
      PositionUnfolds(step, rest);
      StepBinds(hash, level, Pow2(d - 1), x, step, i, j);
      PathStep(hash, level, d, i, j, step, rest);
    }
  }

  lemma {:induction false} PositionUnfolds<H>(step: Step<H>, rest: seq<Step<H>>)
    ensures Position([step] + rest) == 2 * Position(rest) + (if step.isLeft then 1 else 0)
  {
    assert ([step] + rest)[1..] == rest;
  }

  lemma {:induction false} PathStep<H>(
    hash: Hasher<H>, level: seq<H>, d: nat, i: nat, j: nat, step: Step<H>, rest: seq<Step<H>>)
    requires |level| == Pow2(d) && i < |level| && d > 0 && i / 2 == j < Pow2(d - 1) && Twin(i) < |level|
    requires step == Step(level[Twin(i)], Twin(i) < i) && rest == Path(hash, Up(hash, level, d), d - 1, j)
    ensures [step] + rest == Path(hash, level, d, i)
  {
    PathUnfolds(hash, level, d, i);
  }

  /** One step up from `x` reaches a parent only from the matching child. */
  lemma {:induction false} StepBinds<H(!new)>(hash: Hasher<H>, level: seq<H>, half: nat, x: H, step: Step<H>, i: nat,
                                             j: nat)
    requires Injective(hash) && |level| == 2 * half && j < half && Climb(hash, x, step) == Halve(hash, level, half)[j]
    requires i == 2 * j + (if step.isLeft then 1 else 0)
    ensures i / 2 == j && i < |level| && Twin(i) < |level|
    ensures x == level[i] && step == Step(level[Twin(i)], Twin(i) < i)
  {
    assert Halve(hash, level, half)[j] == hash.pair(level[2 * j], level[2 * j + 1]);
  }

  /** Equal roots over equally many leaves mean equal leaves. */
  lemma {:induction false} RootBinds<H(!new)>(hash: Hasher<H>, a: seq<H>, b: seq<H>, d: nat)
    requires Injective(hash) && |a| == |b| == Pow2(d) && Root(hash, a, d) == Root(hash, b, d)
    ensures a == b
    decreases d
  {
    if d > 0 {
      RootBinds(hash, Up(hash, a, d), Up(hash, b, d), d - 1);
      ChildrenBind(hash, a, b, Pow2(d - 1));
    }
  }

  lemma {:induction false} ChildrenBind<H(!new)>(hash: Hasher<H>, a: seq<H>, b: seq<H>, half: nat)
    requires Injective(hash) && |a| == |b| == 2 * half && Halve(hash, a, half) == Halve(hash, b, half)
    ensures a == b
  {
    forall k | 0 <= k < |a|
      ensures a[k] == b[k]
    {
      var i := k / 2;
      assert Halve(hash, a, half)[i] == Halve(hash, b, half)[i];
      assert k == 2 * i || k == 2 * i + 1;
    }
  }

  lemma {:induction false} MerkleRootBinds<H(!new)>(hash: Hasher<H>, a: seq<H>, b: seq<H>)
    requires Injective(hash) && |a| == |b| && MerkleRoot(hash, a) == MerkleRoot(hash, b)
    ensures a == b
  {
    if |a| > 0 {
      RootBinds(hash, Padded(hash, a), Padded(hash, b), Depth(|a|));
      assert a == Padded(hash, a)[..|a|];
      assert b == Padded(hash, b)[..|b|];
    }
  }

  // ----- Proofs of any length -----

  ghost predicate IsPair<H(!new)>(hash: Hasher<H>, x: H)
  {
    exists a, b :: x == hash.pair(a, b)
  }

  lemma {:induction false} ClimbIsPair<H(!new)>(hash: Hasher<H>, x: H, proof: seq<Step<H>>)
    requires |proof| > 0
    ensures IsPair(hash, ClimbAll(hash, x, proof))
  {
    if |proof| == 1 {
      assert ClimbAll(hash, x, proof) == Climb(hash, x, proof[0]);
    } else {
      ClimbIsPair(hash, Climb(hash, x, proof[0]), proof[1..]);
    }
  }

  lemma {:induction false} ClimbSplits<H>(hash: Hasher<H>, x: H, proof: seq<Step<H>>, k: nat)
    requires k <= |proof|
    ensures ClimbAll(hash, x, proof) == ClimbAll(hash, ClimbAll(hash, x, proof[..k]), proof[k..])
  {
    if k > 0 {
      ClimbSplits(hash, Climb(hash, x, proof[0]), proof[1..], k - 1);
      assert proof[1..][..k - 1] == proof[..k][1..];
      assert proof[1..][k - 1..] == proof[k..];
    } else {
      assert proof[0..] == proof;
    }
  }

  /** The level `k` steps below the root. */
  lemma {:induction false} LevelBelow<H(!new)>(hash: Hasher<H>, level: seq<H>, d: nat, k: nat) returns (up: seq<H>)
    requires |level| == Pow2(d) && k < d
    ensures |up| == Pow2(k) && Root(hash, up, k) == Root(hash, level, d)
    ensures forall i :: 0 <= i < |up| ==> IsPair(hash, up[i])
    decreases d
  {
    up := Up(hash, level, d);
    if k < d - 1 {
      up := LevelBelow(hash, up, d - 1, k);
    }
  }

  /** When leaves cannot be mistaken for pairs, acceptance forces the proof to full depth. */
  lemma {:induction false} AcceptedIsFullDepth<H(!new)>(hash: Hasher<H>, level: seq<H>, d: nat, x: H,
                                                          proof: seq<Step<H>>)
    requires Injective(hash) && |level| == Pow2(d)
    requires !IsPair(hash, x) && forall i :: 0 <= i < |level| ==> !IsPair(hash, level[i])
    requires ClimbAll(hash, x, proof) == Root(hash, level, d)
    ensures |proof| == d
  {
    if |proof| < d {
      var up := LevelBelow(hash, level, d, |proof|);
      FullDepthBinds(hash, up, |proof|, x, proof);
      assert false;
    } else if |proof| > d {
      var k := |proof| - d;
      ClimbSplits(hash, x, proof, k);
      FullDepthBinds(hash, level, d, ClimbAll(hash, x, proof[..k]), proof[k..]);
      ClimbIsPair(hash, x, proof[..k]);
      assert false;
    }
  }

  // ----- Committed decks -----

  /** What a card leaf commits to; the salt is any value. */
  datatype CardPreimage<S> = CardPreimage(handId: int, position: nat, cardCode: nat, salt: S)

  datatype CardScheme<!S, !H> = CardScheme(tree: Hasher<H>, leaf: CardPreimage<S> -> H)

  datatype OpenError = PositionOutOfRange | ProofDoesNotVerify | LengthMismatch

  datatype Opening<S, H> = Opening(position: nat, cardCode: nat, salt: S, leaf: H, proof: seq<Step<H>>)

  function CardLeaves<S, H>(scheme: CardScheme<S, H>, handId: int, deck: seq<nat>, salts: seq<S>): (r: seq<H>)
    requires |deck| == |salts|
    ensures |r| == |deck|
    ensures forall p :: 0 <= p < |r| ==> r[p] == scheme.leaf(CardPreimage(handId, p, deck[p], salts[p]))
  {
    seq(|deck|, p requires 0 <= p < |deck| => scheme.leaf(CardPreimage(handId, p, deck[p], salts[p])))
  }

  function DeckRoot<S, H>(scheme: CardScheme<S, H>, handId: int, deck: seq<nat>, salts: seq<S>): (r: H)
    requires |deck| == |salts|
  {
    MerkleRoot(scheme.tree, CardLeaves(scheme, handId, deck, salts))
  }

  /** Collision-free leaves, distinct from the padding. */
  ghost predicate Binding<S(!new), H(!new)>(scheme: CardScheme<S, H>)
  {
    && Injective(scheme.tree)
    && (forall a, b {:trigger scheme.leaf(a), scheme.leaf(b)} :: scheme.leaf(a) == scheme.leaf(b) ==> a == b)
    && (forall a :: scheme.leaf(a) != scheme.tree.zero)
  }

  /** Leaves are hashed under a domain tag of their own, so they collide with no pair; nor does the padding. */
  ghost predicate DomainSeparated<S(!new), H(!new)>(scheme: CardScheme<S, H>)
  {
    (forall a :: !IsPair(scheme.tree, scheme.leaf(a))) && !IsPair(scheme.tree, scheme.tree.zero)
  }

  /** Digests as free terms: one scheme that meets both conditions. */
  datatype Term<S> = Zero | Node(left: Term<S>, right: Term<S>) | CardLeaf(card: CardPreimage<S>)

  lemma {:induction false} SchemesExist<S(!new)>() returns (scheme: CardScheme<S, Term<S>>)
    ensures Binding(scheme) && DomainSeparated(scheme)
  {
    scheme := CardScheme(Hasher(Zero, (a, b) => Node(a, b)), c => CardLeaf(c));
  }

  method OpenCard<S, H(==)>(scheme: CardScheme<S, H>, handId: int, deck: seq<nat>, salts: seq<S>, root: H,
                            position: int)
    returns (r: Result<Opening<S, H>, OpenError>)
    ensures r.Ok? <==> 0 <= position < |deck| && |deck| == |salts| && root == DeckRoot(scheme, handId, deck, salts)
    ensures r.Ok? ==>
              && r.value.position == position && r.value.cardCode == deck[position] && r.value.salt == salts[position]
              && r.value.leaf == scheme.leaf(CardPreimage(handId, position, deck[position], salts[position]))
              && Accepted(scheme.tree, r.value.leaf, r.value.proof, root)
    ensures r == Err(PositionOutOfRange) <==> !(0 <= position < |deck|)
    ensures r == Err(LengthMismatch) <==> 0 <= position < |deck| && |deck| != |salts|
  {
    if position < 0 || position >= |deck| {
      return Err(PositionOutOfRange);
    }
    if |deck| != |salts| {
      return Err(LengthMismatch);
    }
    var leaf := scheme.leaf(CardPreimage(handId, position, deck[position], salts[position]));
    var leaves := CardLeaves(scheme, handId, deck, salts);
    var proof := MerkleProof(scheme.tree, leaves, position);
    PathAccepted(scheme.tree, Padded(scheme.tree, leaves), Depth(|leaves|), position);
    var ok := VerifyMerkleProof(scheme.tree, leaf, proof, root);
    if !ok {
      return Err(ProofDoesNotVerify);
    }
    r := Ok(Opening(position, deck[position], salts[position], leaf, proof));
  }

  /** Position binding: against the root of a committed deck, a full-depth opening can only reveal the
      card and salt at its position. */
  lemma {:induction false} OpeningsBind<S(!new), H(!new)>(
    scheme: CardScheme<S, H>, handId: int, deck: seq<nat>, salts: seq<S>, claim: CardPreimage<S>, proof: seq<Step<H>>)
    requires Binding(scheme) && |deck| == |salts| > 0
    requires |proof| == Depth(|deck|)
    requires Accepted(scheme.tree, scheme.leaf(claim), proof, DeckRoot(scheme, handId, deck, salts))
    ensures claim.handId == handId && claim.position < |deck|
    ensures claim.cardCode == deck[claim.position] && claim.salt == salts[claim.position]
    ensures claim.position == Position(proof)
  {
    var leaves := CardLeaves(scheme, handId, deck, salts);
    var level, i := Padded(scheme.tree, leaves), Position(proof);
    FullDepthBinds(scheme.tree, level, Depth(|deck|), scheme.leaf(claim), proof);
    assert level[i] == if i < |leaves| then leaves[i] else scheme.tree.zero;
  }

  /** With separated domains the proof's length need not be checked. */
  lemma {:induction false} AnyLengthOpeningsBind<S(!new), H(!new)>(
    scheme: CardScheme<S, H>, handId: int, deck: seq<nat>, salts: seq<S>, claim: CardPreimage<S>, proof: seq<Step<H>>)
    requires Binding(scheme) && DomainSeparated(scheme) && |deck| == |salts| > 0
    requires Accepted(scheme.tree, scheme.leaf(claim), proof, DeckRoot(scheme, handId, deck, salts))
    ensures claim.handId == handId && claim.position < |deck|
    ensures claim.cardCode == deck[claim.position] && claim.salt == salts[claim.position]
  {
    var leaves := CardLeaves(scheme, handId, deck, salts);
    var level := Padded(scheme.tree, leaves);
    forall i | 0 <= i < |level|
      ensures !IsPair(scheme.tree, level[i])
    {
      assert level[i] == if i < |leaves| then leaves[i] else scheme.tree.zero;
    }
    AcceptedIsFullDepth(scheme.tree, level, Depth(|deck|), scheme.leaf(claim), proof);
    OpeningsBind(scheme, handId, deck, salts, claim, proof);
  }

  /** Two decks of the same size with the same root are the same deck, card by card and salt by salt. */
  lemma {:induction false} DeckRootBinds<S(!new), H(!new)>(
    scheme: CardScheme<S, H>, hand: int, deck: seq<nat>, salts: seq<S>, hand': int, deck': seq<nat>, salts': seq<S>)
    requires Binding(scheme) && |deck| == |salts| == |deck'| == |salts'| > 0
    requires DeckRoot(scheme, hand, deck, salts) == DeckRoot(scheme, hand', deck', salts')
    ensures hand == hand' && deck == deck' && salts == salts'
  {
    var a, b := CardLeaves(scheme, hand, deck, salts), CardLeaves(scheme, hand', deck', salts');
    MerkleRootBinds(scheme.tree, a, b);
    forall p | 0 <= p < |deck|
      ensures hand == hand' && deck[p] == deck'[p] && salts[p] == salts'[p]
    {
      assert a[p] == b[p];
    }
    assert a[0] == b[0];
  }

  // ----- The root from the top -----

  /** The root of a tree over `level`, left half first. */
  function TreeRoot<H>(hash: Hasher<H>, level: seq<H>, d: nat): (r: H)
    requires |level| == Pow2(d)
    decreases d
  {
    if d == 0 then level[0]
    else hash.pair(TreeRoot(hash, level[..Pow2(d - 1)], d - 1), TreeRoot(hash, level[Pow2(d - 1)..], d - 1))
  }

  /** Pairing adjacent hashes does the two halves apart. */
  lemma {:induction false} UpSplits<H>(hash: Hasher<H>, level: seq<H>, d: nat)
    requires d > 0 && |level| == Pow2(d + 1)
    ensures Up(hash, level, d + 1)[..Pow2(d - 1)] == Up(hash, level[..Pow2(d)], d)
    ensures Up(hash, level, d + 1)[Pow2(d - 1)..] == Up(hash, level[Pow2(d)..], d)
  {
    var half := Pow2(d - 1);
    assert Pow2(d) == 2 * half && Pow2(d + 1) == 4 * half;
    forall i | 0 <= i < half
      ensures Up(hash, level, d + 1)[i] == Up(hash, level[..2 * half], d)[i]
      ensures Up(hash, level, d + 1)[half + i] == Up(hash, level[2 * half..], d)[i]
    {
      assert level[2 * half..][2 * i] == level[2 * (half + i)];
      assert level[2 * half..][2 * i + 1] == level[2 * (half + i) + 1];
    }
  }

  lemma {:induction false} RootSplits<H>(hash: Hasher<H>, level: seq<H>, d: nat)
    requires d > 0 && |level| == Pow2(d)
    ensures Root(hash, level, d)
         == hash.pair(Root(hash, level[..Pow2(d - 1)], d - 1), Root(hash, level[Pow2(d - 1)..], d - 1))
    decreases d
  {
    if d > 1 {
      UpSplits(hash, level, d - 1);
      RootSplits(hash, Up(hash, level, d), d - 1);
    }
  }

  /** Layer by layer from below or half by half from above, the root is the same. */
  lemma {:induction false} RootIsTree<H>(hash: Hasher<H>, level: seq<H>, d: nat)
    requires |level| == Pow2(d)
    ensures Root(hash, level, d) == TreeRoot(hash, level, d)
    decreases d
  {
    if d > 0 {
      RootSplits(hash, level, d);
      RootIsTree(hash, level[..Pow2(d - 1)], d - 1);
      RootIsTree(hash, level[Pow2(d - 1)..], d - 1);
    }
  }

  /** The root of a leaf list: that of the tree over the leaves and as many zeros as fill up the least power of two,
      and zero for no leaves. */
  lemma {:induction false} MerkleRootIsTree<H>(hash: Hasher<H>, leaves: seq<H>, d: nat)
    requires |leaves| <= Pow2(d) && forall e: nat :: e < d ==> Pow2(e) < |leaves|
    ensures MerkleRoot(hash, leaves)
         == if leaves == [] then hash.zero
            else TreeRoot(hash, leaves + Repeat(hash.zero, Pow2(d) - |leaves|), d)
  {
    assert Depth(|leaves|) == d;
    if leaves != [] {
      RootIsTree(hash, Padded(hash, leaves), d);
    }
  }
}
