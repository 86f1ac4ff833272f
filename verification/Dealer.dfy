/** The dealer's random deck: packages/dealer-deck/src/csprng.ts and shuffle.ts. A keccak block is
    an arbitrary 32-byte string for each counter. */
module Dealer {
  import opened Prelude
  import opened Shuffle

  ghost predicate IsBlock(b: seq<nat>)
  {
    |b| == 32 && forall i :: 0 <= i < 32 ==> b[i] < 256
  }

  /** Big-endian word at byte `o`. */
  function WordAt(b: seq<nat>, o: nat): nat
    requires o + 4 <= |b|
  {
    b[o] * 0x100_0000 + b[o + 1] * 0x1_0000 + b[o + 2] * 0x100 + b[o + 3]
  }

  /** Word `k` of the stream: eight words to a block. */
  ghost function Word(blocks: nat -> seq<nat>, k: nat): nat
  {
    var b, o := blocks(k / 8), 4 * (k % 8);
    if o + 4 <= |b| then WordAt(b, o) else 0
  }

  /** Byte `j` of a word, the most significant first. */
  function ByteOf(word: nat, j: nat): nat
    requires j < 4
  {
    (if j == 0 then word / 0x100_0000 else if j == 1 then word / 0x1_0000 else if j == 2 then word / 0x100 else word)
    % 0x100
  }

  /** The words spell out the blocks byte by byte. */
  lemma {:induction false} WordsSpellBlocks(blocks: nat -> seq<nat>, k: nat, j: nat)
    requires (forall n :: IsBlock(blocks(n))) && j < 4
    ensures var b := blocks((4 * k + j) / 32); IsBlock(b) && ByteOf(Word(blocks, k), j) == b[(4 * k + j) % 32]
  {
    var b, o := blocks(k / 8), 4 * (k % 8);
    assert IsBlock(b);
    ModUnique(4 * k + j, 32, k / 8, o + j);
    BytesOfWord(b, o, j);
  }

  lemma {:induction false} BytesOfWord(b: seq<nat>, o: nat, j: nat)
    requires IsBlock(b) && o + 4 <= 32 && j < 4
    ensures ByteOf(WordAt(b, o), j) == b[o + j]
  {
    var x, y, z, w := b[o], b[o + 1], b[o + 2], b[o + 3];
    ModUnique(WordAt(b, o), 0x100_0000, x, y * 0x1_0000 + z * 0x100 + w);
    ModUnique(WordAt(b, o), 0x1_0000, x * 0x100 + y, z * 0x100 + w);
    ModUnique(WordAt(b, o), 0x100, x * 0x1_0000 + y * 0x100 + z, w);
    ModUnique(x * 0x100 + y, 0x100, x, y);
    ModUnique(x * 0x1_0000 + y * 0x100 + z, 0x100, x * 0x100 + y, z);
    ModUnique(x, 0x100, 0, x);
  }

  /** `u` comes before `v` at the first byte in which they differ. */
  ghost predicate Precedes(u: seq<nat>, v: seq<nat>)
    requires |u| == |v|
  {
    exists k :: 0 <= k < |u| && u[k] < v[k] && u[..k] == v[..k]
  }

  /** Words compare as their four bytes do, first byte first. */
  lemma {:induction false} WordsCompareBytewise(b: seq<nat>, o: nat, c: seq<nat>, p: nat)
    requires IsBlock(b) && IsBlock(c) && o + 4 <= 32 && p + 4 <= 32
    ensures WordAt(b, o) < WordAt(c, p) <==> Precedes(b[o..o + 4], c[p..p + 4])
    ensures WordAt(b, o) == WordAt(c, p) <==> b[o..o + 4] == c[p..p + 4]
  {
    var u, v := b[o..o + 4], c[p..p + 4];
    if k :| 0 <= k < 4 && u[k] < v[k] && u[..k] == v[..k] {
      EarlierByteDecides(u, v, k);
    } else if u != v {
      var k := FirstDifference(u, v);
      EarlierByteDecides(v, u, k);
    }
  }

  lemma {:induction false} FirstDifference(u: seq<nat>, v: seq<nat>) returns (k: nat)
    requires |u| == |v| && u != v
    ensures k < |u| && u[k] != v[k] && u[..k] == v[..k]
  {
    if u[0] != v[0] {
      k := 0;
    } else {
      assert u == [u[0]] + u[1..] && v == [v[0]] + v[1..];
      k := FirstDifference(u[1..], v[1..]);
      k := k + 1;
      assert u[..k] == [u[0]] + u[1..][..k - 1] && v[..k] == [v[0]] + v[1..][..k - 1];
    }
  }

  lemma {:induction false} EarlierByteDecides(u: seq<nat>, v: seq<nat>, k: nat)
    requires |u| == |v| == 4 && (forall i :: 0 <= i < 4 ==> u[i] < 256 && v[i] < 256)
    requires k < 4 && u[k] < v[k] && u[..k] == v[..k]
    ensures WordAt(u, 0) < WordAt(v, 0)
  {
    forall i | 0 <= i < k
      ensures u[i] == v[i]
    {
      assert u[..k][i] == v[..k][i];
    }
  }

  lemma {:induction false} WordFits(b: seq<nat>, o: nat)
    requires IsBlock(b) && o + 4 <= 32
    ensures WordAt(b, o) < WORDS
  {
  }

  /** The position of the first word below `limit` among the next `patience` ones. */
  ghost function FirstBelow(word: nat -> nat, pos: nat, limit: nat, patience: nat): (r: Option<nat>)
    decreases patience
  {
    if patience == 0 then None
    else if word(pos) < limit then Some(pos)
    else FirstBelow(word, pos + 1, limit, patience - 1)
  }

  /** Every word before the one chosen was rejected. */
  lemma {:induction false} FirstBelowIsFirst(word: nat -> nat, pos: nat, limit: nat, patience: nat)
    ensures match FirstBelow(word, pos, limit, patience)
            case None => forall k :: pos <= k < pos + patience ==> word(k) >= limit
            case Some(p) =>
              && pos <= p < pos + patience && word(p) < limit
              && forall k :: pos <= k < p ==> word(k) >= limit
    decreases patience
  {
    if patience > 0 && word(pos) >= limit {
      FirstBelowIsFirst(word, pos + 1, limit, patience - 1);
    }
  }

  /** A sample below `bound` and the position after the word it came from. */
  ghost function SampleAt(word: nat -> nat, pos: nat, bound: nat, patience: nat): (r: Option<(nat, nat)>)
    requires bound > 0
    ensures r.Some? ==> r.value.0 < bound
  {
    match FirstBelow(word, pos, Limit(bound), patience)
    case None => None
    case Some(p) => Some((word(p) % bound, p + 1))
  }

  datatype SampleError = InvalidBound

  class HandSeedCsprng {
    const blocks: nat -> seq<nat>
    ghost const stream: nat -> nat
    var blockCounter: nat
    var block: seq<nat>
    var offset: nat
    var draws: nat

    ghost predicate Valid()
      reads this
    {
      && (forall n :: IsBlock(blocks(n)))
      && (forall k {:trigger Word(blocks, k)} :: stream(k) == Word(blocks, k))
      && (if blockCounter == 0 then block == [] && offset == 0 && draws == 0
          else block == blocks(blockCounter - 1) && offset <= 32 && offset % 4 == 0
               && 4 * draws == 32 * (blockCounter - 1) + offset)
    }

    constructor (blocks: nat -> seq<nat>)
      requires forall n :: IsBlock(blocks(n))
      ensures Valid() && draws == 0 && this.blocks == blocks
    {
      this.blocks := blocks;
      stream := k => Word(blocks, k);
      blockCounter, block, offset, draws := 0, [], 0, 0;
    }

    method Refill()
      requires Valid() && offset == |block|
      modifies this`blockCounter, this`block, this`offset
      ensures Valid() && offset == 0 && |block| == 32
    {
      block := blocks(blockCounter);
      blockCounter := blockCounter + 1;
      offset := 0;
    }

    /** Successive calls read the stream word by word. */
    method NextUint32() returns (v: nat)
      requires Valid()
      modifies this
      ensures Valid() && draws == old(draws) + 1
      ensures v == stream(old(draws)) < WORDS
    {
      if offset + 4 > |block| {
        Refill();
      }
      var o := offset;
      v := WordAt(block, o);
      WordFits(block, o);
      WordPosition(draws, blockCounter - 1, o);
      assert v == Word(blocks, draws);
      offset := o + 4;
      draws := draws + 1;
    }

    /** Rejection sampling. The loop of the source has no bound; `patience` is any number of words within which
        it ends, if it ends at all. */
    method UniformBelow(bound: nat, ghost patience: nat) returns (r: Result<nat, SampleError>)
      requires Valid()
      requires 1 < bound <= WORDS ==> SampleAt(stream, draws, bound, patience).Some?
      modifies this
      ensures Valid()
      ensures r == Err(InvalidBound) <==> bound < 1 || bound > WORDS
      ensures bound <= 1 || bound > WORDS ==> draws == old(draws)
      ensures bound == 1 ==> r == Ok(0)
      ensures 1 < bound <= WORDS ==>
                var s := SampleAt(stream, old(draws), bound, patience).value; r == Ok(s.0) && draws == s.1
      ensures 1 < bound <= WORDS ==>
                && old(draws) < draws && stream(draws - 1) < WORDS / bound * bound
                && r == Ok(stream(draws - 1) % bound)
                && forall k :: old(draws) <= k < draws - 1 ==> stream(k) >= WORDS / bound * bound
    {
      if bound < 1 || bound > WORDS {
        return Err(InvalidBound);
      }
      if bound == 1 {
        return Ok(0);
      }
      var limit := WORDS / bound * bound;
      TimesIsProduct(WORDS / bound, bound);
      FirstBelowIsFirst(stream, draws, limit, patience);
      var x := NextBelow(limit, patience);
      return Ok(x % bound);
    }

    /** The rejection loop: words until one is below `limit`. */
    method NextBelow(limit: nat, ghost patience: nat) returns (x: nat)
      requires Valid() && FirstBelow(stream, draws, limit, patience).Some?
      modifies this
      ensures Valid()
      ensures var p := FirstBelow(stream, old(draws), limit, patience).value; x == stream(p) && draws == p + 1
    {
      ghost var left := patience;
      while true
        invariant Valid() && FirstBelow(stream, draws, limit, left).Some?
        invariant FirstBelow(stream, old(draws), limit, patience) == FirstBelow(stream, draws, limit, left)
        decreases left
      {
        x := NextUint32();
        if x < limit {
          return;
        }
        left := left - 1;
      }
    }
  }

  lemma {:induction false} WordPosition(draws: nat, q: nat, o: nat)
    requires o % 4 == 0 && o < 32 && 4 * draws == 32 * q + o
    ensures draws / 8 == q && 4 * (draws % 8) == o
  {
    ModUnique(draws, 8, q, o / 4);
  }

  function Identity(n: nat): (r: seq<nat>)
    ensures |r| == n && forall i :: 0 <= i < n ==> r[i] == i
  {
    seq(n, i requires 0 <= i < n => i)
  }

  /** The cards after the swaps for positions `i`, `i - 1`, ..., 1, each index sampled from the stream. */
  ghost function Deal(word: nat -> nat, pos: nat, cards: seq<nat>, i: nat, patience: nat): (r: Option<seq<nat>>)
    requires i < |cards|
    decreases i
  {
    if i == 0 then Some(cards)
    else
      match SampleAt(word, pos, i + 1, patience)
      case None => None
      case Some(s) => Deal(word, s.1, Swap(cards, i, s.0), i - 1, patience)
  }

  /** `shuffleDeckV2`, in place; `patience` is enough for every sample. */
  method ShuffleDeckV2(rng: HandSeedCsprng, ghost patience: nat) returns (deck: seq<nat>)
    requires rng.Valid()
    requires Deal(rng.stream, rng.draws, Identity(DECK_SIZE), DECK_SIZE - 1, patience).Some?
    modifies rng
    ensures rng.Valid()
    ensures Some(deck) == Deal(rng.stream, old(rng.draws), Identity(DECK_SIZE), DECK_SIZE - 1, patience)
  {
    var cards := new nat[DECK_SIZE](i requires 0 <= i < DECK_SIZE => i);
    assert cards[..] == Identity(DECK_SIZE);
    ShuffleWith(rng, cards, patience);
    return cards[..];
  }

  /** The loop of `shuffleDeckV2`, on a deck of any size. */
  method ShuffleWith(rng: HandSeedCsprng, cards: array<nat>, ghost patience: nat)
    requires rng.Valid() && 0 < cards.Length <= WORDS
    requires Deal(rng.stream, rng.draws, cards[..], cards.Length - 1, patience).Some?
    modifies rng, cards
    ensures rng.Valid()
    ensures Deal(rng.stream, old(rng.draws), old(cards[..]), cards.Length - 1, patience) == Some(cards[..])
  {
    var i := cards.Length - 1;
    ghost var target := Deal(rng.stream, rng.draws, cards[..], i, patience);
    while i >= 1
      invariant rng.Valid() && 0 <= i < cards.Length
      invariant target == Deal(rng.stream, rng.draws, cards[..], i, patience)
    {
      SwapSampled(rng, cards, i, patience);
      i := i - 1;
    }
  }

  /** More patience never changes a result: what is dealt is what the endless loop would deal. */
  lemma {:induction false} PatienceDoesNotMatter(word: nat -> nat, pos: nat, cards: seq<nat>, i: nat, patience: nat,
                                                 more: nat)
    requires i < |cards| && patience <= more && Deal(word, pos, cards, i, patience).Some?
    ensures SameDeal(word, pos, cards, i, patience, more)
    decreases i
  {
    if i > 0 {
      var j, next := DealRound(word, pos, cards, i, patience);
      PatienceDoesNotMatter(word, next, Swap(cards, i, j), i - 1, patience, more);
      SameDealRound(word, pos, cards, i, patience, more, j, next);
    }
  }

  ghost predicate SameDeal(word: nat -> nat, pos: nat, cards: seq<nat>, i: nat, patience: nat, more: nat)
    requires i < |cards|
  {
    Deal(word, pos, cards, i, more) == Deal(word, pos, cards, i, patience)
  }

  lemma {:induction false} SameDealRound(
      word: nat -> nat, pos: nat, cards: seq<nat>, i: nat, patience: nat, more: nat, j: nat, next: nat)
    requires 0 < i < |cards| && patience <= more && j <= i && SampleAt(word, pos, i + 1, patience) == Some((j, next))
    requires SameDeal(word, next, Swap(cards, i, j), i - 1, patience, more)
    ensures SameDeal(word, pos, cards, i, patience, more)
  {
    SampleStays(word, pos, Limit(i + 1), patience, more);
    DealStep(word, pos, cards, i, patience);
    DealStep(word, pos, cards, i, more);
  }

  lemma {:induction false} SampleStays(word: nat -> nat, pos: nat, limit: nat, patience: nat, more: nat)
    requires patience <= more
    ensures FirstBelow(word, pos, limit, patience).Some? ==>
              FirstBelow(word, pos, limit, more) == FirstBelow(word, pos, limit, patience)
    decreases patience
  {
    if patience > 0 && word(pos) >= limit {
      SampleStays(word, pos + 1, limit, patience - 1, more - 1);
    }
  }

  lemma {:induction false} DealStep(word: nat -> nat, pos: nat, cards: seq<nat>, i: nat, patience: nat)
    requires 0 < i < |cards|
    ensures Deal(word, pos, cards, i, patience)
         == match SampleAt(word, pos, i + 1, patience)
            case None => None
            case Some(s) => Deal(word, s.1, Swap(cards, i, s.0), i - 1, patience)
  {
  }

  /** A deal that succeeds begins with a sample and goes on from there. */
  lemma {:induction false} DealRound(word: nat -> nat, pos: nat, cards: seq<nat>, i: nat, patience: nat)
      returns (j: nat, next: nat)
    requires 0 < i < |cards| && Deal(word, pos, cards, i, patience).Some?
    ensures j <= i && SampleAt(word, pos, i + 1, patience) == Some((j, next))
    ensures Deal(word, pos, cards, i, patience) == Deal(word, next, Swap(cards, i, j), i - 1, patience)
  {
    DealStep(word, pos, cards, i, patience);
    var s := SampleAt(word, pos, i + 1, patience).value;
    j, next := s.0, s.1;
  }

  /** One round: sample an index up to `i` and swap; the rounds left deal what all of them would have. */
  method SwapSampled(rng: HandSeedCsprng, cards: array<nat>, i: nat, ghost patience: nat)
    requires rng.Valid() && 0 < i < cards.Length <= WORDS
    requires Deal(rng.stream, rng.draws, cards[..], i, patience).Some?
    modifies rng, cards
    ensures rng.Valid()
    ensures Deal(rng.stream, rng.draws, cards[..], i - 1, patience)
         == Deal(rng.stream, old(rng.draws), old(cards[..]), i, patience)
  {
    ghost var j, next := DealRound(rng.stream, rng.draws, cards[..], i, patience);
    var r := rng.UniformBelow(i + 1, patience);
    SwapCells(cards, i, r.value);
  }

  method SwapCells(a: array<nat>, i: nat, j: nat)
    requires i < a.Length && j < a.Length
    modifies a
    ensures a[..] == Swap(old(a[..]), i, j)
  {
    a[i], a[j] := a[j], a[i];
  }

  // ----- assertValidDeck -----

  ghost predicate ValidDeck(deck: seq<int>)
  {
    |deck| == DECK_SIZE && AllDifferent(deck) && forall i :: 0 <= i < |deck| ==> 0 <= deck[i] < DECK_SIZE
  }

  method AssertValidDeck(deck: seq<int>) returns (ok: bool)
    ensures ok <==> ValidDeck(deck)
  {
    if |deck| != DECK_SIZE {
      return false;
    }
    var seen := new bool[DECK_SIZE](_ => false);
    for k := 0 to |deck|
      invariant forall i :: 0 <= i < k ==> 0 <= deck[i] < DECK_SIZE
      invariant forall i, j :: 0 <= i < j < k ==> deck[i] != deck[j]
      invariant forall c :: 0 <= c < DECK_SIZE ==> (seen[c] <==> exists i :: 0 <= i < k && deck[i] == c)
    {
      var c := deck[k];
      if c < 0 || c >= DECK_SIZE {
        return false;
      }
      if seen[c] {
        return false;
      }
      seen[c] := true;
    }
    return true;
  }

  function Codes(n: nat): (r: set<int>)
    ensures forall c :: c in r <==> 0 <= c < n
    ensures |r| == n
  {
    if n == 0 then {} else Codes(n - 1) + {n - 1}
  }

  function Held(s: seq<int>): (r: set<int>)
  {
    set i | 0 <= i < |s| :: s[i]
  }

  lemma {:induction false} NewEntry(s: seq<int>)
    requires |s| > 0 && s[|s| - 1] !in Held(s[..|s| - 1])
    ensures AllDifferent(s) <==> AllDifferent(s[..|s| - 1])
  {
    var front := s[..|s| - 1];
    forall i | 0 <= i < |front|
      ensures s[i] != s[|s| - 1]
    {
      assert front[i] in Held(front);
    }
    assert forall i :: 0 <= i < |front| ==> front[i] == s[i];
  }

  /** A list has as many different members as entries exactly when no entry repeats. */
  lemma {:induction false} HeldSize(s: seq<int>)
    ensures |Held(s)| <= |s|
    ensures |Held(s)| == |s| <==> AllDifferent(s)
  {
    if |s| > 0 {
      var n := |s| - 1;
      HeldSize(s[..n]);
      assert Held(s) == Held(s[..n]) + {s[n]};
      if s[n] in Held(s[..n]) {
        var i :| 0 <= i < n && s[..n][i] == s[n];
        assert s[i] == s[n];
        assert Held(s) == Held(s[..n]);
      } else {
        NewEntry(s);
      }
    }
  }

  /** The check accepts exactly the lists of 52 entries that hold every code. */
  lemma {:induction false} ValidDecksArePermutations(deck: seq<int>)
    ensures ValidDeck(deck) <==> |deck| == DECK_SIZE && Codes(DECK_SIZE) <= Held(deck)
  {
    HeldSize(deck);
    if |deck| == DECK_SIZE {
      if Codes(DECK_SIZE) <= Held(deck) {
        SubsetSize(Codes(DECK_SIZE), Held(deck));
        InRangeIff(deck);
      } else if Held(deck) <= Codes(DECK_SIZE) {
        SubsetSize(Held(deck), Codes(DECK_SIZE));
      } else {
        InRangeIff(deck);
      }
    }
  }

  lemma {:induction false} InRangeIff(deck: seq<int>)
    ensures Held(deck) <= Codes(DECK_SIZE) <==> forall i :: 0 <= i < |deck| ==> 0 <= deck[i] < DECK_SIZE
  {
    forall i | 0 <= i < |deck|
      ensures deck[i] in Held(deck)
    {
    }
  }
}
