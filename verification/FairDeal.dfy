/** The dealer's shuffle on a stream of words with rejections (packages/dealer-deck/src/shuffle.ts and csprng.ts):
    which words it uses, and why it is exactly fair. */
module FairDeal {
  import opened Prelude
  import opened Shuffle
  import opened Dealer

  /** Words `pos`, `pos + 1`, ... of a stream. */
  ghost function ReadWords(word: nat -> nat, pos: nat, n: nat): (r: seq<nat>)
    ensures |r| == n
    decreases n
  {
    if n == 0 then [] else [word(pos)] + ReadWords(word, pos + 1, n - 1)
  }

  /** The rounds for positions `i`, ..., 1 on a list of words; None if the words run out. */
  function DealList<T>(ws: seq<nat>, cards: seq<T>, i: nat): (r: Option<seq<T>>)
    requires i < |cards|
    decreases |ws|
  {
    if i == 0 then Some(cards)
    else if |ws| == 0 then None
    else if ws[0] < Limit(i + 1) then DealList(ws[1..], Swap(cards, i, ws[0] % (i + 1)), i - 1)
    else DealList(ws[1..], cards, i)
  }

  /** The words those rounds use, the rejected ones dropped. */
  function Kept(ws: seq<nat>, i: nat): (r: seq<nat>)
    ensures |r| <= i
    decreases |ws|
  {
    if i == 0 || |ws| == 0 then []
    else if ws[0] < Limit(i + 1) then [ws[0]] + Kept(ws[1..], i - 1)
    else Kept(ws[1..], i)
  }

  // ----- Streams and lists of words -----

  lemma {:induction false} SkipRejected<T>(word: nat -> nat, pos: nat, p: nat, cards: seq<T>, i: nat, n: nat)
    requires 0 < i < |cards| && pos <= p
    requires forall k :: pos <= k < p ==> word(k) >= Limit(i + 1)
    ensures DealList(ReadWords(word, pos, p - pos + n), cards, i) == DealList(ReadWords(word, p, n), cards, i)
    decreases p - pos
  {
    if pos < p {
      SkipRejected(word, pos + 1, p, cards, i, n);
      var ws := ReadWords(word, pos, p - pos + n);
      assert ws[1..] == ReadWords(word, pos + 1, p - (pos + 1) + n);
    }
  }

  /** One round on the list: skip what was rejected, then use the next word. */
  lemma {:induction false} ListRound<T>(word: nat -> nat, pos: nat, p: nat, cards: seq<T>, i: nat, n: nat)
    requires 0 < i < |cards| && pos <= p && word(p) < Limit(i + 1)
    requires forall k :: pos <= k < p ==> word(k) >= Limit(i + 1)
    ensures DealList(ReadWords(word, pos, p - pos + (1 + n)), cards, i)
         == DealList(ReadWords(word, p + 1, n), Swap(cards, i, word(p) % (i + 1)), i - 1)
  {
    SkipRejected(word, pos, p, cards, i, 1 + n);
    assert ReadWords(word, p, 1 + n)[1..] == ReadWords(word, p + 1, n);
  }

  lemma {:induction false} SampleReads(word: nat -> nat, pos: nat, bound: nat, patience: nat, j: nat, next: nat)
    requires bound > 0 && SampleAt(word, pos, bound, patience) == Some((j, next))
    ensures pos < next && word(next - 1) < Limit(bound) && j == word(next - 1) % bound
    ensures forall k :: pos <= k < next - 1 ==> word(k) >= Limit(bound)
  {
    FirstBelowIsFirst(word, pos, Limit(bound), patience);
  }

  /** The first `n` words from `pos` deal what the stream deals. */
  ghost predicate DealtBy(word: nat -> nat, pos: nat, cards: seq<nat>, i: nat, patience: nat, n: nat)
    requires i < |cards|
  {
    DealList(ReadWords(word, pos, n), cards, i) == Deal(word, pos, cards, i, patience)
  }

  lemma {:induction false} DealtByRound(
      word: nat -> nat, pos: nat, cards: seq<nat>, i: nat, patience: nat, j: nat, next: nat, n: nat) returns (more: nat)
    requires 0 < i < |cards| && j <= i && SampleAt(word, pos, i + 1, patience) == Some((j, next))
    requires Deal(word, pos, cards, i, patience) == Deal(word, next, Swap(cards, i, j), i - 1, patience)
    requires DealtBy(word, next, Swap(cards, i, j), i - 1, patience, n)
    ensures DealtBy(word, pos, cards, i, patience, more)
  {
    SampleReads(word, pos, i + 1, patience, j, next);
    ListRound(word, pos, next - 1, cards, i, n);
    more := next - 1 - pos + (1 + n);
  }

  /** A dealt deck is dealt by finitely many words of the stream. */
  lemma {:induction false} DealOfList(word: nat -> nat, pos: nat, cards: seq<nat>, i: nat, patience: nat)
    returns (n: nat)
    requires i < |cards| && Deal(word, pos, cards, i, patience).Some?
    ensures DealtBy(word, pos, cards, i, patience, n)
    decreases i
  {
    if i == 0 {
      n := 0;
    } else {
      var j, next := DealRound(word, pos, cards, i, patience);
      n := DealOfList(word, next, Swap(cards, i, j), i - 1, patience);
      n := DealtByRound(word, pos, cards, i, patience, j, next, n);
    }
  }

  /** A sample at the first word, or the same sample one word later. */
  lemma {:induction false} SampleAtFirst(word: nat -> nat, pos: nat, bound: nat, n: nat)
    requires bound > 0 && n > 0
    ensures SampleAt(word, pos, bound, n)
         == if word(pos) < Limit(bound) then Some((word(pos) % bound, pos + 1))
           else SampleAt(word, pos + 1, bound, n - 1)
  {
  }

  lemma {:induction false} DealFrom(
      word: nat -> nat, pos: nat, cards: seq<nat>, i: nat, n: nat, less: nat, j: nat, next: nat)
    requires 0 < i < |cards| && j <= i && less <= n && SampleAt(word, pos, i + 1, n) == Some((j, next))
    requires Deal(word, next, Swap(cards, i, j), i - 1, less).Some?
    ensures Deal(word, pos, cards, i, n) == Deal(word, next, Swap(cards, i, j), i - 1, less)
  {
    DealStep(word, pos, cards, i, n);
    PatienceDoesNotMatter(word, next, Swap(cards, i, j), i - 1, less, n);
  }

  lemma {:induction false} FirstUsed(word: nat -> nat, pos: nat, cards: seq<nat>, i: nat, n: nat)
    requires 0 < i < |cards| && n > 0 && word(pos) < Limit(i + 1)
    requires Deal(word, pos + 1, Swap(cards, i, word(pos) % (i + 1)), i - 1, n - 1).Some?
    ensures Deal(word, pos, cards, i, n) == Deal(word, pos + 1, Swap(cards, i, word(pos) % (i + 1)), i - 1, n - 1)
  {
    SampleAtFirst(word, pos, i + 1, n);
    DealFrom(word, pos, cards, i, n, n - 1, word(pos) % (i + 1), pos + 1);
  }

  ghost predicate SkipsFirst(word: nat -> nat, pos: nat, cards: seq<nat>, i: nat, n: nat)
    requires i < |cards| && n > 0
  {
    Deal(word, pos, cards, i, n) == Deal(word, pos + 1, cards, i, n - 1)
  }

  lemma {:induction false} SkipsWithSample(word: nat -> nat, pos: nat, cards: seq<nat>, i: nat, n: nat, j: nat,
                                           next: nat)
    requires 0 < i < |cards| && n > 0 && j <= i
    requires SampleAt(word, pos, i + 1, n) == Some((j, next))
    requires Deal(word, pos + 1, cards, i, n - 1) == Deal(word, next, Swap(cards, i, j), i - 1, n - 1)
    requires Deal(word, pos + 1, cards, i, n - 1).Some?
    ensures SkipsFirst(word, pos, cards, i, n)
  {
    DealFrom(word, pos, cards, i, n, n - 1, j, next);
  }

  lemma {:induction false} FirstRejected(word: nat -> nat, pos: nat, cards: seq<nat>, i: nat, n: nat)
    requires 0 < i < |cards| && n > 0 && word(pos) >= Limit(i + 1)
    requires Deal(word, pos + 1, cards, i, n - 1).Some?
    ensures SkipsFirst(word, pos, cards, i, n)
  {
    var j, next := DealRound(word, pos + 1, cards, i, n - 1);
    SampleAtFirst(word, pos, i + 1, n);
    SkipsWithSample(word, pos, cards, i, n, j, next);
  }

  lemma {:induction false} ListStep<T>(word: nat -> nat, pos: nat, cards: seq<T>, i: nat, n: nat)
    requires 0 < i < |cards| && n > 0
    ensures DealList(ReadWords(word, pos, n), cards, i)
         == if word(pos) < Limit(i + 1)
            then DealList(ReadWords(word, pos + 1, n - 1), Swap(cards, i, word(pos) % (i + 1)), i - 1)
            else DealList(ReadWords(word, pos + 1, n - 1), cards, i)
  {
    assert ReadWords(word, pos, n)[1..] == ReadWords(word, pos + 1, n - 1);
  }

  /** And words that deal a deck do so in the stream. */
  lemma {:induction false} ListOfDeal(word: nat -> nat, pos: nat, cards: seq<nat>, i: nat, n: nat)
    requires i < |cards| && DealList(ReadWords(word, pos, n), cards, i).Some?
    ensures Deal(word, pos, cards, i, n) == DealList(ReadWords(word, pos, n), cards, i)
    decreases n
  {
    if i > 0 {
      ListStep(word, pos, cards, i, n);
      if word(pos) < Limit(i + 1) {
        ListOfDeal(word, pos + 1, Swap(cards, i, word(pos) % (i + 1)), i - 1, n - 1);
        FirstUsed(word, pos, cards, i, n);
      } else {
        ListOfDeal(word, pos + 1, cards, i, n - 1);
        FirstRejected(word, pos, cards, i, n);
      }
    }
  }

  /** The dealer deals `deck` from a stream exactly when some finite part of it, read as a list, does. */
  lemma {:induction false} DealsIffListDeals(word: nat -> nat, pos: nat, cards: seq<nat>, i: nat, deck: seq<nat>)
    requires i < |cards|
    ensures (exists patience :: Deal(word, pos, cards, i, patience) == Some(deck))
       <==> (exists n :: DealList(ReadWords(word, pos, n), cards, i) == Some(deck))
  {
    if patience :| Deal(word, pos, cards, i, patience) == Some(deck) {
      var n := DealOfList(word, pos, cards, i, patience);
      assert DealList(ReadWords(word, pos, n), cards, i) == Some(deck);
    }
    if n :| DealList(ReadWords(word, pos, n), cards, i) == Some(deck) {
      ListOfDeal(word, pos, cards, i, n);
      assert Deal(word, pos, cards, i, n) == Some(deck);
    }
  }

  // ----- What is dealt -----

  lemma {:induction false} KeptAreAccepted(ws: seq<nat>, i: nat)
    ensures |Kept(ws, i)| == i ==> Accepted(Kept(ws, i), false)
    decreases |ws|
  {
    if i > 0 && |ws| > 0 {
      if ws[0] < Limit(i + 1) {
        KeptAreAccepted(ws[1..], i - 1);
        assert Kept(ws, i)[1..] == Kept(ws[1..], i - 1);
        if |Kept(ws, i)| == i {
          AcceptedFront(Kept(ws, i), false);
        }
      } else {
        KeptAreAccepted(ws[1..], i);
      }
    }
  }

  /** What `i` accepted words do to the first `i + 1` cards. */
  function Image<T>(cards: seq<T>, ws: seq<nat>, i: nat): Option<seq<T>>
    requires i < |cards|
  {
    if |ws| == i then Some(Shuffled(cards[..i + 1], Selected(ws)) + cards[i + 1..]) else None
  }

  lemma {:induction false} ShuffleRound<T>(cards: seq<T>, i: nat, j: nat, rest: seq<nat>)
    requires 0 < i < |cards| && j <= i && |rest| == i - 1
    ensures Indices(Selected(rest) + [j])
    ensures var t := Swap(cards, i, j);
            Shuffled(t[..i], Selected(rest)) + t[i..] == Shuffled(cards[..i + 1], Selected(rest) + [j]) + cards[i + 1..]
  {
    FrontSwap(cards, i, j);
    ShuffleLast(cards[..i + 1], Selected(rest), j);
  }

  lemma {:induction false} SelectedExtends(x: nat, rest: seq<nat>)
    ensures Selected([x] + rest) == Selected(rest) + [x % (|rest| + 2)]
  {
    SelectedFront([x] + rest);
    assert ([x] + rest)[1..] == rest;
  }

  lemma {:induction false} ImageRound<T>(cards: seq<T>, i: nat, x: nat, rest: seq<nat>)
    requires 0 < i < |cards|
    ensures Image(Swap(cards, i, x % (i + 1)), rest, i - 1) == Image(cards, [x] + rest, i)
  {
    if |rest| == i - 1 {
      SelectedExtends(x, rest);
      ShuffleRound(cards, i, x % (i + 1), rest);
    }
  }

  /** A list of words deals a deck exactly when it holds an accepted word for every round; the deck is then
      the Fisher-Yates image under the indices those words select. */
  lemma {:induction false} DealListIsShuffle<T>(ws: seq<nat>, cards: seq<T>, i: nat)
    requires i < |cards|
    ensures DealList(ws, cards, i) == Image(cards, Kept(ws, i), i)
    decreases |ws|
  {
    if i == 0 {
      assert cards[..1] + cards[1..] == cards;
    } else if |ws| > 0 {
      if ws[0] < Limit(i + 1) {
        DealListIsShuffle(ws[1..], Swap(cards, i, ws[0] % (i + 1)), i - 1);
        ImageRound(cards, i, ws[0], Kept(ws[1..], i - 1));
      } else {
        DealListIsShuffle(ws[1..], cards, i);
      }
    }
  }

  /** Whatever the stream, a dealt deck is the Fisher-Yates image under the words kept of a finite part of it. */
  lemma {:induction false} DealReadsAccepted(word: nat -> nat, pos: nat, cards: seq<nat>, i: nat, patience: nat)
      returns (n: nat)
    requires i < |cards| && Deal(word, pos, cards, i, patience).Some?
    ensures var ws := Kept(ReadWords(word, pos, n), i);
            && |ws| == i && Accepted(ws, false)
            && Deal(word, pos, cards, i, patience).value == Shuffled(cards[..i + 1], Selected(ws)) + cards[i + 1..]
  {
    n := DealOfList(word, pos, cards, i, patience);
    DealListIsShuffle(ReadWords(word, pos, n), cards, i);
    KeptAreAccepted(ReadWords(word, pos, n), i);
  }

  /** So it holds each of 0..51 once. */
  lemma {:induction false} DealtDeckIsPermutation(word: nat -> nat, pos: nat, patience: nat)
    requires Deal(word, pos, Identity(DECK_SIZE), DECK_SIZE - 1, patience).Some?
    ensures multiset(Deal(word, pos, Identity(DECK_SIZE), DECK_SIZE - 1, patience).value)
            == multiset(Identity(DECK_SIZE))
  {
    var id := Identity(DECK_SIZE);
    var n := DealReadsAccepted(word, pos, id, DECK_SIZE - 1, patience);
    var js := Selected(Kept(ReadWords(word, pos, n), DECK_SIZE - 1));
    assert id[..DECK_SIZE] == id;
    ShufflePermutes(id, js);
    assert Shuffled(id, js) + id[DECK_SIZE..] == Shuffled(id, js);
  }

  // ----- Counting words, rejected ones included -----

  /** Words of length `n` from which `cards` is dealt into `p` by the rounds `i`, ..., 1. */
  ghost function Dealing<T(!new)>(n: nat, cards: seq<T>, i: nat, p: seq<T>): set<seq<nat>>
    requires i < |cards|
  {
    set ws | ws in AllWords(n) && DealList(ws, cards, i) == Some(p)
  }

  function Rejected(bound: nat): set<nat>
    requires bound > 0
  {
    Class(WORDS, 1, 0) - Class(Limit(bound), 1, 0)
  }

  /** Their number: a rejected first word leaves the rounds to do as they were, an accepted one finishes a round. */
  function Ways(n: nat, i: nat): nat
  {
    if i == 0 then |AllWords(n)|
    else if n == 0 then 0
    else Times(Ways(n - 1, i), |Rejected(i + 1)|) + Times(Ways(n - 1, i - 1), Quota(i + 1))
  }

  lemma {:induction false} DealListKeepsTop<T>(ws: seq<nat>, cards: seq<T>, i: nat)
    requires i < |cards| && DealList(ws, cards, i).Some?
    ensures |DealList(ws, cards, i).value| == |cards|
    ensures DealList(ws, cards, i).value[i + 1..] == cards[i + 1..]
    decreases |ws|
  {
    if i > 0 {
      if ws[0] < Limit(i + 1) {
        var t := Swap(cards, i, ws[0] % (i + 1));
        DealListKeepsTop(ws[1..], t, i - 1);
        assert forall k :: i < k < |cards| ==> DealList(ws, cards, i).value[i..][k - i] == t[i..][k - i] == cards[k];
      } else {
        DealListKeepsTop(ws[1..], cards, i);
      }
    }
  }

  /** The card that must go to place `i`. */
  ghost predicate Fetches<T>(cards: seq<T>, i: nat, p: seq<T>, r: nat)
  {
    r <= i < |cards| == |p| && cards[r] == p[i]
  }

  /** `p` can still be dealt from `cards`. */
  ghost predicate Reachable<T>(cards: seq<T>, i: nat, p: seq<T>)
  {
    && i < |cards| == |p| && AllDifferent(cards) && AllDifferent(p) && multiset(cards) == multiset(p)
    && forall k :: i < k < |p| ==> p[k] == cards[k]
  }

  lemma {:induction false} FetchOne<T>(cards: seq<T>, i: nat, p: seq<T>) returns (r: nat)
    requires Reachable(cards, i, p)
    ensures Fetches(cards, i, p, r)
  {
    assert p[i] in multiset(p);
    assert p[i] in multiset(cards);
    r :| 0 <= r < |cards| && cards[r] == p[i];
  }

  lemma {:induction false} StillReachable<T>(cards: seq<T>, i: nat, p: seq<T>, r: nat)
    requires i > 0 && Reachable(cards, i, p) && Fetches(cards, i, p, r)
    ensures Reachable(Swap(cards, i, r), i - 1, p)
  {
    SwapContents(cards, i, r);
  }

  /** The first word, used to deal `p`, is rejected or fetches the right card. */
  lemma {:induction false} FirstWord<T>(ws: seq<nat>, cards: seq<T>, i: nat, p: seq<T>, r: nat)
    requires 0 < i && |ws| > 0 && Reachable(cards, i, p) && Fetches(cards, i, p, r)
    ensures DealList(ws, cards, i) == Some(p) <==>
              || (ws[0] >= Limit(i + 1) && DealList(ws[1..], cards, i) == Some(p))
              || (ws[0] < Limit(i + 1) && ws[0] % (i + 1) == r
                && DealList(ws[1..], Swap(cards, i, r), i - 1) == Some(p))
  {
    if ws[0] < Limit(i + 1) {
      var j := ws[0] % (i + 1);
      var t := Swap(cards, i, j);
      if DealList(ws[1..], t, i - 1) == Some(p) {
        DealListKeepsTop(ws[1..], t, i - 1);
        assert p[i..][0] == t[i..][0];
        assert cards[j] == cards[r];
      }
    }
  }

  lemma {:induction false} DealingSplits<T(!new)>(n: nat, cards: seq<T>, i: nat, p: seq<T>, r: nat)
    requires n > 0 && i > 0 && Reachable(cards, i, p) && Fetches(cards, i, p, r)
    ensures var rejected := Prepend(Rejected(i + 1), Dealing(n - 1, cards, i, p));
            var accepted := Prepend(Row(false, i + 1, r), Dealing(n - 1, Swap(cards, i, r), i - 1, p));
            Dealing(n, cards, i, p) == rejected + accepted && rejected !! accepted
  {
    var later, now := Dealing(n - 1, cards, i, p), Dealing(n - 1, Swap(cards, i, r), i - 1, p);
    forall ws: seq<nat>
      ensures ws in Dealing(n, cards, i, p) <==>
                ws in Prepend(Rejected(i + 1), later) || ws in Prepend(Row(false, i + 1, r), now)
      ensures !(ws in Prepend(Rejected(i + 1), later) && ws in Prepend(Row(false, i + 1, r), now))
    {
      if |ws| > 0 {
        FirstWord(ws, cards, i, p, r);
        InPrepend(Rejected(i + 1), later, ws);
        InPrepend(Row(false, i + 1, r), now, ws);
        InPrepend(Class(WORDS, 1, 0), AllWords(n - 1), ws);
        LimitFits(i + 1);
      }
    }
  }

  lemma {:induction false} LastRound<T(!new)>(n: nat, cards: seq<T>, p: seq<T>)
    requires Reachable(cards, 0, p)
    ensures Dealing(n, cards, 0, p) == AllWords(n)
  {
    var r := FetchOne(cards, 0, p);
    assert p == cards;
  }

  lemma {:induction false} RowSize(bound: nat, r: nat)
    requires r < bound
    ensures |Row(false, bound, r)| == Quota(bound)
  {
    AcceptedWordsAreEven(bound, r);
  }

  lemma {:induction false} DealingStep<T(!new)>(n: nat, cards: seq<T>, i: nat, p: seq<T>, r: nat)
    requires n > 0 && i > 0 && Reachable(cards, i, p) && Fetches(cards, i, p, r)
    ensures |Dealing(n, cards, i, p)|
         == Times(|Dealing(n - 1, cards, i, p)|, |Rejected(i + 1)|)
            + Times(|Dealing(n - 1, Swap(cards, i, r), i - 1, p)|, Quota(i + 1))
  {
    DealingSplits(n, cards, i, p, r);
    RowSize(i + 1, r);
    TwoPrepends(Dealing(n, cards, i, p), Rejected(i + 1), Dealing(n - 1, cards, i, p),
                Row(false, i + 1, r), Dealing(n - 1, Swap(cards, i, r), i - 1, p));
  }

  ghost predicate Counted<T(!new)>(n: nat, cards: seq<T>, i: nat, p: seq<T>)
    requires i < |cards|
  {
    |Dealing(n, cards, i, p)| == Ways(n, i)
  }

  lemma {:induction false} CountedStep<T(!new)>(n: nat, cards: seq<T>, i: nat, p: seq<T>, r: nat)
    requires n > 0 && i > 0 && Reachable(cards, i, p) && Fetches(cards, i, p, r)
    requires Counted(n - 1, cards, i, p) && Counted(n - 1, Swap(cards, i, r), i - 1, p)
    ensures Counted(n, cards, i, p)
  {
    DealingStep(n, cards, i, p, r);
    WaysStep(n, i);
  }

  /** Equally many words deal every deck that can still be dealt. */
  lemma {:induction false} DealingSize<T(!new)>(n: nat, cards: seq<T>, i: nat, p: seq<T>)
    requires Reachable(cards, i, p)
    ensures Counted(n, cards, i, p)
    decreases n
  {
    if i == 0 {
      LastRound(n, cards, p);
    } else if n == 0 {
      NoWords(cards, i, p);
    } else {
      var r := FetchOne(cards, i, p);
      StillReachable(cards, i, p, r);
      DealingSize(n - 1, cards, i, p);
      DealingSize(n - 1, Swap(cards, i, r), i - 1, p);
      CountedStep(n, cards, i, p, r);
    }
  }

  lemma {:induction false} WaysStep(n: nat, i: nat)
    requires n > 0 && i > 0
    ensures Ways(n, i) == Times(Ways(n - 1, i), |Rejected(i + 1)|) + Times(Ways(n - 1, i - 1), Quota(i + 1))
  {
  }

  lemma {:induction false} NoWords<T(!new)>(cards: seq<T>, i: nat, p: seq<T>)
    requires 0 < i < |cards|
    ensures Dealing(0, cards, i, p) == {}
  {
  }

  lemma {:induction false} TwoPrepends(
      all: set<seq<nat>>, b: set<nat>, a: set<seq<nat>>, d: set<nat>, c: set<seq<nat>>)
    requires all == Prepend(b, a) + Prepend(d, c) && Prepend(b, a) !! Prepend(d, c)
    ensures |all| == Times(|a|, |b|) + Times(|c|, |d|)
  {
    PrependSize(b, a);
    PrependSize(d, c);
  }

  /** The dealer's shuffle is exactly fair: for every length, equally many sequences of words, rejected words
      included, deal any two permutations of the deck. */
  lemma {:induction false} StreamIsFair<T(!new)>(n: nat, s: seq<T>, p: seq<T>, q: seq<T>)
    requires |s| > 0 && AllDifferent(s) && multiset(p) == multiset(s) == multiset(q)
    ensures |Dealing(n, s, |s| - 1, p)| == |Dealing(n, s, |s| - 1, q)| == Ways(n, |s| - 1)
  {
    PermutationsDiffer(s, p);
    PermutationsDiffer(s, q);
    DealingSize(n, s, |s| - 1, p);
    DealingSize(n, s, |s| - 1, q);
  }

  lemma {:induction false} PermutationsDiffer<T>(s: seq<T>, p: seq<T>)
    requires |s| > 0 && AllDifferent(s) && multiset(p) == multiset(s)
    ensures Reachable(s, |s| - 1, p)
  {
    assert |p| == |multiset(p)| == |multiset(s)| == |s|;
    DifferentStays(s, p);
  }

  // ----- Fairness for the deck the dealer uses -----

  lemma {:induction false} DeckIsDealtFairly(n: nat, p: seq<nat>, q: seq<nat>)
    requires multiset(p) == multiset(Identity(DECK_SIZE)) == multiset(q)
    ensures |Dealing(n, Identity(DECK_SIZE), DECK_SIZE - 1, p)| == |Dealing(n, Identity(DECK_SIZE), DECK_SIZE - 1, q)|
  {
    StreamIsFair(n, Identity(DECK_SIZE), p, q);
  }

  // ----- The first card -----

  lemma {:induction false} DealKeepsAbove(word: nat -> nat, pos: nat, cards: seq<nat>, i: nat, patience: nat, k: nat)
    requires i < k < |cards| && Deal(word, pos, cards, i, patience).Some?
    ensures |Deal(word, pos, cards, i, patience).value| == |cards|
    ensures Deal(word, pos, cards, i, patience).value[k] == cards[k]
    decreases i
  {
    if i > 0 {
      var s := SampleAt(word, pos, i + 1, patience).value;
      DealKeepsAbove(word, s.1, Swap(cards, i, s.0), i - 1, patience, k);
    }
  }

  /** The last card of a dealt deck is drawn by the first word below the limit, taken modulo the number of cards. */
  lemma {:induction false} FirstAcceptedDrawsLast(word: nat -> nat, pos: nat, cards: seq<nat>, patience: nat)
      returns (p: nat)
    requires |cards| >= 2 && Deal(word, pos, cards, |cards| - 1, patience).Some?
    ensures var n := |cards|;
            && pos <= p && word(p) < WORDS / n * n && (forall k :: pos <= k < p ==> word(k) >= WORDS / n * n)
            && |Deal(word, pos, cards, n - 1, patience).value| == n
            && Deal(word, pos, cards, n - 1, patience).value[n - 1] == cards[word(p) % n]
  {
    var n := |cards|;
    p := FirstBelow(word, pos, Limit(n), patience).value;
    FirstBelowIsFirst(word, pos, Limit(n), patience);
    TimesIsProduct(WORDS / n, n);
    var s := SampleAt(word, pos, n, patience).value;
    if n > 2 {
      DealKeepsAbove(word, s.1, Swap(cards, n - 1, s.0), n - 2, patience, n - 1);
    }
  }
}
