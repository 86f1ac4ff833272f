/** Cards and the engine's deck: packages/game-rules/src/cards.ts. Ranks are 2..14, suits 0..3. */
module Cards {
  import opened Prelude
  import opened Shuffle

  datatype Card = Card(rank: nat, suit: nat)

  predicate RealCard(c: Card)
  {
    2 <= c.rank <= 14 && c.suit <= 3
  }

  /** `cardCode`: suit-major code of a card. */
  function CardCode(c: Card): (code: int)
  {
    c.suit * 13 + c.rank - 2
  }

  /** `cardFromCode`; None where the source throws. */
  function CardFromCode(code: int): (r: Option<Card>)
  {
    if 0 <= code <= 51 then Some(Card(code % 13 + 2, code / 13)) else None
  }

  /** Codes 0..51 and cards correspond one to one. */
  lemma {:induction false} CodesAndCards(c: Card, code: int)
    ensures RealCard(c) ==> CardFromCode(CardCode(c)) == Some(c)
    ensures 0 <= code <= 51 ==> RealCard(CardFromCode(code).value) && CardCode(CardFromCode(code).value) == code
  {
    if RealCard(c) {
      ModUnique(CardCode(c), 13, c.suit, c.rank - 2);
    }
  }

  function FullDeck(): (r: seq<Card>)
    ensures |r| == 52
  {
    seq(52, k requires 0 <= k < 52 => CardFromCode(k).value)
  }

  /** The source's nested loops. */
  method BuildDeck() returns (deck: seq<Card>)
    ensures deck == FullDeck()
  {
    deck := [];
    for suit := 0 to 4
      invariant deck == FullDeck()[..13 * suit]
    {
      for rank := 2 to 15
        invariant deck == FullDeck()[..13 * suit + rank - 2]
      {
        NextCard(suit, rank);
        deck := deck + [Card(rank, suit)];
      }
    }
  }

  lemma {:induction false} NextCard(suit: nat, rank: nat)
    requires suit <= 3 && 2 <= rank <= 14
    ensures FullDeck()[..13 * suit + rank - 2] + [Card(rank, suit)] == FullDeck()[..13 * suit + rank - 1]
  {
    var k := 13 * suit + rank - 2;
    CodesAndCards(Card(rank, suit), 0);
    assert FullDeck()[k] == Card(rank, suit);
    assert FullDeck()[..k + 1] == FullDeck()[..k] + [FullDeck()[k]];
  }

  /** The deck holds every card, once. */
  lemma {:induction false} DeckHasNoRepeats()
    ensures AllDifferent(FullDeck())
  {
    forall i, j | 0 <= i < j < 52
      ensures FullDeck()[i] != FullDeck()[j]
    {
      CodesDiffer(i, j);
    }
  }

  lemma {:induction false} CodesDiffer(i: nat, j: nat)
    requires i < j < 52
    ensures FullDeck()[i] != FullDeck()[j]
  {
    CodesAndCards(Card(2, 0), i);
    CodesAndCards(Card(2, 0), j);
  }

  /** `shuffleDeck`, for an arbitrary word stream: `words[k]` is the HMAC word of counter `k`, and its plain
      remainder picks the card for place `51 - k`. */
  function ShuffledDeck(words: seq<nat>): (r: seq<Card>)
    requires |words| >= 51
    ensures |r| == 52
  {
    Shuffled(FullDeck(), Selected(words[..51]))
  }

  /** The source's loop: the next word at each step, from the last card down. */
  method ShuffleDeck(words: seq<nat>) returns (deck: seq<Card>)
    requires |words| >= 51
    ensures deck == ShuffledDeck(words)
  {
    var full := BuildDeck();
    var cards := new Card[52](i requires 0 <= i < 52 => full[i]);
    assert cards[..] == FullDeck();
    ghost var js := Selected(words[..51]);
    LoopIsShuffle(FullDeck(), js);
    var i, counter := 51, 0;
    while i > 0
      invariant 0 <= i <= 51 && counter == 51 - i
      invariant SwapDown(cards[..], js, i) == ShuffledDeck(words)
    {
      SelectedAt(words, js, i);
      var j := words[counter] % (i + 1);
      counter := counter + 1;
      SwapInPlace(cards, i, j);
      i := i - 1;
    }
    return cards[..];
  }

  lemma {:induction false} SelectedAt(words: seq<nat>, js: seq<nat>, i: nat)
    requires |words| >= 51 && js == Selected(words[..51]) && 0 < i <= 51
    ensures js[i] == words[51 - i] % (i + 1) <= i
  {
  }

  ghost predicate IsDeck(deck: seq<Card>)
  {
    |deck| == 52 && multiset(deck) == multiset(FullDeck())
  }

  /** Whatever the stream, the result is the full deck in some order. */
  lemma {:induction false} ShuffledDeckIsDeck(words: seq<nat>)
    requires |words| >= 51
    ensures IsDeck(ShuffledDeck(words))
  {
    ShufflePermutes(FullDeck(), Selected(words[..51]));
  }

  /** A permutation of the deck has no card twice. */
  lemma {:induction false} DecksHaveNoRepeats(deck: seq<Card>)
    requires IsDeck(deck)
    ensures AllDifferent(deck)
  {
    DeckHasNoRepeats();
    DifferentStays(FullDeck(), deck);
  }

  // ----- The engine's shuffle is not fair -----

  /** The sequences of 51 words for which `shuffleDeck` returns `deck`. */
  ghost function WordsGiving(deck: seq<Card>): set<seq<nat>>
  {
    set ws | ws in AllWords(51) && |ws| >= 51 && ShuffledDeck(ws) == deck
  }

  lemma {:induction false} WordsGivingCount(deck: seq<Card>)
    ensures WordsGiving(deck) == Producing(FullDeck(), deck, true)
  {
    forall ws: seq<nat>
      ensures ws in WordsGiving(deck) <==> ws in Producing(FullDeck(), deck, true)
    {
      InAllWords(51, ws);
      if |ws| == 51 {
        assert ws[..51] == ws;
      }
    }
  }

  /** Plain remainders give some orders of the deck more often than others: here are two that differ. */
  lemma {:induction false} EngineShuffleIsUnfair() returns (p: seq<Card>, q: seq<Card>)
    ensures IsDeck(p) && IsDeck(q)
    ensures |WordsGiving(p)| > |WordsGiving(q)| > 0
  {
    DeckHasNoRepeats();
    p, q := PlainFavours(FullDeck());
    assert |p| == |multiset(p)| == |FullDeck()| && |q| == |multiset(q)| == |FullDeck()|;
    WordsGivingCount(p);
    WordsGivingCount(q);
  }

  /** Cards are coded suit by suit, each suit from the deuce up to the ace. */
  lemma {:induction false} CodesRunThroughSuits(c: Card, d: Card)
    requires RealCard(c) && RealCard(d)
    ensures CardCode(c) < CardCode(d) <==> c.suit < d.suit || (c.suit == d.suit && c.rank < d.rank)
    ensures CardCode(Card(2, 0)) == 0
  {
  }

  /** The first word draws the last card of the deck. */
  lemma {:induction false} FirstWordDrawsLast(words: seq<nat>)
    requires |words| >= 51
    ensures ShuffledDeck(words)[51] == FullDeck()[words[0] % 52]
  {
    LastIsDrawn(FullDeck(), Selected(words[..51]));
  }
}
