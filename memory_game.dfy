/** The card-matching engine of `ui/games/MemoryGame.kt`: a `MemoryGame`
    object owning a deck of `MemoryCard` objects whose `isFlipped` and
    `isMatched` flags it sets in place, a selection of at most two cards, a
    score and a move count. */
module Memory {
  import opened Common

  const Emojis: seq<string> := ["A", "B", "C", "D", "E", "F", "G", "H"]

  /** The deck size `resetGame` produces. */
  const DeckSize: nat := 2 * |Emojis|

  class MemoryCard {
    const id: int
    const emoji: string
    var isFlipped: bool
    var isMatched: bool

    constructor (id: int, emoji: string)
      ensures this.id == id && this.emoji == emoji && !isFlipped && !isMatched
    {
      this.id := id;
      this.emoji := emoji;
      isFlipped := false;
      isMatched := false;
    }
  }

  function Symbol(c: MemoryCard): string { c.emoji }

  function Id(c: MemoryCard): int { c.id }

  /** The symbols in the order `resetGame` adds the cards: each one twice. */
  function Doubled(s: seq<string>): (r: seq<string>)
    ensures |r| == 2 * |s|
  {
    seq(2 * |s|, k requires 0 <= k < 2 * |s| => s[k / 2])
  }

  /** Every symbol occurs in the doubled sequence twice as often as in `s`. */
  lemma {:induction false} DoubledMultiset(s: seq<string>)
    ensures multiset(Doubled(s)) == multiset(s) + multiset(s)
  {
    if s != [] {
      DoubledMultiset(s[1..]);
      assert s == [s[0]] + s[1..];
      assert Doubled(s) == [s[0], s[0]] + Doubled(s[1..]);
    }
  }

  /** A doubled sequence of distinct symbols holds each of them exactly
      twice and nothing else. */
  lemma DoubledDistinctTwice(s: seq<string>, e: string)
    requires forall i, j :: 0 <= i < j < |s| ==> s[i] != s[j]
    ensures multiset(Doubled(s))[e] == if e in s then 2 else 0
  {
    DoubledMultiset(s);
    DistinctMultiplicity(s, e);
  }

  lemma EmojisDistinct()
    ensures forall i, j :: 0 <= i < j < |Emojis| ==> Emojis[i] != Emojis[j]
  {
    forall i, j | 0 <= i < j < |Emojis| ensures Emojis[i] != Emojis[j] {
      assert Emojis[i][0] != Emojis[j][0];
    }
  }

  function Range(n: nat): (r: seq<int>)
    ensures |r| == n && forall k :: 0 <= k < n ==> r[k] == k
  {
    seq(n, k => k)
  }

  /** A deck as `resetGame` deals it: 16 different cards, each symbol on
      exactly two of them.  Only the constant fields are involved, so no
      later flag change can break it. */
  ghost predicate DeckShape(cards: seq<MemoryCard>) {
    && |cards| == DeckSize
    && (forall i, j :: 0 <= i < j < |cards| ==> cards[i] != cards[j])
    && (forall e :: multiset(Map(Symbol, cards))[e] == if e in Emojis then 2 else 0)
  }

  class MemoryGame {
    var cards: seq<MemoryCard>
    var selectedCards: seq<MemoryCard>
    var score: int
    var moves: int

    /** The deck keeps its shape; the selection holds at most two different
        cards, all face up; while it holds fewer than two none of them is
        matched; each move adds at most 10 points. */
    ghost predicate Valid()
      reads this, selectedCards
    {
      && DeckShape(cards)
      && |selectedCards| <= 2
      && (|selectedCards| == 2 ==> selectedCards[0] != selectedCards[1])
      && (forall c :: c in selectedCards ==> c.isFlipped)
      && (|selectedCards| < 2 ==> forall c :: c in selectedCards ==> !c.isMatched)
      && 0 <= score <= 10 * moves
      && score % 10 == 0
    }

    /** A fresh deck as `resetGame` leaves it. */
    ghost predicate NewDeck(draws: seq<int>)
      reads this, cards
      requires ShuffleDraws(DeckSize, draws)
    {
      && |cards| == DeckSize
      && (forall i, j :: 0 <= i < j < |cards| ==> cards[i] != cards[j])
      && (forall c :: c in cards ==> !c.isFlipped && !c.isMatched)
      && Map(Id, cards) == Shuffled(Range(DeckSize), draws)
      && Map(Symbol, cards) == Shuffled(Doubled(Emojis), draws)
    }

    /** `MemoryGame()`: the initialiser calls `resetGame`. */
    constructor (draws: seq<int>)
      requires ShuffleDraws(DeckSize, draws)
      ensures Valid() && NewDeck(draws)
      ensures selectedCards == [] && score == 0 && moves == 0
    {
      cards := [];
      selectedCards := [];
      score := 0;
      moves := 0;
      new;
      ResetGame(draws);
    }

    /** `resetGame`: the deck refilled and shuffled; selection, score and
        moves cleared. */
    method ResetGame(draws: seq<int>)
      requires ShuffleDraws(DeckSize, draws)
      modifies this
      ensures Valid() && NewDeck(draws)
      ensures forall c :: c in cards ==> fresh(c)
      ensures selectedCards == [] && score == 0 && moves == 0
    {
      FillDeck();
      ghost var built := cards;
      ShuffleCards(draws);
      ShuffledDeck(built, draws);
      selectedCards := [];
      score := 0;
      moves := 0;
    }

    /** The loop of `resetGame`: for each symbol two new cards, numbered by
        the deck size at the time they are added. */
    method FillDeck()
      modifies this`cards
      ensures |cards| == DeckSize
      ensures forall k :: 0 <= k < |cards| ==> cards[k].id == k && cards[k].emoji == Emojis[k / 2]
      ensures forall k :: 0 <= k < |cards| ==> fresh(cards[k]) && !cards[k].isFlipped && !cards[k].isMatched
      ensures forall k, l :: 0 <= k < l < |cards| ==> cards[k] != cards[l]
    {
      cards := [];
      for i := 0 to |Emojis|
        invariant |cards| == 2 * i
        invariant forall k :: 0 <= k < |cards| ==> cards[k].id == k && cards[k].emoji == Emojis[k / 2]
        invariant forall k :: 0 <= k < |cards| ==> fresh(cards[k]) && !cards[k].isFlipped && !cards[k].isMatched
        invariant forall k, l :: 0 <= k < l < |cards| ==> cards[k] != cards[l]
      {
        var symbol := Emojis[i];
        var first := new MemoryCard(|cards|, symbol);
        cards := cards + [first];
        var second := new MemoryCard(|cards|, symbol);
        cards := cards + [second];
      }
    }

    /** `cards.shuffle()`, with the random choices `draws`. */
    method ShuffleCards(draws: seq<int>)
      requires ShuffleDraws(|cards|, draws)
      modifies this`cards
      ensures cards == Shuffled(old(cards), draws)
    {
      var k := 0;
      while k < |draws|
        invariant 0 <= k <= |draws| && |cards| == |old(cards)|
        invariant ShuffleFrom(cards, draws, k) == Shuffled(old(cards), draws)
      {
        cards := Swap(cards, |cards| - 1 - k, draws[k]);
        k := k + 1;
      }
    }

    /** The selection accepts `card` unless it is matched or face up, or a
        pair is already selected. */
    ghost predicate Accepts(card: MemoryCard)
      reads this, card
    {
      !card.isMatched && !card.isFlipped && |selectedCards| < 2
    }

    /** `selectCard`: returns true exactly when `card` completes a pair of
        equal symbols. */
    method SelectCard(card: MemoryCard) returns (matched: bool)
      requires Valid()
      modifies this, card, selectedCards
      ensures Valid()
      ensures cards == old(cards)
      ensures !old(Accepts(card)) ==>
        && !matched
        && selectedCards == old(selectedCards) && score == old(score) && moves == old(moves)
        && card.isFlipped == old(card.isFlipped) && card.isMatched == old(card.isMatched)
        && forall c :: c in selectedCards ==> c.isFlipped == old(c.isFlipped) && c.isMatched == old(c.isMatched)
      ensures old(Accepts(card)) ==>
        && card.isFlipped
        && selectedCards == old(selectedCards) + [card]
        && moves == old(moves) + (if |selectedCards| == 2 then 1 else 0)
        && (matched <==> |selectedCards| == 2 && selectedCards[0].emoji == card.emoji)
        && (matched ==> selectedCards[0].isMatched && card.isMatched && score == old(score) + 10)
        && (!matched ==> score == old(score) && !card.isMatched &&
                         forall c :: c in selectedCards ==> c.isMatched == old(c.isMatched))
    {
      if card.isMatched || card.isFlipped || |selectedCards| >= 2 {
        return false;
      }
      card.isFlipped := true;
      selectedCards := selectedCards + [card];
      if |selectedCards| == 2 {
        moves := moves + 1;
        matched := CheckMatch();
        return;
      }
      return false;
    }

    /** `checkMatch`: compares the two selected cards and, when their symbols
        agree, marks both matched and adds 10 points. */
    method CheckMatch() returns (isMatch: bool)
      requires |selectedCards| == 2 && selectedCards[0] != selectedCards[1]
      modifies this`score, selectedCards
      ensures isMatch <==> selectedCards[0].emoji == selectedCards[1].emoji
      ensures isMatch ==> selectedCards[0].isMatched && selectedCards[1].isMatched && score == old(score) + 10
      ensures !isMatch ==> score == old(score)
      ensures !isMatch ==> selectedCards[0].isMatched == old(selectedCards[0].isMatched)
      ensures !isMatch ==> selectedCards[1].isMatched == old(selectedCards[1].isMatched)
      ensures forall c :: c in selectedCards ==> c.isFlipped == old(c.isFlipped)
    {
      var card1, card2 := selectedCards[0], selectedCards[1];
      isMatch := card1.emoji == card2.emoji;
      if isMatch {
        card1.isMatched := true;
        card2.isMatched := true;
        score := score + 10;
      }
    }

    /** `unflipCards`: turns the selected cards face down and empties the
        selection; matched flags stay. */
    method UnflipCards()
      requires Valid()
      modifies this`selectedCards, selectedCards
      ensures Valid() && selectedCards == []
      ensures forall c :: c in old(selectedCards) ==> !c.isFlipped && c.isMatched == old(c.isMatched)
    {
      var selected := selectedCards;
      for i := 0 to |selected|
        invariant forall k :: 0 <= k < i ==> !selected[k].isFlipped
        invariant forall c :: c in selected ==> c.isMatched == old(c.isMatched)
      {
        selected[i].isFlipped := false;
      }
      selectedCards := [];
    }

    /** `getCards`: the deck, which always holds 16 different cards with
        each symbol on exactly two. */
    function GetCards(): (r: seq<MemoryCard>)
      reads this, selectedCards
      requires Valid()
      ensures |r| == DeckSize
      ensures forall i, j :: 0 <= i < j < |r| ==> r[i] != r[j]
      ensures forall e :: multiset(Map(Symbol, r))[e] == if e in Emojis then 2 else 0
    {
      cards
    }

    /** The score is a multiple of 10, at most 10 per move. */
    function GetScore(): (r: int)
      reads this, selectedCards
      requires Valid()
      ensures r % 10 == 0 && 0 <= r <= 10 * moves
    {
      score
    }

    function GetMoves(): (r: int)
      reads this, selectedCards
      requires Valid()
      ensures r >= 0 && score <= 10 * r
    {
      moves
    }

    /** `isGameComplete`: every card of the deck is matched. */
    function IsGameComplete(): (b: bool)
      reads this, cards
      ensures b <==> forall i :: 0 <= i < |cards| ==> cards[i].isMatched
    {
      forall c :: c in cards ==> c.isMatched
    }
  }

  /** A shuffle of distinct objects keeps them distinct. */
  lemma ShuffledDistinct(s: seq<MemoryCard>, draws: seq<int>)
    requires ShuffleDraws(|s|, draws)
    requires forall i, j :: 0 <= i < j < |s| ==> s[i] != s[j]
    ensures var r := Shuffled(s, draws); forall i, j :: 0 <= i < j < |r| ==> r[i] != r[j]
  {
    var r := Shuffled(s, draws);
    forall i, j | 0 <= i < j < |r| ensures r[i] != r[j] {
      if r[i] == r[j] {
        assert multiset(r)[r[i]] >= 2 by {
          assert r == r[..i] + [r[i]] + r[i + 1..j] + [r[j]] + r[j + 1..];
        }
        DistinctMultiplicity(s, r[i]);
      }
    }
  }

  /** The deck `resetGame` builds keeps, once shuffled, its distinct face-down
      cards; its ids and symbols are shuffled along with it. */
  lemma ShuffledDeck(built: seq<MemoryCard>, draws: seq<int>)
    requires |built| == DeckSize && ShuffleDraws(DeckSize, draws)
    requires forall k :: 0 <= k < |built| ==> built[k].id == k && built[k].emoji == Emojis[k / 2]
    requires forall k :: 0 <= k < |built| ==> !built[k].isFlipped && !built[k].isMatched
    requires forall k, l :: 0 <= k < l < |built| ==> built[k] != built[l]
    ensures var cards := Shuffled(built, draws);
      && (forall i, j :: 0 <= i < j < |cards| ==> cards[i] != cards[j])
      && (forall c :: c in cards ==> c in built && !c.isFlipped && !c.isMatched)
      && Map(Id, cards) == Shuffled(Range(DeckSize), draws)
      && Map(Symbol, cards) == Shuffled(Doubled(Emojis), draws)
      && DeckShape(cards)
  {
    var cards := Shuffled(built, draws);
    assert Map(Id, built) == Range(DeckSize);
    assert Map(Symbol, built) == Doubled(Emojis);
    ShuffledMap(Id, built, draws);
    ShuffledMap(Symbol, built, draws);
    ShuffledDistinct(built, draws);
    forall c | c in cards ensures c in built {
      assert c in multiset(cards);
    }
    NewDeckSymbols(cards, draws);
  }

  /** A freshly reset deck holds each symbol exactly twice. */
  lemma NewDeckSymbols(cards: seq<MemoryCard>, draws: seq<int>)
    requires ShuffleDraws(DeckSize, draws)
    requires Map(Symbol, cards) == Shuffled(Doubled(Emojis), draws)
    ensures forall e :: multiset(Map(Symbol, cards))[e] == if e in Emojis then 2 else 0
  {
    EmojisDistinct();
    var d := Doubled(Emojis);
    assert multiset(Map(Symbol, cards)) == multiset(d);
    forall e ensures multiset(Map(Symbol, cards))[e] == if e in Emojis then 2 else 0 {
      DoubledDistinctTwice(Emojis, e);
    }
  }

  /** A freshly reset deck is not complete. */
  lemma NewDeckIncomplete(g: MemoryGame, draws: seq<int>)
    requires ShuffleDraws(DeckSize, draws) && g.NewDeck(draws)
    ensures !g.IsGameComplete()
  {
    assert !g.cards[0].isMatched;
  }
}
