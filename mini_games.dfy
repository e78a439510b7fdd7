/** The two games played inside `ui/screens/MiniGamesScreen.kt`: tic-tac-toe
    (`TicTacToeGame`, `checkWinner`) and the screen's own card-matching game
    (`MemoryGame`, `generateMemoryCards`) with its private `MemoryCard`,
    which is a different type from the one in `ui/games/MemoryGame.kt`. */
module MiniGames {
  import opened Common

  // ---------------------------------------------------------------------
  // Tic-tac-toe.  The source keeps the cells as strings "", "X" and "O".
  // ---------------------------------------------------------------------

  datatype Player = X | O

  datatype Cell = Empty | Mark(player: Player)

  function Other(p: Player): (q: Player)
    ensures q != p
  {
    if p == X then O else X
  }

  /** Cell `(row, col)` of the 3 x 3 board stored row by row. */
  function At(board: seq<Cell>, row: nat, col: nat): Cell
    requires |board| == 9 && row < 3 && col < 3
  {
    board[3 * row + col]
  }

  ghost predicate RowFull(board: seq<Cell>, p: Player, row: int)
    requires |board| == 9 && 0 <= row < 3
  {
    forall col :: 0 <= col < 3 ==> At(board, row, col) == Mark(p)
  }

  ghost predicate ColumnFull(board: seq<Cell>, p: Player, col: int)
    requires |board| == 9 && 0 <= col < 3
  {
    forall row :: 0 <= row < 3 ==> At(board, row, col) == Mark(p)
  }

  /** The `k`-th cell of the diagonal from the top right corner. */
  function AntiDiagonal(board: seq<Cell>, k: nat): Cell
    requires |board| == 9 && k < 3
  {
    At(board, k, 2 - k)
  }

  /** `p` fills a whole row, a whole column, or one of the two diagonals. */
  ghost predicate Wins(board: seq<Cell>, p: Player)
    requires |board| == 9
  {
    || (exists row :: 0 <= row < 3 && RowFull(board, p, row))
    || (exists col :: 0 <= col < 3 && ColumnFull(board, p, col))
    || (forall k :: 0 <= k < 3 ==> At(board, k, k) == Mark(p))
    || (forall k :: 0 <= k < 3 ==> AntiDiagonal(board, k) == Mark(p))
  }

  /** `checkWinner`: rows, then columns, then the diagonals, returning as
      soon as one is all `player`'s. */
  method CheckWinner(board: seq<Cell>, player: Player) returns (won: bool)
    requires |board| == 9
    ensures won <==> Wins(board, player)
  {
    var p := Mark(player);
    var i := 0;
    ghost var row := 0;
    while i <= 6
      invariant 0 <= row <= 3 && i == 3 * row
      invariant forall r :: 0 <= r < row ==> !RowFull(board, player, r)
    {
      if board[i] == p && board[i + 1] == p && board[i + 2] == p {
        assert At(board, row, 0) == p && At(board, row, 1) == p && At(board, row, 2) == p;
        assert RowFull(board, player, row);
        return true;
      }
      assert At(board, row, 0) != p || At(board, row, 1) != p || At(board, row, 2) != p;
      i, row := i + 3, row + 1;
    }
    for i := 0 to 3
      invariant forall c :: 0 <= c < i ==> !ColumnFull(board, player, c)
    {
      if board[i] == p && board[i + 3] == p && board[i + 6] == p {
        assert At(board, 0, i) == p && At(board, 1, i) == p && At(board, 2, i) == p;
        assert ColumnFull(board, player, i);
        return true;
      }
      assert At(board, 0, i) != p || At(board, 1, i) != p || At(board, 2, i) != p;
    }
    if board[0] == p && board[4] == p && board[8] == p {
      assert At(board, 0, 0) == p && At(board, 1, 1) == p && At(board, 2, 2) == p;
      return true;
    }
    if board[2] == p && board[4] == p && board[6] == p {
      assert AntiDiagonal(board, 0) == p && AntiDiagonal(board, 1) == p && AntiDiagonal(board, 2) == p;
      return true;
    }
    assert At(board, 0, 0) != p || At(board, 1, 1) != p || At(board, 2, 2) != p;
    assert AntiDiagonal(board, 0) != p || AntiDiagonal(board, 1) != p || AntiDiagonal(board, 2) != p;
    return false;
  }

  /** Writing one player's mark cannot complete a line for the other one. */
  lemma MarkKeepsOtherWins(board: seq<Cell>, index: nat, p: Player, q: Player)
    requires |board| == 9 && index < 9 && p != q
    ensures Wins(board[index := Mark(p)], q) ==> Wins(board, q)
  {
    var b := board[index := Mark(p)];
    assert forall r, c :: 0 <= r < 3 && 0 <= c < 3 && At(b, r, c) == Mark(q) ==> At(board, r, c) == Mark(q);
    if Wins(b, q) {
      if exists row :: 0 <= row < 3 && RowFull(b, q, row) {
        var row :| 0 <= row < 3 && RowFull(b, q, row);
        assert RowFull(board, q, row);
      } else if exists col :: 0 <= col < 3 && ColumnFull(b, q, col) {
        var col :| 0 <= col < 3 && ColumnFull(b, q, col);
        assert ColumnFull(board, q, col);
      } else if forall k :: 0 <= k < 3 ==> At(b, k, k) == Mark(q) {
        assert forall k :: 0 <= k < 3 ==> At(board, k, k) == Mark(q);
      } else {
        forall k | 0 <= k < 3 ensures AntiDiagonal(board, k) == Mark(q) {
          assert AntiDiagonal(b, k) == At(b, k, 2 - k) == Mark(q);
        }
      }
    }
  }


  function Count(board: seq<Cell>, p: Player): (n: nat)
    ensures n <= |board|
  {
    if board == [] then 0 else (if board[0] == Mark(p) then 1 else 0) + Count(board[1..], p)
  }

  /** Marking an empty cell raises that player's count by one and leaves the
      other player's count alone. */
  lemma {:induction false} CountMark(board: seq<Cell>, index: nat, p: Player, q: Player)
    requires index < |board| && board[index] == Empty
    ensures Count(board[index := Mark(p)], q) == Count(board, q) + (if p == q then 1 else 0)
  {
    if index > 0 {
      CountMark(board[1..], index - 1, p, q);
      assert board[index := Mark(p)][1..] == board[1..][index - 1 := Mark(p)];
    } else {
      assert board[index := Mark(p)][1..] == board[1..];
    }
  }

  /** Every cell holds a mark exactly when the two players' marks add up
      to the board size. */
  lemma {:induction false} CountsFill(board: seq<Cell>)
    ensures Count(board, X) + Count(board, O) <= |board|
    ensures (forall k :: 0 <= k < |board| ==> board[k] != Empty) <==> Count(board, X) + Count(board, O) == |board|
  {
    if board != [] {
      CountsFill(board[1..]);
      assert forall k :: 1 <= k < |board| ==> board[k] == board[1..][k - 1];
      if board[0] == Empty {
        assert Count(board, X) + Count(board, O) == Count(board[1..], X) + Count(board[1..], O);
      } else {
        if board[0] == Mark(X) {
          assert Count(board, X) == 1 + Count(board[1..], X);
          assert Count(board, O) == Count(board[1..], O);
        } else {
          assert board[0] == Mark(O) by { assert board[0].player != X; }
          assert Count(board, X) == Count(board[1..], X);
          assert Count(board, O) == 1 + Count(board[1..], O);
        }
      }
    }
  }

  /** `newBoard.all { it.isNotEmpty() }`: no cell is empty, which happens
      exactly when the marks of both players cover the board. */
  function Full(board: seq<Cell>): (b: bool)
    ensures b <==> Count(board, X) + Count(board, O) == |board|
  {
    CountsFill(board);
    forall k :: 0 <= k < |board| ==> board[k] != Empty
  }

  function EmptyBoard(): (b: seq<Cell>)
    ensures |b| == 9 && forall k :: 0 <= k < 9 ==> b[k] == Empty
  {
    seq(9, _ => Empty)
  }

  lemma {:induction false} CountEmpty(board: seq<Cell>, p: Player)
    requires forall k :: 0 <= k < |board| ==> board[k] == Empty
    ensures Count(board, p) == 0
  {
    if board != [] {
      CountEmpty(board[1..], p);
    }
  }

  /** An empty board has no winner. */
  lemma EmptyBoardNoWinner(p: Player)
    ensures !Wins(EmptyBoard(), p)
  {
    var e := EmptyBoard();
    forall k | 0 <= k < 3 ensures !RowFull(e, p, k) && !ColumnFull(e, p, k) {
      assert At(e, k, 0) == Empty && At(e, 0, k) == Empty;
    }
    assert At(e, 0, 0) == Empty && AntiDiagonal(e, 0) == Empty;
  }

  /** The remembered state of `TicTacToeGame`. */
  class TicTacToeGame {
    var board: seq<Cell>
    var currentPlayer: Player
    var winner: Option<Player>
    var isGameOver: bool

    /** A player has a line exactly when it is the recorded winner; the game
        is over once someone wins or the board is full; X moves first, so X
        has as many marks as O, or one more when X moved last. */
    ghost predicate Valid()
      reads this
    {
      && |board| == 9
      && (Wins(board, X) <==> winner == Some(X))
      && (Wins(board, O) <==> winner == Some(O))
      && (winner.Some? ==> isGameOver)
      && (isGameOver <==> winner.Some? || Full(board))
      && var lastMover := if isGameOver then currentPlayer else Other(currentPlayer);
         Count(board, X) == Count(board, O) + (if lastMover == X then 1 else 0)
    }

    ghost predicate Fresh()
      reads this
    {
      board == EmptyBoard() && currentPlayer == X && winner == None && !isGameOver
    }

    constructor ()
      ensures Valid() && Fresh()
    {
      board := EmptyBoard();
      currentPlayer := X;
      winner := None;
      isGameOver := false;
      new;
      NewGameValid();
    }

    /** A click on cell `index`: ignored once the game is over or on a marked
        cell; otherwise the current player's mark goes there, and the mover
        wins, or the full board ends the game, or the turn passes. */
    method Click(index: nat)
      requires Valid() && index < 9
      modifies this
      ensures Valid()
      ensures old(isGameOver || board[index] != Empty) ==>
        board == old(board) && currentPlayer == old(currentPlayer) &&
        winner == old(winner) && isGameOver == old(isGameOver)
      ensures !old(isGameOver || board[index] != Empty) ==>
        var mover := old(currentPlayer);
        && board == old(board)[index := Mark(mover)]
        && (Wins(board, mover) ==> winner == Some(mover) && isGameOver && currentPlayer == mover)
        && (!Wins(board, mover) && Full(board) ==> winner == None && isGameOver && currentPlayer == mover)
        && (!Wins(board, mover) && !Full(board) ==> winner == None && !isGameOver && currentPlayer == Other(mover))
    {
      if !isGameOver && board[index] == Empty {
        var mover := currentPlayer;
        var newBoard := board[index := Mark(mover)];
        CountMark(board, index, mover, X);
        CountMark(board, index, mover, O);
        MarkKeepsOtherWins(board, index, mover, Other(mover));
        board := newBoard;
        var won := CheckWinner(newBoard, mover);
        if won {
          winner := Some(mover);
          isGameOver := true;
        } else if Full(newBoard) {
          isGameOver := true;
        } else {
          currentPlayer := Other(mover);
        }
      }
    }

    /** The "new game" button. */
    method NewGame()
      modifies this
      ensures Valid() && Fresh()
    {
      board := EmptyBoard();
      currentPlayer := X;
      winner := None;
      isGameOver := false;
      NewGameValid();
    }

    lemma NewGameValid()
      requires Fresh()
      ensures Valid()
    {
      EmptyBoardNoWinner(X);
      EmptyBoardNoWinner(O);
      CountEmpty(board, X);
      CountEmpty(board, O);
      assert !Full(board) by { assert board[0] == Empty; }
    }
  }

  /** Whatever the clicks, both players never hold a line at the same time. */
  lemma AtMostOneWinner(g: TicTacToeGame)
    requires g.Valid()
    ensures !(Wins(g.board, X) && Wins(g.board, O))
  {
  }

  // ---------------------------------------------------------------------
  // The screen's card-matching game.
  // ---------------------------------------------------------------------

  const Emojis: seq<string> := ["\U{1F31F}", "\U{1F3AE}", "\U{1F3A8}", "\U{1F3B5}",
                                "\U{1F308}", "\U{1F4DA}", "\U{1F3AA}", "\U{1F3AD}"]

  const DeckSize: nat := 2 * |Emojis|

  datatype MemoryCard = MemoryCard(value: string, isFlipped: bool, isMatched: bool)

  function Value(c: MemoryCard): string { c.value }

  function FaceDown(v: string): MemoryCard { MemoryCard(v, false, false) }

  lemma EmojisDistinct()
    ensures forall i, j :: 0 <= i < j < |Emojis| ==> Emojis[i] != Emojis[j]
  {
    forall i, j | 0 <= i < j < |Emojis| ensures Emojis[i] != Emojis[j] {
      assert Emojis[i][0] != Emojis[j][0];
    }
  }

  /** `generateMemoryCards`: every symbol twice, shuffled, all face down. */
  function GenerateMemoryCards(draws: seq<int>): (r: seq<MemoryCard>)
    requires ShuffleDraws(DeckSize, draws)
    ensures |r| == DeckSize
    ensures forall c :: c in r ==> !c.isFlipped && !c.isMatched
    ensures forall v :: multiset(Map(Value, r))[v] == if v in Emojis then 2 else 0
  {
    var values := Shuffled(Emojis + Emojis, draws);
    var r := Map(FaceDown, values);
    assert Map(Value, r) == values;
    EmojisDistinct();
    forall v ensures multiset(values)[v] == if v in Emojis then 2 else 0 {
      DistinctMultiplicity(Emojis, v);
    }
    r
  }

  /** The number of matched cards. */
  function CountMatched(cards: seq<MemoryCard>): (n: nat)
    ensures n <= |cards|
  {
    if cards == [] then 0 else (if cards[0].isMatched then 1 else 0) + CountMatched(cards[1..])
  }

  lemma {:induction false} AllMatchedIsFullCount(cards: seq<MemoryCard>)
    ensures (forall i :: 0 <= i < |cards| ==> cards[i].isMatched) <==> CountMatched(cards) == |cards|
  {
    if cards != [] {
      AllMatchedIsFullCount(cards[1..]);
      assert forall i :: 1 <= i < |cards| ==> cards[i] == cards[1..][i - 1];
    }
  }

  /** `cards.all { it.isMatched }`, the condition for the "new game"
      button: the matched count has reached the deck size. */
  function AllMatched(cards: seq<MemoryCard>): (b: bool)
    ensures b <==> CountMatched(cards) == |cards|
  {
    AllMatchedIsFullCount(cards);
    forall i :: 0 <= i < |cards| ==> cards[i].isMatched
  }

  /** Once the two selected cards are either both matched or both face
      down, no face-up card is left unmatched. */
  lemma SelectionResolved(cards: seq<MemoryCard>, deck: seq<MemoryCard>, f: int, s: int)
    requires 0 <= f < |cards| && 0 <= s < |cards| && |deck| == |cards|
    requires forall i :: 0 <= i < |cards| ==>
      (cards[i].isFlipped && !cards[i].isMatched <==> i == f || i == s)
    requires forall i :: 0 <= i < |cards| ==> cards[i].isMatched ==> cards[i].isFlipped
    requires forall i :: 0 <= i < |cards| && i != f && i != s ==> deck[i] == cards[i]
    requires (deck[f].isMatched && deck[f].isFlipped && deck[s].isMatched && deck[s].isFlipped)
      || (!deck[f].isMatched && !deck[f].isFlipped && !deck[s].isMatched && !deck[s].isFlipped)
    ensures forall i :: 0 <= i < |deck| ==> !(deck[i].isFlipped && !deck[i].isMatched)
    ensures forall i :: 0 <= i < |deck| ==> deck[i].isMatched ==> deck[i].isFlipped
  {
  }

  /** Card `j` is a matched partner of card `i`. */
  ghost predicate PartnerAt(cards: seq<MemoryCard>, i: int, j: int)
    requires 0 <= i < |cards|
  {
    0 <= j < |cards| && j != i && cards[j].isMatched && cards[j].value == cards[i].value
  }

  ghost predicate HasPartner(cards: seq<MemoryCard>, i: int)
    requires 0 <= i < |cards|
  {
    exists j :: PartnerAt(cards, i, j)
  }

  /** Every matched card has a matched partner with the same value. */
  ghost predicate MatchedInPairs(cards: seq<MemoryCard>) {
    forall i {:trigger HasPartner(cards, i)} :: 0 <= i < |cards| && cards[i].isMatched ==> HasPartner(cards, i)
  }

  /** Changes that keep every value and every matched flag keep the pairs. */
  lemma PairsKeptByFlips(a: seq<MemoryCard>, b: seq<MemoryCard>)
    requires |a| == |b| && MatchedInPairs(a)
    requires forall i :: 0 <= i < |a| ==> b[i].value == a[i].value && b[i].isMatched == a[i].isMatched
    ensures MatchedInPairs(b)
  {
    forall i | 0 <= i < |b| && b[i].isMatched
      ensures HasPartner(b, i)
    {
      assert HasPartner(a, i);
      var j :| PartnerAt(a, i, j);
      assert PartnerAt(b, i, j);
    }
  }

  /** Marking two different cards of equal value matched keeps the pairs. */
  lemma PairsKeptByMatch(a: seq<MemoryCard>, f: nat, s: nat)
    requires f < |a| && s < |a| && f != s && a[f].value == a[s].value && MatchedInPairs(a)
    ensures MatchedInPairs(a[f := a[f].(isMatched := true)][s := a[s].(isMatched := true)])
  {
    var b := a[f := a[f].(isMatched := true)][s := a[s].(isMatched := true)];
    forall i | 0 <= i < |b| && b[i].isMatched
      ensures HasPartner(b, i)
    {
      if i == f {
        assert PartnerAt(b, i, s);
      } else if i == s {
        assert PartnerAt(b, i, f);
      } else {
        assert HasPartner(a, i);
        var j :| PartnerAt(a, i, j);
        assert PartnerAt(b, i, j);
      }
    }
  }

  /** Changing one card changes the matched count by that card's change. */
  lemma {:induction false} CountMatchedUpdate(cards: seq<MemoryCard>, i: nat, c: MemoryCard)
    requires i < |cards|
    ensures CountMatched(cards[i := c]) + (if cards[i].isMatched then 1 else 0) ==
            CountMatched(cards) + (if c.isMatched then 1 else 0)
  {
    if i > 0 {
      CountMatchedUpdate(cards[1..], i - 1, c);
      assert cards[i := c][1..] == cards[1..][i - 1 := c];
    } else {
      assert cards[i := c][1..] == cards[1..];
    }
  }

  lemma {:induction false} CountMatchedNone(cards: seq<MemoryCard>)
    requires forall c :: c in cards ==> !c.isMatched
    ensures CountMatched(cards) == 0
  {
    if cards != [] {
      CountMatchedNone(cards[1..]);
    }
  }

  /** The remembered state of the screen's `MemoryGame`. */
  class MemoryGame {
    var cards: seq<MemoryCard>
    var firstCard: Option<int>
    var secondCard: Option<int>
    var canFlip: bool

    /** Clicks are blocked exactly while a second card waits to be resolved;
        the face-up unmatched cards are exactly the selected ones; matched
        cards stay face up, their number is even, and each has a matched
        partner of the same value. */
    ghost predicate Valid()
      reads this
    {
      && (canFlip <==> secondCard.None?)
      && (secondCard.Some? ==> firstCard.Some? && firstCard != secondCard)
      && (firstCard.Some? ==> 0 <= firstCard.value < |cards|)
      && (secondCard.Some? ==> 0 <= secondCard.value < |cards|)
      && (forall i :: 0 <= i < |cards| ==>
            (cards[i].isFlipped && !cards[i].isMatched <==> firstCard == Some(i) || secondCard == Some(i)))
      && (forall i :: 0 <= i < |cards| ==> cards[i].isMatched ==> cards[i].isFlipped)
      && CountMatched(cards) % 2 == 0
      && MatchedInPairs(cards)
    }

    constructor (draws: seq<int>)
      requires ShuffleDraws(DeckSize, draws)
      ensures Valid() && cards == GenerateMemoryCards(draws)
      ensures firstCard == None && secondCard == None && canFlip
    {
      cards := GenerateMemoryCards(draws);
      firstCard := None;
      secondCard := None;
      canFlip := true;
      new;
      CountMatchedNone(cards);
    }

    /** A click is taken only while clicks are allowed and on a face-down,
        unmatched card. */
    ghost predicate Takes(index: int)
      reads this
      requires 0 <= index < |cards|
    {
      canFlip && !cards[index].isMatched && !cards[index].isFlipped
    }

    /** A click on card `index`: the first click flips it and records it as
        `firstCard`; the second flips it, records it as `secondCard` and blocks
        further clicks until `Resolve`. */
    method Click(index: int)
      requires Valid() && 0 <= index < |cards|
      modifies this
      ensures Valid() && Map(Value, cards) == old(Map(Value, cards))
      ensures !old(Takes(index)) ==>
        cards == old(cards) && firstCard == old(firstCard) &&
        secondCard == old(secondCard) && canFlip == old(canFlip)
      ensures old(Takes(index)) ==>
        cards == old(cards)[index := old(cards)[index].(isFlipped := true)]
      ensures old(Takes(index)) && old(firstCard) == None ==>
        firstCard == Some(index) && secondCard == None && canFlip
      ensures old(Takes(index)) && old(firstCard) != None ==>
        firstCard == old(firstCard) && secondCard == Some(index) && !canFlip
    {
      if canFlip && !cards[index].isMatched && !cards[index].isFlipped {
        CountMatchedUpdate(cards, index, cards[index].(isFlipped := true));
        PairsKeptByFlips(cards, cards[index := cards[index].(isFlipped := true)]);
        if firstCard == None {
          firstCard := Some(index);
          cards := cards[index := cards[index].(isFlipped := true)];
        } else if secondCard == None && firstCard != Some(index) {
          secondCard := Some(index);
          canFlip := false;
          cards := cards[index := cards[index].(isFlipped := true)];
        }
      }
    }

    /** The coroutine the second click launches, after its delay: equal
        values are both marked matched, different ones are both turned face
        down; then the selection is cleared and clicks are allowed again. */
    method Resolve()
      requires Valid() && secondCard.Some?
      modifies this
      ensures Valid() && Map(Value, cards) == old(Map(Value, cards))
      ensures firstCard == None && secondCard == None && canFlip
      ensures var f, s := old(firstCard.value), old(secondCard.value);
        if old(cards[f].value == cards[s].value) then
          cards == old(cards)[f := old(cards[f]).(isMatched := true)][s := old(cards[s]).(isMatched := true)]
        else
          cards == old(cards)[f := old(cards[f]).(isFlipped := false)][s := old(cards[s]).(isFlipped := false)]
    {
      var f, s := firstCard.value, secondCard.value;
      var deck: seq<MemoryCard>;
      if cards[f].value == cards[s].value {
        var afterFirst := cards[f := cards[f].(isMatched := true)];
        deck := afterFirst[s := afterFirst[s].(isMatched := true)];
        CountMatchedUpdate(cards, f, cards[f].(isMatched := true));
        CountMatchedUpdate(afterFirst, s, afterFirst[s].(isMatched := true));
        PairsKeptByMatch(cards, f, s);
        SelectionResolved(cards, deck, f, s);
      } else {
        var afterFirst := cards[f := cards[f].(isFlipped := false)];
        deck := afterFirst[s := afterFirst[s].(isFlipped := false)];
        CountMatchedUpdate(cards, f, cards[f].(isFlipped := false));
        CountMatchedUpdate(afterFirst, s, afterFirst[s].(isFlipped := false));
        PairsKeptByFlips(cards, deck);
        SelectionResolved(cards, deck, f, s);
      }
      cards := deck;
      firstCard := None;
      secondCard := None;
      canFlip := true;
    }

    /** The "new game" button, shown once every card is matched. */
    method NewGame(draws: seq<int>)
      requires ShuffleDraws(DeckSize, draws)
      modifies this
      ensures Valid() && cards == GenerateMemoryCards(draws)
      ensures firstCard == None && secondCard == None && canFlip
    {
      var deck := GenerateMemoryCards(draws);
      CountMatchedNone(deck);
      cards := deck;
      firstCard := None;
      secondCard := None;
      canFlip := true;
    }
  }
}
