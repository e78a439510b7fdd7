/** The quote carousel of `ui/screens/PositiveQuotesScreen.kt`: a fixed list
    of quotes and the index of the one shown, moved forwards and backwards
    around the list. */
module PositiveQuotes {
  import opened Common

  const Quotes: seq<string> := [
    "Кожен день - це нова можливість стати кращим",
    "Ти сильніший, ніж думаєш",
    "Віра в себе - це половина успіху",
    "Кожна перешкода - це крок до успіху",
    "Ти можеш все, якщо тільки захочеш",
    "Навчання - це ключ до майбутнього",
    "Твої зусилля не будуть марними",
    "Кожен крок вперед - це перемога",
    "Ти маєш талант до успіху",
    "Віра в себе - це найкращий мотиватор"
  ]

  lemma TenQuotes()
    ensures |Quotes| == 10
  {
  }

  /** The forward buttons: `(i + 1) % n`. */
  function NextIndex(i: int, n: int): (r: int)
    requires n > 0
    ensures 0 <= i < n ==> 0 <= r < n
    ensures 0 <= i < n - 1 ==> r == i + 1
    ensures i == n - 1 ==> r == 0
  {
    Rem(i + 1, n)
  }

  /** The backward button: `(i - 1 + n) % n`. */
  function PrevIndex(i: int, n: int): (r: int)
    requires n > 0
    ensures 0 <= i < n ==> 0 <= r < n
    ensures 0 < i < n ==> r == i - 1
    ensures i == 0 ==> r == n - 1
  {
    Rem(i - 1 + n, n)
  }

  /** Back after forward, and forward after back, return to the same quote. */
  lemma PrevUndoesNext(i: int, n: int)
    requires 0 <= i < n
    ensures PrevIndex(NextIndex(i, n), n) == i
    ensures NextIndex(PrevIndex(i, n), n) == i
  {
  }

  /** The index after `k` forward clicks. */
  function NextTimes(i: int, n: int, k: nat): int
    requires n > 0
  {
    if k == 0 then i else NextIndex(NextTimes(i, n, k - 1), n)
  }

  /** Before the end of the list, `k` forward clicks advance by `k`. */
  lemma {:induction false} NextTimesAdvances(i: int, n: int, k: nat)
    requires 0 <= i && i + k < n
    ensures NextTimes(i, n, k) == i + k
  {
    if k > 0 {
      NextTimesAdvances(i, n, k - 1);
    }
  }

  /** `a + b` clicks are `a` clicks followed by `b` clicks. */
  lemma {:induction false} NextTimesCompose(i: int, n: int, a: nat, b: nat)
    requires n > 0
    ensures NextTimes(i, n, a + b) == NextTimes(NextTimes(i, n, a), n, b)
  {
    if b > 0 {
      NextTimesCompose(i, n, a, b - 1);
    }
  }

  /** As many forward clicks as there are quotes come back to the start. */
  lemma FullCycle(i: int, n: int)
    requires 0 <= i < n
    ensures NextTimes(i, n, n) == i
  {
    NextTimesAdvances(i, n, n - 1 - i);
    assert NextTimes(i, n, n - i) == 0;
    NextTimesCompose(i, n, n - i, i);
    NextTimesAdvances(0, n, i);
  }

  /** The remembered index of the screen. */
  class PositiveQuotesScreen {
    var currentQuoteIndex: int

    ghost predicate Valid()
      reads this
    {
      0 <= currentQuoteIndex < |Quotes|
    }

    constructor ()
      ensures Valid() && currentQuoteIndex == 0
    {
      currentQuoteIndex := 0;
    }

    /** The quote on the card. */
    function CurrentQuote(): (q: string)
      reads this
      requires Valid()
      ensures q in Quotes
    {
      Quotes[currentQuoteIndex]
    }

    /** Either forward button. */
    method Next()
      requires Valid()
      modifies this
      ensures Valid() && currentQuoteIndex == NextIndex(old(currentQuoteIndex), |Quotes|)
    {
      currentQuoteIndex := Rem(currentQuoteIndex + 1, |Quotes|);
    }

    /** The backward button. */
    method Previous()
      requires Valid()
      modifies this
      ensures Valid() && currentQuoteIndex == PrevIndex(old(currentQuoteIndex), |Quotes|)
    {
      currentQuoteIndex := Rem(currentQuoteIndex - 1 + |Quotes|, |Quotes|);
    }
  }
}
