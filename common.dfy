/** Helpers shared by the screens: an optional value, the JVM's integer
    division, and the swap sequence that `java.util.Collections.shuffle`
    performs (Kotlin's `shuffle()` and `shuffled()` on the JVM delegate to it). */
module Common {

  /** Kotlin's nullable values (`Int?`, `Long?`). */
  datatype Option<T> = None | Some(value: T)

  /** Kotlin `/` on `Int`/`Long` (and `TimeUnit` conversions): truncates toward zero. */
  function Quot(a: int, b: int): (q: int)
    requires b > 0
    ensures a >= 0 ==> q == a / b
    ensures a < 0 ==> q <= 0
  {
    if a >= 0 then a / b else -((-a) / b)
  }

  /** Kotlin `%` on `Int`/`Long`: the remainder has the sign of the dividend. */
  function Rem(a: int, b: int): (r: int)
    requires b > 0
    ensures a == Quot(a, b) * b + r
    ensures a >= 0 ==> 0 <= r < b && r == a % b
    ensures a < 0 ==> -b < r <= 0
  {
    if a >= 0 then a % b else -((-a) % b)
  }

  // ---------------------------------------------------------------------
  // Shuffling.  `Collections.shuffle(list, rnd)` runs
  //   for (i = size; i > 1; i--) swap(list, i - 1, rnd.nextInt(i))
  // so the random source is the sequence of `nextInt` results, the k-th of
  // which lies in [0, size - k).
  // ---------------------------------------------------------------------

  /** The draws a shuffle of `n` elements consumes, each within its bound. */
  predicate ShuffleDraws(n: nat, draws: seq<int>) {
    |draws| == (if n == 0 then 0 else n - 1) &&
    forall k :: 0 <= k < |draws| ==> 0 <= draws[k] < n - k
  }

  function Swap<T>(s: seq<T>, i: nat, j: nat): (r: seq<T>)
    requires i < |s| && j < |s|
    ensures |r| == |s| && r[i] == s[j] && r[j] == s[i]
    ensures forall k :: 0 <= k < |s| && k != i && k != j ==> r[k] == s[k]
    ensures multiset(r) == multiset(s)
  {
    s[i := s[j]][j := s[i]]
  }

  /** The swaps of the shuffle from step `k` on: step `k` swaps position
      `|s| - 1 - k` with position `draws[k]`. */
  function ShuffleFrom<T>(s: seq<T>, draws: seq<int>, k: nat): (r: seq<T>)
    requires ShuffleDraws(|s|, draws) && k <= |draws|
    ensures |r| == |s|
    ensures multiset(r) == multiset(s)
    decreases |draws| - k
  {
    if k == |draws| then s
    else ShuffleFrom(Swap(s, |s| - 1 - k, draws[k]), draws, k + 1)
  }

  /** `s.shuffled()` for the random choices `draws`. */
  function Shuffled<T>(s: seq<T>, draws: seq<int>): (r: seq<T>)
    requires ShuffleDraws(|s|, draws)
    ensures |r| == |s| && multiset(r) == multiset(s)
  {
    ShuffleFrom(s, draws, 0)
  }

  /** `s.map(f)`. */
  function Map<T, U>(f: T -> U, s: seq<T>): (r: seq<U>)
    ensures |r| == |s| && forall i :: 0 <= i < |s| ==> r[i] == f(s[i])
  {
    seq(|s|, i requires 0 <= i < |s| => f(s[i]))
  }

  /** Mapping before or after shuffling gives the same sequence. */
  lemma {:induction false} ShuffleFromMap<T, U>(f: T -> U, s: seq<T>, draws: seq<int>, k: nat)
    requires ShuffleDraws(|s|, draws) && k <= |draws|
    ensures Map(f, ShuffleFrom(s, draws, k)) == ShuffleFrom(Map(f, s), draws, k)
    decreases |draws| - k
  {
    if k < |draws| {
      var i, j := |s| - 1 - k, draws[k];
      var m := Map(f, s);
      assert |m| == |s|;
      assert ShuffleFrom(s, draws, k) == ShuffleFrom(Swap(s, i, j), draws, k + 1);
      assert ShuffleFrom(m, draws, k) == ShuffleFrom(Swap(m, i, j), draws, k + 1);
      MapSwap(f, s, i, j);
      ShuffleFromMap(f, Swap(s, i, j), draws, k + 1);
    }
  }

  lemma MapSwap<T, U>(f: T -> U, s: seq<T>, i: nat, j: nat)
    requires i < |s| && j < |s|
    ensures Map(f, Swap(s, i, j)) == Swap(Map(f, s), i, j)
  {
  }

  lemma ShuffledMap<T, U>(f: T -> U, s: seq<T>, draws: seq<int>)
    requires ShuffleDraws(|s|, draws)
    ensures Map(f, Shuffled(s, draws)) == Shuffled(Map(f, s), draws)
  {
    ShuffleFromMap(f, s, draws, 0);
  }

  /** In a sequence without repetitions every value occurs at most once. */
  lemma {:induction false} DistinctMultiplicity<T>(s: seq<T>, x: T)
    requires forall i, j :: 0 <= i < j < |s| ==> s[i] != s[j]
    ensures multiset(s)[x] == if x in s then 1 else 0
  {
    if s != [] {
      DistinctMultiplicity(s[1..], x);
      assert s == [s[0]] + s[1..];
      assert s[0] !in s[1..];
    }
  }
}
