/** The sleep and meditation timer of `ui/screens/TimerScreen.kt`: six fixed
    durations, a countdown that the screen's `LaunchedEffect` runs one second
    at a time, and the `HH:MM:SS` text of `formatTime`. */
module Timer {
  import opened Common

  // ---------------------------------------------------------------------
  // `formatTime`: `TimeUnit.SECONDS.toHours(s)`, `toMinutes(s) % 60` and
  // `s % 60`, each printed with `%02d`.
  // ---------------------------------------------------------------------

  function DigitChar(d: nat): (c: char)
    requires d < 10
    ensures '0' <= c <= '9'
  {
    "0123456789"[d]
  }

  function DigitValue(c: char): nat {
    if '0' <= c <= '9' then (c - '0') as nat else 0
  }

  /** The decimal digits of `n`, without leading zeros. */
  function Digits(n: nat): (t: string)
    ensures |t| >= 1 && forall k :: 0 <= k < |t| ==> '0' <= t[k] <= '9'
    ensures n < 10 <==> |t| == 1
  {
    if n < 10 then [DigitChar(n)] else Digits(n / 10) + [DigitChar(n % 10)]
  }

  /** The number a string of decimal digits denotes. */
  function ParseNat(t: string): nat {
    if t == [] then 0 else ParseNat(t[..|t| - 1]) * 10 + DigitValue(t[|t| - 1])
  }

  lemma {:induction false} ParseDigits(n: nat)
    ensures ParseNat(Digits(n)) == n
  {
    if n >= 10 {
      var t := Digits(n);
      assert t[..|t| - 1] == Digits(n / 10);
      ParseDigits(n / 10);
    }
  }

  /** `%02d`: at least two characters, zero-padded; Java puts the sign of a
      negative value before the digits, and `-1` to `-9` are already two
      characters wide. */
  function Pad2(n: int): (t: string)
    ensures |t| >= 2
    ensures 0 <= n < 100 ==> |t| == 2
    ensures n >= 0 ==> forall k :: 0 <= k < |t| ==> '0' <= t[k] <= '9'
  {
    if n < 0 then "-" + Digits(-n)
    else if n < 10 then "0" + Digits(n)
    else Digits(n)
  }

  lemma ParsePad2(n: nat)
    ensures ParseNat(Pad2(n)) == n
  {
    ParseDigits(n);
    if n < 10 {
      var t := Pad2(n);
      assert t[..|t| - 1] == "0";
      assert ParseNat("0") == 0 by { assert "0"[..0] == []; }
    }
  }

  /** The three numbers `formatTime` prints. */
  datatype Clock = Clock(hours: int, minutes: int, seconds: int)

  function Fields(s: int): (c: Clock)
    ensures s >= 0 ==> c.hours >= 0 && 0 <= c.minutes < 60 && 0 <= c.seconds < 60
    ensures s >= 0 ==> c.hours * 3600 + c.minutes * 60 + c.seconds == s
    ensures s < 0 ==> c.hours <= 0 && -60 < c.minutes <= 0 && -60 < c.seconds <= 0
  {
    Clock(Quot(s, 3600), Rem(Quot(s, 60), 60), Rem(s, 60))
  }

  function FormatTime(s: int): (t: string)
    ensures |t| >= 8
    ensures s >= 0 ==> t[|t| - 6] == ':' && t[|t| - 3] == ':'
  {
    var c := Fields(s);
    Pad2(c.hours) + ":" + Pad2(c.minutes) + ":" + Pad2(c.seconds)
  }

  /** The seconds a clock reading stands for. */
  function Seconds(c: Clock): int {
    c.hours * 3600 + c.minutes * 60 + c.seconds
  }

  /** Reads a `formatTime` text back into its three fields. */
  function ParseClock(t: string): Option<Clock> {
    if |t| >= 8 && t[|t| - 6] == ':' && t[|t| - 3] == ':' then
      Some(Clock(ParseNat(t[..|t| - 6]), ParseNat(t[|t| - 5..|t| - 3]), ParseNat(t[|t| - 2..])))
    else None
  }

  /** Reading back a text of the shape `formatTime` writes for s >= 0. */
  lemma ParseClockJoin(h: string, m: string, x: string)
    requires |h| >= 2 && |m| == 2 && |x| == 2
    ensures ParseClock(h + ":" + m + ":" + x) == Some(Clock(ParseNat(h), ParseNat(m), ParseNat(x)))
  {
    var t := h + ":" + m + ":" + x;
    assert t[|t| - 6] == ':' && t[|t| - 3] == ':';
    assert t[..|t| - 6] == h;
    assert t[|t| - 5..|t| - 3] == m;
    assert t[|t| - 2..] == x;
  }

  /** The text loses no field: for every non-negative count it reads back
      as the same hours, minutes and seconds, and so as the same number of
      seconds. */
  lemma FormatTimeRoundTrip(s: int)
    requires s >= 0
    ensures ParseClock(FormatTime(s)) == Some(Fields(s))
    ensures Seconds(ParseClock(FormatTime(s)).value) == s
  {
    var c := Fields(s);
    ParseClockJoin(Pad2(c.hours), Pad2(c.minutes), Pad2(c.seconds));
    ParsePad2(c.hours);
    ParsePad2(c.minutes);
    ParsePad2(c.seconds);
  }

  // ---------------------------------------------------------------------
  // Durations.  The source gives each option in hours as a `Float` and
  // converts it with `(hours * 3600).toLong()`; the table below holds the
  // seconds that conversion yields.
  // ---------------------------------------------------------------------

  /** The options' hours as exact fractions `numerator / denominator`. */
  const OptionHours: seq<(nat, nat)> := [(1, 60), (1, 2), (1, 1), (3, 1), (6, 1), (8, 1)]

  const OptionSeconds: seq<int> := [60, 1800, 3600, 10800, 21600, 28800]

  /** Each entry of the table is its option's hours times 3600. */
  lemma OptionSecondsAreHours(i: nat)
    requires i < |OptionSeconds|
    ensures |OptionHours| == |OptionSeconds|
    ensures OptionSeconds[i] * OptionHours[i].1 == OptionHours[i].0 * 3600
    ensures OptionSeconds[i] > 0
  {
  }

  // ---------------------------------------------------------------------
  // The remembered state of the screen (the `MediaPlayer` that plays the
  // end sound is not modelled).
  // ---------------------------------------------------------------------

  class TimerScreen {
    var isTimerRunning: bool
    var selectedDuration: Option<int>
    var remainingTime: Option<int>

    /** The timer runs exactly while a duration is selected, that duration
        is one of the options, and the remaining time is never negative. */
    ghost predicate Valid()
      reads this
    {
      && (isTimerRunning <==> selectedDuration.Some?)
      && (selectedDuration.Some? ==> selectedDuration.value in OptionSeconds)
      && (remainingTime.Some? ==> remainingTime.value >= 0)
    }

    /** The countdown and its cancel button are shown instead of the
        options: only for a running timer, whose selection is one of the
        offered durations and whose remaining time is never negative. */
    predicate ShowsCountdown(): (b: bool)
      reads this
      requires Valid()
      ensures b ==> isTimerRunning && selectedDuration.Some? && selectedDuration.value in OptionSeconds
      ensures b ==> remainingTime.Some? && remainingTime.value >= 0
    {
      isTimerRunning && remainingTime.Some?
    }

    /** The text of the countdown. */
    function Display(): (t: string)
      reads this
      requires Valid() && ShowsCountdown()
      ensures ParseClock(t).Some? && Seconds(ParseClock(t).value) == remainingTime.value
    {
      FormatTimeRoundTrip(remainingTime.value);
      FormatTime(remainingTime.value)
    }

    constructor ()
      ensures Valid() && !isTimerRunning && selectedDuration == None && remainingTime == None
    {
      isTimerRunning := false;
      selectedDuration := None;
      remainingTime := None;
    }

    /** A click on option `i`, offered while the countdown is hidden. */
    method SelectOption(i: nat)
      requires Valid() && !ShowsCountdown() && i < |OptionSeconds|
      modifies this
      ensures Valid() && isTimerRunning
      ensures selectedDuration == Some(OptionSeconds[i]) && remainingTime == old(remainingTime)
    {
      selectedDuration := Some(OptionSeconds[i]);
      isTimerRunning := true;
    }

    /** The cancel button under the countdown. */
    method Cancel()
      requires Valid() && ShowsCountdown()
      modifies this
      ensures Valid() && !isTimerRunning && selectedDuration == None
      ensures remainingTime == old(remainingTime) && !ShowsCountdown()
    {
      isTimerRunning := false;
      selectedDuration := None;
    }

    /** The effect starts: the remaining time is set to the selection. */
    method StartCountdown()
      requires Valid() && isTimerRunning
      modifies this
      ensures Valid() && ShowsCountdown() && remainingTime == old(selectedDuration)
      ensures isTimerRunning && selectedDuration == old(selectedDuration)
    {
      remainingTime := selectedDuration;
    }

    /** One pass of the effect's loop, after its one-second delay. */
    method Tick()
      requires Valid() && ShowsCountdown() && remainingTime.value > 0
      modifies this
      ensures Valid() && ShowsCountdown()
      ensures remainingTime == Some(old(remainingTime.value) - 1)
      ensures isTimerRunning == old(isTimerRunning) && selectedDuration == old(selectedDuration)
    {
      remainingTime := Some(remainingTime.value - 1);
    }

    /** The loop has reached zero: the timer stops and the selection is
        cleared. */
    method Finish()
      requires Valid() && ShowsCountdown() && remainingTime.value == 0
      modifies this
      ensures Valid() && !isTimerRunning && selectedDuration == None && remainingTime == Some(0)
    {
      isTimerRunning := false;
      selectedDuration := None;
    }

    /** The whole effect run without a cancel: one tick per second of the
        selected duration, ending at zero with the timer stopped. */
    method RunCountdown() returns (ticks: nat)
      requires Valid() && isTimerRunning
      modifies this
      ensures Valid() && !isTimerRunning && selectedDuration == None && remainingTime == Some(0)
      ensures ticks == old(selectedDuration.value)
    {
      ghost var start := selectedDuration.value;
      StartCountdown();
      ticks := 0;
      while remainingTime.value > 0
        invariant Valid() && ShowsCountdown()
        invariant remainingTime.value + ticks == start
        decreases remainingTime.value
      {
        Tick();
        ticks := ticks + 1;
      }
      Finish();
    }
  }
}
