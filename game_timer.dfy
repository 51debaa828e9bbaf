/**
 * The puzzle game's clock: elapsed seconds grow frame by frame until the
 * game is over, and are shown as "mm:ss" with whole minutes and the whole
 * seconds past the minute, each at least two digits wide.
 */
module GameTimer {
  import opened Wrappers

  // ---- Minutes and seconds ----

  /** `Mathf.FloorToInt(t / 60)`. */
  function Minutes(t: real): (m: nat)
    requires t >= 0.0
    ensures 60.0 * (m as real) <= t < 60.0 * (m as real) + 60.0
  {
    var m := (t / 60.0).Floor;
    assert m as real <= t / 60.0 < m as real + 1.0;
    m
  }

  /** `Mathf.FloorToInt(t % 60)`, where C#'s `%` on a non-negative float is `t - 60 * floor(t / 60)`. */
  function Seconds(t: real): (s: nat)
    requires t >= 0.0
    ensures s < 60
  {
    (t - 60.0 * (Minutes(t) as real)).Floor
  }

  /** The two fields split the whole seconds elapsed: `minutes * 60 + seconds == floor(t)`. */
  lemma ClockFields(t: real)
    requires t >= 0.0
    ensures Minutes(t) * 60 + Seconds(t) == t.Floor
  {
    var m := Minutes(t);
    var r := t - 60.0 * (m as real);
    var k := m * 60 + r.Floor;
    assert k as real <= t < k as real + 1.0;
  }

  /** The fields depend only on the whole seconds elapsed. */
  lemma ClockFieldsOfFloor(a: real, b: real)
    requires a >= 0.0 && b >= 0.0
    ensures (Minutes(a), Seconds(a)) == (Minutes(b), Seconds(b)) <==> a.Floor == b.Floor
  {
    ClockFields(a);
    ClockFields(b);
    if a.Floor == b.Floor {
      DivModUnique(a.Floor, Minutes(a), Seconds(a), Minutes(b), Seconds(b));
    }
  }

  lemma DivModUnique(n: int, m1: int, s1: int, m2: int, s2: int)
    requires m1 * 60 + s1 == n && 0 <= s1 < 60
    requires m2 * 60 + s2 == n && 0 <= s2 < 60
    ensures m1 == m2 && s1 == s2
  {
    assert (m1 - m2) * 60 == s2 - s1;
  }

  // ---- Decimal text ----

  predicate IsDigit(c: char) {
    '0' <= c <= '9'
  }

  predicate AllDigits(s: string) {
    forall i :: 0 <= i < |s| ==> IsDigit(s[i])
  }

  function DigitChar(d: nat): (c: char)
    requires d < 10
    ensures IsDigit(c)
  {
    (48 + d) as char
  }

  function DigitValue(c: char): (d: nat)
    requires IsDigit(c)
    ensures d < 10
  {
    c as int - 48
  }

  /** The decimal digits of `n` without leading zeros. */
  function Digits(n: nat): (s: string)
    ensures |s| >= 1 && AllDigits(s)
    ensures n < 10 ==> |s| == 1
    ensures 10 <= n < 100 ==> |s| == 2
  {
    if n < 10 then [DigitChar(n)] else Digits(n / 10) + [DigitChar(n % 10)]
  }

  /** The number a string of decimal digits denotes. */
  function DecimalValue(s: string): nat
    requires AllDigits(s)
  {
    if s == [] then 0 else DecimalValue(s[..|s| - 1]) * 10 + DigitValue(s[|s| - 1])
  }

  lemma {:induction false} DigitsRoundTrip(n: nat)
    ensures DecimalValue(Digits(n)) == n
  {
    if n >= 10 {
      DigitsRoundTrip(n / 10);
      var s := Digits(n);
      assert s[..|s| - 1] == Digits(n / 10);
    }
  }

  /** A leading zero does not change the value. */
  lemma {:induction false} LeadingZero(s: string)
    requires AllDigits(s)
    ensures AllDigits("0" + s) && DecimalValue("0" + s) == DecimalValue(s)
  {
    if s != [] {
      LeadingZero(s[..|s| - 1]);
      assert ("0" + s)[..|s|] == "0" + s[..|s| - 1];
    }
  }

  /** The `{0:00}` format: at least two digits, padded with a zero. */
  function Pad2(n: nat): (s: string)
    ensures AllDigits(s) && |s| >= 2
    ensures n < 100 ==> |s| == 2
    ensures DecimalValue(s) == n
  {
    DigitsRoundTrip(n);
    if n < 10 then LeadingZero(Digits(n)); "0" + Digits(n) else Digits(n)
  }

  /** `string.Format("{0:00}:{1:00}", minutes, seconds)` for `t` seconds. */
  function ClockText(t: real): string
    requires t >= 0.0
  {
    Pad2(Minutes(t)) + ":" + Pad2(Seconds(t))
  }

  /** Reads "mm:ss" back: digits, a colon, and exactly two digits. */
  function ParseClock(s: string): Option<(nat, nat)> {
    if |s| >= 5 && s[|s| - 3] == ':' && AllDigits(s[..|s| - 3]) && AllDigits(s[|s| - 2..])
    then Some((DecimalValue(s[..|s| - 3]), DecimalValue(s[|s| - 2..])))
    else None
  }

  /** The text shows exactly the minutes and seconds of `t`. */
  lemma ClockRoundTrip(t: real)
    requires t >= 0.0
    ensures ParseClock(ClockText(t)) == Some((Minutes(t), Seconds(t)))
  {
    var mm, ss := Pad2(Minutes(t)), Pad2(Seconds(t));
    var s := ClockText(t);
    assert s[..|s| - 3] == mm;
    assert s[|s| - 2..] == ss;
  }

  /** The display changes exactly when the whole second changes. */
  lemma ClockTextChanges(a: real, b: real)
    requires a >= 0.0 && b >= 0.0
    ensures ClockText(a) == ClockText(b) <==> a.Floor == b.Floor
  {
    ClockRoundTrip(a);
    ClockRoundTrip(b);
    ClockFieldsOfFloor(a, b);
  }

  // ---- The timer component ----

  class Timer {
    /** Seconds since the game started. */
    var elapsed: real
    var gameOver: bool
    /** The text of the timer label. */
    var text: string
    /** Whether a frame has drawn the label since the game started. */
    ghost var drawn: bool

    ghost predicate Valid()
      reads this
    {
      elapsed >= 0.0 && (drawn ==> text == ClockText(elapsed))
    }

    /** The state on creation: no time elapsed, the game running, the label as set in the scene. */
    constructor (initialText: string)
      ensures Valid() && elapsed == 0.0 && !gameOver && text == initialText && !drawn
    {
      elapsed := 0.0;
      gameOver := false;
      text := initialText;
      drawn := false;
    }

    /** `UpdateTimerUI`: the label shows the elapsed time. */
    method UpdateTimerUI()
      requires elapsed >= 0.0
      modifies this`text, this`drawn
      ensures Valid() && drawn && text == ClockText(elapsed)
    {
      text := ClockText(elapsed);
      drawn := true;
    }

    /** `Update` for a frame that lasted `dt` seconds: time advances only while the game runs. */
    method Update(dt: real)
      requires Valid() && dt >= 0.0
      modifies this`elapsed, this`text, this`drawn
      ensures Valid()
      ensures old(gameOver) ==> elapsed == old(elapsed) && text == old(text)
      ensures !old(gameOver) ==> elapsed == old(elapsed) + dt && drawn && text == ClockText(elapsed)
    {
      if !gameOver {
        elapsed := elapsed + dt;
        UpdateTimerUI();
      }
    }

    /** `StopTimer`: from now on `Update` leaves the time alone. */
    method StopTimer()
      modifies this`gameOver
      ensures gameOver
    {
      gameOver := true;
    }

    /** `GetElapsedTime`: the clock text, which is what the label shows once a frame has drawn it. */
    method GetElapsedTime() returns (s: string)
      requires Valid()
      ensures s == ClockText(elapsed)
      ensures ParseClock(s) == Some((Minutes(elapsed), Seconds(elapsed)))
      ensures drawn ==> s == text
    {
      ClockRoundTrip(elapsed);
      s := ClockText(elapsed);
    }
  }
}
