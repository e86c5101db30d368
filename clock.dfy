/** The session timer: the budget of one minute per question, the 1 Hz
    countdown floored at zero, the check that completes the session when
    time is up, and the `MM:SS` rendering of the remaining seconds. */
module Clock {
  import opened Outcomes
  import opened Text

  /** The time allowed per question, in seconds. */
  const SecondsPerQuestion: nat := 60

  /** The budget of a session with `questionCount` questions. */
  function Budget(questionCount: nat): nat {
    SecondsPerQuestion * questionCount
  }

  /** One interval callback: `prev > 0 ? prev - 1 : 0`. */
  function TickValue(t: int): (r: int)
    ensures 0 <= r && (t > 0 ==> r < t)
  {
    if t > 0 then t - 1 else 0
  }

  /** The remaining time after `k` ticks starting from `t`. */
  function AfterTicks(t: int, k: nat): (r: int)
    ensures k > 0 ==> r == if t - k > 0 then t - k else 0
    ensures k > 0 ==> r >= 0
  {
    if k == 0 then t else TickValue(AfterTicks(t, k - 1))
  }

  /** A full budget lasts exactly its number of seconds: it is positive
      after fewer ticks and zero after that many. */
  lemma {:induction false} BudgetLastsItsLength(questionCount: nat, k: nat)
    ensures k < Budget(questionCount) ==> AfterTicks(Budget(questionCount), k) > 0
    ensures k >= Budget(questionCount) ==> AfterTicks(Budget(questionCount), k) == 0
  {
    if k == 0 {
      assert AfterTicks(Budget(questionCount), 0) == Budget(questionCount);
    }
  }

  /** The check the countdown effect makes: a session that is started and
      not complete is completed once the remaining time is set and not
      positive. */
  predicate OutOfTime(timeLeft: Option<int>) {
    timeLeft.Some? && timeLeft.value <= 0
  }

  /** `formatTime`: whole minutes and the remaining seconds, each as decimal
      digits padded to two places with '0', joined by ':'. */
  function FormatTime(secs: nat): string {
    Clock2(secs / 60, secs % 60)
  }

  /** Two counts rendered as `formatTime` renders minutes and seconds. */
  function Clock2(minutes: nat, seconds: nat): string {
    PadStart(NatToString(minutes), 2, '0') + ":" + PadStart(NatToString(seconds), 2, '0')
  }

  /** Reads `MM:SS` text back: digits, one ':', two digits below 60. */
  function ParseClock(t: string): Option<nat> {
    var parts := Split(t, ':');
    if |parts| == 2 && AllDigits(parts[0]) && AllDigits(parts[1])
       && |parts[1]| == 2 && DecimalValue(parts[1]) < 60
    then Some(ClockValue(DecimalValue(parts[0]), DecimalValue(parts[1])))
    else None
  }

  /** The seconds that `minutes` minutes and `seconds` seconds make. */
  function ClockValue(minutes: nat, seconds: nat): nat {
    60 * minutes + seconds
  }

  lemma DigitsHaveNoColon(s: string)
    requires AllDigits(s)
    ensures ':' !in s
  {
    forall i | 0 <= i < |s| ensures s[i] != ':' {
      assert IsDigit(s[i]);
    }
  }

  /** A padded piece of the rendering: at least two digits denoting `n`,
      exactly two below 100. */
  lemma PaddedPiece(n: nat)
    ensures var p := PadStart(NatToString(n), 2, '0');
      && AllDigits(p) && DecimalValue(p) == n && ':' !in p
      && |p| >= 2 && (n < 100 ==> |p| == 2)
  {
    PaddedDecimal(n, 2);
    DigitsHaveNoColon(PadStart(NatToString(n), 2, '0'));
  }

  lemma SplitAtColon(m: string, s: string)
    requires ':' !in m && ':' !in s
    ensures Split(m + [':'] + s, ':') == [m, s]
  {
    assert [m, s][1..] == [s];
    assert Join([m, s], ':') == m + [':'] + s;
    SplitJoin([m, s], ':');
  }

  lemma ParseClockOfPieces(t: string, m: string, s: string, minutes: nat, seconds: nat)
    requires Split(t, ':') == [m, s]
    requires AllDigits(m) && DecimalValue(m) == minutes
    requires AllDigits(s) && DecimalValue(s) == seconds && |s| == 2 && seconds < 60
    ensures ParseClock(t) == Some(ClockValue(minutes, seconds))
  {
  }

  lemma Clock2RoundTrip(minutes: nat, seconds: nat)
    requires seconds < 60
    ensures ParseClock(Clock2(minutes, seconds)) == Some(ClockValue(minutes, seconds))
  {
    var m := PadStart(NatToString(minutes), 2, '0');
    var s := PadStart(NatToString(seconds), 2, '0');
    PaddedPiece(minutes);
    PaddedPiece(seconds);
    SplitAtColon(m, s);
    assert Clock2(minutes, seconds) == m + [':'] + s;
    ParseClockOfPieces(Clock2(minutes, seconds), m, s, minutes, seconds);
  }

  /** Every rendering reads back as the seconds it came from. */
  lemma FormatTimeRoundTrip(secs: nat)
    ensures ParseClock(FormatTime(secs)) == Some(secs)
  {
    Clock2RoundTrip(secs / 60, secs % 60);
    assert ClockValue(secs / 60, secs % 60) == secs;
  }

  /** Different seconds render differently. */
  lemma FormatTimeInjective(a: nat, b: nat)
    requires FormatTime(a) == FormatTime(b)
    ensures a == b
  {
    FormatTimeRoundTrip(a);
    FormatTimeRoundTrip(b);
  }

  lemma Clock2Shape(minutes: nat, seconds: nat)
    requires minutes < 100 && seconds < 60
    ensures var r := Clock2(minutes, seconds);
      && |r| == 5 && r[2] == ':'
      && AllDigits(r[..2]) && DecimalValue(r[..2]) == minutes
      && AllDigits(r[3..]) && DecimalValue(r[3..]) == seconds
  {
    var m := PadStart(NatToString(minutes), 2, '0');
    var s := PadStart(NatToString(seconds), 2, '0');
    assert |m| == 2 && |s| == 2;
    assert Clock2(minutes, seconds) == m + [':'] + s;
    PaddedDecimal(minutes, 2);
    PaddedDecimal(seconds, 2);
    ShapeOfPieces(Clock2(minutes, seconds), m, s, minutes, seconds);
  }

  lemma ShapeOfPieces(r: string, m: string, s: string, minutes: nat, seconds: nat)
    requires r == m + [':'] + s && |m| == 2 && |s| == 2
    requires AllDigits(m) && DecimalValue(m) == minutes
    requires AllDigits(s) && DecimalValue(s) == seconds
    ensures && |r| == 5 && r[2] == ':'
      && AllDigits(r[..2]) && DecimalValue(r[..2]) == minutes
      && AllDigits(r[3..]) && DecimalValue(r[3..]) == seconds
  {
    ColonBetween(m, s);
  }

  lemma ColonBetween(m: string, s: string)
    ensures var r := m + [':'] + s;
      |r| == |m| + 1 + |s| && r[|m|] == ':' && r[..|m|] == m && r[|m| + 1..] == s
  {
  }

  /** Below 100 minutes the rendering is exactly five characters `MM:SS`,
      with `SS < 60` and `secs` equal to `MM` minutes and `SS` seconds. */
  lemma FormatTimeShape(secs: nat)
    requires secs < 6000
    ensures var r := FormatTime(secs);
      && |r| == 5 && r[2] == ':'
      && AllDigits(r[..2]) && AllDigits(r[3..])
      && DecimalValue(r[3..]) < 60
      && ClockValue(DecimalValue(r[..2]), DecimalValue(r[3..])) == secs
  {
    Clock2Shape(secs / 60, secs % 60);
    assert ClockValue(secs / 60, secs % 60) == secs;
  }
}
