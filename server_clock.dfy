/**
  The two pure helpers of the chess server (index.js): the `mm:ss` clock
  rendering `formatTime` and the time-control table that turns a label such
  as `'5min'` into seconds.
 */
module ServerClock {
  import opened JsText

  /** JavaScript's `%` on integers: the remainder takes the sign of the dividend. */
  function JsRemainder(a: int, b: int): (r: int)
    requires b > 0
    ensures a >= 0 ==> r == a % b
    ensures a < 0 ==> -b < r <= 0
  {
    if a >= 0 then a % b else -((-a) % b)
  }

  /**
    `formatTime`: the minutes by `Math.floor(seconds / 60)` (Dafny's `/` is
    floor division for a positive divisor), the seconds by JavaScript's `%`,
    each rendered in decimal and padded with zeros to two characters.
   */
  function FormatTime(seconds: int): string {
    PadStart2(IntToString(seconds / 60)) + ":" + PadStart2(IntToString(JsRemainder(seconds, 60)))
  }

  /** For a non-negative clock, the two padded fields are the minutes and the seconds below a minute. */
  lemma FormatTimeFields(s: nat)
    ensures var mins, secs := PadStart2(NatToString(s / 60)), PadStart2(NatToString(s % 60));
      FormatTime(s) == mins + ":" + secs &&
      |mins| >= 2 && |secs| == 2 && AllDigits(mins) && AllDigits(secs) &&
      DigitsValue(mins) == s / 60 && DigitsValue(secs) == s % 60
  {
    PaddedValue(s / 60);
    PaddedValue(s % 60);
  }

  /** Below 100 minutes the rendering is exactly five characters, `dd:dd`. */
  lemma FormatTimeLength(s: int)
    requires 0 <= s < 6000
    ensures |FormatTime(s)| == 5 && FormatTime(s)[2] == ':'
    ensures forall i :: 0 <= i < 5 && i != 2 ==> IsDigit(FormatTime(s)[i])
  {
    FormatTimeFields(s);
  }

  /** The time-control labels the table knows. */
  const TimeLabels: set<string> := {"1min", "3min", "5min", "10min", "30min"}

  /**
    The time-control table: a known label `'<n>min'` gives `n` minutes in
    seconds; any other label, the missing one included, gives five minutes.
   */
  function TimeLimitSeconds(timeLimit: string): (r: nat)
    ensures timeLimit in TimeLabels ==> r % 60 == 0 && timeLimit == NatToString(r / 60) + "min"
    ensures timeLimit !in TimeLabels ==> r == 300
    ensures 60 <= r <= 1800
  {
    match timeLimit
    case "1min" => 60
    case "3min" => 180
    case "5min" => 300
    case "10min" => 600
    case "30min" => 1800
    case _ => 300
  }
}
