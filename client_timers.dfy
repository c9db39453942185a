/**
  The clock widgets of the browser client (public/chessgame.js): reading an
  `mm:ss` string back into seconds, the warning classes of one timer, and
  which clock goes on top for the player's colour.
 */
module ClientTimers {
  import opened Wrappers
  import opened JsText
  import opened ServerClock

  /**
    `parseInt(time.split(':')[0]) * 60 + parseInt(time.split(':')[1])`;
    `None` stands for `NaN`, which a missing field or an unparsable one gives.
   */
  function TimerSeconds(time: string): (r: Option<int>)
  {
    MinutesAndSeconds(Split(time, ':'))
  }

  /** The first two fields, read by `parseInt` as minutes and seconds. */
  function MinutesAndSeconds(fields: seq<string>): (r: Option<int>)
  {
    if |fields| < 2 then None
    else
      var minutes, seconds := ParseInt(fields[0]), ParseInt(fields[1]);
      if minutes.Some? && seconds.Some? then Some(minutes.value * 60 + seconds.value) else None
  }

  /** `"a:b"` for digit strings `a` and `b` reads as `a` minutes and `b` seconds. */
  lemma TimerSecondsOfDigits(a: string, b: string)
    requires |a| > 0 && AllDigits(a) && |b| > 0 && AllDigits(b)
    ensures TimerSeconds(a + ":" + b) == Some(DigitsValue(a) * 60 + DigitsValue(b))
  {
    ClockFields(a, b);
    ReadDigitFields(a, b);
  }

  /** A clock string made of two digit fields splits into exactly those fields. */
  lemma ClockFields(a: string, b: string)
    requires AllDigits(a) && AllDigits(b)
    ensures TimerSeconds(a + ":" + b) == MinutesAndSeconds([a, b])
  {
    NoColonInDigits(a);
    NoColonInDigits(b);
    SplitClock(a, b);
  }

  lemma ReadDigitFields(a: string, b: string)
    requires |a| > 0 && AllDigits(a) && |b| > 0 && AllDigits(b)
    ensures MinutesAndSeconds([a, b]) == Some(DigitsValue(a) * 60 + DigitsValue(b))
  {
    var fields := [a, b];
    assert fields[0] == a && fields[1] == b;
    ParseIntOfDigits(a);
    ParseIntOfDigits(b);
    ReadParsedFields(fields, DigitsValue(a), DigitsValue(b));
  }

  /** Two fields that parse to `m` and `s` read as `m` minutes and `s` seconds. */
  lemma ReadParsedFields(fields: seq<string>, m: int, s: int)
    requires |fields| >= 2 && ParseInt(fields[0]) == Some(m) && ParseInt(fields[1]) == Some(s)
    ensures MinutesAndSeconds(fields) == Some(m * 60 + s)
  {
  }

  lemma NoColonInDigits(s: string)
    requires AllDigits(s)
    ensures ':' !in s
  {
    forall i | 0 <= i < |s| ensures s[i] != ':' {
      assert IsDigit(s[i]);
    }
  }

  /** Two fields without a colon, joined by one, split back into the two. */
  lemma SplitClock(a: string, b: string)
    requires ':' !in a && ':' !in b
    ensures Split(a + ":" + b, ':') == [a, b]
  {
    SplitAfterField(a, b, ':');
    SplitNoSeparator(b, ':');
    assert a + ":" + b == a + [':'] + b;
  }

  /** The client reads back exactly the seconds the server rendered, for every clock that is not negative. */
  lemma TimerSecondsOfFormatTime(s: nat)
    ensures TimerSeconds(FormatTime(s)) == Some(s)
  {
    var mins, secs := PadStart2(NatToString(s / 60)), PadStart2(NatToString(s % 60));
    FormatTimeFields(s);
    ReadBack(FormatTime(s), mins, secs);
    Recombine(mins, secs, s);
  }

  /** Whole minutes times sixty plus the seconds left over is the total. */
  lemma Recombine(mins: string, secs: string, s: nat)
    requires AllDigits(mins) && AllDigits(secs)
    requires DigitsValue(mins) == s / 60 && DigitsValue(secs) == s % 60
    ensures Some(DigitsValue(mins) * 60 + DigitsValue(secs)) == Some(s)
  {
  }

  lemma ReadBack(t: string, mins: string, secs: string)
    requires |mins| > 0 && AllDigits(mins) && |secs| > 0 && AllDigits(secs)
    requires t == mins + ":" + secs
    ensures TimerSeconds(t) == Some(DigitsValue(mins) * 60 + DigitsValue(secs))
  {
    TimerSecondsOfDigits(mins, secs);
  }

  /** The four classes `updateTimerStyling` removes first. */
  const StyleClasses: set<string> := {"danger", "warning", "active", "inactive"}

  /** The urgency class for a reading: `danger` up to 30 seconds, `warning` up to a minute; `NaN` compares false. */
  function UrgencyClass(seconds: Option<int>): set<string> {
    if seconds.Some? && seconds.value <= 30 then {"danger"}
    else if seconds.Some? && seconds.value <= 60 then {"warning"}
    else {}
  }

  function ActivityClass(isActive: bool): set<string> {
    if isActive then {"active"} else {"inactive"}
  }

  /** The class list after styling: the four classes removed, then at most one urgency class and one activity class added. */
  function Styled(classes: set<string>, seconds: Option<int>, isActive: bool): set<string> {
    (classes - StyleClasses) + UrgencyClass(seconds) + ActivityClass(isActive)
  }

  /** What styling promises: the urgency bands, never both, exactly one activity class, other classes kept. */
  lemma StyledClasses(classes: set<string>, seconds: Option<int>, isActive: bool)
    ensures "danger" in Styled(classes, seconds, isActive) <==> seconds.Some? && seconds.value <= 30
    ensures "warning" in Styled(classes, seconds, isActive) <==> seconds.Some? && 30 < seconds.value <= 60
    ensures !("danger" in Styled(classes, seconds, isActive) && "warning" in Styled(classes, seconds, isActive))
    ensures "active" in Styled(classes, seconds, isActive) <==> isActive
    ensures "inactive" in Styled(classes, seconds, isActive) <==> !isActive
    ensures Styled(classes, seconds, isActive) - StyleClasses == classes - StyleClasses
  {
  }

  /** For a clock rendered by the server, `danger` shows exactly in the last half minute. */
  lemma DangerForFormattedClock(classes: set<string>, s: nat, isActive: bool)
    ensures "danger" in Styled(classes, TimerSeconds(FormatTime(s)), isActive) <==> s <= 30
    ensures "warning" in Styled(classes, TimerSeconds(FormatTime(s)), isActive) <==> 30 < s <= 60
  {
    TimerSecondsOfFormatTime(s);
    StyledClasses(classes, TimerSeconds(FormatTime(s)), isActive);
  }

  /** A timer element: its text and its `classList`. */
  class TimerElement {
    var text: string
    var classes: set<string>

    constructor ()
      ensures text == "" && classes == {}
    {
      text := "";
      classes := {};
    }
  }

  /** `updateTimerStyling(timerElement, time, isActive)`. */
  method UpdateTimerStyling(el: TimerElement, time: string, isActive: bool)
    modifies el`classes
    ensures el.classes == Styled(old(el.classes), TimerSeconds(time), isActive)
  {
    var seconds := TimerSeconds(time);
    ApplyReading(el, seconds, isActive);
  }

  /** The class edits of `updateTimerStyling` once the clock has been read. */
  method ApplyReading(el: TimerElement, seconds: Option<int>, isActive: bool)
    modifies el`classes
    ensures el.classes == Styled(old(el.classes), seconds, isActive)
  {
    el.classes := el.classes - {"danger", "warning", "active", "inactive"};
    if seconds.Some? && seconds.value <= 30 {
      el.classes := el.classes + {"danger"};
    } else if seconds.Some? && seconds.value <= 60 {
      el.classes := el.classes + {"warning"};
    }
    if isActive {
      el.classes := el.classes + {"active"};
    } else {
      el.classes := el.classes + {"inactive"};
    }
  }

  /** The `{ white, black }` clock strings of a `timerUpdate`. */
  datatype Timers = Timers(white: string, black: string)

  /**
    The client's module state that the clocks depend on: `playerRole`
    (`""` for `null`), `gameTimers`, `currentPlayerTurn`, and the two
    timer elements.
   */
  class ClientView {
    var playerRole: string
    var gameTimers: Timers
    var currentPlayerTurn: string
    const topTimer: TimerElement
    const bottomTimer: TimerElement

    ghost predicate Valid()
      reads this
    {
      topTimer != bottomTimer
    }

    /** The script's start: no role, white to move, and the initial `updateTimerDisplay` with `05:00` each. */
    constructor ()
      ensures Valid() && fresh(topTimer) && fresh(bottomTimer)
      ensures playerRole == "" && currentPlayerTurn == "white" && gameTimers == Timers("05:00", "05:00")
      ensures topTimer.text == "05:00" && bottomTimer.text == "05:00"
      ensures topTimer.classes == {"inactive"} && bottomTimer.classes == {"active"}
    {
      playerRole := "";
      gameTimers := Timers("", "");
      currentPlayerTurn := "white";
      topTimer := new TimerElement();
      bottomTimer := new TimerElement();
      new;
      UpdateTimerDisplay(Timers("05:00", "05:00"));
      TimerSecondsOfDigits("05", "00");
      assert "05" + ":" + "00" == "05:00";
    }

    /**
      `updateTimerDisplay(timers)`: a black player sees white's clock on
      top and black's below; anyone else sees black's on top and white's
      below. Each clock is styled as active exactly when its colour is the
      one to move.
     */
    method UpdateTimerDisplay(timers: Timers)
      requires Valid()
      modifies this, topTimer, bottomTimer
      ensures Valid() && gameTimers == timers
      ensures playerRole == old(playerRole) && currentPlayerTurn == old(currentPlayerTurn)
      ensures playerRole == "b" ==>
        topTimer.text == timers.white && bottomTimer.text == timers.black &&
        topTimer.classes == Styled(old(topTimer.classes), TimerSeconds(timers.white), currentPlayerTurn == "white") &&
        bottomTimer.classes == Styled(old(bottomTimer.classes), TimerSeconds(timers.black), currentPlayerTurn == "black")
      ensures playerRole != "b" ==>
        topTimer.text == timers.black && bottomTimer.text == timers.white &&
        topTimer.classes == Styled(old(topTimer.classes), TimerSeconds(timers.black), currentPlayerTurn == "black") &&
        bottomTimer.classes == Styled(old(bottomTimer.classes), TimerSeconds(timers.white), currentPlayerTurn == "white")
      ensures currentPlayerTurn in {"white", "black"} ==>
        ("active" in topTimer.classes <==> "active" !in bottomTimer.classes)
    {
      gameTimers := timers;
      if playerRole == "w" {
        topTimer.text := timers.black;
        bottomTimer.text := timers.white;
        UpdateTimerStyling(topTimer, timers.black, currentPlayerTurn == "black");
        UpdateTimerStyling(bottomTimer, timers.white, currentPlayerTurn == "white");
      } else if playerRole == "b" {
        topTimer.text := timers.white;
        bottomTimer.text := timers.black;
        UpdateTimerStyling(topTimer, timers.white, currentPlayerTurn == "white");
        UpdateTimerStyling(bottomTimer, timers.black, currentPlayerTurn == "black");
      } else {
        topTimer.text := timers.black;
        bottomTimer.text := timers.white;
        UpdateTimerStyling(topTimer, timers.black, currentPlayerTurn == "black");
        UpdateTimerStyling(bottomTimer, timers.white, currentPlayerTurn == "white");
      }
    }

    /** `setActiveTimer(color)`: records the side to move and redraws the stored clocks. */
    method SetActiveTimer(color: string)
      requires Valid()
      modifies this, topTimer, bottomTimer
      ensures Valid() && currentPlayerTurn == color
      ensures gameTimers == old(gameTimers) && playerRole == old(playerRole)
      ensures playerRole == "b" ==>
        topTimer.text == gameTimers.white && bottomTimer.text == gameTimers.black &&
        topTimer.classes == Styled(old(topTimer.classes), TimerSeconds(gameTimers.white), color == "white") &&
        bottomTimer.classes == Styled(old(bottomTimer.classes), TimerSeconds(gameTimers.black), color == "black")
      ensures playerRole != "b" ==>
        topTimer.text == gameTimers.black && bottomTimer.text == gameTimers.white &&
        topTimer.classes == Styled(old(topTimer.classes), TimerSeconds(gameTimers.black), color == "black") &&
        bottomTimer.classes == Styled(old(bottomTimer.classes), TimerSeconds(gameTimers.white), color == "white")
      ensures playerRole == "b" ==>
        ("active" in topTimer.classes <==> color == "white") && ("active" in bottomTimer.classes <==> color == "black")
      ensures playerRole != "b" ==>
        ("active" in topTimer.classes <==> color == "black") && ("active" in bottomTimer.classes <==> color == "white")
    {
      currentPlayerTurn := color;
      UpdateTimerDisplay(gameTimers);
    }
  }
}
