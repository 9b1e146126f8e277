/**
 * The game clock on the client: hidden unless some time is left, shown as
 * `minutes:seconds` with two-digit seconds, and coloured by how little
 * time remains. Times are whole seconds.
 */
module GameTimer {
  import opened JsObject
  import opened Text

  datatype TimeColor = Critical | Warning | Normal

  /** What the component renders: its colour class and its clock text. */
  datatype TimerView = TimerView(tone: TimeColor, text: string)

  /** `formatTime(seconds)` */
  function FormatTime(seconds: nat): (r: string)
    ensures |r| >= 4 && r[|r| - 3] == ':'
    ensures r[..|r| - 3] == NatToString(seconds / 60)
    ensures r[|r| - 2..] == PadStartZeros(NatToString(seconds % 60), 2)
  {
    var minutes := NatToString(seconds / 60);
    var secs := PadStartZeros(NatToString(seconds % 60), 2);
    assert |NatToString(seconds % 60)| <= 2 by {
      if seconds % 60 >= 10 {
        assert NatToString(seconds % 60) == NatToString(seconds % 60 / 10) + [DigitChar(seconds % 60 % 10)];
      }
    }
    var r := minutes + ":" + secs;
    assert r[..|r| - 3] == minutes;
    assert r[|r| - 2..] == secs;
    r
  }

  /** Digits, then a separator, then two digits. */
  predicate IsClockText(text: string) {
    |text| >= 4 && AllDigits(text[..|text| - 3]) && AllDigits(text[|text| - 2..])
  }

  /** Reads a clock text back as a number of seconds. */
  function ParseClock(text: string): nat
    requires IsClockText(text)
  {
    ParseNat(text[..|text| - 3]) * 60 + ParseNat(text[|text| - 2..])
  }

  /** The clock text determines the time: minutes and two-digit seconds read back exactly. */
  lemma ClockRoundTrip(seconds: nat)
    ensures IsClockText(FormatTime(seconds)) && ParseClock(FormatTime(seconds)) == seconds
  {
    var text := FormatTime(seconds);
    var secs := NatToString(seconds % 60);
    var padded := PadStartZeros(secs, 2);
    assert text[..|text| - 3] == NatToString(seconds / 60);
    assert text[|text| - 2..] == padded;
    ParseNatToString(seconds / 60);
    ParseNatToString(seconds % 60);
    ParseNatLeadingZeros(|padded| - |secs|, secs);
    assert ParseNat(padded) == seconds % 60;
  }

  /** Distinct times never show the same text. */
  lemma FormatTimeInjective(s: nat, t: nat)
    requires FormatTime(s) == FormatTime(t)
    ensures s == t
  {
    ClockRoundTrip(s);
    ClockRoundTrip(t);
  }

  /** `getTimeColor(seconds)` */
  function GetTimeColor(seconds: int): (c: TimeColor)
    ensures c == Critical <==> seconds <= 60
    ensures c == Warning <==> 60 < seconds <= 300
    ensures c == Normal <==> 300 < seconds
  {
    if seconds <= 60 then Critical
    else if seconds <= 300 then Warning
    else Normal
  }

  function Urgency(c: TimeColor): nat {
    match c
    case Critical => 2
    case Warning => 1
    case Normal => 0
  }

  /** Less time left never looks less urgent. */
  lemma TimeColorMonotone(s: int, t: int)
    requires s <= t
    ensures Urgency(GetTimeColor(s)) >= Urgency(GetTimeColor(t))
  {
  }

  /**
   * The component for `timeRemaining` (None for `undefined`/`null`):
   * nothing unless a positive time is left.
   */
  function Render(timeRemaining: Option<int>): (v: Option<TimerView>)
    ensures v.Some? <==> timeRemaining.Some? && timeRemaining.value > 0
    ensures v.Some? ==> v.value.tone == GetTimeColor(timeRemaining.value)
    ensures v.Some? ==> v.value.text == FormatTime(timeRemaining.value)
    ensures v.Some? ==> IsClockText(v.value.text) && ParseClock(v.value.text) == timeRemaining.value
  {
    match timeRemaining
    case None => None
    case Some(t) =>
      if t <= 0 then None
      else
        ClockRoundTrip(t);
        Some(TimerView(GetTimeColor(t), FormatTime(t)))
  }
}
