/**
 * The two display helpers of static/js/script.js that compute a value:
 * `formatTime`, which renders a number of seconds as "mm:ss", and the choice of
 * volume icon in `updateVolumeIcon`.
 */
module Display {
  import opened Text

  /** A JavaScript number as the audio element reports a time: NaN, an infinity or finite. */
  datatype Seconds = NaN | PosInfinity | NegInfinity | Finite(value: real)

  /** A quotient rounded toward zero, as JavaScript's `%` rounds it. */
  function Truncate(q: real): (t: int)
    ensures q >= 0.0 ==> 0.0 <= q - t as real < 1.0
    ensures q < 0.0 ==> -1.0 < q - t as real <= 0.0
  {
    if q >= 0.0 then q.Floor else -((-q).Floor)
  }

  /**
   * `seconds % 60` in JavaScript: what is left after taking whole minutes toward
   * zero, so the remainder has the sign of `seconds`.
   */
  function Remainder60(x: real): (r: real)
    ensures x >= 0.0 ==> 0.0 <= r < 60.0
    ensures x < 0.0 ==> -60.0 < r <= 0.0
    ensures ((x - r) / 60.0).Floor as real == (x - r) / 60.0
  {
    x - 60.0 * Truncate(x / 60.0) as real
  }

  /** `i.toString()` for an integer. */
  function IntToString(i: int): string
  {
    if i < 0 then "-" + NatToString(-i) else NatToString(i)
  }

  /** `formatTime(seconds)`: NaN shows as "00:00", otherwise minutes and seconds, each padded to two characters. */
  function FormatTime(seconds: Seconds): (r: string)
  {
    match seconds
    case NaN => "00:00"
    case PosInfinity => "Infinity:NaN"
    case NegInfinity => "-Infinity:NaN"
    case Finite(x) =>
      var mins := (x / 60.0).Floor;
      var secs := Remainder60(x).Floor;
      Pad2(IntToString(mins)) + ":" + Pad2(IntToString(secs))
  }

  /** For a non-negative time, whole minutes and the whole seconds left over. */
  lemma MinutesAndSeconds(x: real)
    requires x >= 0.0
    ensures (x / 60.0).Floor == x.Floor / 60
    ensures Remainder60(x).Floor == x.Floor % 60
  {
    var f := x.Floor;
    var m := (x / 60.0).Floor;
    assert 60.0 * m as real <= x < 60.0 * m as real + 60.0;
    assert 60 * m <= f < 60 * m + 60;
    assert Remainder60(x) == x - 60.0 * m as real;
    assert (f - 60 * m) as real <= x - 60.0 * m as real < (f - 60 * m) as real + 1.0;
  }

  /** For a non-negative time the display is built from the whole minutes and the seconds left over. */
  lemma FormatTimeParts(x: real)
    requires x >= 0.0
    ensures FormatTime(Finite(x)) == Pad2(NatToString(x.Floor / 60)) + ":" + Pad2(NatToString(x.Floor % 60))
  {
    MinutesAndSeconds(x);
  }

  /**
   * `m` minutes and `s` seconds render as at least two minute digits, a colon and
   * exactly two second digits that denote `m` and `s`; below 100 minutes that is
   * five characters.
   */
  lemma {:induction false} ClockDigits(m: nat, s: nat)
    requires s < 60
    ensures var r := Pad2(NatToString(m)) + ":" + Pad2(NatToString(s));
      && |r| >= 5 && r[|r| - 3] == ':'
      && AllDigits(r[..|r| - 3]) && AllDigits(r[|r| - 2..])
      && DigitsValue(r[..|r| - 3]) == m && DigitsValue(r[|r| - 2..]) == s
      && (m < 100 ==> |r| == 5)
  {
    var mins := NatToString(m);
    var secs := NatToString(s);
    Pad2Digits(mins);
    Pad2Digits(secs);
    var a := Pad2(mins);
    var b := Pad2(secs);
    assert |secs| <= 2 by {
      if |secs| > 2 {
        LeadingDigitBound(secs);
      }
    }
    var r := a + ":" + b;
    assert r[..|r| - 3] == a && r[|r| - 2..] == b;
    if m < 100 && |mins| > 2 {
      LeadingDigitBound(mins);
    }
  }

  /**
   * For a non-negative time the display is `mm:ss`: at least two minute digits, then
   * a colon, then exactly two second digits; the minutes times 60 plus the seconds
   * are the whole seconds of the time, and the seconds are below 60. Below 100
   * minutes the display has exactly five characters.
   */
  lemma FormatTimeSpec(x: real)
    requires x >= 0.0
    ensures var r := FormatTime(Finite(x));
      && |r| >= 5 && r[|r| - 3] == ':'
      && AllDigits(r[..|r| - 3]) && AllDigits(r[|r| - 2..])
      && DigitsValue(r[..|r| - 3]) * 60 + DigitsValue(r[|r| - 2..]) == x.Floor
      && DigitsValue(r[|r| - 2..]) < 60
      && (x < 6000.0 ==> |r| == 5)
  {
    FormatTimeParts(x);
    ClockDigits(x.Floor / 60, x.Floor % 60);
  }

  /** A numeral of three or more digits without a leading zero denotes at least 100. */
  lemma {:induction false} LeadingDigitBound(s: string)
    requires AllDigits(s) && |s| >= 3 && s[0] != '0'
    ensures DigitsValue(s) >= 100
  {
    var init := s[..|s| - 1];
    if |s| > 3 {
      LeadingDigitBound(init);
    } else {
      assert DigitsValue(s[..1]) == DigitValue(s[0]) >= 1;
      assert init[..1] == s[..1];
    }
  }

  lemma FormatTimeExamples()
    ensures FormatTime(NaN) == "00:00"
    ensures FormatTime(Finite(0.0)) == "00:00"
    ensures FormatTime(Finite(65.0)) == "01:05"
  {
    MinutesAndSeconds(0.0);
    MinutesAndSeconds(65.0);
    assert NatToString(1) == "1" && NatToString(5) == "5" && NatToString(0) == "0";
  }

  /**
   * A negative time is not clamped: -5 seconds floors to -1 minutes and keeps -5
   * seconds, both of which are already two characters long.
   */
  lemma FormatTimeNegative()
    ensures FormatTime(Finite(-5.0)) == "-1:-5"
  {
    assert (-5.0 / 60.0).Floor == -1;
    assert Remainder60(-5.0) == -5.0;
    assert NatToString(1) == "1" && NatToString(5) == "5";
  }

  // ---------------------------------------------------------------------
  // Volume icon
  // ---------------------------------------------------------------------

  datatype VolumeIcon = Mute | Down | Up

  /** The icon `updateVolumeIcon` shows for a volume. */
  function IconFor(volume: real): (icon: VolumeIcon)
    ensures icon == Mute <==> volume == 0.0
    ensures icon == Down <==> volume != 0.0 && volume < 0.5
    ensures icon == Up <==> volume >= 0.5
  {
    if volume == 0.0 then Mute else if volume < 0.5 then Down else Up
  }

  function Loudness(icon: VolumeIcon): nat {
    match icon
    case Mute => 0
    case Down => 1
    case Up => 2
  }

  /**
   * Over the slider's range [0, 1] the mute icon is shown exactly at 0, the low
   * icon exactly below one half, and the icon never gets quieter as the volume rises.
   */
  lemma IconForSpec(v: real, w: real)
    requires 0.0 <= v <= w <= 1.0
    ensures IconFor(v) == Mute <==> v == 0.0
    ensures IconFor(v) == Down <==> 0.0 < v < 0.5
    ensures IconFor(v) == Up <==> 0.5 <= v
    ensures Loudness(IconFor(v)) <= Loudness(IconFor(w))
  {
  }
}
