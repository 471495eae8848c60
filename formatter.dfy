/** `Formatter.toUiString` for durations: whole seconds shown as `mm:ss`. */
module Formatter {
  import opened Common

  /** `String.format("%02d", n)`: the decimal digits of `n`, zero-padded to at least two
      characters; a negative number keeps its sign in front (width 2 is then already met). */
  function Pad2(n: int): (s: string)
    ensures n >= 0 ==> |s| >= 2 && IsDigits(s)
    ensures 0 <= n < 100 ==> |s| == 2
    ensures n < 0 ==> |s| >= 2 && s[0] == '-' && IsDigits(s[1..])
  {
    if n < 0 then "-" + NatToString(-n)
    else if n < 10 then ['0'] + NatToString(n)
    else NatToString(n)
  }

  function Minutes(totalSeconds: int): int { TDiv(totalSeconds, 60) }

  function Seconds(totalSeconds: int): int { TMod(totalSeconds, 60) }

  /** `Double.toUiString`, from the already truncated whole seconds. */
  function ToUiString(totalSeconds: int): string {
    Pad2(Minutes(totalSeconds)) + ":" + Pad2(Seconds(totalSeconds))
  }

  /** The two fields recombine to the input, for either sign. */
  lemma SplitRecombines(totalSeconds: int)
    ensures Minutes(totalSeconds) * 60 + Seconds(totalSeconds) == totalSeconds
  {
    TDivTMod(totalSeconds, 60);
  }

  /** For a non-negative duration the seconds field is in `[0, 59]` and the minutes field is
      non-negative; a negative duration makes both fields non-positive. */
  lemma FieldRanges(totalSeconds: int)
    ensures totalSeconds >= 0 ==> 0 <= Seconds(totalSeconds) <= 59 && Minutes(totalSeconds) >= 0
    ensures totalSeconds <= 0 ==> -59 <= Seconds(totalSeconds) <= 0 && Minutes(totalSeconds) <= 0
  {
  }

  /** Under 100 minutes the text is exactly `mm:ss`: five characters, two digits either side of
      the colon. */
  lemma FiveCharacters(totalSeconds: int)
    requires 0 <= totalSeconds < 6000
    ensures var u := ToUiString(totalSeconds);
      |u| == 5 && u[2] == ':' && IsDigits(u[..2]) && IsDigits(u[3..])
  {
    var m := Minutes(totalSeconds);
    assert m == totalSeconds / 60 < 100;
    var u := ToUiString(totalSeconds);
    assert u[..2] == Pad2(m);
    assert u[3..] == Pad2(Seconds(totalSeconds));
  }

  /** Reading back a zero-padded field gives the number. */
  lemma {:induction false} ParsePad2(n: nat)
    ensures IsDigits(Pad2(n)) && ParseDigits(Pad2(n)) == n
  {
    ParseNatToString(n);
    if n < 10 {
      var s := Pad2(n);
      assert s[..1] == ['0'];
      assert ParseDigits(['0']) == 0 by {
        assert ['0'][..0] == [];
      }
      assert s[..|s| - 1] == ['0'];
      assert s[1] == NatToString(n)[0];
      assert NatToString(n)[..0] == [];
    }
  }

  /** The text reads back as the duration: the digits before the colon are the minutes, the
      two digits after it the seconds, and minutes * 60 + seconds is the input. */
  lemma RoundTrip(totalSeconds: nat)
    ensures var u := ToUiString(totalSeconds);
      && |u| >= 5 && u[|u| - 3] == ':'
      && IsDigits(u[..|u| - 3]) && IsDigits(u[|u| - 2..])
      && ParseDigits(u[..|u| - 3]) == Minutes(totalSeconds)
      && ParseDigits(u[|u| - 2..]) == Seconds(totalSeconds)
      && ParseDigits(u[..|u| - 3]) * 60 + ParseDigits(u[|u| - 2..]) == totalSeconds
  {
    var m, s := Minutes(totalSeconds), Seconds(totalSeconds);
    FieldRanges(totalSeconds);
    SplitRecombines(totalSeconds);
    ParsePad2(m);
    ParsePad2(s);
    var u := ToUiString(totalSeconds);
    assert u[..|u| - 3] == Pad2(m);
    assert u[|u| - 2..] == Pad2(s);
  }
}
