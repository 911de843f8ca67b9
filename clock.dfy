/** The `MM:SS` countdown display (script.js `updateTimerDisplay`): minutes by
    `Math.floor(t / 60)`, seconds by JavaScript's `t % 60`, each turned into a
    decimal string and left-padded with '0' to at least two characters. */
module Clock {
  import opened Wrappers

  /** `Math.floor(t / 60)`. */
  function Minutes(t: int): (m: int)
    ensures 60 * m <= t < 60 * m + 60
  {
    t / 60
  }

  /** JavaScript's `t % 60`: the remainder takes the sign of the dividend. */
  function Seconds(t: int): (r: int)
    ensures -60 < r < 60
    ensures (t - r) % 60 == 0
    ensures t >= 0 ==> r == t - 60 * Minutes(t)
    ensures t <= 0 ==> r <= 0
  {
    if t >= 0 || t % 60 == 0 then t % 60 else t % 60 - 60
  }

  function DigitChar(d: nat): (c: char)
    requires d < 10
    ensures IsDigit(c) && DigitValue(c) == d
  {
    "0123456789"[d]
  }

  predicate IsDigit(c: char) {
    '0' <= c <= '9'
  }

  function DigitValue(c: char): nat
    requires IsDigit(c)
  {
    (c as int - '0' as int) as nat
  }

  predicate AllDigits(s: string) {
    forall i :: 0 <= i < |s| ==> IsDigit(s[i])
  }

  /** The value of a string of decimal digits, most significant first. */
  function DigitsValue(s: string): nat
    requires AllDigits(s)
  {
    if s == [] then 0 else DigitsValue(s[..|s| - 1]) * 10 + DigitValue(s[|s| - 1])
  }

  /** `n.toString()` for a non-negative integer. */
  function NatToDecimal(n: nat): (s: string)
    ensures 1 <= |s| && AllDigits(s)
    ensures n < 10 <==> |s| == 1
  {
    if n < 10 then [DigitChar(n)] else NatToDecimal(n / 10) + [DigitChar(n % 10)]
  }

  /** `i.toString()` for any integer. */
  function IntToString(i: int): (s: string)
    ensures |s| >= 1 && (s[0] == '-' <==> i < 0)
    ensures i >= 0 ==> AllDigits(s) && DigitsValue(s) == i
    ensures i < 0 ==> AllDigits(s[1..]) && DigitsValue(s[1..]) == -i
  {
    if i < 0 then
      var d := NatToDecimal(-i);
      NatToDecimalValue(-i);
      assert ("-" + d)[1..] == d;
      "-" + d
    else
      NatToDecimalValue(i);
      NatToDecimal(i)
  }

  function Zeros(k: nat): (s: string)
    ensures |s| == k && AllDigits(s)
    ensures forall i :: 0 <= i < k ==> s[i] == '0'
  {
    if k == 0 then [] else ['0'] + Zeros(k - 1)
  }

  /** `s.padStart(2, "0")`. */
  function PadTwo(s: string): (p: string)
    ensures |p| == if |s| < 2 then 2 else |s|
  {
    if |s| < 2 then Zeros(2 - |s|) + s else s
  }

  /** The text of the timer element for `t` seconds left. */
  function Display(t: int): string {
    PadTwo(IntToString(Minutes(t))) + ":" + PadTwo(IntToString(Seconds(t)))
  }

  /** Reads an `MM:SS` display back as seconds: the two digit groups around the
      colon, when the text has that shape. */
  function ParseDisplay(s: string): (t: Option<nat>)
    ensures t.Some? ==> |s| >= 5 && s[|s| - 3] == ':'
  {
    if |s| >= 5 && s[|s| - 3] == ':' && AllDigits(s[..|s| - 3]) && AllDigits(s[|s| - 2..])
    then Some(DigitsValue(s[..|s| - 3]) * 60 + DigitsValue(s[|s| - 2..]))
    else None
  }

  lemma {:induction false} NatToDecimalValue(n: nat)
    ensures DigitsValue(NatToDecimal(n)) == n
  {
    var s := NatToDecimal(n);
    if n >= 10 {
      NatToDecimalValue(n / 10);
      assert s[..|s| - 1] == NatToDecimal(n / 10);
    } else {
      assert s[..0] == [];
    }
  }

  /** Leading zeros do not change the value of a digit string. */
  lemma {:induction false} ZerosValue(k: nat, s: string)
    requires AllDigits(s)
    ensures AllDigits(Zeros(k) + s) && DigitsValue(Zeros(k) + s) == DigitsValue(s)
    decreases k, |s|
  {
    var z := Zeros(k) + s;
    assert AllDigits(z) by {
      forall i | 0 <= i < |z| ensures IsDigit(z[i]) {
        if i < k { assert z[i] == Zeros(k)[i]; } else { assert z[i] == s[i - k]; }
      }
    }
    if s == [] {
      assert z == Zeros(k);
      if k > 0 {
        ZerosValue(k - 1, []);
        assert z[..|z| - 1] == Zeros(k - 1) + [];
      }
    } else {
      var init := s[..|s| - 1];
      ZerosValue(k, init);
      assert z[..|z| - 1] == Zeros(k) + init;
      assert z[|z| - 1] == s[|s| - 1];
    }
  }

  /** A padded decimal reads back as its number; below 100 it is exactly two digits. */
  lemma PaddedValue(n: nat)
    ensures AllDigits(PadTwo(NatToDecimal(n))) && DigitsValue(PadTwo(NatToDecimal(n))) == n
    ensures n < 100 ==> |PadTwo(NatToDecimal(n))| == 2
  {
    var s := NatToDecimal(n);
    NatToDecimalValue(n);
    if |s| < 2 {
      ZerosValue(2 - |s|, s);
    }
    if 10 <= n < 100 {
      assert |NatToDecimal(n / 10)| == 1;
    }
  }

  /** Joining a minutes group and a two-digit seconds group with ':' gives text that
      parses back to minutes * 60 + seconds. */
  lemma ParseJoined(pm: string, pr: string)
    requires AllDigits(pm) && |pm| >= 2 && AllDigits(pr) && |pr| == 2
    ensures var s := pm + ":" + pr;
      && |s| >= 5 && s[|s| - 3] == ':'
      && s[..|s| - 3] == pm && s[|s| - 2..] == pr
      && ParseDisplay(s) == Some(DigitsValue(pm) * 60 + DigitsValue(pr))
  {
    var s := pm + ":" + pr;
    assert s[..|s| - 3] == pm;
    assert s[|s| - 2..] == pr;
  }

  /** For a non-negative number of seconds the display has the shape `M..M:SS` and
      reads back as the same number of seconds. */
  lemma DisplayRoundTrip(t: int)
    requires t >= 0
    ensures var s := Display(t);
      && |s| >= 5 && s[|s| - 3] == ':'
      && AllDigits(s[..|s| - 3]) && DigitsValue(s[..|s| - 3]) == t / 60
      && AllDigits(s[|s| - 2..]) && DigitsValue(s[|s| - 2..]) < 60
      && ParseDisplay(s) == Some(t)
  {
    var m, r := Minutes(t), Seconds(t);
    assert 0 <= m && 0 <= r < 60 && m * 60 + r == t;
    PaddedValue(m);
    PaddedValue(r);
    assert IntToString(m) == NatToDecimal(m) && IntToString(r) == NatToDecimal(r);
    var pm, pr := PadTwo(NatToDecimal(m)), PadTwo(NatToDecimal(r));
    assert Display(t) == pm + ":" + pr;
    ParseJoined(pm, pr);
  }

  /** JavaScript's remainder keeps the sign of a count below zero: from one to 59
      seconds under zero the text is `-1:-` followed by the digits of the deficit, and
      it does not read back as a time. */
  lemma NegativeDisplay(t: int)
    requires -60 < t < 0
    ensures Display(t) == "-1:-" + NatToDecimal(-t)
    ensures ParseDisplay(Display(t)).None?
  {
    assert Minutes(t) == -1 && Seconds(t) == t;
    assert NatToDecimal(1) == "1";
    var d := NatToDecimal(-t);
    assert |d| <= 2 by {
      if -t >= 10 { assert |NatToDecimal(-t / 10)| == 1; }
    }
    var s := Display(t);
    assert s == "-1:-" + d;
    if |d| == 1 {
      assert s[..|s| - 3][0] == '-';
    } else {
      assert s[|s| - 3] == '-';
    }
  }
}
