/** Counters printed as at least eight lower-case hexadecimal digits, the way the gateways and the
    MME print tunnel ids and M-TMSIs. */
module Hex {

  function Digit(d: nat): char
    requires d < 16
  {
    "0123456789abcdef"[d]
  }

  function Value(c: char): nat {
    if '0' <= c <= '9' then (c - '0') as nat else if 'a' <= c <= 'f' then (c - 'a') as nat + 10 else 0
  }

  function Digits(n: nat): string {
    if n < 16 then [Digit(n)] else Digits(n / 16) + [Digit(n % 16)]
  }

  function Pad(s: string, width: nat): string
    decreases width - |s|
  {
    if |s| >= width then s else Pad("0" + s, width)
  }

  function Format08(n: nat): string { Pad(Digits(n), 8) }

  function Parse(s: string): nat {
    if s == "" then 0 else 16 * Parse(s[..|s| - 1]) + Value(s[|s| - 1])
  }

  lemma ValueOfDigit(d: nat)
    requires d < 16
    ensures Value(Digit(d)) == d
  {
    assert d <= 9 ==> Digit(d) == '0' + d as char;
    assert d > 9 ==> Digit(d) == 'a' + (d - 10) as char;
  }

  lemma {:induction false} ParseDigits(n: nat)
    ensures Parse(Digits(n)) == n
  {
    ValueOfDigit(n % 16);
    if n < 16 {
      assert Digits(n)[..0] == "";
    } else {
      ParseDigits(n / 16);
      assert Digits(n)[..|Digits(n)| - 1] == Digits(n / 16);
    }
  }

  lemma {:induction false} ParseLeadingZero(s: string)
    ensures Parse("0" + s) == Parse(s)
  {
    if s == "" {
      assert ("0" + s)[..0] == "";
    } else {
      ParseLeadingZero(s[..|s| - 1]);
      assert ("0" + s)[..|s|] == "0" + s[..|s| - 1];
    }
  }

  lemma {:induction false} ParsePadded(s: string, width: nat)
    ensures Parse(Pad(s, width)) == Parse(s)
    decreases width - |s|
  {
    if |s| >= width {
    } else {
      ParsePadded("0" + s, width);
      ParseLeadingZero(s);
    }
  }

  lemma {:induction false} DigitsShape(n: nat)
    ensures |Digits(n)| >= 1 && (n > 0 ==> Digits(n)[0] != '0')
  {
    if n < 16 {
    } else {
      DigitsShape(n / 16);
    }
  }

  lemma {:induction false} PadShape(s: string, width: nat)
    ensures |Pad(s, width)| == if |s| < width then width else |s|
    ensures |s| >= width ==> Pad(s, width) == s
    decreases width - |s|
  {
    if |s| >= width {
    } else {
      PadShape("0" + s, width);
    }
  }

  /** The print-out has at least eight digits, and more only when the first one counts; with the value that is
      read back this leaves one text for each number. */
  lemma PrintShape(n: nat)
    ensures |Format08(n)| >= 8 && (|Format08(n)| > 8 ==> Format08(n)[0] != '0')
  {
    DigitsShape(n);
    PadShape(Digits(n), 8);
    if n == 0 { assert |Digits(n)| == 1; }
    hide Digits, Pad;
  }

  /** Reading the printed text gives the counter back, so two counters never print alike. */
  lemma RoundTrip(n: nat)
    ensures Parse(Format08(n)) == n
  {
    ParsePadded(Digits(n), 8);
    ParseDigits(n);
  }
}
