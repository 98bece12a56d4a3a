/** String helpers the views and admin pages rely on: decimal rendering of
    naturals (Python's `str(n)` and `f"{n:05d}"`), reading such text back,
    the "first n characters plus ..." preview, and ASCII lower-casing. */
module Text {

  predicate IsDigit(c: char) {
    '0' <= c <= '9'
  }

  predicate IsDigits(s: string) {
    forall i :: 0 <= i < |s| ==> IsDigit(s[i])
  }

  function DigitChar(d: nat): (c: char)
    requires d < 10
    ensures IsDigit(c) && c as int - '0' as int == d
  {
    (d + '0' as int) as char
  }

  function DigitValue(c: char): nat
    requires IsDigit(c)
  {
    c as int - '0' as int
  }

  /** `str(n)` for a natural number: its decimal digits, most significant first. */
  function NatToString(n: nat): (s: string)
    ensures 1 <= |s| && IsDigits(s)
    ensures n < 10 <==> |s| == 1
  {
    if n < 10 then [DigitChar(n)] else NatToString(n / 10) + [DigitChar(n % 10)]
  }

  /** The number a string of decimal digits denotes (leading zeros allowed). */
  function StringToNat(s: string): nat
    requires IsDigits(s)
  {
    if s == [] then 0 else StringToNat(s[..|s| - 1]) * 10 + DigitValue(s[|s| - 1])
  }

  function Zeros(k: nat): (z: string)
    ensures |z| == k && forall i :: 0 <= i < k ==> z[i] == '0'
  {
    seq(k, _ => '0')
  }

  /** Left-pads `s` with '0' up to `width` characters, as the `0<width>d` format does. */
  function ZeroPad(s: string, width: nat): (r: string)
    ensures |r| == if |s| < width then width else |s|
    ensures r[|r| - |s|..] == s
    ensures forall i :: 0 <= i < |r| - |s| ==> r[i] == '0'
  {
    if |s| < width then Zeros(width - |s|) + s else s
  }

  /** `f"{n:0<width>d}"`. */
  function PaddedNumber(n: nat, width: nat): string {
    ZeroPad(NatToString(n), width)
  }

  lemma {:induction false} StringToNatOfNatToString(n: nat)
    ensures StringToNat(NatToString(n)) == n
  {
    var s := NatToString(n);
    if n < 10 {
      assert s[..0] == [];
    } else {
      StringToNatOfNatToString(n / 10);
      assert s[..|s| - 1] == NatToString(n / 10);
    }
  }

  lemma {:induction false} ZerosDenoteZero(k: nat)
    ensures IsDigits(Zeros(k)) && StringToNat(Zeros(k)) == 0
  {
    if k > 0 {
      ZerosDenoteZero(k - 1);
      assert Zeros(k)[..k - 1] == Zeros(k - 1);
    }
  }

  lemma {:induction false} LeadingZerosIgnored(k: nat, s: string)
    requires IsDigits(s)
    ensures IsDigits(Zeros(k) + s) && StringToNat(Zeros(k) + s) == StringToNat(s)
  {
    if s == [] {
      assert Zeros(k) + s == Zeros(k);
      ZerosDenoteZero(k);
    } else {
      var t := Zeros(k) + s;
      LeadingZerosIgnored(k, s[..|s| - 1]);
      assert t[..|t| - 1] == Zeros(k) + s[..|s| - 1];
    }
  }

  /** Zero padding loses nothing: the padded text still reads back as `n`. */
  lemma PaddedNumberRoundTrip(n: nat, width: nat)
    ensures IsDigits(PaddedNumber(n, width)) && StringToNat(PaddedNumber(n, width)) == n
  {
    var s := NatToString(n);
    StringToNatOfNatToString(n);
    if |s| < width {
      LeadingZerosIgnored(width - |s|, s);
    }
  }

  /** Different numbers are rendered as different padded texts. */
  lemma PaddedNumberInjective(a: nat, b: nat, width: nat)
    requires PaddedNumber(a, width) == PaddedNumber(b, width)
    ensures a == b
  {
    PaddedNumberRoundTrip(a, width);
    PaddedNumberRoundTrip(b, width);
  }

  /** `text[:limit] + "..." if len(text) > limit else text`. */
  function Preview(text: string, limit: nat): (r: string)
    ensures |text| <= limit ==> r == text
    ensures |text| > limit ==> |r| == limit + 3 && r[..limit] == text[..limit] && r[limit..] == "..."
  {
    if |text| > limit then text[..limit] + "..." else text
  }

  /** `str.lower()` restricted to ASCII letters. */
  function AsciiLower(s: string): (r: string)
    ensures |r| == |s|
    ensures forall i :: 0 <= i < |s| ==> (if 'A' <= s[i] <= 'Z' then r[i] as int == s[i] as int + 32 else r[i] == s[i])
  {
    if s == [] then []
    else
      var c := s[0];
      [if 'A' <= c <= 'Z' then (c as int + 32) as char else c] + AsciiLower(s[1..])
  }
}
