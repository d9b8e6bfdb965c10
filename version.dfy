/**
  Version tokens of an attachment document.

  Each logical document has its own System.Sequence whose formatter is
  "V-{seq:06d}": the token for the number n is "V-" followed by the decimal
  digits of n, left-padded with '0' to at least six digits.  `Parse` reads a
  token back; it is not part of the system, it is how this model states that
  two different numbers never give the same token.
 */
module VersionToken {
  import opened Wrappers

  predicate IsDigit(c: char) {
    '0' <= c <= '9'
  }

  function DigitChar(d: nat): (c: char)
    requires d < 10
    ensures IsDigit(c) && DigitValue(c) == d
  {
    ('0' as int + d) as char
  }

  function DigitValue(c: char): nat
    requires IsDigit(c)
  {
    c as int - '0' as int
  }

  predicate AllDigits(s: string) {
    forall i :: 0 <= i < |s| ==> IsDigit(s[i])
  }

  /** The decimal representation of n, without leading zeros (Python's `str(n)`). */
  function Digits(n: nat): (s: string)
    ensures |s| >= 1 && AllDigits(s)
    decreases n
  {
    if n < 10 then [DigitChar(n)] else Digits(n / 10) + [DigitChar(n % 10)]
  }

  function Zeros(k: nat): (s: string)
    ensures |s| == k && forall i :: 0 <= i < k ==> s[i] == '0'
  {
    if k == 0 then [] else Zeros(k - 1) + ['0']
  }

  /** The `06d` conversion: at least six characters, left-padded with '0'. */
  function Pad6(s: string): (r: string)
    ensures |r| == if |s| < 6 then 6 else |s|
    ensures r[|r| - |s|..] == s
    ensures forall i :: 0 <= i < |r| - |s| ==> r[i] == '0'
  {
    if |s| < 6 then Zeros(6 - |s|) + s else s
  }

  /** The token the sequence formatter "V-{seq:06d}" produces for the number `n`. */
  function Format(n: nat): (v: string)
    ensures |v| >= 8 && v[..2] == "V-" && AllDigits(v[2..])
  {
    "V-" + Pad6(Digits(n))
  }

  /** The number a string of decimal digits denotes (leading zeros allowed). */
  function DecimalValue(s: string): nat
    requires AllDigits(s)
  {
    if s == [] then 0 else DecimalValue(s[..|s| - 1]) * 10 + DigitValue(s[|s| - 1])
  }

  /** The number of a well-formed token, `None` for any other string. */
  function Parse(v: string): Option<nat> {
    if |v| > 2 && v[..2] == "V-" && AllDigits(v[2..]) then Some(DecimalValue(v[2..])) else None
  }

  /** The number of a token, used to order the versions of one document; 0 for a malformed one. */
  function Number(v: string): nat {
    match Parse(v)
    case Some(n) => n
    case None => 0
  }

  lemma {:induction false} DigitsValue(n: nat)
    ensures DecimalValue(Digits(n)) == n
    decreases n
  {
    if n >= 10 {
      var s := Digits(n);
      assert s[..|s| - 1] == Digits(n / 10);
      DigitsValue(n / 10);
    }
  }

  lemma {:induction false} ZerosValue(k: nat)
    ensures DecimalValue(Zeros(k)) == 0
  {
    if k > 0 {
      assert Zeros(k)[..k - 1] == Zeros(k - 1);
      ZerosValue(k - 1);
    }
  }

  /** Leading zeros do not change the value of a digit string. */
  lemma {:induction false} LeadingZerosValue(k: nat, s: string)
    requires AllDigits(s)
    ensures AllDigits(Zeros(k) + s)
    ensures DecimalValue(Zeros(k) + s) == DecimalValue(s)
    decreases |s|
  {
    if s == [] {
      assert Zeros(k) + s == Zeros(k);
      ZerosValue(k);
    } else {
      var z := Zeros(k) + s;
      assert z[..|z| - 1] == Zeros(k) + s[..|s| - 1];
      assert z[|z| - 1] == s[|s| - 1];
      LeadingZerosValue(k, s[..|s| - 1]);
    }
  }

  /** Reading a formatted token gives back the sequence number it was made from. */
  lemma ParseFormat(n: nat)
    ensures Parse(Format(n)) == Some(n)
    ensures Number(Format(n)) == n
  {
    var d := Digits(n);
    var v := Format(n);
    assert v[2..] == Pad6(d);
    DigitsValue(n);
    if |d| < 6 {
      LeadingZerosValue(6 - |d|, d);
    }
  }

  /** Different sequence numbers give different tokens. */
  lemma FormatInjective(m: nat, n: nat)
    ensures Format(m) == Format(n) ==> m == n
  {
    ParseFormat(m);
    ParseFormat(n);
  }

  /** The first number a sequence issues gives the first version of a document. */
  lemma FirstVersion()
    ensures Format(1) == "V-000001"
  {
    assert Digits(1) == "1";
    assert Zeros(5) == "00000";
  }
}
