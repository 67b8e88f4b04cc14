/** The ZIP-code form check of the submit handler. */
module ZipCode {
  import opened Text

  /** An ASCII decimal digit. */
  predicate IsDigit(c: char) {
    '0' <= c <= '9'
  }

  /** Python's `str.isdigit` over ASCII: false on the empty string. */
  predicate IsDigits(s: string) {
    |s| > 0 && forall k :: 0 <= k < |s| ==> IsDigit(s[k])
  }

  /**
    The check applied to the already stripped input: rejected when not all
    digits or not of length five. The accepted strings are exactly the
    five-character strings of digits.
   */
  predicate IsZip(z: string): (ok: bool)
    ensures ok <==> |z| == 5 && forall k :: 0 <= k < |z| ==> IsDigit(z[k])
  {
    !(!IsDigits(z) || |z| != 5)
  }

  /**
    What the form accepts: the input is stripped, then checked. The stripped
    input of an accepted form is one of 00000 through 99999.
   */
  predicate Accepts(raw: string): (ok: bool)
    ensures ok <==> exists n :: 0 <= n < 100000 && Strip(raw) == Pad(n, 5)
  {
    AcceptedZipsAreFiveDigitNumbers(Strip(raw));
    IsZip(Strip(raw))
  }

  function Pow10(n: nat): (p: nat)
    ensures p > 0
  {
    if n == 0 then 1 else 10 * Pow10(n - 1)
  }

  function DigitChar(d: nat): (c: char)
    requires d < 10
    ensures IsDigit(c)
  {
    ('0' as int + d) as char
  }

  function DigitValue(c: char): (d: nat)
    requires IsDigit(c)
    ensures d < 10
  {
    c as int - '0' as int
  }

  /** The last `width` decimal digits of `n`, zero-padded on the left. */
  function Pad(n: nat, width: nat): (s: string)
    ensures |s| == width
    ensures forall k :: 0 <= k < |s| ==> IsDigit(s[k])
  {
    if width == 0 then [] else Pad(n / 10, width - 1) + [DigitChar(n % 10)]
  }

  /** The number a string of decimal digits denotes. */
  function Value(s: string): (n: nat)
    requires forall k :: 0 <= k < |s| ==> IsDigit(s[k])
    ensures n < Pow10(|s|)
  {
    if |s| == 0 then 0 else 10 * Value(s[..|s| - 1]) + DigitValue(s[|s| - 1])
  }

  /** Reading a digit string and padding it back to its length gives the string. */
  lemma {:induction false} PadOfValue(s: string)
    requires forall k :: 0 <= k < |s| ==> IsDigit(s[k])
    ensures Pad(Value(s), |s|) == s
  {
    if |s| > 0 {
      var init := s[..|s| - 1];
      var v := Value(s);
      assert v / 10 == Value(init) && v % 10 == DigitValue(s[|s| - 1]);
      PadOfValue(init);
      assert s == init + [s[|s| - 1]];
    }
  }

  /** The accepted ZIP codes are exactly 00000 through 99999, written with five digits. */
  lemma AcceptedZipsAreFiveDigitNumbers(z: string)
    ensures IsZip(z) <==> exists n :: 0 <= n < 100000 && z == Pad(n, 5)
  {
    if IsZip(z) {
      PadOfValue(z);
      assert Pow10(5) == 100000;
      assert Value(z) < 100000 && z == Pad(Value(z), 5);
    }
  }

  /** A whitespace character in front of the input never changes the verdict. */
  lemma AcceptsIgnoresLeadingSpace(c: char, raw: string)
    requires IsSpace(c)
    ensures Accepts([c] + raw) == Accepts(raw)
  {
    StripSkipsLeadingSpace(c, raw);
  }

  /** "90210" passes the form check. */
  lemma BeverlyHillsZipAccepted()
    ensures Accepts("90210")
  {
    var z := "90210";
    assert z[0] == '9' && z[1] == '0' && z[2] == '2' && z[3] == '1' && z[4] == '0';
    assert IsDigits(z);
    assert IsZip(z);
    AsciiWhitespace(z[0]);
    AsciiWhitespace(z[4]);
    StripTrimmed(z);
  }

}
