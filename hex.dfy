/**
 * The integer/hex conversions of the header codec and the version marker:
 * `hex(n, len)` (`n.toString(16)` left-padded with '0'), `dec(s)`
 * (`parseInt(s, 16)`, modelled on well-formed hex text only) and
 * `hv(v) == "SV" + hex(v, 2)`.
 */
module HexText {
  import opened Wrappers

  /** The literal that opens every header, and the width of the version field. */
  const VS: string := "SV"
  const VL: nat := 2

  const DIGITS: string := "0123456789abcdef"

  function Digit(d: nat): (c: char)
    requires d < 16
    ensures c in DIGITS
  {
    DIGITS[d]
  }

  /** A character `parseInt(_, 16)` takes as a digit, in either case. */
  predicate IsHexChar(c: char) {
    '0' <= c <= '9' || 'a' <= c <= 'f' || 'A' <= c <= 'F'
  }

  predicate IsHexText(s: string) {
    |s| > 0 && forall i :: 0 <= i < |s| ==> IsHexChar(s[i])
  }

  function DigitValue(c: char): (d: nat)
    requires IsHexChar(c)
    ensures d < 16
  {
    if '0' <= c <= '9' then c as int - '0' as int
    else if 'a' <= c <= 'f' then c as int - 'a' as int + 10
    else c as int - 'A' as int + 10
  }

  /** The value of a string of hex digits, most significant digit first. */
  function DigitsValue(s: string): nat
    requires forall i :: 0 <= i < |s| ==> IsHexChar(s[i])
  {
    if s == [] then 0 else DigitsValue(s[..|s| - 1]) * 16 + DigitValue(s[|s| - 1])
  }

  /** `n.toString(16)` for a natural `n`: lowercase digits, no leading zero. */
  function Base16(n: nat): (r: string)
    ensures |r| >= 1
    ensures forall i :: 0 <= i < |r| ==> r[i] in DIGITS
  {
    if n < 16 then [Digit(n)] else Base16(n / 16) + [Digit(n % 16)]
  }

  /** `n.toString(16)` for any integer: a minus sign before a negative number's digits. */
  function ToString16(n: int): string {
    if n < 0 then "-" + Base16(-n) else Base16(n)
  }

  function Zeros(k: nat): (r: string)
    ensures |r| == k && forall i :: 0 <= i < k ==> r[i] == '0'
  {
    if k == 0 then "" else "0" + Zeros(k - 1)
  }

  /** `s.padStart(len, '0')`. */
  function PadStart(s: string, len: int): string {
    if |s| >= len then s else Zeros(len - |s|) + s
  }

  /**
   * `hex(n, len)`: the base-16 text of `n`, padded to `len` only when
   * `len > 1`, and never cut down to `len`.
   */
  function Hex(n: int, len: int := 0): (r: string)
    ensures |r| >= |ToString16(n)|
    ensures len > 1 ==> |r| >= len
    ensures n >= 0 ==> forall i :: 0 <= i < |r| ==> r[i] in DIGITS
  {
    if len > 1 then PadStart(ToString16(n), len) else ToString16(n)
  }

  /** `dec(s)`: the number a well-formed hex string denotes, `None` for any other string. */
  function Dec(s: string): (r: Option<nat>)
    ensures r.Some? <==> IsHexText(s)
  {
    if IsHexText(s) then Some(DigitsValue(s)) else None
  }

  /** `hv(v)`: the version marker `SV` followed by the version as two hex digits. */
  function Hv(v: int): (r: string)
    ensures |r| >= 2 && r[..2] == VS
  {
    VS + Hex(v, VL)
  }

  /**
   * `hex` never truncates: the unpadded text ends the result, and the result
   * is exactly `len` long when padding takes place, and the text alone otherwise.
   */
  lemma HexShape(n: int, len: int)
    ensures var t, r := ToString16(n), Hex(n, len);
      && |t| <= |r| && r[|r| - |t|..] == t
      && |r| == (if len > 1 && len > |t| then len else |t|)
      && (forall i :: 0 <= i < |r| - |t| ==> r[i] == '0')
  {
    var t, r := ToString16(n), Hex(n, len);
    if len > 1 && len > |t| {
      assert r == Zeros(len - |t|) + t;
      assert r[|r| - |t|..] == t;
    }
  }

  /** A natural number's hex text is one character exactly when it is below 16. */
  lemma {:induction false} Base16Length(n: nat)
    ensures |Base16(n)| == 1 <==> n < 16
    ensures |Base16(n)| <= 2 <==> n < 256
  {
    if n >= 16 {
      Base16Length(n / 16);
    }
  }

  lemma DigitRoundTrip(d: nat)
    requires d < 16
    ensures IsHexChar(Digit(d)) && DigitValue(Digit(d)) == d
  {
    assert DIGITS[d] == ['0','1','2','3','4','5','6','7','8','9','a','b','c','d','e','f'][d];
  }

  lemma {:induction false} Base16Value(n: nat)
    ensures IsHexText(Base16(n)) && DigitsValue(Base16(n)) == n
  {
    DigitRoundTrip(n % 16);
    var r := Base16(n);
    if n < 16 {
      assert r[..0] == [];
    } else {
      Base16Value(n / 16);
      assert r[..|r| - 1] == Base16(n / 16);
    }
  }

  /** Leading zeros do not change the value of a digit string. */
  lemma {:induction false} LeadingZeros(k: nat, s: string)
    requires forall i :: 0 <= i < |s| ==> IsHexChar(s[i])
    ensures var z := Zeros(k) + s;
      (forall i :: 0 <= i < |z| ==> IsHexChar(z[i])) && DigitsValue(z) == DigitsValue(s)
  {
    var z := Zeros(k) + s;
    assert forall i :: 0 <= i < |z| ==> IsHexChar(z[i]) by {
      forall i | 0 <= i < |z| ensures IsHexChar(z[i]) {
        if i < k { assert z[i] == '0'; } else { assert z[i] == s[i - k]; }
      }
    }
    if s == [] {
      AllZeros(k);
      assert z == Zeros(k);
    } else {
      LeadingZeros(k, s[..|s| - 1]);
      assert z[..|z| - 1] == Zeros(k) + s[..|s| - 1];
      assert z[|z| - 1] == s[|s| - 1];
    }
  }

  lemma {:induction false} AllZeros(k: nat)
    ensures (forall i :: 0 <= i < k ==> IsHexChar(Zeros(k)[i])) && DigitsValue(Zeros(k)) == 0
  {
    if k > 0 {
      AllZeros(k - 1);
      var z := Zeros(k);
      assert z[..k - 1] == Zeros(k - 1);
    }
  }

  /** Round trip: `dec(hex(n, len)) == n` for every natural `n` and every width. */
  lemma DecHex(n: nat, len: int)
    ensures Dec(Hex(n, len)) == Some(n)
  {
    Base16Value(n);
    var t := Base16(n);
    assert ToString16(n) == t;
    if len > 1 && len > |t| {
      LeadingZeros(len - |t|, t);
      assert Hex(n, len) == Zeros(len - |t|) + t;
    } else {
      assert Hex(n, len) == t;
    }
  }

  /** The version marker of an in-range version is exactly four characters. */
  lemma HvLength(v: int)
    requires 0 <= v < 256
    ensures |Hv(v)| == 4
    ensures Dec(Hv(v)[2..]) == Some(v)
  {
    Base16Length(v);
    HexShape(v, VL);
    DecHex(v, VL);
    assert Hv(v)[2..] == Hex(v, VL);
  }

  /** A one-digit field: `hex(n, 1)` of a number below 16 is a single lowercase digit. */
  lemma SingleDigit(n: int)
    requires 0 <= n < 16
    ensures Hex(n, 1) == [Digit(n)]
    ensures Dec(Hex(n, 1)) == Some(n)
  {
    DecHex(n, 1);
  }
}
