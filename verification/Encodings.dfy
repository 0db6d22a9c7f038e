/** What the decimal timestamps and hexadecimal signatures of a delivery stand for, in every spelling. */
module Encodings {
  import opened Prelude
  import opened Signatures

  /* Hexadecimal */

  const HEX := "0123456789abcdef"

  predicate IsBytes(s: string) {
    forall i | 0 <= i < |s| :: s[i] as int < 256
  }

  /** Two lower-case digits for each byte, the high half first. */
  function Hex(bytes: string): string
    requires IsBytes(bytes)
  {
    if bytes == "" then "" else [HEX[bytes[0] as int / 16], HEX[bytes[0] as int % 16]] + Hex(bytes[1..])
  }

  lemma HexDigitMeans(c: char, n: nat)
    requires n < 16
    ensures HexDigit(c) == Some(n) <==> Lower(c) == HEX[n]
  {
  }

  lemma HexPairMeans(a: char, b: char, c: char)
    requires c as int < 256
    ensures HexDigit(a).Some? && HexDigit(b).Some? && (16 * HexDigit(a).value + HexDigit(b).value) as char == c
            <==> Lower(a) == HEX[c as int / 16] && Lower(b) == HEX[c as int % 16]
  {
    HexDigitMeans(a, c as int / 16);
    HexDigitMeans(b, c as int % 16);
    if HexDigit(a).Some? && HexDigit(b).Some? {
      var n := 16 * HexDigit(a).value + HexDigit(b).value;
      assert n as char as int == n && n / 16 == HexDigit(a).value && n % 16 == HexDigit(b).value;
    }
  }

  /** A text decodes to these bytes exactly when it is their hexadecimal spelling, in either case. */
  lemma {:induction false} HexDecodesExactly(text: string, bytes: string)
    requires IsBytes(bytes)
    ensures HexDecode(text) == Some(bytes) <==> ToLower(text) == Hex(bytes)
    decreases |text|
  {
    if text == "" {
    } else if |text| == 1 {
      assert |ToLower(text)| == 1;
      assert bytes != "" ==> |Hex(bytes)| >= 2;
    } else {
      LowerPair(text);
      if bytes != "" {
        HexDecodesExactly(text[2..], bytes[1..]);
        HexPairMeans(text[0], text[1], bytes[0]);
        HeadsAndTails([Lower(text[0]), Lower(text[1])], ToLower(text[2..]),
                      [HEX[bytes[0] as int / 16], HEX[bytes[0] as int % 16]], Hex(bytes[1..]));
        DecodedPair(text, bytes);
      } else {
        assert HexDecode(text) != Some("");
      }
    }
  }

  lemma DecodedPair(text: string, bytes: string)
    requires |text| >= 2 && bytes != ""
    ensures HexDecode(text) == Some(bytes) <==>
      && HexDigit(text[0]).Some? && HexDigit(text[1]).Some?
      && (16 * HexDigit(text[0]).value + HexDigit(text[1]).value) as char == bytes[0]
      && HexDecode(text[2..]) == Some(bytes[1..])
  {
    if HexDigit(text[0]).Some? && HexDigit(text[1]).Some? && HexDecode(text[2..]).Some? {
      HeadsAndTails([HexByte(text)], HexDecode(text[2..]).value, [bytes[0]], bytes[1..]);
      assert [bytes[0]] + bytes[1..] == bytes;
    }
  }

  /* Decimal */

  predicate AllZeros(s: string) {
    forall i | 0 <= i < |s| :: s[i] == '0'
  }

  /** Every string of digits is the decimal spelling of its value, after some zeros. */
  lemma {:induction false} DigitsAreDecimal(digits: string) returns (zeros: string)
    requires AllDigits(digits) && digits != ""
    ensures AllZeros(zeros) && digits == zeros + Decimal(DigitsValue(digits))
    decreases |digits|
  {
    var init, c := digits[..|digits| - 1], digits[|digits| - 1];
    var v := DigitsValue(init);
    if init == "" {
      return "";
    }
    zeros := DigitsAreDecimal(init);
    if v == 0 {
      assert Decimal(DigitsValue(digits)) == [c];
      zeros := init;
      assert Decimal(0) == "0";
    } else {
      var n := 10 * v + DigitValue(c);
      assert n / 10 == v && n % 10 == DigitValue(c);
      assert digits == init + [c] && Decimal(n) == Decimal(v) + [c];
    }
  }

  lemma {:induction false} ZerosAddNothing(zeros: string, digits: string)
    requires AllZeros(zeros) && AllDigits(digits)
    ensures AllDigits(zeros + digits) && DigitsValue(zeros + digits) == DigitsValue(digits)
    decreases |digits|
  {
    if digits == "" {
      assert zeros + digits == zeros;
      ZerosAreZero(zeros);
    } else {
      var init := digits[..|digits| - 1];
      assert (zeros + digits)[..|zeros + digits| - 1] == zeros + init;
      ZerosAddNothing(zeros, init);
    }
  }

  lemma {:induction false} ZerosAreZero(zeros: string)
    requires AllZeros(zeros)
    ensures DigitsValue(zeros) == 0
    decreases |zeros|
  {
    if zeros != "" {
      ZerosAreZero(zeros[..|zeros| - 1]);
    }
  }

  /** `raw` is an optional sign, any number of zeros and the decimal spelling of `n`. */
  ghost predicate Spells(raw: string, sign: string, zeros: string, n: nat) {
    raw == sign + (zeros + Decimal(n)) && sign in {"", "+", "-"} && AllZeros(zeros)
  }

  function Signed(sign: string, n: nat): int {
    if sign == "-" then 0 - n as int else n
  }

  lemma SignedValue(raw: string, sign: string, digits: string, m: int)
    requires raw == sign + digits && sign in {"", "+", "-"} && AllDigits(digits) && digits != ""
    requires m == Signed(sign, DigitsValue(digits))
    ensures ParseInt64(raw) == if -9223372036854775808 <= m <= 9223372036854775807 then Some(m) else None
  {
    if sign == "" {
      assert raw == digits && IsDigit(raw[0]);
    } else {
      assert raw[0] == sign[0] && raw[1..] == digits;
    }
  }

  lemma SpelledValue(raw: string, sign: string, zeros: string, n: nat, m: int)
    requires Spells(raw, sign, zeros, n) && m == Signed(sign, n)
    ensures ParseInt64(raw) == if -9223372036854775808 <= m <= 9223372036854775807 then Some(m) else None
  {
    DecimalDigits(n);
    ZerosAddNothing(zeros, Decimal(n));
    SignedValue(raw, sign, zeros + Decimal(n), m);
  }

  lemma SignAndDigits(raw: string) returns (sign: string, digits: string)
    requires ParseInt64(raw).Some?
    ensures raw == sign + digits && sign in {"", "+", "-"} && AllDigits(digits) && digits != ""
  {
    if raw[0] == '+' || raw[0] == '-' {
      sign, digits := [raw[0]], raw[1..];
    } else {
      sign, digits := "", raw;
    }
  }

  lemma ParsedIsSpelled(raw: string) returns (sign: string, zeros: string, n: nat)
    requires ParseInt64(raw).Some?
    ensures Spells(raw, sign, zeros, n)
  {
    var digits;
    sign, digits := SignAndDigits(raw);
    n := DigitsValue(digits);
    zeros := DigitsAreDecimal(digits);
  }

  /**
   A timestamp is parsed exactly when it is an optional sign and digits, leading zeros included, whose value fits
   into 64 bits; and then to that value.
   */
  lemma ParsesExactly(raw: string, m: int)
    ensures ParseInt64(raw) == Some(m) <==>
      && -9223372036854775808 <= m <= 9223372036854775807
      && exists sign, zeros, n :: Spells(raw, sign, zeros, n) && m == Signed(sign, n)
  {
    if ParseInt64(raw).Some? {
      var sign, zeros, n := ParsedIsSpelled(raw);
      SpelledValue(raw, sign, zeros, n, Signed(sign, n));
    }
    forall sign, zeros, n | Spells(raw, sign, zeros, n) && m == Signed(sign, n)
      ensures ParseInt64(raw) == if -9223372036854775808 <= m <= 9223372036854775807 then Some(m) else None
    {
      SpelledValue(raw, sign, zeros, n, m);
    }
  }
}
