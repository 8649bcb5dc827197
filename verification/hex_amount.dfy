/** The `_hex_to_decimal` conversion shared by the Everscale and Venom monitors:
    a hexadecimal nano-token count, as the GraphQL API reports message values
    and balance deltas, turned into whole tokens. */
module HexAmount {
  import opened Outcomes

  predicate IsHexDigit(c: char) {
    '0' <= c <= '9' || 'a' <= c <= 'f' || 'A' <= c <= 'F'
  }

  predicate AllHexDigits(s: string) {
    forall i | 0 <= i < |s| :: IsHexDigit(s[i])
  }

  function DigitValue(c: char): (v: nat)
    requires IsHexDigit(c)
    ensures v < 16
  {
    if '0' <= c <= '9' then (c - '0') as nat
    else if 'a' <= c <= 'f' then (c - 'a') as nat + 10
    else (c - 'A') as nat + 10
  }

  /** The number a string of hex digits denotes, most significant digit first. */
  function DigitsValue(s: string): nat
    requires AllHexDigits(s)
    decreases |s|
  {
    if s == [] then 0 else DigitsValue(s[..|s| - 1]) * 16 + DigitValue(s[|s| - 1])
  }

  /** Python's `int(s, 16)` on the grammar: optional `+`/`-`, optional `0x`/`0X`
      prefix, then one or more hex digits; anything else raises, shown as `None`. */
  function ParseHex(s: string): (r: Option<int>)
    ensures r.Some? ==> |s| > 0
  {
    var signed := |s| > 0 && (s[0] == '-' || s[0] == '+');
    var negative := signed && s[0] == '-';
    var body := if signed then s[1..] else s;
    var digits := if |body| >= 2 && body[0] == '0' && (body[1] == 'x' || body[1] == 'X') then body[2..] else body;
    if |digits| > 0 && AllHexDigits(digits) then
      var magnitude: int := DigitsValue(digits);
      Some(if negative then -magnitude else magnitude)
    else None
  }

  /** Bare hex digits read as their value. */
  lemma ParseHexBare(s: string)
    requires |s| > 0 && AllHexDigits(s)
    ensures ParseHex(s) == Some(DigitsValue(s))
  {
    assert IsHexDigit(s[0]);
    if |s| >= 2 {
      assert IsHexDigit(s[1]);
    }
  }

  /** A `0x` prefix followed by hex digits reads as those digits. */
  lemma ParseHexPrefixed(s: string)
    requires |s| > 2 && s[..2] == "0x" && AllHexDigits(s[2..])
    ensures ParseHex(s) == Some(DigitsValue(s[2..]))
  {
    assert s[0] == s[..2][0] && s[1] == s[..2][1];
  }

  /** A string that does not end in a hex digit raises. */
  lemma ParseHexTrailing(s: string)
    requires |s| > 0 && !IsHexDigit(s[|s| - 1])
    ensures ParseHex(s).None?
  {
    var signed := s[0] == '-' || s[0] == '+';
    var body := if signed then s[1..] else s;
    var digits := if |body| >= 2 && body[0] == '0' && (body[1] == 'x' || body[1] == 'X') then body[2..] else body;
    if |digits| > 0 {
      assert digits[|digits| - 1] == s[|s| - 1];
    }
  }

  /** The common shapes: bare digits and `0x`-prefixed digits read as their
      value, an unsigned or `+` string never reads as negative, and a string
      that does not end in a hex digit raises. */
  lemma ParseHexForms(s: string)
    ensures |s| > 0 && AllHexDigits(s) ==> ParseHex(s) == Some(DigitsValue(s))
    ensures |s| > 2 && s[..2] == "0x" && AllHexDigits(s[2..]) ==> ParseHex(s) == Some(DigitsValue(s[2..]))
    ensures ParseHex(s).Some? && s[0] != '-' ==> ParseHex(s).value >= 0
    ensures |s| > 0 && !IsHexDigit(s[|s| - 1]) ==> ParseHex(s).None?
  {
    if |s| > 0 && AllHexDigits(s) {
      ParseHexBare(s);
    }
    if |s| > 2 && s[..2] == "0x" && AllHexDigits(s[2..]) {
      ParseHexPrefixed(s);
    }
    if |s| > 0 && !IsHexDigit(s[|s| - 1]) {
      ParseHexTrailing(s);
    }
  }

  /** `_hex_to_decimal`: the empty string, `"0x0"` and anything `int(s, 16)`
      rejects become 0; every other value is a nano-unit count, divided by 10^9
      to give whole tokens. */
  function HexToDecimal(s: string): (r: real)
    ensures s == "" || s == "0x0" || ParseHex(s).None? ==> r == 0.0
  {
    if s == "" || s == "0x0" then 0.0
    else match ParseHex(s)
      case None => 0.0
      case Some(nano) => nano as real / 1_000_000_000.0
  }

  /** `"0x0"` is short-cut, but it would parse to 0 anyway. */
  lemma ZeroLiteralParses()
    ensures ParseHex("0x0") == Some(0)
  {
    var s := "0x0";
    assert s[2..] == "0";
    assert DigitsValue("0") == DigitsValue("") * 16 + DigitValue('0');
  }

  /** Every parsable value is scaled by exactly 10^9. */
  lemma HexToDecimalScale(s: string)
    requires ParseHex(s).Some?
    ensures HexToDecimal(s) * 1_000_000_000.0 == ParseHex(s).value as real
  {
    if s == "0x0" {
      ZeroLiteralParses();
    }
  }

  /** A converted amount is zero exactly when the string does not parse or
      denotes zero nano-units, and positive exactly when it denotes a positive
      count. */
  lemma HexToDecimalZeroIff(s: string)
    ensures HexToDecimal(s) == 0.0 <==> ParseHex(s).None? || ParseHex(s).value == 0
    ensures HexToDecimal(s) > 0.0 <==> ParseHex(s).Some? && ParseHex(s).value > 0
  {
    if s == "0x0" {
      ZeroLiteralParses();
    }
  }

  function HexDigit(d: nat): (c: char)
    requires d < 16
    ensures IsHexDigit(c) && DigitValue(c) == d
  {
    if d < 10 then ('0' as int + d) as char else ('a' as int + d - 10) as char
  }

  /** Lower-case hex rendering of a nano-unit count, without prefix. */
  function ToHex(n: nat): (s: string)
    ensures |s| > 0 && AllHexDigits(s)
    decreases n
  {
    if n < 16 then [HexDigit(n)] else ToHex(n / 16) + [HexDigit(n % 16)]
  }

  /** Rendering and reading back hex digits is the identity. */
  lemma {:induction false} DigitsValueToHex(n: nat)
    ensures DigitsValue(ToHex(n)) == n
    decreases n
  {
    var s := ToHex(n);
    if n < 16 {
      assert s[..|s| - 1] == [];
    } else {
      DigitsValueToHex(n / 16);
      assert s[..|s| - 1] == ToHex(n / 16);
    }
  }

  /** Round trip: a value the API writes as `0x` followed by lower-case digits
      parses back to the same count, and converts to that count over 10^9. */
  lemma ParseToHexRoundTrip(n: nat)
    ensures ParseHex("0x" + ToHex(n)) == Some(n)
    ensures HexToDecimal("0x" + ToHex(n)) == n as real / 1_000_000_000.0
  {
    var s := "0x" + ToHex(n);
    assert s[2..] == ToHex(n);
    DigitsValueToHex(n);
  }
}
