/** The "%d" conversion of sprintf, and the 1*DIGIT reader of the HTTP grammar. */
module Decimal {
  import opened Base

  function Digit(d: nat): char
    requires d < 10
  {
    ('0' as int + d) as char
  }

  predicate IsDigit(c: char) {
    '0' <= c <= '9'
  }

  function FormatNat(n: nat): Octets {
    if n < 10 then [Digit(n)] else FormatNat(n / 10) + [Digit(n % 10)]
  }

  function FormatInt(n: int): Octets {
    if n < 0 then ['-'] + FormatNat(-n) else FormatNat(n)
  }

  /** The value a size_t keeps after a cast to a 32-bit int (two's complement). */
  function ToInt32(n: nat): int {
    var low := n % 0x1_0000_0000;
    if low < 0x8000_0000 then low else low - 0x1_0000_0000
  }

  /** Content-Length = 1*DIGIT (section 3.3.2 of RFC 7230). */
  function ParseNat(s: Octets): Option<nat> {
    if s == [] || !IsDigit(s[|s| - 1]) then None
    else
      var d := s[|s| - 1] as int - '0' as int;
      if |s| == 1 then Some(d)
      else
        match ParseNat(s[..|s| - 1])
        case None => None
        case Some(n) => Some(10 * n + d)
  }

  lemma {:induction false} ParseFormatNat(n: nat)
    ensures ParseNat(FormatNat(n)) == Some(n)
  {
    if n >= 10 {
      ParseFormatNat(n / 10);
      var s := FormatNat(n);
      assert s[..|s| - 1] == FormatNat(n / 10);
    }
  }

  lemma {:induction false} FormatNatIsDigits(n: nat)
    ensures FormatNat(n) != []
    ensures forall c :: c in FormatNat(n) ==> IsDigit(c)
  {
    if n >= 10 {
      FormatNatIsDigits(n / 10);
    }
  }

  lemma {:induction false} ParseNatIsDigits(s: Octets)
    ensures ParseNat(s).Some? ==> s != [] && forall c :: c in s ==> IsDigit(c)
  {
    if ParseNat(s).Some? && |s| > 1 {
      ParseNatIsDigits(s[..|s| - 1]);
      assert s == s[..|s| - 1] + [s[|s| - 1]];
    }
  }

  /** The cast keeps the value modulo 2^32 and fits 32 bits. */
  lemma CastFitsInt32(n: nat)
    ensures -0x8000_0000 <= ToInt32(n) < 0x8000_0000 && (n - ToInt32(n)) % 0x1_0000_0000 == 0
  {
  }

  /** The cast before the conversion loses the size exactly from 2^31 up. */
  lemma FormattedSizeParses(n: nat)
    ensures ParseNat(FormatInt(ToInt32(n))) == Some(n) <==> n < 0x8000_0000
    ensures forall c :: c in FormatInt(ToInt32(n)) ==> IsDigit(c) || c == '-'
    ensures FormatInt(ToInt32(n)) != []
  {
    var k := ToInt32(n);
    if k < 0 {
      FormatNatIsDigits(-k);
      ParseNatIsDigits(FormatInt(k));
      assert FormatInt(k)[0] == '-' && '-' in FormatInt(k);
    } else {
      ParseFormatNat(k);
      FormatNatIsDigits(k);
    }
  }
}
