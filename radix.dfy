/**
 * `Number.prototype.toString(radix)` on non-negative integers, used for the
 * random error code (radix 16) and for `Date.now().toString()` (radix 10),
 * with the parser that inverts it.
 */
module Radix {

  type Base = r: nat | 2 <= r <= 16 witness 10

  function Pow(b: Base, k: nat): (p: nat)
    ensures p >= 1
  {
    if k == 0 then 1 else b * Pow(b, k - 1)
  }

  /** The lower-case character of digit d: '0'..'9', then 'a'..'f'. */
  function DigitChar(d: nat): char
    requires d < 16
  {
    if d < 10 then ('0' as int + d) as char else ('a' as int + (d - 10)) as char
  }

  /** c is a digit of the given radix. */
  predicate IsDigit(c: char, radix: Base) {
    ('0' <= c <= '9' && (c as int - '0' as int) < radix)
    || ('a' <= c <= 'f' && (c as int - 'a' as int) + 10 < radix)
  }

  /** The value of a digit character. */
  function DigitValue(c: char, radix: Base): (d: nat)
    requires IsDigit(c, radix)
    ensures d < radix && DigitChar(d) == c
  {
    if c <= '9' then c as int - '0' as int else c as int - 'a' as int + 10
  }

  /** The lower-case digits of n in the given radix, most significant first, without leading zeros. */
  function RadixString(n: nat, radix: Base): (s: string)
    ensures 1 <= |s|
    ensures forall i :: 0 <= i < |s| ==> IsDigit(s[i], radix)
    ensures n > 0 ==> s[0] != '0'
    decreases n
  {
    if n < radix then
      DigitCharIsDigit(n, radix);
      [DigitChar(n)]
    else
      DivMod(n, radix);
      DigitCharIsDigit(n % radix, radix);
      var prefix := RadixString(n / radix, radix);
      prefix + [DigitChar(n % radix)]
  }

  lemma DigitCharIsDigit(d: nat, radix: Base)
    requires d < radix
    ensures IsDigit(DigitChar(d), radix)
    ensures d > 0 ==> DigitChar(d) != '0'
  {
  }

  /** `parseInt(s, radix)` for a non-empty string made only of digits of that radix. */
  function ParseRadix(s: string, radix: Base): nat
    requires forall i :: 0 <= i < |s| ==> IsDigit(s[i], radix)
  {
    if s == [] then 0
    else
      var init := s[..|s| - 1];
      assert forall i :: 0 <= i < |init| ==> init[i] == s[i];
      var high: nat := ParseRadix(init, radix);
      var low: nat := DigitValue(s[|s| - 1], radix);
      MulNonNegative(high, radix);
      high * radix + low
  }

  lemma MulNonNegative(x: nat, radix: Base)
    ensures x * radix >= 0
  {
  }

  lemma DivMod(n: nat, radix: Base)
    ensures (n / radix) * radix + n % radix == n && n % radix < radix
    ensures n >= radix ==> 1 <= n / radix < n
  {
  }

  lemma MulMonotone(radix: Base, p: nat, q: nat)
    requires p <= q
    ensures radix * p <= radix * q
  {
  }

  /** Parsing the rendering gives back the number. */
  lemma {:induction false} ParseRadixString(n: nat, radix: Base)
    ensures ParseRadix(RadixString(n, radix), radix) == n
    decreases n
  {
    var s := RadixString(n, radix);
    if n < radix {
      assert s[..0] == [];
      assert DigitValue(DigitChar(n), radix) == n;
    } else {
      var prefix := RadixString(n / radix, radix);
      assert s == prefix + [DigitChar(n % radix)];
      assert s[..|s| - 1] == prefix;
      DivMod(n, radix);
      ParseRadixString(n / radix, radix);
      assert DigitValue(DigitChar(n % radix), radix) == n % radix;
    }
  }

  /** A number below radix^k has at most k digits. */
  lemma {:induction false} RadixStringLength(n: nat, radix: Base, k: nat)
    requires 1 <= k && n < Pow(radix, k)
    ensures |RadixString(n, radix)| <= k
    decreases n
  {
    if n >= radix {
      var q, p := n / radix, Pow(radix, k - 1);
      assert radix * p == Pow(radix, k);
      DivMod(n, radix);
      if q >= p {
        MulMonotone(radix, p, q);
        assert false;
      }
      RadixStringLength(q, radix, k - 1);
    }
  }
}
