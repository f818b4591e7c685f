// Decimal text of integers and the two ways the parsers read an integer
// out of a token name: JavaScript's lenient `parseInt` and Rust's strict
// `str::parse::<i64>`.
module Decimal {
  import opened Wrappers

  predicate IsDigit(c: char) { '0' <= c <= '9' }

  function DigitValue(c: char): (d: nat)
    requires IsDigit(c)
    ensures d < 10
  {
    (c as int - '0' as int) as nat
  }

  function DigitChar(d: nat): (c: char)
    requires d < 10
    ensures IsDigit(c) && DigitValue(c) == d
  {
    ('0' as int + d) as char
  }

  /** The shortest decimal text of `n`, as `String(n)` and `n.to_string()`
    * write it. */
  function NatText(n: nat): (r: string)
    ensures |r| >= 1
    ensures forall i :: 0 <= i < |r| ==> IsDigit(r[i])
    ensures n > 0 ==> r[0] != '0'
    decreases n
  {
    if n < 10 then [DigitChar(n)] else NatText(n / 10) + [DigitChar(n % 10)]
  }

  function IntText(i: int): string
  {
    if i < 0 then "-" + NatText(-i) else NatText(i)
  }

  /** The value of a string of decimal digits (most significant first). */
  function DigitsValue(s: string): nat
    requires forall i :: 0 <= i < |s| ==> IsDigit(s[i])
  {
    if s == [] then 0 else DigitsValue(s[..|s| - 1]) * 10 + DigitValue(s[|s| - 1])
  }

  lemma {:induction false} NatTextRoundTrip(n: nat)
    ensures DigitsValue(NatText(n)) == n
    decreases n
  {
    if n >= 10 {
      NatTextRoundTrip(n / 10);
      var t := NatText(n);
      assert t[..|t| - 1] == NatText(n / 10);
    }
  }

  /** The text starts with a minus sign exactly for a negative number. */
  lemma IntTextSign(i: int)
    ensures |IntText(i)| >= 1 && (IntText(i)[0] == '-' <==> i < 0)
  {
    if i >= 0 {
      assert IsDigit(NatText(i)[0]);
    }
  }

  lemma MinusTail(n: nat)
    ensures ("-" + NatText(n))[1..] == NatText(n)
  {
    hide NatText;
  }

  /** Different numbers have different texts, so a numeric key and its
    * property name determine each other. */
  lemma IntTextInjective(i: int, j: int)
    requires IntText(i) == IntText(j)
    ensures i == j
  {
    IntTextSign(i);
    IntTextSign(j);
    hide NatText;
    if i < 0 {
      MinusTail(-i);
      MinusTail(-j);
      NatTextRoundTrip(-i);
      NatTextRoundTrip(-j);
    } else {
      NatTextRoundTrip(i);
      NatTextRoundTrip(j);
    }
  }

  /** The length of the longest prefix of `s` made of characters satisfying
    * `IsDigit` (decimal) or hexadecimal digits. */
  function DigitRun(s: string, hex: bool): (k: nat)
    ensures k <= |s|
    ensures forall i :: 0 <= i < k ==> IsRadixDigit(s[i], hex)
    ensures k < |s| ==> !IsRadixDigit(s[k], hex)
  {
    if s == [] || !IsRadixDigit(s[0], hex) then 0 else 1 + DigitRun(s[1..], hex)
  }

  predicate IsRadixDigit(c: char, hex: bool)
  {
    IsDigit(c) || (hex && ('a' <= c <= 'f' || 'A' <= c <= 'F'))
  }

  function RadixDigitValue(c: char, hex: bool): (d: nat)
    requires IsRadixDigit(c, hex)
    ensures d < (if hex then 16 else 10)
  {
    if IsDigit(c) then DigitValue(c)
    else if 'a' <= c <= 'f' then (c as int - 'a' as int + 10) as nat
    else (c as int - 'A' as int + 10) as nat
  }

  function RadixValue(s: string, hex: bool): nat
    requires forall i :: 0 <= i < |s| ==> IsRadixDigit(s[i], hex)
  {
    if s == [] then 0
    else RadixValue(s[..|s| - 1], hex) * (if hex then 16 else 10) + RadixDigitValue(s[|s| - 1], hex)
  }

  /** A `0x` or `0X` lead, which makes `parseInt` read hexadecimal. */
  predicate HexLead(s: string)
  {
    |s| >= 2 && s[0] == '0' && (s[1] == 'x' || s[1] == 'X')
  }

  /** JavaScript `parseInt(s)` with no radix, on a string without leading
    * whitespace or sign (token names cannot hold either): a `0x`/`0X` lead
    * selects hexadecimal; the longest run of digits after it is read and the
    * rest ignored; no digit at all gives `NaN` (here `None`). */
  function ParseIntLenient(s: string): (r: Option<nat>)
    ensures !HexLead(s) ==> (r.Some? <==> |s| >= 1 && IsDigit(s[0]))
    ensures !HexLead(s) && r.Some? ==> r.value == RadixValue(s[..DigitRun(s, false)], false)
    ensures HexLead(s) ==> (r.Some? <==> |s| >= 3 && IsRadixDigit(s[2], true))
    ensures HexLead(s) && r.Some? ==> r.value == RadixValue(s[2..][..DigitRun(s[2..], true)], true)
  {
    if HexLead(s) then
      var k := DigitRun(s[2..], true);
      if k == 0 then None else Some(RadixValue(s[2..][..k], true))
    else
      var k := DigitRun(s, false);
      if k == 0 then None else Some(RadixValue(s[..k], false))
  }

  /** A string made only of digits is one run. */
  lemma {:induction false} DigitRunWhole(s: string, hex: bool)
    requires forall i :: 0 <= i < |s| ==> IsRadixDigit(s[i], hex)
    ensures DigitRun(s, hex) == |s|
    decreases |s|
  {
    if s != [] {
      DigitRunWhole(s[1..], hex);
    }
  }

  /** `parseInt` reads back the decimal text of every natural number, so a
    * part index written out as `String(n)` names part `n`. */
  lemma LenientReadsNatText(n: nat)
    ensures ParseIntLenient(NatText(n)) == Some(n)
  {
    var t := NatText(n);
    assert !HexLead(t) by {
      if n == 0 {
        assert |t| == 1;
      }
    }
    DigitRunWhole(t, false);
    assert t[..|t|] == t;
    DecimalDigitsAgree(t);
    NatTextRoundTrip(n);
  }

  const I64Max: int := 0x7fff_ffff_ffff_ffff

  /** Rust `s.parse::<i64>()` on a string without sign: every character must
    * be a decimal digit, there must be at least one, and the value must fit
    * in `i64`. */
  function ParseI64Strict(s: string): (r: Option<int>)
    ensures r.Some? <==> |s| >= 1 && (forall i :: 0 <= i < |s| ==> IsDigit(s[i])) && DigitsValue(s) <= I64Max
    ensures r.Some? ==> r.value == DigitsValue(s) && 0 <= r.value <= I64Max
  {
    if |s| >= 1 && (forall i :: 0 <= i < |s| ==> IsDigit(s[i])) && DigitsValue(s) <= I64Max
    then Some(DigitsValue(s)) else None
  }

  lemma DecimalDigitsAgree(s: string)
    requires forall i :: 0 <= i < |s| ==> IsDigit(s[i])
    ensures RadixValue(s, false) == DigitsValue(s)
  {
    if s != [] {
      DecimalDigitsAgree(s[..|s| - 1]);
    }
  }

  /** On a name made only of decimal digits (and not starting `0x`), the two
    * readings agree whenever Rust's fits in `i64`: the lenient reading reads
    * the whole name. */
  lemma {:induction false} ParsersAgreeOnDigits(s: string)
    requires ParseI64Strict(s).Some?
    ensures ParseIntLenient(s) == Some(ParseI64Strict(s).value)
  {
    var k := DigitRun(s, false);
    assert s[..k] == s;
    DecimalDigitsAgree(s);
    assert |s| >= 2 ==> IsDigit(s[1]);
  }

  const UsizeMax: int := 0xffff_ffff_ffff_ffff

  /** Rust `s.parse::<usize>()` (64-bit) on a string without sign: the same
    * rules as `ParseI64Strict`, with the bound of `usize`. */
  function ParseUsizeStrict(s: string): (r: Option<nat>)
    ensures r.Some? <==> |s| >= 1 && (forall i :: 0 <= i < |s| ==> IsDigit(s[i])) && DigitsValue(s) <= UsizeMax
    ensures r.Some? ==> r.value == DigitsValue(s)
  {
    if |s| >= 1 && (forall i :: 0 <= i < |s| ==> IsDigit(s[i])) && DigitsValue(s) <= UsizeMax
    then Some(DigitsValue(s)) else None
  }

  /** The text of an `i64` index read back as a `usize`: a non-negative
    * index is read as itself, a negative one (its text starts with `-`)
    * is refused. */
  lemma IndexTextAsUsize(i: int)
    requires i <= I64Max
    ensures i >= 0 ==> ParseUsizeStrict(IntText(i)) == Some(i)
    ensures i < 0 ==> ParseUsizeStrict(IntText(i)).None?
  {
    if i >= 0 {
      NatTextRoundTrip(i);
    } else {
      assert IntText(i)[0] == '-';
    }
  }
}
