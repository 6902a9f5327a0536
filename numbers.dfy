/**
 * The number conversions the handlers lean on: `String(n)` for ids,
 * `Number(s)` for ids read back from tokens and request bodies, and
 * `parseInt(s)` for query parameters.
 */
module Numbers {
  import opened Text

  /**
   * A JavaScript number as the handlers meet it: NaN or an integer. The
   * integers here are exact and unbounded; a JavaScript number is a double,
   * which holds every integer exactly only up to `MaxSafeInteger`.
   */
  datatype Num = NaN | Int(value: int)

  /** `Number.MAX_SAFE_INTEGER`, 2^53 - 1. */
  const MaxSafeInteger: nat := 9007199254740991

  /** JavaScript truthiness of a number: 0 and NaN are falsy. */
  predicate Truthy(n: Num)
  {
    n.Int? && n.value != 0
  }

  /** `c` is a digit in base `radix` (2 to 16), letters in either case. */
  predicate IsDigit(c: char, radix: nat)
  {
    DigitValue(c) < radix
  }

  /** The value of a digit character; 99 for a character that is no digit at all. */
  function DigitValue(c: char): nat
  {
    if '0' <= c <= '9' then c as int - '0' as int
    else if 'a' <= c <= 'f' then c as int - 'a' as int + 10
    else if 'A' <= c <= 'F' then c as int - 'A' as int + 10
    else 99
  }

  predicate AllDigits(s: string, radix: nat)
  {
    forall i :: 0 <= i < |s| ==> IsDigit(s[i], radix)
  }

  /** The value of a string of digits, most significant first. */
  function Value(s: string, radix: nat): nat
    requires AllDigits(s, radix)
  {
    if |s| == 0 then 0 else Value(s[..|s| - 1], radix) * radix + DigitValue(s[|s| - 1])
  }

  function DigitChar(d: nat): (c: char)
    requires d < 10
    ensures DigitValue(c) == d
  {
    "0123456789"[d]
  }

  /** `n.toString()` for a natural number: its decimal digits without leading zeros. */
  function DecimalString(n: nat): (s: string)
    ensures |s| >= 1 && AllDigits(s, 10)
  {
    if n < 10 then [DigitChar(n)] else DecimalString(n / 10) + [DigitChar(n % 10)]
  }

  /** `String(n)` for an integer. */
  function IntString(n: int): string
  {
    if n < 0 then "-" + DecimalString(-n) else DecimalString(n)
  }

  /** The radix a "0x", "0o" or "0b" prefix announces, or 10. */
  function RadixOf(t: string): nat
  {
    if |t| >= 2 && t[0] == '0' && (t[1] == 'x' || t[1] == 'X') then 16
    else if |t| >= 2 && t[0] == '0' && (t[1] == 'o' || t[1] == 'O') then 8
    else if |t| >= 2 && t[0] == '0' && (t[1] == 'b' || t[1] == 'B') then 2
    else 10
  }

  /** A non-empty run of digits in base `radix` is its value; anything else is NaN. */
  function Literal(t: string, radix: nat): Num
  {
    if |t| > 0 && AllDigits(t, radix) then Int(Value(t, radix)) else NaN
  }

  /** A number negated when `negative` holds; NaN stays NaN. */
  function Signed(negative: bool, n: Num): Num
  {
    if negative && n.Int? then Int(-n.value) else n
  }

  /**
   * `Number(s)` for a string: surrounding whitespace ignored, "" is 0, a
   * signed decimal integer or an unsigned "0x", "0o" or "0b" literal is
   * its value, and anything else is NaN.
   */
  function StringToNumber(s: string): Num
  {
    var t := Trim(s);
    if t == "" then Int(0)
    else if RadixOf(t) != 10 then Literal(t[2..], RadixOf(t))
    else if t[0] == '+' || t[0] == '-' then Signed(t[0] == '-', Literal(t[1..], 10))
    else Literal(t, 10)
  }

  /** The length of the longest prefix of `s` made of digits in base `radix`. */
  function DigitPrefix(s: string, radix: nat): (k: nat)
    ensures k <= |s|
    ensures AllDigits(s[..k], radix)
    ensures k < |s| ==> !IsDigit(s[k], radix)
  {
    if |s| == 0 || !IsDigit(s[0], radix) then 0
    else
      var k' := DigitPrefix(s[1..], radix);
      assert s[..k' + 1] == [s[0]] + s[1..][..k'];
      k' + 1
  }

  /**
   * `parseInt(s)` without a radix: leading whitespace skipped, an optional
   * sign, "0x" or "0X" switches to base 16, then the longest run of digits;
   * NaN when that run is empty.
   */
  function ParseInt(s: string): Num
  {
    var t := s[LeadingSpaces(s)..];
    var negative := |t| > 0 && t[0] == '-';
    var u := AfterSign(s);
    var hex := |u| >= 2 && u[0] == '0' && (u[1] == 'x' || u[1] == 'X');
    var radix := if hex then 16 else 10;
    var v := if hex then u[2..] else u;
    var k := DigitPrefix(v, radix);
    if k == 0 then NaN
    else
      var m: int := Value(v[..k], radix);
      Int(if negative then -m else m)
  }

  /** What `parseInt` reads digits from: `s` past its leading whitespace and one optional sign. */
  function AfterSign(s: string): (u: string)
    ensures var t := s[LeadingSpaces(s)..]; u == t || (|t| > 0 && t[0] in "+-" && u == t[1..])
  {
    var t := s[LeadingSpaces(s)..];
    if |t| > 0 && (t[0] == '-' || t[0] == '+') then t[1..] else t
  }

  /** No decimal digit after the whitespace and the sign: `parseInt` gives NaN. */
  lemma ParseIntWithoutDigits(s: string)
    requires AfterSign(s) == "" || !IsDigit(AfterSign(s)[0], 10)
    ensures ParseInt(s) == NaN
  {
  }

  /**
   * A decimal digit after the whitespace and the sign, other than the "0" of
   * a "0x" prefix: `parseInt` gives a number.
   */
  lemma ParseIntWithDigits(s: string)
    requires AfterSign(s) != "" && IsDigit(AfterSign(s)[0], 10)
    requires !(|AfterSign(s)| >= 2 && AfterSign(s)[0] == '0' && AfterSign(s)[1] in "xX")
    ensures ParseInt(s).Int?
  {
  }

  /** Reading back the decimal digits of `n` gives `n`. */
  lemma {:induction false} DecimalValue(n: nat)
    ensures Value(DecimalString(n), 10) == n
    decreases n
  {
    var s := DecimalString(n);
    if n >= 10 {
      DecimalValue(n / 10);
      assert s[..|s| - 1] == DecimalString(n / 10);
    }
  }

  /** A decimal digit is neither whitespace nor a sign nor a radix letter. */
  lemma DecimalDigitIsPlain(c: char)
    requires IsDigit(c, 10)
    ensures '0' <= c <= '9' && !IsSpace(c)
  {
  }

  /** `Number(t)` of a non-empty run of decimal digits is its value. */
  lemma NumberOfDigits(t: string)
    requires |t| >= 1 && AllDigits(t, 10)
    ensures StringToNumber(t) == Int(Value(t, 10))
  {
    DecimalDigitIsPlain(t[0]);
    DecimalDigitIsPlain(t[|t| - 1]);
    assert Trim(t) == t;
    if |t| >= 2 {
      DecimalDigitIsPlain(t[1]);
    }
    assert RadixOf(t) == 10;
    assert t[0] != '+' && t[0] != '-';
  }

  /** `Number(String(n))` is `n` for a natural number. */
  lemma NumberOfDecimal(n: nat)
    ensures StringToNumber(DecimalString(n)) == Int(n)
  {
    NumberOfDigits(DecimalString(n));
    DecimalValue(n);
  }

  /**
   * `Number(String(n))` is `n` for every integer of the model. For a double
   * this needs `|n| <= MaxSafeInteger`, which every 32-bit database id meets.
   */
  lemma NumberOfIntString(n: int)
    ensures StringToNumber(IntString(n)) == Int(n)
  {
    if n >= 0 {
      NumberOfDecimal(n);
    } else {
      NumberOfNegativeDigits(DecimalString(-n));
      DecimalValue(-n);
    }
  }

  /** `Number("-" + t)` of a non-empty run of decimal digits is minus its value. */
  lemma NumberOfNegativeDigits(t: string)
    requires |t| >= 1 && AllDigits(t, 10)
    ensures StringToNumber("-" + t) == Int(-(Value(t, 10) as int))
  {
    var s := "-" + t;
    NegativeDigitsTrimmed(t);
    assert RadixOf(s) == 10 && s[0] == '-' && s[1..] == t;
    assert StringToNumber(s) == Signed(true, Literal(t, 10));
  }

  /** A minus sign followed by decimal digits has no surrounding whitespace to trim. */
  lemma NegativeDigitsTrimmed(t: string)
    requires |t| >= 1 && AllDigits(t, 10)
    ensures Trim("-" + t) == "-" + t
  {
    var s := "-" + t;
    DecimalDigitIsPlain(t[|t| - 1]);
    assert s[|s| - 1] == t[|t| - 1];
  }

  /** `parseInt(String(n))` is `n` for a natural number a double holds exactly. */
  lemma ParseIntOfDecimal(n: nat)
    requires n <= MaxSafeInteger
    ensures ParseInt(DecimalString(n)) == Int(n)
  {
    var s := DecimalString(n);
    assert IsDigit(s[0], 10);
    assert LeadingSpaces(s) == 0;
    assert s[0..] == s;
    assert |s| >= 2 ==> IsDigit(s[1], 10);
    var k := DigitPrefix(s, 10);
    assert k == |s|;
    assert s[..k] == s;
    DecimalValue(n);
  }
}
