/**
 Go's `strconv.Itoa` and `strconv.Atoi` on 64-bit integers, and the `%d` verb.

 Page tokens, resource ids and the keys of both caches are all decimal strings, so
 the connector's protocols stand on these two functions being inverse.
 */
module Strconv {
  import opened GoResult

  const MIN_INT: int := -0x8000_0000_0000_0000
  const MAX_INT: int := 0x7fff_ffff_ffff_ffff

  /** A value of Go's `int` on a 64-bit platform. */
  predicate IsInt(n: int) {
    MIN_INT <= n <= MAX_INT
  }

  /** `n + 1` in Go: the largest int wraps around to the smallest. */
  function Successor(n: int): int {
    if n == MAX_INT then MIN_INT else n + 1
  }

  const DIGITS: string := "0123456789"

  predicate IsDigit(c: char) {
    '0' <= c <= '9'
  }

  function DigitValue(c: char): nat
    requires IsDigit(c)
  {
    c as int - '0' as int
  }

  function Digits(n: nat): string {
    if n < 10 then [DIGITS[n]] else Digits(n / 10) + [DIGITS[n % 10]]
  }

  function Itoa(n: int): string {
    if n < 0 then "-" + Digits(-n) else Digits(n)
  }

  /** The number a string of digits denotes, or None when some character is no digit. */
  function Unsigned(s: string): Option<nat> {
    if s == [] then Some(0)
    else if !IsDigit(s[|s| - 1]) then None
    else match Unsigned(s[..|s| - 1])
      case None => None
      case Some(v) => Some(10 * v + DigitValue(s[|s| - 1]))
  }

  /** One optional sign, at least one digit, and a value that fits the type. */
  function Atoi(s: string): Result<int> {
    var signed := s != [] && (s[0] == '-' || s[0] == '+');
    var digits := if signed then s[1..] else s;
    if digits == [] || Unsigned(digits).None? then Err(NotANumber)
    else
      var v: int := Unsigned(digits).value;
      var n := if signed && s[0] == '-' then -v else v;
      if IsInt(n) then Ok(n) else Err(NotANumber)
  }

  lemma LastDigit(d: nat)
    requires d < 10
    ensures IsDigit(DIGITS[d]) && DigitValue(DIGITS[d]) == d
  {
  }

  lemma {:induction false} DigitsParse(n: nat)
    ensures Digits(n) != [] && IsDigit(Digits(n)[0])
    ensures Unsigned(Digits(n)) == Some(n)
  {
    if n < 10 {
      LastDigit(n);
    } else {
      DigitsParse(n / 10);
      LastDigit(n % 10);
      assert Digits(n)[..|Digits(n)| - 1] == Digits(n / 10);
    }
  }

  /** Parsing what was printed gives the number back; a number too wide for the type is an error. */
  lemma AtoiOfItoa(n: int)
    ensures Itoa(n) != ""
    ensures Atoi(Itoa(n)) == if IsInt(n) then Ok(n) else Err(NotANumber)
  {
    DigitsParse(if n < 0 then -n else n);
    if n < 0 {
      assert Itoa(n)[1..] == Digits(-n);
    }
  }

  lemma SignOfItoa(n: int)
    ensures Itoa(n) != ""
    ensures Itoa(n)[0] == '-' <==> n < 0
  {
    if n >= 0 {
      DigitsParse(n);
    }
  }

  /** Distinct ids print to distinct keys, whatever their width. */
  lemma ItoaInjective(m: int, n: int)
    requires Itoa(m) == Itoa(n)
    ensures m == n
  {
    SignOfItoa(m);
    SignOfItoa(n);
    DigitsParse(if m < 0 then -m else m);
    DigitsParse(if n < 0 then -n else n);
    if m < 0 {
      assert Digits(-m) == Itoa(m)[1..] == Itoa(n)[1..] == Digits(-n);
    }
  }

  // ---------- What the digits mean ----------

  predicate AllDigits(s: string) {
    forall i :: 0 <= i < |s| ==> '0' <= s[i] <= '9'
  }

  /** The number a string of digits denotes in base ten. */
  function Decimal(s: string): nat
    requires AllDigits(s)
  {
    if s == [] then 0 else 10 * Decimal(s[..|s| - 1]) + (s[|s| - 1] as int - '0' as int)
  }

  predicate HasSign(s: string) {
    s != [] && (s[0] == '-' || s[0] == '+')
  }

  /** An optional sign and at least one digit. */
  predicate IsNumeral(s: string) {
    var digits := if HasSign(s) then s[1..] else s;
    digits != [] && AllDigits(digits)
  }

  /** The integer a numeral denotes, however wide. */
  function Denotes(s: string): int
    requires IsNumeral(s)
  {
    var v: int := if HasSign(s) then Decimal(s[1..]) else Decimal(s);
    if s[0] == '-' then -v else v
  }

  lemma AllDigitsButLast(s: string)
    requires s != []
    ensures AllDigits(s) <==> AllDigits(s[..|s| - 1]) && '0' <= s[|s| - 1] <= '9'
  {
    var front := s[..|s| - 1];
    assert forall i :: 0 <= i < |front| ==> front[i] == s[i];
    if AllDigits(front) && '0' <= s[|s| - 1] <= '9' {
      forall i | 0 <= i < |s| ensures '0' <= s[i] <= '9' {
        assert i < |front| ==> s[i] == front[i];
      }
    }
  }

  lemma {:induction false} UnsignedIsDecimal(s: string)
    ensures Unsigned(s).Some? <==> AllDigits(s)
    ensures AllDigits(s) ==> Unsigned(s) == Some(Decimal(s))
  {
    if s == [] {
    } else {
      UnsignedIsDecimal(s[..|s| - 1]);
      AllDigitsButLast(s);
    }
  }

  /** Parsing succeeds for exactly the numerals of the 64-bit range, with the number they denote in base ten. */
  lemma AtoiMeaning(s: string)
    ensures Atoi(s).Ok? <==>
            IsNumeral(s) && -9223372036854775808 <= Denotes(s) <= 9223372036854775807
    ensures Atoi(s).Ok? ==> Atoi(s).value == Denotes(s)
    ensures Atoi(s).Err? ==> Atoi(s).error == NotANumber
  {
    UnsignedIsDecimal(if HasSign(s) then s[1..] else s);
  }

  lemma AtoiOfDigit(c: char)
    requires '0' <= c <= '9'
    ensures Atoi([c]) == Ok(c as int - '0' as int)
  {
    AtoiMeaning([c]);
    assert [c][..0] == "" && Decimal([c]) == 10 * Decimal("") + (c as int - '0' as int);
  }

  /** One more digit multiplies by ten and adds the digit, as long as the type holds it. */
  lemma AtoiOfLonger(s: string, c: char)
    requires s != [] && AllDigits(s) && '0' <= c <= '9'
    ensures Atoi(s).Ok? ==>
              var v := 10 * Atoi(s).value + (c as int - '0' as int);
              Atoi(s + [c]) == if v <= 9223372036854775807 then Ok(v) else Err(NotANumber)
    ensures Atoi(s).Err? ==> Atoi(s + [c]) == Err(NotANumber)
  {
    AtoiMeaning(s);
    AtoiMeaning(s + [c]);
    assert (s + [c])[..|s|] == s;
  }

  /** A minus sign negates, a plus sign changes nothing. */
  lemma AtoiOfSigned(s: string)
    requires s != [] && AllDigits(s) && Atoi(s).Ok?
    ensures Atoi("-" + s) == Ok(-Atoi(s).value)
    ensures Atoi("+" + s) == Ok(Atoi(s).value)
  {
    AtoiMeaning(s);
    AtoiMeaning("-" + s);
    AtoiMeaning("+" + s);
    assert ("-" + s)[1..] == s && ("+" + s)[1..] == s;
  }

  /** Printing is decimal: the digit itself, then digit after digit, with a minus sign before a negative number. */
  lemma ItoaIsDecimal(n: nat, d: nat)
    requires d < 10
    ensures |Itoa(d)| == 1 && Itoa(d)[0] as int == '0' as int + d
    ensures n >= 1 ==> Itoa(10 * n + d) == Itoa(n) + Itoa(d)
    ensures n >= 1 ==> Itoa(-(n as int)) == "-" + Itoa(n)
  {
    LastDigit(d);
    if n >= 1 {
      assert (10 * n + d) / 10 == n && (10 * n + d) % 10 == d;
    }
  }
}
