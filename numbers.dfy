/**
 * The parts of Go's `strconv` (and of `fmt`'s `%d`) that the core uses: reading
 * signed decimal and unsigned hexadecimal numbers of 64 bits, and writing decimals.
 */
module Numbers {
  import opened Common

  const Int64Min: int := -0x8000_0000_0000_0000
  const Int64Max: int := 0x7FFF_FFFF_FFFF_FFFF
  const Uint64Limit: int := 0x1_0000_0000_0000_0000

  /** Value of a digit character in the bases up to 16, or 16 for any other character. */
  function DigitValue(c: char): (v: nat)
    ensures v <= 16
    ensures v < 10 <==> '0' <= c <= '9'
  {
    if '0' <= c <= '9' then c as int - '0' as int
    else if 'a' <= c <= 'f' then c as int - 'a' as int + 10
    else if 'A' <= c <= 'F' then c as int - 'A' as int + 10
    else 16
  }

  predicate AllDigits(d: string, base: nat)
  {
    forall k :: 0 <= k < |d| ==> DigitValue(d[k]) < base
  }

  /** The number that the digit string `d` denotes in `base`, most significant digit first. */
  function Value(d: string, base: nat): nat
    requires AllDigits(d, base)
  {
    if d == [] then 0 else Value(d[..|d| - 1], base) * base + DigitValue(d[|d| - 1])
  }

  /** The lower-case digit character for `v`. */
  function DigitChar(v: nat): (c: char)
    requires v < 16
    ensures DigitValue(c) == v
    ensures '0' <= c <= '9' || 'a' <= c <= 'f'
  {
    if v < 10 then ('0' as int + v) as char else ('a' as int + v - 10) as char
  }

  /** A string made only of characters that digits are written with. */
  predicate DigitText(s: string)
  {
    forall k :: 0 <= k < |s| ==> '0' <= s[k] <= '9' || 'a' <= s[k] <= 'f'
  }

  /** The digits of `n` in `base`, most significant first, without leading zeros. */
  function Digits(n: nat, base: nat): (d: string)
    requires 2 <= base <= 16
    ensures d != [] && AllDigits(d, base) && DigitText(d)
    ensures Value(d, base) == n
  {
    if n < base then
      [DigitChar(n)]
    else
      var q, r := n / base, n % base;
      DivMod(n, base);
      var high := Digits(q, base);
      var d := high + [DigitChar(r)];
      assert d[..|d| - 1] == high;
      assert Value(d, base) == Value(high, base) * base + r;
      d
  }

  lemma DivMod(n: nat, base: nat)
    requires 2 <= base <= n
    ensures n / base < n && n % base < base
    ensures n == (n / base) * base + n % base
  {
  }

  /** `strconv.Itoa`, which is also `fmt.Sprintf("%d", n)`. */
  function Itoa(n: int): (s: string)
    ensures s != []
    ensures forall k :: 0 <= k < |s| ==> s[k] == '-' || '0' <= s[k] <= '9'
  {
    if n < 0 then "-" + Digits(-n, 10) else Digits(n, 10)
  }

  /**
   * `strconv.Atoi` on a 64-bit platform: an optional sign and one or more decimal
   * digits, whose value must fit in 64 bits; anything else is an error.
   */
  function Atoi(s: string): (r: Option<int>)
    ensures r.Some? ==> Int64Min <= r.value <= Int64Max
    ensures r.Some? ==> s != [] && (s[0] == '+' || s[0] == '-' || '0' <= s[0] <= '9')
  {
    var signed := s != [] && (s[0] == '-' || s[0] == '+');
    var d := if signed then s[1..] else s;
    if d == [] || !AllDigits(d, 10) then None
    else
      var v: int := if s[0] == '-' then -(Value(d, 10) as int) else Value(d, 10);
      if Int64Min <= v <= Int64Max then Some(v) else None
  }

  /** Every 64-bit integer reads back from its decimal rendering. */
  lemma AtoiItoa(n: int)
    requires Int64Min <= n <= Int64Max
    ensures Atoi(Itoa(n)) == Some(n)
  {
    var s := Itoa(n);
    if n < 0 {
      var d := Digits(-n, 10);
      assert s[1..] == d;
      assert s[0] == '-';
    } else {
      var d := Digits(n, 10);
      assert '0' <= d[0] <= 'f';
      assert DigitValue(d[0]) < 10;
    }
  }

  /** `strconv.ParseUint(s, base, 64)` for an explicit base: digits only, below 2^64. */
  function ParseUint(s: string, base: nat): (r: Option<nat>)
    ensures r.Some? ==> r.value < Uint64Limit && s != [] && AllDigits(s, base)
  {
    if s == [] || !AllDigits(s, base) then None
    else
      var v := Value(s, base);
      if v < Uint64Limit then Some(v) else None
  }

  /** Every 64-bit unsigned value reads back from its digits. */
  lemma ParseUintDigits(n: nat, base: nat)
    requires 2 <= base <= 16 && n < Uint64Limit
    ensures ParseUint(Digits(n, base), base) == Some(n)
  {
  }

  lemma AtoiExamples()
    ensures Atoi("+5") == Some(5) && Atoi("007") == Some(7) && Atoi("-3") == Some(-3)
    ensures Atoi("") == None && Atoi("+") == None && Atoi("5x") == None && Atoi("1_0") == None
  {
    assert "007"[..2] == "00" && "00"[..1] == "0" && "00"[..0] == "";
    assert Value("0", 10) == 0 && Value("00", 10) == 0 && Value("007", 10) == 7;
    assert "+5"[1..] == "5" && "-3"[1..] == "3";
    assert !AllDigits("5x", 10) by { assert DigitValue("5x"[1]) == 16; }
    assert !AllDigits("1_0", 10) by { assert DigitValue("1_0"[1]) == 16; }
  }
}
