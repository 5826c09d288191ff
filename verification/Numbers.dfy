/** Decimal integers as `strconv` reads and prints them, with the bounds of a 64-bit int. */
module Numbers {
  import opened Options

  const MAX_INT := 0x7FFF_FFFF_FFFF_FFFF
  const MIN_INT := -0x8000_0000_0000_0000

  predicate IsDigit(c: char) {
    '0' <= c <= '9'
  }

  predicate AllDigits(s: string) {
    forall k :: 0 <= k < |s| ==> IsDigit(s[k])
  }

  function DigitsValue(s: string): nat
    requires AllDigits(s)
  {
    if s == "" then 0 else 10 * DigitsValue(s[..|s| - 1]) + (s[|s| - 1] - '0') as nat
  }

  /** An optional sign and at least one digit; None for anything else and for what does not fit. */
  function Atoi(s: string): (r: Option<int>)
    ensures r.Some? ==> MIN_INT <= r.value <= MAX_INT
  {
    var negative := s != "" && s[0] == '-';
    var digits := if s != "" && (s[0] == '-' || s[0] == '+') then s[1..] else s;
    if digits == "" || !AllDigits(digits) then None
    else
      var n := DigitsValue(digits) as int * (if negative then -1 else 1);
      if MIN_INT <= n <= MAX_INT then Some(n) else None
  }

  function Digits(n: nat): (s: string)
    ensures s != "" && AllDigits(s)
  {
    if n < 10 then ['0' + n as char] else Digits(n / 10) + ['0' + (n % 10) as char]
  }

  function Itoa(n: int): string {
    if n < 0 then "-" + Digits(-n) else Digits(n)
  }

  lemma {:induction false} ValueOfDigits(n: nat)
    ensures DigitsValue(Digits(n)) == n
  {
    if n < 10 {
      assert Digits(n)[..0] == "";
    } else {
      ValueOfDigits(n / 10);
      assert Digits(n)[..|Digits(n)| - 1] == Digits(n / 10);
    }
  }

  /** What is printed is read back. */
  lemma AtoiOfItoa(n: int)
    requires MIN_INT <= n <= MAX_INT
    ensures Atoi(Itoa(n)) == Some(n)
  {
    var d := Digits(if n < 0 then -n else n);
    ValueOfDigits(if n < 0 then -n else n);
    if n < 0 {
      assert Itoa(n)[1..] == d;
    } else {
      assert IsDigit(d[0]);
    }
  }

  /** The texts that are read, and as what: digits, with at most one sign before them, of a number that fits. */
  lemma AtoiReadsExactly(s: string, n: int)
    ensures Atoi(s) == Some(n) <==> MIN_INT <= n <= MAX_INT && exists digits :: Spells(s, digits, n)
  {
    var digits := if s != "" && (s[0] == '-' || s[0] == '+') then s[1..] else s;
    if Atoi(s) == Some(n) {
      assert Spells(s, digits, n);
    }
    forall d | Spells(s, d, n) ensures d == digits {
      assert d != "" && IsDigit(d[0]);
    }
  }

  predicate Spells(s: string, digits: string, n: int) {
    && digits != "" && AllDigits(digits)
    && if s == ['-'] + digits then n == 0 - DigitsValue(digits)
       else (s == digits || s == ['+'] + digits) && n == DigitsValue(digits)
  }

  // ---------------------------------------------------------------- arithmetic of machine integers

  /** What is left of a number in a 64-bit int. */
  function Wrap64(n: int): int {
    (n - MIN_INT) % 0x1_0000_0000_0000_0000 + MIN_INT
  }

  lemma WrapFits(n: int)
    requires MIN_INT <= n <= MAX_INT
    ensures Wrap64(n) == n
  {
    SmallMod(n - MIN_INT, 0x1_0000_0000_0000_0000);
  }

  lemma WrapOnce(n: int)
    requires MIN_INT <= n <= MAX_INT + 0x1_0000_0000_0000_0000
    ensures Wrap64(n) == if n <= MAX_INT then n else n - 0x1_0000_0000_0000_0000
  {
    var big := 0x1_0000_0000_0000_0000;
    if n <= MAX_INT {
      WrapFits(n);
    } else {
      DivisionIsUnique(n - MIN_INT, big, 1, n - MIN_INT - big);
    }
  }

  lemma SmallMod(n: int, m: int)
    requires 0 <= n < m
    ensures n % m == n
  {
    DivisionIsUnique(n, m, 0, n);
  }

  lemma DivisionIsUnique(n: int, m: int, q: int, r: int)
    requires m > 0 && 0 <= r < m && n == m * q + r
    ensures n % m == r
  {
    var d := n / m - q;
    assert m * d == r - n % m;
    assert d >= 1 ==> m * d >= m;
    assert d <= -1 ==> m * d <= -m;
  }
}
