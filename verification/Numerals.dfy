/** Decimal numerals and 64-bit integers, as Go's strconv and int have them. */
module Numerals {
  import opened Wrappers
  import opened Remainders

  const MAX_INT: int := 0x7FFF_FFFF_FFFF_FFFF
  const MIN_INT: int := -0x8000_0000_0000_0000

  /** An out-of-range integer wraps around. */
  function Wrap(i: int): (r: int)
    ensures MIN_INT <= r <= MAX_INT
    ensures MIN_INT <= i <= MAX_INT ==> r == i
    ensures MAX_INT < i <= MAX_INT - 2 * MIN_INT ==> r == i + 2 * MIN_INT
  {
    (i - MIN_INT) % 0x1_0000_0000_0000_0000 + MIN_INT
  }

  predicate IsDigit(c: char) {
    '0' <= c <= '9'
  }

  predicate AllDigits(s: string) {
    forall i :: 0 <= i < |s| ==> IsDigit(s[i])
  }

  function Digit(n: nat): (c: char)
    requires n < 10
    ensures IsDigit(c) && c as int - '0' as int == n
  {
    ('0' as int + n) as char
  }

  function Itoa(n: nat): string {
    if n < 10 then [Digit(n)] else Itoa(n / 10) + [Digit(n % 10)]
  }

  function Value(s: string): nat
    requires AllDigits(s)
  {
    if s == "" then 0 else 10 * Value(s[..|s| - 1]) + (s[|s| - 1] as int - '0' as int)
  }

  function Atoi(s: string): Option<int> {
    if s == "" then None
    else
      var body := if s[0] == '-' || s[0] == '+' then s[1..] else s;
      if body == "" || !AllDigits(body) then None
      else
        var sign: int := if s[0] == '-' then -1 else 1;
        var v := sign * Value(body);
        if MIN_INT <= v <= MAX_INT then Some(v) else None
  }

  lemma {:induction false} ItoaIsDigits(n: nat)
    ensures Itoa(n) != "" && AllDigits(Itoa(n)) && Value(Itoa(n)) == n
  {
    if n < 10 {
      assert Itoa(n)[..0] == "";
    } else {
      ItoaIsDigits(n / 10);
      assert Itoa(n)[..|Itoa(n)| - 1] == Itoa(n / 10);
    }
  }

  /** Reading back a printed number gives the number. */
  lemma AtoiOfItoa(n: nat)
    requires n <= MAX_INT
    ensures Atoi(Itoa(n)) == Some(n)
  {
    ItoaIsDigits(n);
  }

  // ---------------------------------------------------------------------------
  // The digits are decimal.

  function Pow10(i: nat): (p: nat)
    ensures p > 0
  {
    if i == 0 then 1 else 10 * Pow10(i - 1)
  }

  lemma DivideTwice(n: nat, p: nat)
    requires p > 0
    ensures n / 10 / p == n / (10 * p)
  {
    var q, r := n / 10 / p, n / 10 % p;
    assert n / 10 == q * p + r;
    assert n == q * (10 * p) + (10 * r + n % 10);
    UniqueRemainder(n, 10 * p, q, 10 * r + n % 10);
  }

  /** Digit `i` from the right stands for so many powers of ten, and the first one is not 0. */
  lemma {:induction false} DigitAt(n: nat, i: nat)
    requires i < |Itoa(n)|
    ensures Itoa(n)[|Itoa(n)| - 1 - i] as int - '0' as int == n / Pow10(i) % 10
    ensures n < Pow10(|Itoa(n)|) && (n > 0 ==> Pow10(|Itoa(n)| - 1) <= n)
    decreases n
  {
    if n >= 10 {
      if i > 0 {
        DigitAt(n / 10, i - 1);
        DivideTwice(n, Pow10(i - 1));
      } else {
        DigitAt(n / 10, 0);
      }
    }
  }

  /** Zeros in front make no difference to the number read. */
  lemma {:induction false} ZeroInFront(s: string)
    requires AllDigits(s)
    ensures AllDigits("0" + s) && Value("0" + s) == Value(s)
  {
    if s == "" {
      assert "0" + s == "0" && "0"[..0] == "";
    } else {
      ZeroInFront(s[..|s| - 1]);
      assert ("0" + s)[..|s|] == "0" + s[..|s| - 1];
    }
  }
}
