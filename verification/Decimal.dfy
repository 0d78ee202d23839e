/** Cursors: `usize::to_string` and `str::parse::<usize>` (src/lib.rs:3307-3336). */
module Decimal {
  import opened Options

  const USIZE_MAX: nat := 0xFFFF_FFFF_FFFF_FFFF

  function Digit(d: nat): char
    requires d < 10
  {
    ('0' as int + d) as char
  }

  predicate IsDigit(c: char) {
    '0' <= c <= '9'
  }

  function DigitValue(c: char): nat
    requires IsDigit(c)
  {
    c as int - '0' as int
  }

  function Print(n: nat): string {
    if n < 10 then [Digit(n)] else Print(n / 10) + [Digit(n % 10)]
  }

  predicate AllDigits(s: string) {
    forall i | 0 <= i < |s| :: IsDigit(s[i])
  }

  function Value(s: string): nat
    requires AllDigits(s)
  {
    if s == "" then 0 else Value(s[..|s| - 1]) * 10 + DigitValue(s[|s| - 1])
  }

  /** Rust accepts one leading plus sign, leading zeros, and nothing that overflows. */
  function Parse(s: string): Option<nat> {
    var digits := if s != "" && s[0] == '+' then s[1..] else s;
    if digits == "" || !AllDigits(digits) || Value(digits) > USIZE_MAX then None else Some(Value(digits))
  }

  lemma {:induction false} PrintedDigits(n: nat)
    ensures Print(n) != "" && AllDigits(Print(n)) && Value(Print(n)) == n
  {
    if n < 10 {
      assert Print(n)[..0] == "";
    } else {
      PrintedDigits(n / 10);
      assert Print(n)[..|Print(n)| - 1] == Print(n / 10);
    }
  }

  /** A printed cursor reads back as the same offset. */
  lemma {:induction false} ParsePrint(n: nat)
    ensures Parse(Print(n)) == if n <= USIZE_MAX then Some(n) else None
  {
    PrintedDigits(n);
  }

  function Zeros(k: nat): string {
    if k == 0 then "" else "0" + Zeros(k - 1)
  }

  lemma {:induction false} OneMoreZero(k: nat)
    ensures Zeros(k) + "0" == Zeros(k + 1)
  {
    if k == 0 {
    } else {
      OneMoreZero(k - 1);
    }
  }

  /** Any digits are zeros and a printed number. */
  lemma {:induction false} DigitsArePadded(d: string) returns (k: nat)
    requires d != "" && AllDigits(d)
    ensures d == Zeros(k) + Print(Value(d))
  {
    var n := |d| - 1;
    assert d == d[..n] + [d[n]] && [d[n]] == [Digit(DigitValue(d[n]))];
    if n == 0 {
      assert Value(d[..0]) == 0;
      k := 0;
    } else {
      k := DigitsArePadded(d[..n]);
      if Value(d[..n]) == 0 {
        OneMoreZero(k);
        k := k + 1;
      }
    }
  }

  lemma {:induction false} PaddedValue(k: nat, s: string)
    requires AllDigits(s)
    ensures AllDigits(Zeros(k) + s) && Value(Zeros(k) + s) == Value(s)
    decreases k, |s|
  {
    if k == 0 {
      assert Zeros(0) + s == s;
    } else {
      PaddedValue(k - 1, s);
      ZeroInFront(Zeros(k - 1) + s);
      assert Zeros(k) + s == "0" + (Zeros(k - 1) + s);
    }
  }

  lemma {:induction false} ZeroInFront(s: string)
    requires AllDigits(s)
    ensures AllDigits("0" + s) && Value("0" + s) == Value(s)
  {
    var all := "0" + s;
    if s == "" {
      assert all[..0] == "";
    } else {
      ZeroInFront(s[..|s| - 1]);
      assert all[..|all| - 1] == "0" + s[..|s| - 1];
    }
  }

  lemma {:induction false} ReadFromDigits(s: string, n: nat) returns (k: nat)
    requires Parse(s) == Some(n)
    ensures n <= USIZE_MAX && (s == Zeros(k) + Print(n) || s == "+" + (Zeros(k) + Print(n)))
  {
    var digits := if s[0] == '+' then s[1..] else s;
    k := DigitsArePadded(digits);
    assert s == digits || s == "+" + digits;
  }

  lemma {:induction false} DigitsRead(digits: string, s: string)
    requires digits != "" && AllDigits(digits) && Value(digits) <= USIZE_MAX && (s == digits || s == "+" + digits)
    ensures Parse(s) == Some(Value(digits))
  {
    assert IsDigit(digits[0]);
    assert s == digits || s[1..] == digits;
  }

  /** A cursor reads as n exactly when it is n in decimal, with any leading zeros and at most one plus sign, and n fits
      64 bits. */
  lemma {:induction false} ParseExactly(s: string, n: nat)
    ensures Parse(s) == Some(n) <==>
            n <= 0xFFFF_FFFF_FFFF_FFFF && exists k: nat :: s == Zeros(k) + Print(n) || s == "+" + (Zeros(k) + Print(n))
  {
    if Parse(s) == Some(n) {
      var k := ReadFromDigits(s, n);
    }
    if n <= USIZE_MAX {
      if k: nat :| s == Zeros(k) + Print(n) || s == "+" + (Zeros(k) + Print(n)) {
        PrintedDigits(n);
        PaddedValue(k, Print(n));
        DigitsRead(Zeros(k) + Print(n), s);
      }
    }
  }
}
