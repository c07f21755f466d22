/** Decimal numerals as the server prints and reads them. */
module Decimal {
  datatype Option<+T> = None | Some(value: T)

  const U64_LIMIT: nat := 0x1_0000_0000_0000_0000

  predicate IsDigit(c: char) {
    '0' <= c <= '9'
  }

  predicate AllDigits(s: string) {
    forall c | c in s :: IsDigit(c)
  }

  function DigitChar(d: nat): (c: char)
    requires d < 10
  {
    ('0' as int + d) as char
  }

  function DigitValue(c: char): (d: nat)
    requires IsDigit(c)
  {
    c as int - '0' as int
  }

  /** The shortest numeral of `n`, as formatting an integer prints it. */
  function ToString(n: nat): (s: string)
    ensures |s| > 0
  {
    if n < 10 then [DigitChar(n)] else ToString(n / 10) + [DigitChar(n % 10)]
  }

  /** What a run of digits denotes, whatever its leading zeros. */
  function Value(s: string): (n: nat)
    requires AllDigits(s)
  {
    if s == [] then 0
    else Value(s[..|s| - 1]) * 10 + DigitValue(s[|s| - 1])
  }

  /** A numeral without a leading zero: what `ToString` prints. */
  predicate Canonical(s: string) {
    s != [] && AllDigits(s) && (|s| > 1 ==> s[0] != '0')
  }

  /** An unsigned 64-bit number as the standard library reads it: one optional
      plus sign, at least one digit, and nothing past the width. */
  function ParseU64(s: string): (r: Option<nat>) {
    var digits := if s != [] && s[0] == '+' then s[1..] else s;
    if digits == [] || !AllDigits(digits) || Value(digits) >= U64_LIMIT then None
    else Some(Value(digits))
  }

  /** A signed numeral, as formatting an `i32` prints it. */
  function SignedToString(n: int): (s: string) {
    if n < 0 then "-" + ToString(-n) else ToString(n)
  }

  lemma {:induction false} PrintThenRead(n: nat)
    ensures Canonical(ToString(n))
    ensures n > 0 ==> ToString(n)[0] != '0'
    ensures Value(ToString(n)) == n
  {
    var s := ToString(n);
    if n < 10 {
      assert s[..|s| - 1] == [];
    } else {
      PrintThenRead(n / 10);
      assert s[..|s| - 1] == ToString(n / 10);
      assert s[0] == ToString(n / 10)[0];
    }
  }

  lemma DigitIsReadBack(c: char)
    requires IsDigit(c)
    ensures DigitValue(c) < 10 && DigitChar(DigitValue(c)) == c
    ensures c != '0' ==> DigitValue(c) > 0
  {
  }

  lemma LastDigit(front: nat, d: nat)
    requires d < 10
    ensures (front * 10 + d) / 10 == front && (front * 10 + d) % 10 == d
  {
  }

  lemma PrintedLast(front: nat, d: nat)
    requires front > 0 && d < 10
    ensures ToString(front * 10 + d) == ToString(front) + [DigitChar(d)]
  {
    LastDigit(front, d);
  }

  lemma ReadOneDigit(c: char)
    requires IsDigit(c)
    ensures Value([c]) == DigitValue(c) && ToString(Value([c])) == [c]
  {
    DigitIsReadBack(c);
    assert [c][..0] == [];
  }

  lemma ReadLast(front: string, c: char)
    requires AllDigits(front) && IsDigit(c)
    ensures Value(front + [c]) == Value(front) * 10 + DigitValue(c)
  {
    assert (front + [c])[..|front|] == front;
  }

  lemma {:induction false} ReadThenPrint(s: string)
    requires Canonical(s)
    ensures s[0] != '0' ==> Value(s) > 0
    ensures ToString(Value(s)) == s
  {
    var front, last := s[..|s| - 1], s[|s| - 1];
    assert s == front + [last];
    DigitIsReadBack(last);
    if front == [] {
      ReadOneDigit(last);
      assert s == [last];
    } else {
      assert Canonical(front) && front[0] == s[0];
      ReadThenPrint(front);
      ReadLast(front, last);
      PrintedLast(Value(front), DigitValue(last));
    }
  }

  lemma {:induction false} PrintedU64(n: nat)
    requires n < U64_LIMIT
    ensures ParseU64(ToString(n)) == Some(n)
  {
    PrintThenRead(n);
    assert ToString(n)[0] in ToString(n);
  }

  lemma PrintIsInjective(m: nat, n: nat)
    requires ToString(m) == ToString(n)
    ensures m == n
  {
    PrintThenRead(m);
    PrintThenRead(n);
  }

  lemma SignedPrintIsInjective(m: int, n: int)
    requires SignedToString(m) == SignedToString(n)
    ensures m == n
  {
    PrintThenRead(if m < 0 then -m else m);
    PrintThenRead(if n < 0 then -n else n);
    assert m < 0 ==> SignedToString(m)[1..] == ToString(-m);
    assert n < 0 ==> SignedToString(n)[1..] == ToString(-n);
    assert m >= 0 ==> SignedToString(m)[0] in ToString(m);
    assert n >= 0 ==> SignedToString(n)[0] in ToString(n);
  }
}
