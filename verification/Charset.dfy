/** The AWB charset: digits and upper-case letters without O and I, each standing for one base-34 digit. */
module Charset {
  import opened Outcome
  import opened Luhn

  const CHARSET := "0123456789ABCDEFGHJKLMNPQRSTUVWXYZ"

  predicate IsCode(c: char) {
    '0' <= c <= '9' || ('A' <= c <= 'Z' && c != 'O' && c != 'I')
  }

  /** The position of c in the charset. */
  function Digit(c: char): digit
    requires IsCode(c)
  {
    if c <= '9' then c as int - 48
    else if c <= 'H' then c as int - 55
    else if c <= 'N' then c as int - 56
    else c as int - 57
  }

  function CharOf(v: digit): (c: char)
    ensures IsCode(c) && Digit(c) == v
  {
    if v < 10 then (v + 48) as char
    else if v < 18 then (v + 55) as char
    else if v < 23 then (v + 56) as char
    else (v + 57) as char
  }

  lemma CharOfDigit(c: char)
    requires IsCode(c)
    ensures CharOf(Digit(c)) == c
  {
  }

  /** The charset lists exactly these characters in the order of their digits. */
  lemma CharsetInOrder(v: digit)
    ensures |CHARSET| == BASE && CHARSET[v] == CharOf(v)
  {
  }

  predicate Coded(p: string) {
    forall i :: 0 <= i < |p| ==> IsCode(p[i])
  }

  function Digits(p: string): (vs: seq<digit>)
    requires Coded(p)
    ensures |vs| == |p|
    ensures forall i :: 0 <= i < |p| ==> vs[i] == Digit(p[i])
  {
    seq(|p|, i requires 0 <= i < |p| => Digit(p[i]))
  }

  function CheckChar(p: string): (c: char)
    requires Coded(p)
    ensures IsCode(c)
  {
    CharOf(CheckDigit(Digits(p)))
  }

  /** The first character, read from the right, that is outside the charset. */
  function Offender(p: string): (c: char)
    requires !Coded(p)
    ensures !IsCode(c) && c in p
  {
    if !IsCode(p[|p| - 1]) then p[|p| - 1] else Offender(p[..|p| - 1])
  }

  /** The check character of a payload, or the character that has no value. */
  function Checksum(p: string): Result<char, char> {
    if Coded(p) then Ok(CheckChar(p)) else Err(Offender(p))
  }

  lemma {:induction false} OffenderIs(p: string, i: nat)
    requires i < |p| && !IsCode(p[i]) && Coded(p[i + 1..])
    ensures !Coded(p) && Offender(p) == p[i]
  {
    if i == |p| - 1 {
    } else {
      assert p[i + 1..][|p| - i - 2] == p[|p| - 1];
      var front := p[..|p| - 1];
      assert front[i + 1..] == p[i + 1..][..|p| - i - 2];
      OffenderIs(front, i);
    }
  }

  predicate Odd(n: nat) {
    n % 2 == 1
  }

  lemma OddAlternates(n: nat)
    ensures Odd(n + 1) == !Odd(n)
  {
  }

  /** Taking one more character on the left into the sum. */
  lemma OneMore(p: string, i: nat)
    requires i < |p| && IsCode(p[i]) && Coded(p[i + 1..])
    ensures Coded(p[i..])
    ensures Sum(Digits(p[i..]), false) == Sum(Digits(p[i + 1..]), false) + Weight(Digit(p[i]), Odd(|p| - 1 - i))
  {
    var rest := p[i..];
    assert rest == [p[i]] + p[i + 1..];
    SumFromLeft(Digits(rest), false);
    assert Digits(rest)[1..] == Digits(p[i + 1..]);
  }

  /** The loop of the program: from the right, toggling `double`, folding the carry of each doubling. */
  method ComputeChecksum(payload: string) returns (r: Result<char, char>)
    ensures r == Checksum(payload)
  {
    var sum: nat := 0;
    var double := false;
    var i := |payload|;
    while i > 0
      invariant 0 <= i <= |payload|
      invariant Coded(payload[i..])
      invariant sum == Sum(Digits(payload[i..]), false)
      invariant double == Odd(|payload| - i)
    {
      var c := payload[i - 1];
      if !IsCode(c) {
        OffenderIs(payload, i - 1);
        return Err(c);
      }
      var v: nat := Digit(c);
      var d: nat := if double then v * 2 else v;
      if d >= BASE {
        d := d / BASE + d % BASE;
      }
      assert d == Weight(v, double) by {
        FoldedDoubling(v, double);
      }
      OneMore(payload, i - 1);
      OddAlternates(|payload| - i);
      sum := sum + d;
      double := !double;
      i := i - 1;
    }
    assert payload[0..] == payload;
    var check := (BASE - sum % BASE) % BASE;
    return Ok(CharOf(check));
  }
}
