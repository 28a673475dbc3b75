/** The string operations the number formats are built from, on ASCII text. */
module Text {
  import opened Outcome

  // --- Trimming and case ---

  predicate IsSpace(c: char) {
    c == ' ' || '\t' <= c <= '\r'
  }

  lemma SpacesAre(c: char)
    ensures IsSpace(c) <==> c in {' ', '\t', '\n', 11 as char, 12 as char, '\r'}
  {
  }

  predicate Ascii(c: char) {
    c as int < 128
  }

  function TrimStart(s: string): string {
    if s != "" && IsSpace(s[0]) then TrimStart(s[1..]) else s
  }

  function TrimEnd(s: string): string {
    if s != "" && IsSpace(s[|s| - 1]) then TrimEnd(s[..|s| - 1]) else s
  }

  function Trim(s: string): string {
    TrimEnd(TrimStart(s))
  }

  function UpperChar(c: char): char {
    if 'a' <= c <= 'z' then c - 'a' + 'A' else c
  }

  function Upper(s: string): (u: string)
    ensures |u| == |s|
    ensures forall i :: 0 <= i < |s| ==> u[i] == UpperChar(s[i])
  {
    seq(|s|, i requires 0 <= i < |s| => UpperChar(s[i]))
  }

  predicate IsUpper(s: string) {
    forall c :: c in s ==> UpperChar(c) == c
  }

  lemma UpperOfUpper(s: string)
    requires IsUpper(s)
    ensures Upper(s) == s
  {
    forall i | 0 <= i < |s| ensures Upper(s)[i] == s[i] {
      assert s[i] in s;
    }
  }

  lemma UpperIsUpper(s: string)
    ensures IsUpper(Upper(s))
  {
  }

  /** No space at either end. */
  predicate Tight(s: string) {
    s != "" ==> !IsSpace(s[0]) && !IsSpace(s[|s| - 1])
  }

  lemma {:induction false} TrimEndIsTight(s: string)
    ensures var t := TrimEnd(s); t <= s && (t != "" ==> !IsSpace(t[|t| - 1]))
  {
    if s != "" && IsSpace(s[|s| - 1]) {
      TrimEndIsTight(s[..|s| - 1]);
    }
  }

  lemma {:induction false} TrimStartIsTight(s: string)
    ensures var t := TrimStart(s); |t| <= |s| && s[|s| - |t|..] == t && (t != "" ==> !IsSpace(t[0]))
  {
    if s != "" && IsSpace(s[0]) {
      TrimStartIsTight(s[1..]);
    }
  }

  lemma TrimIsTight(s: string)
    ensures Tight(Trim(s)) && |Trim(s)| <= |s|
  {
    TrimStartIsTight(s);
    TrimEndIsTight(TrimStart(s));
  }

  /** Trimming leaves nothing exactly of a text that is all space. */
  lemma TrimIsEmptyExactly(s: string)
    ensures Trim(s) == "" <==> forall i :: 0 <= i < |s| ==> IsSpace(s[i])
  {
    TrimEmptyStart(s);
    TrimEndIsTight(TrimStart(s));
    TrimStartIsTight(s);
    var t := TrimStart(s);
    if t != "" {
      TrimEndKeepsFirst(t);
    }
  }

  lemma {:induction false} TrimEmptyStart(s: string)
    ensures TrimStart(s) == "" <==> forall i :: 0 <= i < |s| ==> IsSpace(s[i])
  {
    if s != "" && IsSpace(s[0]) {
      TrimEmptyStart(s[1..]);
      assert forall i :: 1 <= i < |s| ==> s[i] == s[1..][i - 1];
    }
  }

  lemma {:induction false} TrimEndKeepsFirst(s: string)
    requires s != "" && !IsSpace(s[0])
    ensures TrimEnd(s) != ""
  {
    if IsSpace(s[|s| - 1]) {
      TrimEndKeepsFirst(s[..|s| - 1]);
    }
  }

  lemma TrimOfTight(s: string)
    requires Tight(s)
    ensures Trim(s) == s
  {
  }

  lemma UpperTrims(s: string)
    requires Tight(s)
    ensures Tight(Upper(s))
  {
  }

  /** Upper-cased, trimmed text is left alone by trimming and upper-casing it again. */
  lemma NormalTextIsFixed(s: string)
    ensures var t := Upper(Trim(s)); Trim(t) == t && Upper(t) == t
  {
    TrimIsTight(s);
    UpperTrims(Trim(s));
    TrimOfTight(Upper(Trim(s)));
    UpperIsUpper(Trim(s));
    UpperOfUpper(Upper(Trim(s)));
  }

  // --- Splitting ---

  /** Where c first occurs, or the length. */
  function IndexOf(s: string, c: char): (i: nat)
    ensures i <= |s|
    ensures i < |s| ==> s[i] == c
    ensures c !in s[..i]
    ensures i == |s| <==> c !in s
  {
    if s == "" then 0
    else if s[0] == c then 0
    else
      assert s == [s[0]] + s[1..];
      1 + IndexOf(s[1..], c)
  }

  lemma IndexOfIs(s: string, c: char, i: nat)
    requires i < |s| && s[i] == c && c !in s[..i]
    ensures IndexOf(s, c) == i
  {
    var k := IndexOf(s, c);
    forall j | 0 <= j < i ensures s[j] != c {
      assert s[j] in s[..i];
    }
    forall j | 0 <= j < k ensures s[j] != c {
      assert s[j] in s[..k];
    }
  }

  function Split(s: string, c: char): (parts: seq<string>)
    ensures |parts| >= 1
  {
    var i := IndexOf(s, c);
    if i == |s| then [s] else [s[..i]] + Split(s[i + 1..], c)
  }

  lemma SplitFirst(a: string, c: char, rest: string)
    requires c !in a
    ensures Split(a + [c] + rest, c) == [a] + Split(rest, c)
  {
    var s := a + [c] + rest;
    assert s[..|a|] == a && s[|a| + 1..] == rest;
    IndexOfIs(s, c, |a|);
  }

  lemma SplitLast(a: string, c: char)
    requires c !in a
    ensures Split(a, c) == [a]
  {
  }

  function Join(parts: seq<string>, c: char): string
    requires |parts| >= 1
  {
    if |parts| == 1 then parts[0] else parts[0] + [c] + Join(parts[1..], c)
  }

  /** Splitting loses nothing, and no part contains the separator. */
  lemma {:induction false} JoinOfSplit(s: string, c: char)
    ensures Join(Split(s, c), c) == s
    ensures forall part :: part in Split(s, c) ==> c !in part
    decreases |s|
  {
    hide IndexOf;
    var i := IndexOf(s, c);
    if i == |s| {
    } else {
      JoinOfSplit(s[i + 1..], c);
      var parts := Split(s, c);
      SplitStep(s, c, i);
      assert parts[1..] == Split(s[i + 1..], c);
      assert s == s[..i] + [c] + s[i + 1..];
    }
  }

  /** Splitting on both sides of a separator. */
  lemma {:induction false} SplitAt(s: string, c: char, k: nat)
    requires k < |s| && s[k] == c
    ensures Split(s, c) == Split(s[..k], c) + Split(s[k + 1..], c)
    decreases |s|
  {
    hide IndexOf, Split;
    var i := IndexOf(s, c);
    FirstOfHead(s, c, k);
    if i == k {
      SplitStep(s, c, k);
      SplitLast(s[..k], c);
    } else {
      SplitAt(s[i + 1..], c, k - i - 1);
      SlicesAround(s, i, k);
      SplitStep(s, c, i);
      SplitStep(s[..k], c, i);
      Regroup(s[..i], Split(s[..k][i + 1..], c), Split(s[k + 1..], c));
    }
  }

  lemma SplitStep(s: string, c: char, i: nat)
    requires i < |s| && i == IndexOf(s, c)
    ensures Split(s, c) == [s[..i]] + Split(s[i + 1..], c)
  {
    hide IndexOf;
  }

  lemma SlicesAround(s: string, i: nat, k: nat)
    requires i < k < |s|
    ensures s[i + 1..][..k - i - 1] == s[..k][i + 1..]
    ensures s[i + 1..][k - i..] == s[k + 1..]
  {
  }

  lemma NoneBefore(s: string, c: char, j: nat)
    requires j < IndexOf(s, c)
    ensures s[j] != c
  {
    assert s[..IndexOf(s, c)][j] == s[j];
  }

  lemma FirstOfHead(s: string, c: char, k: nat)
    requires k < |s| && s[k] == c
    ensures var i := IndexOf(s, c); i <= k && (i < k ==> IndexOf(s[..k], c) == i && s[..k][..i] == s[..i])
  {
    var i := IndexOf(s, c);
    if k < i {
      NoneBefore(s, c, k);
    }
    if i < k {
      assert s[..k][..i] == s[..i];
      IndexOfIs(s[..k], c, i);
    }
  }

  lemma Regroup(head: string, left: seq<string>, right: seq<string>)
    ensures [head] + (left + right) == ([head] + left) + right
  {
  }

  lemma SplitConcat(a: string, c: char, b: string)
    ensures Split(a + [c] + b, c) == Split(a, c) + Split(b, c)
  {
    var s := a + [c] + b;
    assert s[..|a|] == a && s[|a| + 1..] == b;
    SplitAt(s, c, |a|);
  }

  function SplitAll(parts: seq<string>, c: char): seq<string> {
    if parts == [] then [] else Split(parts[0], c) + SplitAll(parts[1..], c)
  }

  /** Splitting what was joined yields the parts, each split further where it contains the separator itself. */
  lemma {:induction false} SplitOfJoin(parts: seq<string>, c: char)
    requires |parts| >= 1
    ensures Split(Join(parts, c), c) == SplitAll(parts, c)
  {
    if |parts| == 1 {
      assert parts[1..] == [];
    } else {
      SplitOfJoin(parts[1..], c);
      SplitConcat(parts[0], c, Join(parts[1..], c));
    }
  }

  lemma {:induction false} SplitAllPlain(parts: seq<string>, c: char)
    requires forall i :: 0 <= i < |parts| ==> c !in parts[i]
    ensures SplitAll(parts, c) == parts
  {
    if parts == [] {
    } else {
      SplitAllPlain(parts[1..], c);
      SplitLast(parts[0], c);
    }
  }

  lemma {:induction false} SplitAllConcat(a: seq<string>, b: seq<string>, c: char)
    ensures SplitAll(a + b, c) == SplitAll(a, c) + SplitAll(b, c)
  {
    if a == [] {
      assert a + b == b;
    } else {
      SplitAllConcat(a[1..], b, c);
      assert (a + b)[1..] == a[1..] + b && (a + b)[0] == a[0];
      var head, tail, rest := Split(a[0], c), SplitAll(a[1..], c), SplitAll(b, c);
      assert head + (tail + rest) == (head + tail) + rest;
    }
  }

  lemma {:induction false} JoinIsUpper(parts: seq<string>, c: char)
    requires |parts| >= 1 && UpperChar(c) == c
    requires forall i :: 0 <= i < |parts| ==> IsUpper(parts[i])
    ensures IsUpper(Join(parts, c))
  {
    if |parts| == 1 {
    } else {
      JoinIsUpper(parts[1..], c);
    }
  }

  /** A joined text starts with its first part and ends with its last. */
  lemma {:induction false} JoinEnds(parts: seq<string>, c: char)
    requires |parts| >= 1 && parts[0] != "" && parts[|parts| - 1] != ""
    ensures var s := Join(parts, c);
      s != "" && s[0] == parts[0][0] && s[|s| - 1] == parts[|parts| - 1][|parts[|parts| - 1]| - 1]
    decreases |parts|
  {
    if |parts| == 1 {
    } else if |parts| == 2 {
      assert Join(parts[1..], c) == parts[1];
    } else {
      var rest := parts[1..];
      JoinTail(rest, c);
    }
  }

  lemma {:induction false} JoinTail(parts: seq<string>, c: char)
    requires |parts| >= 1 && parts[|parts| - 1] != ""
    ensures var s := Join(parts, c); var last := parts[|parts| - 1];
      s != "" && s[|s| - 1] == last[|last| - 1]
  {
    if |parts| == 1 {
    } else {
      JoinTail(parts[1..], c);
      var rest := Join(parts[1..], c);
      assert Join(parts, c) == parts[0] + [c] + rest;
    }
  }

  lemma UpperAvoids(s: string, c: char)
    requires c !in s && !('A' <= c <= 'Z')
    ensures c !in Upper(s)
  {
    forall k | 0 <= k < |s| ensures Upper(s)[k] != c {
      assert s[k] in s;
    }
  }

  function UpperAll(parts: seq<string>): (u: seq<string>)
    ensures |u| == |parts|
    ensures forall i :: 0 <= i < |parts| ==> u[i] == Upper(parts[i])
  {
    seq(|parts|, i requires 0 <= i < |parts| => Upper(parts[i]))
  }

  lemma UpperAround(first: string, c: char, rest: string)
    requires UpperChar(c) == c
    ensures Upper(first + [c] + rest) == Upper(first) + [c] + Upper(rest)
  {
  }

  lemma UpperAllCons(head: string, tail: seq<string>)
    ensures UpperAll([head] + tail) == [Upper(head)] + UpperAll(tail)
  {
  }

  /** Upper-casing does not touch the separators. */
  lemma {:induction false} SplitOfUpper(s: string, c: char)
    requires UpperChar(c) == c && !('A' <= c <= 'Z')
    ensures Split(Upper(s), c) == UpperAll(Split(s, c))
    decreases |s|
  {
    if c !in s {
      UpperAvoids(s, c);
      SplitLast(s, c);
      SplitLast(Upper(s), c);
    } else {
      var i := IndexOf(s, c);
      var first, rest := s[..i], s[i + 1..];
      assert s == first + [c] + rest;
      SplitOfUpper(rest, c);
      SplitFirst(first, c, rest);
      UpperAvoids(first, c);
      UpperAround(first, c, rest);
      SplitFirst(Upper(first), c, Upper(rest));
      UpperAllCons(first, Split(rest, c));
    }
  }

  // --- Decimal numbers ---

  predicate IsDigit(c: char) {
    '0' <= c <= '9'
  }

  predicate AllDigits(s: string) {
    forall c :: c in s ==> IsDigit(c)
  }

  function DigitChar(d: nat): (c: char)
    requires d < 10
    ensures IsDigit(c) && DigitValue(c) == d
  {
    '0' + d as char
  }

  /** `{:0w}`: at least w decimal digits, padded with zeros on the left. */
  function Padded(n: nat, w: nat): (s: string)
    ensures |s| >= 1 && |s| >= w && AllDigits(s)
    decreases n + w
  {
    if w <= 1 && n < 10 then [DigitChar(n)]
    else Padded(n / 10, if w == 0 then 0 else w - 1) + [DigitChar(n % 10)]
  }

  function DigitValue(c: char): (d: nat)
    requires IsDigit(c)
    ensures d < 10
  {
    c as int - '0' as int
  }

  function Value(s: string): nat
    requires AllDigits(s)
  {
    if s == "" then 0 else 10 * Value(s[..|s| - 1]) + DigitValue(s[|s| - 1])
  }

  function Pow10(w: nat): nat {
    if w == 0 then 1 else 10 * Pow10(w - 1)
  }

  lemma {:induction false} ValueOfPadded(n: nat, w: nat)
    ensures Value(Padded(n, w)) == n
    decreases n + w
  {
    var s := Padded(n, w);
    if w <= 1 && n < 10 {
      assert s[..0] == "";
    } else {
      var w' := if w == 0 then 0 else w - 1;
      ValueOfPadded(n / 10, w');
      assert s[..|s| - 1] == Padded(n / 10, w');
    }
  }

  lemma {:induction false} PaddedWidth(n: nat, w: nat)
    requires w >= 1 && n < Pow10(w)
    ensures |Padded(n, w)| == w
    decreases n + w
  {
    if w <= 1 && n < 10 {
    } else {
      PaddedWidth(n / 10, w - 1);
    }
  }

  lemma PaddedStep(n: nat, w: nat)
    requires w >= 2
    ensures Padded(n, w) == Padded(n / 10, w - 1) + [DigitChar(n % 10)]
  {
  }

  lemma PaddedLast(n: nat)
    requires n < 10
    ensures Padded(n, 1) == [DigitChar(n)]
  {
  }

  /** Leading zeros, and the least digit last. */
  lemma KnownNumerals()
    ensures Padded(1234, 7) == "0001234" && Padded(891, 5) == "00891"
    ensures Padded(4, 2) == "04" && Padded(2026, 4) == "2026" && Padded(7, 3) == "007"
  {
    hide Padded;
    PaddedStep(1234, 7);
    PaddedStep(123, 6);
    PaddedStep(12, 5);
    PaddedStep(1, 4);
    PaddedStep(0, 3);
    PaddedStep(0, 2);
    PaddedLast(0);
    PaddedStep(891, 5);
    PaddedStep(89, 4);
    PaddedStep(8, 3);
    PaddedStep(4, 2);
    PaddedStep(2026, 4);
    PaddedStep(202, 3);
    PaddedStep(20, 2);
    PaddedLast(2);
    PaddedStep(7, 3);
  }

  lemma {:induction false} ValueBelow(s: string)
    requires AllDigits(s)
    ensures Value(s) < Pow10(|s|)
  {
    if s == "" {
    } else {
      ValueBelow(s[..|s| - 1]);
    }
  }

  /** `parse::<uN>()`: an optional plus sign, at least one digit, and no overflow. */
  function ParseUnsigned(s: string, max: nat): (r: Option<nat>)
    ensures r.Some? ==> r.value <= max
  {
    var digits := if s != "" && s[0] == '+' then s[1..] else s;
    if digits == "" || !AllDigits(digits) || Value(digits) > max then None else Some(Value(digits))
  }

  /** `parse::<iN>()`: a minus sign is taken as well. */
  function ParseSigned(s: string, min: int, max: nat): (r: Option<int>)
    ensures r.Some? ==> min <= r.value <= max
    requires min <= 0
  {
    if s != "" && s[0] == '-' then
      var digits := s[1..];
      if digits == "" || !AllDigits(digits) || Value(digits) > -min then None else Some(0 - Value(digits) as int)
    else
      match ParseUnsigned(s, max)
      case Some(n) => Some(n)
      case None => None
  }

  /** A number printed with padding reads back as itself. */
  lemma ParseOfPadded(n: nat, w: nat, max: nat)
    requires n <= max
    ensures ParseUnsigned(Padded(n, w), max) == Some(n)
  {
    ValueOfPadded(n, w);
    assert Padded(n, w)[0] in Padded(n, w);
  }

  /** Digits are their own value padded to their length. */
  lemma {:induction false} PaddedOfValue(s: string)
    requires s != "" && AllDigits(s)
    ensures Padded(Value(s), |s|) == s
  {
    hide Padded;
    var front, last := s[..|s| - 1], s[|s| - 1];
    assert s == front + [last];
    DigitOfValue(last);
    if front == "" {
      assert Value(front) == 0;
      PaddedDigit(DigitValue(last));
    } else {
      PaddedOfValue(front);
      PaddedPush(Value(front), DigitValue(last), |s|);
    }
  }

  lemma DigitOfValue(c: char)
    requires IsDigit(c)
    ensures DigitChar(DigitValue(c)) == c
  {
  }

  lemma PaddedDigit(d: nat)
    requires d < 10
    ensures Padded(d, 1) == [DigitChar(d)]
  {
  }

  lemma PaddedPush(v: nat, d: nat, w: nat)
    requires d < 10 && w >= 2
    ensures Padded(10 * v + d, w) == Padded(v, w - 1) + [DigitChar(d)]
  {
    assert (10 * v + d) / 10 == v && (10 * v + d) % 10 == d;
  }

  /** `w` characters without a plus sign. */
  predicate FullWidth(s: string, w: nat) {
    |s| == w && s != "" && s[0] != '+'
  }

  /** A numeral is its value padded to a width exactly when it fills the width without a sign. */
  lemma NumeralIsPadded(s: string, w: nat, max: nat)
    requires w >= 1 && ParseUnsigned(s, max).Some? && ParseUnsigned(s, max).value < Pow10(w)
    ensures s == Padded(ParseUnsigned(s, max).value, w) <==> FullWidth(s, w)
  {
    var n := ParseUnsigned(s, max).value;
    PaddedWidth(n, w);
    assert Padded(n, w)[0] in Padded(n, w);
    if FullWidth(s, w) {
      PaddedOfValue(s);
    }
  }

  /** Padding to a width is injective. */
  lemma PaddedIsInjective(m: nat, n: nat, w: nat)
    requires Padded(m, w) == Padded(n, w)
    ensures m == n
  {
    ValueOfPadded(m, w);
    ValueOfPadded(n, w);
  }

  lemma DigitsAreUpper(s: string)
    requires AllDigits(s)
    ensures IsUpper(s) && '-' !in s
  {
  }
}
