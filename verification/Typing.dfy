/** What mistyping one character, or swapping two neighbours, does to an AWB that is typed in. */
module Typing {
  import opened Outcome
  import opened Text
  import opened Luhn
  import opened Charset
  import opened Awbs

  lemma SubstitutedCheck(p: string, i: nat, c: char)
    requires Coded(p) && i < |p| && IsCode(c) && c != p[i]
    ensures Coded(p[i := c]) && CheckChar(p[i := c]) != CheckChar(p)
  {
    CharOfDigit(c);
    CharOfDigit(p[i]);
    assert Digits(p[i := c]) == Digits(p)[i := Digit(c)];
    SubstitutionDetected(Digits(p), i, Digit(c));
  }

  predicate IsZeroAndZ(a: char, b: char) {
    (a == '0' && b == 'Z') || (a == 'Z' && b == '0')
  }

  lemma SwappedCheck(p: string, i: nat)
    requires Coded(p) && i + 1 < |p| && p[i] != p[i + 1]
    ensures Coded(Swap(p, i))
    ensures CheckChar(Swap(p, i)) == CheckChar(p) <==> IsZeroAndZ(p[i], p[i + 1])
  {
    CharOfDigit(p[i]);
    CharOfDigit(p[i + 1]);
    assert Digits(Swap(p, i)) == Swap(Digits(p), i);
    SwapDetectedExactly(Digits(p), i);
  }

  lemma LastSwappedCheck(p: string)
    requires Coded(p) && p != ""
    ensures var q := p[|p| - 1 := CheckChar(p)]; Coded(q) && CheckChar(q) == p[|p| - 1]
  {
    var n := |p| - 1;
    CharOfDigit(p[n]);
    assert Digits(p[n := CheckChar(p)]) == Digits(p)[n := CheckDigit(Digits(p))];
    LastSwapUndetected(Digits(p));
  }

  // --- One wrong character ---

  /** Where position j of the dash form stands in the body. */
  function BodyIndex(j: nat): nat
    requires 3 <= j < 6 || 7 <= j < 15
  {
    if j < 6 then j - 3 else j - 4
  }

  lemma BodyUpdate(w: string, j: nat, c: char)
    requires |w| == 16 && (3 <= j < 6 || 7 <= j < 15)
    ensures Body(w[j := c]) == Body(w)[BodyIndex(j) := c]
  {
  }

  /** No two well-formed numbers differ in a single character. */
  lemma OneCharacterApart(w: string, j: nat, c: char)
    requires WellFormed(w) && j < 16 && c != w[j]
    ensures !WellFormed(w[j := c])
  {
    WellFormedChars(w);
    var t := w[j := c];
    if 3 <= j < 6 || 7 <= j < 15 {
      BodyUpdate(w, j, c);
      if Coded(Body(t)) {
        assert Body(t)[BodyIndex(j)] == c;
        SubstitutedCheck(Body(w), BodyIndex(j), c);
      }
    } else if j == 15 {
      assert Body(t) == Body(w);
    } else if j < 3 {
      assert t[j] != "CM-"[j];
    }
  }

  /** Overwriting one character of text without spaces makes trimming take off at most that character. */
  lemma TrimAfterUpdate(w: string, j: nat, c: char)
    requires |w| >= 2 && j < |w| && forall i :: 0 <= i < |w| ==> !IsSpace(w[i])
    ensures var t := w[j := c]; Trim(t) == t || |Trim(t)| == |w| - 1
  {
    var t := w[j := c];
    if Tight(t) {
      TrimOfTight(t);
    } else if j == 0 {
      assert t[1..] == w[1..] && TrimStart(t) == TrimStart(t[1..]) == t[1..];
    } else {
      assert t[..|t| - 1] == w[..|t| - 1];
      assert TrimStart(t) == t && TrimEnd(t) == TrimEnd(t[..|t| - 1]) == t[..|t| - 1];
    }
  }

  lemma NoSpaces(w: string)
    requires WellFormed(w)
    ensures forall i :: 0 <= i < |w| ==> !IsSpace(w[i])
    ensures |Compact(w)| == 14 && forall i :: 0 <= i < 14 ==> !IsSpace(Compact(w)[i])
  {
    WellFormedChars(w);
    CompactForm(w);
    var s := Compact(w);
    assert forall i :: 0 <= i < 14 ==> IsCode(s[i]);
  }

  lemma UpperOfUpdate(w: string, j: nat, c: char)
    requires IsUpper(w) && j < |w|
    ensures Upper(w[j := c]) == w[j := UpperChar(c)]
  {
    UpperOfUpper(w);
    var u, l, r := Upper(w), Upper(w[j := c]), w[j := UpperChar(c)];
    forall i | 0 <= i < |w| ensures l[i] == r[i] {
      assert u[i] == UpperChar(w[i]);
    }
  }

  /**
   Whatever single character of the dash form is mistyped, and for whatever else than itself, the number is rejected.
   */
  lemma TypoRejected(w: string, j: nat, c: char)
    requires WellFormed(w) && j < 16 && Ascii(c) && UpperChar(c) != w[j]
    ensures Parse(w[j := c]).Err?
  {
    var t := w[j := c];
    if Parse(t).Ok? {
      var v := Parse(t).value.text;
      assert Parse(t) == Ok(Awb(v));
      ParseAcceptsExactly(t, v);
      NoSpaces(w);
      TrimAfterUpdate(w, j, c);
      CompactForm(v);
      WellFormedChars(w);
      UpperOfUpdate(w, j, c);
      OneCharacterApart(w, j, UpperChar(c));
    }
  }

  /** Where position j of the compact form stands in the dash form. */
  function DashedIndex(j: nat): nat
    requires j < 14
  {
    if j < 2 then j else if j < 5 then j + 1 else j + 2
  }

  lemma DashedUpdate(s: string, j: nat, c: char)
    requires |s| == 14 && 2 <= j < 14
    ensures Dashed(s[j := c]) == Dashed(s)[DashedIndex(j) := c]
  {
    var l, r := Dashed(s[j := c]), Dashed(s)[DashedIndex(j) := c];
    forall i | 0 <= i < 16 ensures l[i] == r[i] {
    }
  }

  /** A mistyped compact form that is accepted is read as a number whose compact form it is. */
  lemma CompactTypoReads(w: string, j: nat, c: char, v: string)
    requires WellFormed(w) && j < 14 && |Compact(w)| == 14
    requires Parse(Compact(w)[j := c]) == Ok(Awb(v))
    ensures WellFormed(v) && Compact(v) == Compact(w)[j := UpperChar(c)]
  {
    hide Trim, Upper, Parse, Compact, WellFormed;
    var s := Compact(w);
    ParseAcceptsExactly(s[j := c], v);
    NoSpaces(w);
    TrimAfterUpdate(s, j, c);
    CompactIsNormal(w);
    UpperOfUpdate(s, j, c);
    FormLength(v);
    CompactForm(v);
  }

  lemma FormLength(w: string)
    requires WellFormed(w)
    ensures |w| == 16
  {
  }

  /** The same for the compact form a barcode reader delivers. */
  lemma CompactTypoRejected(w: string, j: nat, c: char)
    requires WellFormed(w) && j < 14 && Ascii(c)
    requires |Compact(w)| == 14 && UpperChar(c) != Compact(w)[j]
    ensures Parse(Compact(w)[j := c]).Err?
  {
    hide Trim, Upper, Parse, Compact, WellFormed;
    var s := Compact(w);
    var t := s[j := c];
    if Parse(t).Ok? {
      var v := Parse(t).value.text;
      assert Parse(t) == Ok(Awb(v));
      CompactTypoReads(w, j, c, v);
      DashedOfCompact(w);
      DashedOfCompact(v);
      var u := s[j := UpperChar(c)];
      assert s[0] == u[0] == 'C' && s[1] == u[1] == 'M';
      if j >= 2 {
        DashedUpdate(s, j, UpperChar(c));
        OneCharacterApart(w, DashedIndex(j), UpperChar(c));
      }
    }
  }

  /** A typed text still has the shape of a number. */
  lemma TypedShape(w: string, j: nat, c: char)
    requires WellFormed(w) && (3 <= j < 6 || 7 <= j < 16) && IsCode(c)
    ensures var t := w[j := c];
      && IsUpper(t) && Tight(t) && t[..3] == "CM-"
      && IndexOf(t[3..], '-') == 3
      && t[3..][..3] + t[7..][..8] == Body(t) && Coded(Body(t))
  {
    hide WellFormed, IndexOf;
    FormLength(w);
    var t := w[j := c];
    WellFormedChars(w);
    assert forall i :: 3 <= i < 16 && i != 6 ==> IsCode(t[i]);
    assert t[..3] == w[..3] == "CM-";
    DashAtSix(w);
    CodedSlices(t);
  }

  lemma DashAtSix(w: string)
    requires WellFormed(w)
    ensures w[6] == '-'
  {
  }

  /** Where the parser finds the parts of a text with code characters around the dash at 6. */
  lemma CodedSlices(t: string)
    requires |t| == 16 && t[6] == '-' && forall i :: 3 <= i < 16 && i != 6 ==> IsCode(t[i])
    ensures IndexOf(t[3..], '-') == 3
    ensures t[3..][..3] + t[7..][..8] == Body(t) && Coded(Body(t))
  {
    hide IndexOf;
    IndexOfIs(t[3..], '-', 3);
    assert t[3..][..3] == t[3..6] && t[7..][..8] == t[7..15];
  }

  /** A charset character typed for another is reported as a checksum error. */
  lemma SubstitutionIsAChecksumError(w: string, j: nat, c: char)
    requires WellFormed(w) && (3 <= j < 6 || 7 <= j < 16) && IsCode(c) && c != w[j]
    ensures Parse(w[j := c]) == Err(InvalidChecksum)
  {
    hide IsUpper, Tight, Trim, Upper, IndexOf;
    var t := w[j := c];
    TypedShape(w, j, c);
    TrimOfTight(t);
    UpperOfUpper(t);
    if j < 15 {
      BodyUpdate(w, j, c);
      SubstitutedCheck(Body(w), BodyIndex(j), c);
    } else {
      assert Body(t) == Body(w);
    }
  }

  // --- Two neighbours swapped ---

  lemma BodySwap(w: string, i: nat)
    requires |w| == 16 && (3 <= i < 5 || 7 <= i < 14)
    ensures Body(Swap(w, i)) == Swap(Body(w), BodyIndex(i))
  {
  }

  lemma SwapWellFormedExactly(w: string, i: nat)
    requires WellFormed(w) && i < 15 && w[i] != w[i + 1]
    ensures WellFormed(Swap(w, i)) <==> i == 14 || IsZeroAndZ(w[i], w[i + 1])
  {
    WellFormedChars(w);
    var t := Swap(w, i);
    var body := Body(w);
    if i < 3 {
      assert t[i] != "CM-"[i];
    } else if i == 5 || i == 6 {
      assert t[6] != '-';
    } else if i == 14 {
      assert Body(t) == body[10 := CheckChar(body)];
      LastSwappedCheck(body);
      assert t[..3] == w[..3];
    } else {
      BodySwap(w, i);
      SwappedCheck(body, BodyIndex(i));
      assert body[BodyIndex(i)] == w[i] && body[BodyIndex(i) + 1] == w[i + 1];
      assert t[..3] == w[..3] && t[15] == w[15];
    }
  }

  /**
   Typing two different neighbours of the dash form the wrong way round is accepted in exactly two cases:
   the last payload character with the check character, and 0 with Z.
   */
  lemma SwapAcceptedExactly(w: string, i: nat)
    requires WellFormed(w) && i < 15 && w[i] != w[i + 1]
    ensures Parse(Swap(w, i)).Ok? <==> i == 14 || IsZeroAndZ(w[i], w[i + 1])
  {
    var t := Swap(w, i);
    WellFormedChars(w);
    assert IsUpper(t) && Tight(t) by {
      NoSpaces(w);
      assert forall k :: 0 <= k < 16 ==> t[k] in w;
    }
    TrimOfTight(t);
    UpperOfUpper(t);
    SwapWellFormedExactly(w, i);
    ParseAcceptsExactly(t, t);
    if Parse(t).Ok? {
      var v := Parse(t).value.text;
      assert Parse(t) == Ok(Awb(v));
      ParseAcceptsExactly(t, v);
      CompactForm(v);
    }
  }

  lemma BodyOfDashed(s: string)
    requires |s| == 14
    ensures Body(Dashed(s)) == s[2..13] && Dashed(s)[7] == s[5] && Dashed(s)[15] == s[13]
    ensures "CM-" <= Dashed(s) && Dashed(s)[6] == '-'
  {
    var w := Dashed(s);
    assert w[..3] == "CM-";
    assert w[3..6] == s[2..5] && w[7..15] == s[5..13];
    assert s[2..5] + s[5..13] == s[2..13];
  }

  lemma CompactSwapWellFormedExactly(w: string, i: nat)
    requires WellFormed(w) && |Compact(w)| == 14 && 2 <= i < 13 && Compact(w)[i] != Compact(w)[i + 1]
    ensures WellFormed(Dashed(Swap(Compact(w), i))) <==> i == 12 || IsZeroAndZ(Compact(w)[i], Compact(w)[i + 1])
  {
    var s := Compact(w);
    var t := Swap(s, i);
    DashedOfCompact(w);
    BodyOfDashed(s);
    BodyOfDashed(t);
    var body := s[2..13];
    assert body == Body(w) && Coded(body);
    if i == 12 {
      assert t[2..13] == body[10 := CheckChar(body)];
      LastSwappedCheck(body);
    } else {
      assert t[2..13] == Swap(body, i - 2);
      SwappedCheck(body, i - 2);
    }
  }

  lemma CompactSwapShape(w: string, i: nat)
    requires WellFormed(w) && |Compact(w)| == 14 && i < 13
    ensures var t := Swap(Compact(w), i);
      Upper(Trim(t)) == t && '-' !in t && Compact(w)[0] == 'C' && Compact(w)[1] == 'M'
  {
    hide Compact, Upper, Trim;
    var s := Compact(w);
    var t := Swap(s, i);
    CompactIsNormal(w);
    CompactForm(w);
    WellFormedChars(w);
    NoSpaces(w);
    assert forall k :: 0 <= k < 14 ==> t[k] in s;
    TrimOfTight(t);
    UpperOfUpper(t);
  }

  /** The same for the compact form, where the tenant code and the service letter are neighbours too. */
  lemma CompactSwapAcceptedExactly(w: string, i: nat)
    requires WellFormed(w) && |Compact(w)| == 14 && i < 13 && Compact(w)[i] != Compact(w)[i + 1]
    ensures Parse(Swap(Compact(w), i)).Ok? <==> i == 12 || IsZeroAndZ(Compact(w)[i], Compact(w)[i + 1])
  {
    hide Trim, Upper, Compact, WellFormed, Check;
    var s := Compact(w);
    var t := Swap(s, i);
    CompactSwapShape(w, i);
    if i < 2 {
      assert t[i] != "CM"[i];
    } else {
      assert t[..2] == "CM";
      CompactSwapWellFormedExactly(w, i);
      CheckAcceptsExactly(Dashed(t));
    }
  }
}
