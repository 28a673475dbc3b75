/** Piece labels: a master number followed by a dash and a three-digit piece number. */
module Pieces {
  import opened Outcome
  import opened Text
  import opened Awbs

  datatype ChildAwb = ChildAwb(text: string)

  /** Where c last occurs, or -1. */
  function LastIndexOf(s: string, c: char): (i: int)
    ensures -1 <= i < |s|
    ensures i >= 0 ==> s[i] == c
    ensures forall k :: i < k < |s| ==> s[k] != c
  {
    if s == "" then -1
    else if s[|s| - 1] == c then |s| - 1
    else LastIndexOf(s[..|s| - 1], c)
  }

  function New(master: Awb, piece: nat): Result<ChildAwb, Error> {
    if piece == 0 || piece > 999 then Err(InvalidPieceNumber(piece))
    else Ok(ChildAwb(master.text + "-" + Padded(piece, 3)))
  }

  function ParseChild(raw: string): (r: Result<ChildAwb, Error>)
    ensures r.Ok? ==> |r.value.text| == 20
  {
    var s := Upper(Trim(raw));
    if |s| != 20 then Err(InvalidFormat)
    else
      var k := LastIndexOf(s, '-');
      if k < 0 then Err(InvalidFormat)
      else
        match Parse(s[..k])
        case Err(e) => Err(e)
        case Ok(_) =>
          match ParseUnsigned(s[k + 1..], MAX_U16)
          case None => Err(InvalidFormat)
          case Some(n) => if n == 0 || n > 999 then Err(InvalidPieceNumber(n)) else Ok(ChildAwb(s))
  }

  function Master(child: ChildAwb): Awb
    requires |child.text| == 20
  {
    Awb(child.text[..16])
  }

  /** `piece_number()`; None is the case in which the program panics. */
  function PieceNumber(child: ChildAwb): Option<nat>
    requires |child.text| == 20
  {
    ParseUnsigned(child.text[17..], MAX_U16)
  }

  /** A label is made for the pieces 1..999 and no other. */
  lemma NewExactly(master: Awb, piece: nat)
    ensures New(master, piece) ==
            if 1 <= piece <= 999 then Ok(ChildAwb(master.text + "-" + Padded(piece, 3)))
            else Err(InvalidPieceNumber(piece))
  {
  }

  /** Which error a text is refused with: its length, its master's, its number's. */
  lemma ParseChildRefuses(raw: string)
    ensures var s := Upper(Trim(raw));
      && (|s| != 20 || '-' !in s ==> ParseChild(raw) == Err(InvalidFormat))
      && (|s| == 20 && '-' in s ==>
            var k := LastIndexOf(s, '-');
            && k >= 0
            && if Parse(s[..k]).Err? then ParseChild(raw) == Err(Parse(s[..k]).error)
               else match ParseUnsigned(s[k + 1..], 65535)
                    case None => ParseChild(raw) == Err(InvalidFormat)
                    case Some(n) =>
                      ParseChild(raw) == if 1 <= n <= 999 then Ok(ChildAwb(s)) else Err(InvalidPieceNumber(n)))
  {
    hide Parse, ParseUnsigned, Trim, Upper;
  }

  lemma LabelChars(w: string, piece: string)
    requires WellFormed(w) && |piece| == 3 && AllDigits(piece)
    ensures var s := w + "-" + piece;
      && |s| == 20 && s[..16] == w && s[16] == '-' && s[17..] == piece
      && LastIndexOf(s, '-') == 16 && IsUpper(s) && Tight(s)
  {
    var s := w + "-" + piece;
    WellFormedChars(w);
    DigitsAreUpper(piece);
    assert s[17..] == piece;
    forall k | 16 < k < 20 ensures s[k] != '-' && IsDigit(s[k]) {
      assert s[k] == piece[k - 17] && piece[k - 17] in piece;
    }
  }

  /** A label made from a valid number parses back to itself and gives back its master and its piece number. */
  lemma LabelRoundTrips(master: Awb, piece: nat)
    requires WellFormed(master.text) && 1 <= piece <= 999
    ensures New(master, piece).Ok? && |New(master, piece).value.text| == 20
    ensures var child := New(master, piece).value;
      && ParseChild(child.text) == Ok(child)
      && Master(child) == master && PieceNumber(child) == Some(piece)
  {
    hide Trim, Upper, ParseUnsigned, Padded, Parse, ParseChild, Pow10, WellFormed, IsUpper, Compact, AllDigits;
    ThreeDigitsFit(piece);
    PieceText(piece, 3);
    var digits := Padded(piece, 3);
    var s := master.text + "-" + digits;
    LabelIsNormal(master.text, digits);
    BothFormsParse(master.text);
    AcceptedLabel(s, master.text, digits, piece);
  }

  lemma ThreeDigitsFit(piece: nat)
    requires piece <= 999
    ensures piece < Pow10(3)
  {
    assert Pow10(3) == 1000;
  }

  lemma LabelIsNormal(w: string, piece: string)
    requires WellFormed(w) && |piece| == 3 && AllDigits(piece)
    ensures var s := w + "-" + piece;
      |s| == 20 && Trim(s) == s && Upper(s) == s && s[..16] == w && s[17..] == piece
  {
    hide Trim, Upper;
    var s := w + "-" + piece;
    LabelChars(w, piece);
    TrimOfTight(s);
    UpperOfUpper(s);
  }

  /** The labels of a shipment are told apart by master and number. */
  lemma LabelsAreDistinct(m1: Awb, p1: nat, m2: Awb, p2: nat)
    requires WellFormed(m1.text) && 1 <= p1 <= 999 && WellFormed(m2.text) && 1 <= p2 <= 999
    requires New(m1, p1) == New(m2, p2)
    ensures m1 == m2 && p1 == p2
  {
    LabelRoundTrips(m1, p1);
    LabelRoundTrips(m2, p2);
  }

  /** A dash inside a number keeps it from being read as an unsigned integer. */
  lemma DashIsNoDigit(s: string, k: nat)
    requires k < |s| && s[k] == '-'
    ensures ParseUnsigned(s, MAX_U16) == None
  {
    if s[0] == '+' {
      assert s[1..][k - 1] == s[k];
      assert s[k] in s[1..];
    } else {
      assert s[k] in s;
    }
  }

  /**
   `parse` accepts more than the labels `new` makes. On an accepted label both accessors are right exactly
   when characters 2 and 16 are dashes; otherwise the master is not a number or the piece number panics.
   */
  lemma AccessorsAreSoundExactly(raw: string)
    requires ParseChild(raw).Ok?
    ensures var child := ParseChild(raw).value;
      (WellFormed(Master(child).text) && PieceNumber(child).Some? && 1 <= PieceNumber(child).value <= 999)
      <==> child.text[2] == '-' && child.text[16] == '-'
  {
    var s := Upper(Trim(raw));
    NormalTextIsFixed(raw);
    TrimIsTight(raw);
    UpperTrims(Trim(raw));
    var k := LastIndexOf(s, '-');
    var v := Parse(s[..k]).value.text;
    ParsedText(s[..k], v);
    HeadOfTight(s, k);
    CompactForm(v);
    if s[2] == '-' {
      DashFormHead(s, k, v);
      if s[16] != '-' {
        DashAfterSixteen(s, k);
      }
    } else if WellFormed(s[..16]) {
      WellFormedChars(s[..16]);
    }
  }

  /** If character 2 is a dash, the head is a dash form filling the first 16 characters. */
  lemma DashFormHead(s: string, k: nat, v: string)
    requires |s| == 20 && k < 20 && Tight(s) && Upper(s) == s && s[2] == '-' && k == LastIndexOf(s, '-')
    requires WellFormed(v) && Parse(s[..k]).Ok?
    requires var m := Upper(Trim(s[..k])); m <= s[..k] && (m == v || m == Compact(v))
    ensures k >= 16 && WellFormed(s[..16])
    ensures s[16] == '-' ==> k == 16
  {
    hide Trim, Upper, Parse, Compact, LastIndexOf;
    var m := Upper(Trim(s[..k]));
    CompactForm(v);
    assert |m| >= 14 && m[2] == s[2] && m[2] in m;
    assert s[..16] == v;
    if s[16] == '-' && k > 16 {
      DashedHeadTooLong(s, k);
    }
  }

  lemma DashAfterSixteen(s: string, k: nat)
    requires |s| == 20 && 16 <= k < 20 && s[k] == '-' && s[16] != '-'
    ensures ParseUnsigned(s[17..], MAX_U16) == None
  {
    assert s[17..][k - 17] == '-';
    DashIsNoDigit(s[17..], k - 17);
  }

  lemma ParsedText(raw: string, v: string)
    requires Parse(raw).Ok? && v == Parse(raw).value.text
    ensures WellFormed(v) && (Upper(Trim(raw)) == v || Upper(Trim(raw)) == Compact(v))
  {
    CheckAcceptsExactly(Normalise(raw).value);
    assert Parse(raw) == Ok(Awb(v));
    ParseAcceptsExactly(raw, v);
  }

  /**
   The part before the last dash of a normal text starts with its first character and loses only spaces at its end.
   */
  lemma HeadOfTight(s: string, k: nat)
    requires Tight(s) && Upper(s) == s && k < |s|
    ensures var m := Upper(Trim(s[..k])); m <= s[..k] && (k > 0 && !IsSpace(s[k - 1]) ==> m == s[..k])
  {
    var head := s[..k];
    if k > 0 {
      assert TrimStart(head) == head;
      TrimEndIsTight(head);
      var t := TrimEnd(head);
      forall i | 0 <= i < |t| ensures Upper(t)[i] == t[i] {
        assert Upper(s)[i] == UpperChar(s[i]);
      }
    }
  }

  /** With a dash at 16 before the last one, the head is neither a dash form nor a compact form. */
  lemma DashedHeadTooLong(s: string, k: nat)
    requires |s| == 20 && Tight(s) && Upper(s) == s && 16 < k < 20 && s[16] == '-'
    ensures Parse(s[..k]).Err?
  {
    HeadOfTight(s, k);
    var head := s[..k];
    var m := Upper(Trim(head));
    TrimEndKeeps(head, 16);
    assert TrimStart(head) == head;
  }

  lemma {:induction false} TrimEndKeeps(s: string, i: nat)
    requires i < |s| && !IsSpace(s[i])
    ensures |TrimEnd(s)| > i
  {
    if IsSpace(s[|s| - 1]) {
      TrimEndKeeps(s[..|s| - 1], i);
    }
  }

  lemma AcceptedLabel(s: string, head: string, piece: string, n: nat)
    requires |s| == 20 && s == head + "-" + piece && '-' !in piece && Trim(s) == s && Upper(s) == s
    requires Parse(head).Ok? && ParseUnsigned(piece, MAX_U16) == Some(n) && 1 <= n <= 999
    ensures ParseChild(s) == Ok(ChildAwb(s))
  {
    hide Trim, Upper, ParseUnsigned, Parse;
    forall i | |head| < i < 20 ensures s[i] != '-' {
      assert s[i] == piece[i - |head| - 1];
    }
    assert s[|head|] == '-';
    assert LastIndexOf(s, '-') == |head|;
    assert s[..|head|] == head && s[|head| + 1..] == piece;
  }

  lemma PieceText(n: nat, width: nat)
    requires 1 <= width && n < Pow10(width) && n <= 999
    ensures var piece := Padded(n, width);
      && |piece| == width && IsUpper(piece) && '-' !in piece && ParseUnsigned(piece, MAX_U16) == Some(n)
      && (forall i :: 0 <= i < |piece| ==> IsDigit(piece[i]))
  {
    PaddedWidth(n, width);
    ParseOfPadded(n, width, MAX_U16);
    DigitsAreUpper(Padded(n, width));
  }

  lemma SpacedLabelIsNormal(w: string, piece: string)
    requires WellFormed(w) && |piece| == 2 && IsUpper(piece) && IsDigit(piece[1])
    ensures var s := w + " " + "-" + piece;
      |s| == 20 && s[16] == ' ' && s[17] == '-' && Trim(s) == s && Upper(s) == s
  {
    var s := w + " " + "-" + piece;
    WellFormedChars(w);
    assert s[0] == w[0] && s[19] == piece[1];
    TrimOfTight(s);
    UpperOfUpper(s);
  }

  /** A label with a space before its dash is accepted, but its piece number panics. */
  lemma SpacedLabelPanics(w: string, n: nat)
    requires WellFormed(w) && 1 <= n <= 99
    ensures var s := w + " " + "-" + Padded(n, 2);
      ParseChild(s) == Ok(ChildAwb(s)) && |s| == 20 && PieceNumber(ChildAwb(s)) == None
  {
    assert Pow10(2) == 100;
    PieceText(n, 2);
    var piece := Padded(n, 2);
    var head := w + " ";
    var s := head + "-" + piece;
    SpacedLabelIsNormal(w, piece);
    SpacedHeadParses(w);
    AcceptedLabel(s, head, piece, n);
    DashAfterSixteen(s, 17);
  }

  lemma SpacedHeadParses(w: string)
    requires WellFormed(w)
    ensures Parse(w + " ").Ok?
  {
    WellFormedChars(w);
    TrimOneSpace(w);
    UpperOfUpper(w);
    ParseAcceptsExactly(w + " ", w);
  }

  lemma TrimOneSpace(w: string)
    requires w != "" && Tight(w)
    ensures Trim(w + " ") == w
  {
    var s := w + " ";
    assert TrimStart(s) == s;
    assert s[..|s| - 1] == w;
    assert TrimEnd(s) == TrimEnd(w) == w;
  }

  lemma CompactLabelIsNormal(w: string, piece: string)
    requires WellFormed(w) && |piece| == 5 && IsUpper(piece) && IsDigit(piece[4])
    ensures var s := Compact(w) + "-" + piece;
      |s| == 20 && s[2] != '-' && Trim(s) == s && Upper(s) == s
  {
    hide Trim, Upper, Compact;
    var s := Compact(w) + "-" + piece;
    CompactForm(w);
    CompactIsNormal(w);
    assert s[2] == Compact(w)[2] && Compact(w)[2] in Compact(w);
    assert s[0] == Compact(w)[0] && s[19] == piece[4];
    TrimOfTight(s);
    UpperOfUpper(s);
  }

  /** A label on the compact form is accepted, but its master is not a number. */
  lemma CompactLabelHasNoMaster(w: string, n: nat)
    requires WellFormed(w) && 1 <= n <= 999
    ensures var s := Compact(w) + "-" + Padded(n, 5);
      ParseChild(s) == Ok(ChildAwb(s)) && |s| == 20 && !WellFormed(Master(ChildAwb(s)).text)
  {
    hide Trim, Upper, ParseUnsigned, Padded, Compact, Parse, ParseChild, Value;
    assert Pow10(5) == 100_000;
    PieceText(n, 5);
    var piece := Padded(n, 5);
    var head := Compact(w);
    var s := head + "-" + piece;
    CompactLabelIsNormal(w, piece);
    BothFormsParse(w);
    AcceptedLabel(s, head, piece, n);
    if WellFormed(s[..16]) {
      WellFormedChars(s[..16]);
    }
  }
}
