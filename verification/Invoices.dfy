/** Invoice numbers: `PREFIX-TTT-YYYY-MM-NNNNN`, their checked parser, and the counter key they are drawn from. */
module Invoices {
  import opened Outcome
  import opened Text

  const MAX_I32: nat := 2147483647
  const MAX_U32: nat := 4294967295

  datatype Error = InvalidFormat | UnknownPrefix(p: string) | InvalidTenantCode(code: string)
    | SequenceOutOfRange(n: nat)

  datatype InvoiceType = ShipmentCharges | PaymentReceipt | CodRemittance | CreditNote | WalletTopUp | CarrierPayable

  /** The year and month of a calendar date; years reach from -262143 to 262142. */
  datatype Period = Period(year: int, month: nat)

  predicate ValidPeriod(p: Period) {
    -262143 <= p.year <= 262142 && 1 <= p.month <= 12
  }

  datatype InvoiceNumber = InvoiceNumber(text: string)

  function Prefix(t: InvoiceType): (p: string)
    ensures '-' !in p && ':' !in p && IsUpper(p) && 2 <= |p| <= 3 && !IsSpace(p[0])
  {
    match t
    case ShipmentCharges => "IN"
    case PaymentReceipt => "RC"
    case CodRemittance => "REM"
    case CreditNote => "CN"
    case WalletTopUp => "WR"
    case CarrierPayable => "CP"
  }

  function FromPrefix(p: string): Result<InvoiceType, Error> {
    if p == "IN" then Ok(ShipmentCharges)
    else if p == "RC" then Ok(PaymentReceipt)
    else if p == "REM" then Ok(CodRemittance)
    else if p == "CN" then Ok(CreditNote)
    else if p == "WR" then Ok(WalletTopUp)
    else if p == "CP" then Ok(CarrierPayable)
    else Err(UnknownPrefix(p))
  }

  predicate ValidTenant(code: string) {
    |code| == 3 && forall i :: 0 <= i < 3 ==> '0' <= code[i] <= '9' || 'a' <= code[i] <= 'z' || 'A' <= code[i] <= 'Z'
  }

  /** `{:04}` of a year: the sign counts towards the width. */
  function YearText(year: int): string {
    if year >= 0 then Padded(year, 4) else "-" + Padded(-year, 3)
  }

  function PeriodText(p: Period): string {
    Join([YearText(p.year), Padded(p.month, 2)], '-')
  }

  function NumberText(t: InvoiceType, tenant: string, p: Period, sequence: nat): string {
    Join([Prefix(t), Upper(tenant), YearText(p.year), Padded(p.month, 2), Padded(sequence, 5)], '-')
  }

  function Generate(t: InvoiceType, tenant: string, p: Period, sequence: nat): Result<InvoiceNumber, Error> {
    if !ValidTenant(tenant) then Err(InvalidTenantCode(tenant))
    else if sequence == 0 || sequence > 99_999 then Err(SequenceOutOfRange(sequence))
    else Ok(InvoiceNumber(NumberText(t, tenant, p, sequence)))
  }

  /** The key of the counter that hands out the sequence numbers. */
  function CounterKey(t: InvoiceType, tenant: string, p: Period): string {
    Join(["inv", "seq", Prefix(t), Upper(tenant), PeriodText(p)], ':')
  }

  function Year(s: string): Option<int> {
    ParseSigned(s, -2147483648, MAX_I32)
  }

  function Number(s: string): Option<nat> {
    ParseUnsigned(s, MAX_U32)
  }

  function CheckParts(parts: seq<string>): Result<(), Error> {
    if |parts| != 5 then Err(InvalidFormat)
    else if FromPrefix(parts[0]).Err? then Err(UnknownPrefix(parts[0]))
    else if !ValidTenant(parts[1]) then Err(InvalidTenantCode(parts[1]))
    else CheckFields(Year(parts[2]), Number(parts[3]), Number(parts[4]))
  }

  function CheckFields(year: Option<int>, month: Option<nat>, sequence: Option<nat>): Result<(), Error> {
    if year.None? || month.None? || sequence.None? then Err(InvalidFormat)
    else if !(2020 <= year.value <= 2099) then Err(InvalidFormat)
    else if !(1 <= month.value <= 12) then Err(InvalidFormat)
    else if sequence.value == 0 || sequence.value > 99_999 then Err(SequenceOutOfRange(sequence.value))
    else Ok(())
  }

  function Parse(raw: string): Result<InvoiceNumber, Error> {
    match CheckParts(Split(Trim(raw), '-'))
    case Err(e) => Err(e)
    case Ok(_) => Ok(InvoiceNumber(Upper(Trim(raw))))
  }

  // --- The accessors; None is where the program panics ---

  function TypeOf(n: InvoiceNumber): Option<InvoiceType> {
    match FromPrefix(Split(n.text, '-')[0])
    case Ok(t) => Some(t)
    case Err(_) => None
  }

  function TenantOf(n: InvoiceNumber): Option<string> {
    var parts := Split(n.text, '-');
    if |parts| < 2 then None else Some(parts[1])
  }

  function PeriodOf(n: InvoiceNumber): Option<Period> {
    var parts := Split(n.text, '-');
    if |parts| < 4 then None
    else
      match (Year(parts[2]), Number(parts[3]))
      case (Some(year), Some(month)) => Some(Period(year, month))
      case _ => None
  }

  function SequenceOf(n: InvoiceNumber): Option<nat> {
    var parts := Split(n.text, '-');
    Number(parts[|parts| - 1])
  }

  // --- The parts of a generated number ---

  lemma PrefixRoundTrips(t: InvoiceType)
    ensures FromPrefix(Prefix(t)) == Ok(t)
  {
    match t
    case ShipmentCharges =>
    case PaymentReceipt =>
    case CodRemittance =>
    case CreditNote =>
    case WalletTopUp =>
    case CarrierPayable =>
  }

  /** The prefix of each document. */
  lemma DocumentPrefixes()
    ensures Prefix(ShipmentCharges) == "IN" && Prefix(PaymentReceipt) == "RC" && Prefix(CodRemittance) == "REM"
    ensures Prefix(CreditNote) == "CN" && Prefix(WalletTopUp) == "WR" && Prefix(CarrierPayable) == "CP"
    ensures forall p :: FromPrefix(p).Ok? <==> p in {"IN", "RC", "REM", "CN", "WR", "CP"}
  {
  }

  /** Three letters or digits make a tenant code; the characters next to those in the code table do not. */
  lemma TenantEdges()
    ensures ValidTenant("09a") && ValidTenant("zAZ")
    ensures forall c :: c in {'/', ':', '@', '[', '`', '{'} ==>
              !ValidTenant([c] + "AA") && !ValidTenant("A" + [c] + "A") && !ValidTenant("AA" + [c])
  {
    forall c | c in {'/', ':', '@', '[', '`', '{'}
      ensures !ValidTenant([c] + "AA") && !ValidTenant("A" + [c] + "A") && !ValidTenant("AA" + [c])
    {
      assert ([c] + "AA")[0] == ("A" + [c] + "A")[1] == ("AA" + [c])[2] == c;
    }
  }

  /** What a number is generated for, and what it is refused for. */
  lemma GenerateExactly(t: InvoiceType, tenant: string, p: Period, sequence: nat)
    ensures if !ValidTenant(tenant) then Generate(t, tenant, p, sequence) == Err(InvalidTenantCode(tenant))
            else if !(1 <= sequence <= 99_999)
            then Generate(t, tenant, p, sequence) == Err(SequenceOutOfRange(sequence))
            else Generate(t, tenant, p, sequence).Ok?
    ensures ValidTenant(tenant) && 1 <= sequence <= 99_999 && p.year >= 0 ==>
              Generate(t, tenant, p, sequence) ==
              Ok(InvoiceNumber(Prefix(t) + "-" + Upper(tenant) + "-" + Padded(p.year, 4) + "-" + Padded(p.month, 2)
                               + "-" + Padded(sequence, 5)))
    ensures p.year >= 0 ==>
              CounterKey(t, tenant, p) ==
              "inv:seq:" + Prefix(t) + ":" + Upper(tenant) + ":" + Padded(p.year, 4) + "-" + Padded(p.month, 2)
  {
    hide Padded, Upper, Prefix, ValidTenant;
    JoinOfFive(Prefix(t), Upper(tenant), YearText(p.year), Padded(p.month, 2), Padded(sequence, 5), '-');
    JoinOfFive("inv", "seq", Prefix(t), Upper(tenant), PeriodText(p), ':');
    JoinOfTwo(YearText(p.year), Padded(p.month, 2), '-');
    assert "inv" + ":" + "seq" + ":" == "inv:seq:";
  }

  lemma JoinOfTwo(a: string, b: string, c: char)
    ensures Join([a, b], c) == a + [c] + b
  {
    assert [a, b][1..] == [b];
  }

  lemma JoinOfFive(a: string, b: string, d: string, e: string, f: string, c: char)
    ensures Join([a, b, d, e, f], c) == a + [c] + b + [c] + d + [c] + e + [c] + f
  {
    hide Join;
    JoinStep([a, b, d, e, f], c);
    JoinStep([b, d, e, f], c);
    JoinStep([d, e, f], c);
    JoinOfTwo(e, f, c);
    assert [a, b, d, e, f][1..] == [b, d, e, f] && [b, d, e, f][1..] == [d, e, f] && [d, e, f][1..] == [e, f];
  }

  lemma JoinStep(parts: seq<string>, c: char)
    requires |parts| >= 2
    ensures Join(parts, c) == parts[0] + [c] + Join(parts[1..], c)
  {
  }

  /** Invoice 891 of tenant PH1 in April 2026, and the key it was counted under. */
  lemma KnownNumber()
    ensures Generate(ShipmentCharges, "ph1", Period(2026, 4), 891) == Ok(InvoiceNumber("IN-PH1-2026-04-00891"))
    ensures CounterKey(ShipmentCharges, "ph1", Period(2026, 4)) == "inv:seq:IN:PH1:2026-04"
  {
    hide Padded, Generate, CounterKey;
    KnownNumerals();
    DocumentPrefixes();
    assert Upper("ph1") == "PH1";
    assert ValidTenant("ph1");
    GenerateExactly(ShipmentCharges, "ph1", Period(2026, 4), 891);
    assert "IN" + "-" + "PH1" + "-" + "2026" + "-" + "04" + "-" + "00891" == "IN-PH1-2026-04-00891";
    assert "inv:seq:" + "IN" + ":" + "PH1" + ":" + "2026" + "-" + "04" == "inv:seq:IN:PH1:2026-04";
  }

  /** Which error a text is refused with, in the order of the checks. */
  lemma ParseRefusesExactly(raw: string)
    ensures var parts := Split(Trim(raw), '-');
      if |parts| != 5 then Parse(raw) == Err(InvalidFormat)
      else if parts[0] !in {"IN", "RC", "REM", "CN", "WR", "CP"} then Parse(raw) == Err(UnknownPrefix(parts[0]))
      else if !ValidTenant(parts[1]) then Parse(raw) == Err(InvalidTenantCode(parts[1]))
      else if !(exists year, month, n ::
                  && ParseSigned(parts[2], -2147483648, 2147483647) == Some(year) && 2020 <= year <= 2099
                  && ParseUnsigned(parts[3], 4294967295) == Some(month) && 1 <= month <= 12
                  && ParseUnsigned(parts[4], 4294967295) == Some(n))
      then Parse(raw) == Err(InvalidFormat)
      else var n := ParseUnsigned(parts[4], 4294967295).value;
        Parse(raw) == if 1 <= n <= 99_999 then Ok(InvoiceNumber(Upper(Trim(raw)))) else Err(SequenceOutOfRange(n))
  {
    hide Split, Trim, Upper, ParseSigned, ParseUnsigned, ValidTenant;
    DocumentPrefixes();
  }

  lemma UpperTenant(tenant: string)
    requires ValidTenant(tenant)
    ensures ValidTenant(Upper(tenant)) && IsUpper(Upper(tenant)) && '-' !in Upper(tenant) && ':' !in Upper(tenant)
  {
    UpperIsUpper(tenant);
    var u := Upper(tenant);
    forall i | 0 <= i < 3 ensures u[i] != '-' && u[i] != ':' {
      assert u[i] == UpperChar(tenant[i]);
    }
  }

  /** The dash-separated parts of a year; the sign of a negative one makes an empty part. */
  function YearParts(year: int): seq<string> {
    if year >= 0 then [Padded(year, 4)] else ["", Padded(-year, 3)]
  }

  lemma SplitOfYear(year: int)
    ensures Split(YearText(year), '-') == YearParts(year)
    ensures IsUpper(YearText(year)) && ':' !in YearText(year)
  {
    if year >= 0 {
      DigitsAreUpper(Padded(year, 4));
      SplitLast(Padded(year, 4), '-');
    } else {
      DigitsAreUpper(Padded(-year, 3));
      SplitFirst("", '-', Padded(-year, 3));
      SplitLast(Padded(-year, 3), '-');
      assert YearText(year) == "" + "-" + Padded(-year, 3);
    }
  }

  lemma YearPartsAreInjective(x: int, y: int)
    requires YearParts(x) == YearParts(y)
    ensures x == y
  {
    if x >= 0 {
      assert |YearParts(y)| == 1;
      assert YearParts(x)[0] == YearParts(y)[0];
      PaddedIsInjective(x, y, 4);
    } else {
      assert |YearParts(y)| == 2;
      assert YearParts(x)[1] == YearParts(y)[1];
      PaddedIsInjective(-x, -y, 3);
    }
  }

  /** Splits a joined text of which only the middle part may contain dashes. */
  lemma SplitAround(before: seq<string>, year: int, after: seq<string>)
    requires forall i :: 0 <= i < |before| ==> '-' !in before[i]
    requires forall i :: 0 <= i < |after| ==> '-' !in after[i]
    ensures Split(Join(before + [YearText(year)] + after, '-'), '-') == before + YearParts(year) + after
  {
    var middle := [YearText(year)];
    SplitOfJoin(before + middle + after, '-');
    SplitAllConcat(before + middle, after, '-');
    SplitAllConcat(before, middle, '-');
    SplitAllPlain(before, '-');
    SplitAllPlain(after, '-');
    SplitOfYear(year);
    assert middle[1..] == [];
    assert SplitAll(middle, '-') == YearParts(year);
  }

  lemma SplitOfNumber(t: InvoiceType, tenant: string, p: Period, sequence: nat)
    requires ValidTenant(tenant)
    ensures Split(NumberText(t, tenant, p, sequence), '-')
            == [Prefix(t), Upper(tenant)] + YearParts(p.year) + [Padded(p.month, 2), Padded(sequence, 5)]
  {
    UpperTenant(tenant);
    DigitsAreUpper(Padded(p.month, 2));
    DigitsAreUpper(Padded(sequence, 5));
    var before, after := [Prefix(t), Upper(tenant)], [Padded(p.month, 2), Padded(sequence, 5)];
    SplitAround(before, p.year, after);
    assert before + [YearText(p.year)] + after
      == [Prefix(t), Upper(tenant), YearText(p.year), Padded(p.month, 2), Padded(sequence, 5)];
  }

  lemma PeriodTextIsInjective(p: Period, q: Period)
    requires PeriodText(p) == PeriodText(q)
    ensures p == q
  {
    var mp, mq := [Padded(p.month, 2)], [Padded(q.month, 2)];
    DigitsAreUpper(Padded(p.month, 2));
    DigitsAreUpper(Padded(q.month, 2));
    SplitAround([], p.year, mp);
    SplitAround([], q.year, mq);
    assert [] + [YearText(p.year)] + mp == [YearText(p.year), Padded(p.month, 2)];
    assert [] + [YearText(q.year)] + mq == [YearText(q.year), Padded(q.month, 2)];
    EqualAround([], YearParts(p.year), mp, [], YearParts(q.year), mq);
    YearPartsAreInjective(p.year, q.year);
    PaddedIsInjective(p.month, q.month, 2);
  }

  lemma EqualAround(a1: seq<string>, y1: seq<string>, z1: seq<string>, a2: seq<string>, y2: seq<string>,
      z2: seq<string>)
    requires a1 + y1 + z1 == a2 + y2 + z2 && |a1| == |a2| && |z1| == |z2|
    ensures a1 == a2 && y1 == y2 && z1 == z2
  {
    var s1, s2 := a1 + y1 + z1, a2 + y2 + z2;
    assert s1[..|a1|] == a1 && s2[..|a2|] == a2;
    assert s1[|a1|..|a1| + |y1|] == y1 && s2[|a2|..|a2| + |y2|] == y2;
    assert s1[|s1| - |z1|..] == z1 && s2[|s2| - |z2|..] == z2;
  }

  lemma PeriodHasNoColon(p: Period)
    ensures ':' !in PeriodText(p)
  {
    SplitOfYear(p.year);
    var parts := [YearText(p.year), Padded(p.month, 2)];
    assert parts[1..] == [Padded(p.month, 2)];
    assert Join(parts[1..], '-') == Padded(p.month, 2);
    assert PeriodText(p) == YearText(p.year) + "-" + Padded(p.month, 2);
  }

  /** Equal counter keys mean the same type, tenant (up to case), year and month. */
  lemma KeyIsInjective(t1: InvoiceType, c1: string, p1: Period, t2: InvoiceType, c2: string, p2: Period)
    requires ValidTenant(c1) && ValidTenant(c2)
    requires CounterKey(t1, c1, p1) == CounterKey(t2, c2, p2)
    ensures t1 == t2 && Upper(c1) == Upper(c2) && p1 == p2
  {
    SplitOfKey(t1, c1, p1);
    SplitOfKey(t2, c2, p2);
    var a := ["inv", "seq", Prefix(t1), Upper(c1), PeriodText(p1)];
    var b := ["inv", "seq", Prefix(t2), Upper(c2), PeriodText(p2)];
    assert a[2] == b[2] && a[3] == b[3] && a[4] == b[4];
    PrefixRoundTrips(t1);
    PrefixRoundTrips(t2);
    PeriodTextIsInjective(p1, p2);
  }

  lemma SplitOfKey(t: InvoiceType, tenant: string, p: Period)
    requires ValidTenant(tenant)
    ensures Split(CounterKey(t, tenant, p), ':') == ["inv", "seq", Prefix(t), Upper(tenant), PeriodText(p)]
  {
    UpperTenant(tenant);
    PeriodHasNoColon(p);
    var parts := ["inv", "seq", Prefix(t), Upper(tenant), PeriodText(p)];
    SplitOfJoin(parts, ':');
    SplitAllPlain(parts, ':');
  }

  lemma NumberIsInjective(t1: InvoiceType, c1: string, p1: Period, n1: nat, t2: InvoiceType, c2: string,
      p2: Period, n2: nat)
    requires ValidTenant(c1) && ValidTenant(c2)
    requires NumberText(t1, c1, p1, n1) == NumberText(t2, c2, p2, n2)
    ensures t1 == t2 && Upper(c1) == Upper(c2) && p1 == p2 && n1 == n2
  {
    SplitOfNumber(t1, c1, p1, n1);
    SplitOfNumber(t2, c2, p2, n2);
    var a1, z1 := [Prefix(t1), Upper(c1)], [Padded(p1.month, 2), Padded(n1, 5)];
    var a2, z2 := [Prefix(t2), Upper(c2)], [Padded(p2.month, 2), Padded(n2, 5)];
    EqualAround(a1, YearParts(p1.year), z1, a2, YearParts(p2.year), z2);
    assert a1[0] == a2[0] && a1[1] == a2[1] && z1[0] == z2[0] && z1[1] == z2[1];
    PrefixRoundTrips(t1);
    PrefixRoundTrips(t2);
    YearPartsAreInjective(p1.year, p2.year);
    PaddedIsInjective(p1.month, p2.month, 2);
    PaddedIsInjective(n1, n2, 5);
  }

  /** Two generated numbers are equal exactly when they were drawn from one counter with the same sequence. */
  lemma NumbersCollideExactly(
      t1: InvoiceType, c1: string, p1: Period, n1: nat, t2: InvoiceType, c2: string, p2: Period, n2: nat)
    requires Generate(t1, c1, p1, n1).Ok? && Generate(t2, c2, p2, n2).Ok?
    ensures Generate(t1, c1, p1, n1) == Generate(t2, c2, p2, n2)
            <==> CounterKey(t1, c1, p1) == CounterKey(t2, c2, p2) && n1 == n2
  {
    if NumberText(t1, c1, p1, n1) == NumberText(t2, c2, p2, n2) {
      NumberIsInjective(t1, c1, p1, n1, t2, c2, p2, n2);
    }
    if CounterKey(t1, c1, p1) == CounterKey(t2, c2, p2) {
      KeyIsInjective(t1, c1, p1, t2, c2, p2);
    }
  }

  // --- Generate, print, parse ---

  lemma NumberIsNormal(t: InvoiceType, tenant: string, p: Period, sequence: nat)
    requires ValidTenant(tenant)
    ensures var s := NumberText(t, tenant, p, sequence); Trim(s) == s && Upper(s) == s
  {
    UpperTenant(tenant);
    SplitOfYear(p.year);
    var last := Padded(sequence, 5);
    DigitsAreUpper(last);
    DigitsAreUpper(Padded(p.month, 2));
    var parts := [Prefix(t), Upper(tenant), YearText(p.year), Padded(p.month, 2), last];
    JoinIsUpper(parts, '-');
    JoinEnds(parts, '-');
    assert last[|last| - 1] in last;
    TrimOfTight(Join(parts, '-'));
    UpperOfUpper(Join(parts, '-'));
  }

  lemma YearReads(year: nat)
    requires year <= MAX_I32
    ensures Year(Padded(year, 4)) == Some(year)
  {
    ParseOfPadded(year, 4, MAX_I32);
    assert Padded(year, 4)[0] in Padded(year, 4);
  }

  /** The text of a number is taken apart into the components it was made from. */
  lemma ComponentsRecovered(t: InvoiceType, tenant: string, p: Period, sequence: nat)
    requires ValidPeriod(p) && ValidTenant(tenant) && sequence <= 99_999 && p.year >= 0
    ensures var parts := Split(NumberText(t, tenant, p, sequence), '-');
      && |parts| == 5
      && FromPrefix(parts[0]) == Ok(t) && parts[1] == Upper(tenant) && ValidTenant(parts[1])
      && Year(parts[2]) == Some(p.year) && Number(parts[3]) == Some(p.month) && Number(parts[4]) == Some(sequence)
  {
    hide Padded, Upper, Split, ParseUnsigned, IsUpper;
    SplitOfNumber(t, tenant, p, sequence);
    PrefixRoundTrips(t);
    UpperTenant(tenant);
    YearReads(p.year);
    ParseOfPadded(p.month, 2, MAX_U32);
    ParseOfPadded(sequence, 5, MAX_U32);
    ghost var month, last := Padded(p.month, 2), Padded(sequence, 5);
    assert [Prefix(t), Upper(tenant)] + YearParts(p.year) + [month, last]
      == [Prefix(t), Upper(tenant), Padded(p.year, 4), month, last];
  }

  /**
   A generated number parses back to itself exactly when its year is in 2020..2099; for every other year the
   parser answers that the format is invalid.
   */
  lemma GenerateRoundTripsExactly(t: InvoiceType, tenant: string, p: Period, sequence: nat)
    requires ValidPeriod(p) && Generate(t, tenant, p, sequence).Ok?
    ensures var n := Generate(t, tenant, p, sequence).value;
      Parse(n.text) == if 2020 <= p.year <= 2099 then Ok(n) else Err(InvalidFormat)
  {
    NumberIsNormal(t, tenant, p, sequence);
    CheckOfGenerated(t, tenant, p, sequence);
  }

  /** From year 0 on, the accessors of a generated number give back all four components. */
  lemma AccessorsRecover(t: InvoiceType, tenant: string, p: Period, sequence: nat)
    requires ValidPeriod(p) && p.year >= 0 && Generate(t, tenant, p, sequence).Ok?
    ensures var n := Generate(t, tenant, p, sequence).value;
      TypeOf(n) == Some(t) && TenantOf(n) == Some(Upper(tenant)) && PeriodOf(n) == Some(p)
        && SequenceOf(n) == Some(sequence)
  {
    ComponentsRecovered(t, tenant, p, sequence);
  }

  lemma CheckOfGenerated(t: InvoiceType, tenant: string, p: Period, sequence: nat)
    requires ValidPeriod(p) && ValidTenant(tenant) && 1 <= sequence <= 99_999
    ensures CheckParts(Split(NumberText(t, tenant, p, sequence), '-'))
            == if 2020 <= p.year <= 2099 then Ok(()) else Err(InvalidFormat)
  {
    if p.year >= 0 {
      ComponentsRecovered(t, tenant, p, sequence);
      CheckOfParts(Split(NumberText(t, tenant, p, sequence), '-'), p.year, p.month, sequence);
    } else {
      SplitOfNumber(t, tenant, p, sequence);
      assert |[Prefix(t), Upper(tenant)] + YearParts(p.year) + [Padded(p.month, 2), Padded(sequence, 5)]| == 6;
    }
  }

  lemma CheckOfParts(parts: seq<string>, year: int, month: nat, sequence: nat)
    requires |parts| == 5 && FromPrefix(parts[0]).Ok? && ValidTenant(parts[1])
    requires Year(parts[2]) == Some(year) && Number(parts[3]) == Some(month) && Number(parts[4]) == Some(sequence)
    requires 1 <= month <= 12 && 1 <= sequence <= 99_999
    ensures CheckParts(parts) == if 2020 <= year <= 2099 then Ok(()) else Err(InvalidFormat)
  {
  }

  // --- Accepted numbers ---

  lemma UpperOfNumeral(s: string)
    requires Year(s).Some? || Number(s).Some?
    ensures Upper(s) == s
  {
    var digits := if s != "" && (s[0] == '+' || s[0] == '-') then s[1..] else s;
    DigitsAreUpper(digits);
    assert digits == s || s == [s[0]] + digits;
    assert IsUpper(s);
    UpperOfUpper(s);
  }

  lemma UpperOfPrefix(p: string)
    requires FromPrefix(p).Ok?
    ensures Upper(p) == p
  {
    UpperOfUpper(p);
  }

  lemma FieldsRead(parts: seq<string>)
    requires CheckParts(parts).Ok?
    ensures Year(parts[2]).Some? && Number(parts[3]).Some? && Number(parts[4]).Some?
  {
  }

  /** Upper-casing the parts of an accepted text changes nothing but the tenant. */
  lemma UpperOfAcceptedParts(parts: seq<string>)
    requires CheckParts(parts).Ok?
    ensures UpperAll(parts) == parts[1 := Upper(parts[1])] && CheckParts(UpperAll(parts)) == CheckParts(parts)
  {
    hide Upper, FromPrefix, ValidTenant, Year, Number, CheckFields;
    FieldsRead(parts);
    UpperOfPrefix(parts[0]);
    UpperTenant(parts[1]);
    UpperOfNumeral(parts[2]);
    UpperOfNumeral(parts[3]);
    UpperOfNumeral(parts[4]);
    var u := UpperAll(parts);
    assert u[0] == parts[0] && u[1] == Upper(parts[1]) && u[2] == parts[2] && u[3] == parts[3] && u[4] == parts[4];
  }

  /** Whatever the parser accepts, it accepts again unchanged. */
  lemma AcceptedNumbersAreStable(raw: string)
    requires Parse(raw).Ok?
    ensures Parse(Parse(raw).value.text) == Parse(raw)
    ensures CheckParts(Split(Parse(raw).value.text, '-')).Ok?
  {
    var t := Trim(raw);
    NormalTextIsFixed(raw);
    SplitOfUpper(t, '-');
    UpperOfAcceptedParts(Split(t, '-'));
  }

  lemma FiveParts(parts: seq<string>)
    requires CheckParts(parts).Ok?
    ensures |parts| == 5 && FromPrefix(parts[0]).Ok? && ValidTenant(parts[1])
    ensures Year(parts[2]).Some? && 2020 <= Year(parts[2]).value <= 2099
    ensures Number(parts[3]).Some? && 1 <= Number(parts[3]).value <= 12
    ensures Number(parts[4]).Some? && 1 <= Number(parts[4]).value <= 99_999
  {
  }

  /** All four accessors are total on an accepted number, and in range. */
  lemma AccessorsAreTotal(raw: string)
    requires Parse(raw).Ok?
    ensures var n := Parse(raw).value;
      && TypeOf(n).Some? && TenantOf(n).Some? && ValidTenant(TenantOf(n).value)
      && PeriodOf(n).Some? && 2020 <= PeriodOf(n).value.year <= 2099 && 1 <= PeriodOf(n).value.month <= 12
      && SequenceOf(n).Some? && 1 <= SequenceOf(n).value <= 99_999
  {
    hide Split, CheckParts, Parse, FromPrefix, Year, Number, ValidTenant, Trim, Upper;
    AcceptedNumbersAreStable(raw);
    FiveParts(Split(Parse(raw).value.text, '-'));
  }

  lemma PrefixOfType(p: string)
    requires FromPrefix(p).Ok?
    ensures Prefix(FromPrefix(p).value) == p
  {
  }

  lemma YearNumeral(s: string)
    requires Year(s).Some? && 2020 <= Year(s).value <= 2099
    ensures s == YearText(Year(s).value) <==> FullWidth(s, 4)
  {
    hide Padded;
    assert Pow10(4) == 10_000;
    assert s[0] != '-';
    NumeralIsPadded(s, 4, MAX_I32);
  }

  /** The parts of an accepted number are upper-case. */
  lemma AcceptedTenantIsUpper(raw: string)
    requires Parse(raw).Ok?
    ensures var parts := Split(Parse(raw).value.text, '-'); |parts| == 5 && Upper(parts[1]) == parts[1]
  {
    hide Split, CheckParts;
    var text := Parse(raw).value.text;
    AcceptedNumbersAreStable(raw);
    NormalTextIsFixed(raw);
    SplitOfUpper(text, '-');
    FiveParts(Split(text, '-'));
    assert UpperAll(Split(text, '-'))[1] == Upper(Split(text, '-')[1]);
  }

  /** The number generated from what the accessors read. */
  function Regenerated(n: InvoiceNumber): Result<InvoiceNumber, Error> {
    if TypeOf(n).None? || TenantOf(n).None? || PeriodOf(n).None? || SequenceOf(n).None? then Err(InvalidFormat)
    else Generate(TypeOf(n).value, TenantOf(n).value, PeriodOf(n).value, SequenceOf(n).value)
  }

  lemma SameParts(parts: seq<string>)
    requires CheckParts(parts).Ok? && Upper(parts[1]) == parts[1]
    ensures [Prefix(FromPrefix(parts[0]).value), Upper(parts[1])] + YearParts(Year(parts[2]).value)
              + [Padded(Number(parts[3]).value, 2), Padded(Number(parts[4]).value, 5)] == parts <==>
            FullWidth(parts[2], 4) && FullWidth(parts[3], 2) && FullWidth(parts[4], 5)
  {
    hide Padded, FromPrefix, Prefix, Upper, Year, Number, ParseUnsigned, CheckParts;
    FiveParts(parts);
    PrefixOfType(parts[0]);
    YearNumeral(parts[2]);
    assert Pow10(2) == 100;
    assert Pow10(5) == 100_000;
    MonthNumeral(parts[3], 2);
    MonthNumeral(parts[4], 5);
    var again := [Prefix(FromPrefix(parts[0]).value), Upper(parts[1])] + YearParts(Year(parts[2]).value)
      + [Padded(Number(parts[3]).value, 2), Padded(Number(parts[4]).value, 5)];
    assert |again| == 5;
    if again == parts {
      assert again[2] == parts[2] && again[3] == parts[3] && again[4] == parts[4];
    }
  }

  lemma MonthNumeral(s: string, w: nat)
    requires w >= 1 && Number(s).Some? && Number(s).value < Pow10(w)
    ensures s == Padded(Number(s).value, w) <==> FullWidth(s, w)
  {
    NumeralIsPadded(s, w, MAX_U32);
  }

  /**
   The parser accepts other spellings of a number, with plus signs or other widths. An accepted number is the one
   generated from its own components exactly when its year, month and sequence fill 4, 2 and 5 characters without one.
   */
  lemma CanonicalExactly(raw: string)
    requires Parse(raw).Ok?
    ensures |Split(Parse(raw).value.text, '-')| == 5
    ensures var n := Parse(raw).value; var parts := Split(n.text, '-');
      Regenerated(n) == Ok(n) <==> FullWidth(parts[2], 4) && FullWidth(parts[3], 2) && FullWidth(parts[4], 5)
  {
    hide Split, CheckParts, FromPrefix, Prefix, Year, Number, FullWidth, Padded, Upper, Trim, YearText, YearParts;
    var n := Parse(raw).value;
    var parts := Split(n.text, '-');
    AcceptedNumbersAreStable(raw);
    FiveParts(parts);
    AcceptedTenantIsUpper(raw);
    SameParts(parts);
    var t, p := FromPrefix(parts[0]).value, Period(Year(parts[2]).value, Number(parts[3]).value);
    SplitOfNumber(t, parts[1], p, Number(parts[4]).value);
    if Split(NumberText(t, parts[1], p, Number(parts[4]).value), '-') == parts {
      JoinOfSplit(n.text, '-');
      JoinOfSplit(NumberText(t, parts[1], p, Number(parts[4]).value), '-');
    }
  }
}
