/**
 Air waybill numbers: `CM-TTT-SNNNNNNNC` with its compact barcode form, and the piece labels that append
 `-PPP`. Text is ASCII.
 */
module Awbs {
  import opened Outcome
  import opened Text
  import opened Charset
  import Luhn

  datatype Error =
    | InvalidFormat
    | InvalidChecksum
    | UnknownServiceCode(c: char)
    | InvalidTenantCode(code: string)
    | InvalidPieceNumber(n: nat)
    | InvalidCharset(c: char)

  const MAX_U16: nat := 65535
  const MAX_U32: nat := 4294967295

  // --- Service and tenant codes ---

  datatype ServiceCode = Standard | Express | SameDay | Balikbayan | International

  function ServiceChar(service: ServiceCode): (c: char)
    ensures IsCode(c)
  {
    match service
    case Standard => 'S'
    case Express => 'E'
    case SameDay => 'D'
    case Balikbayan => 'B'
    case International => 'N'
  }

  function ServiceOf(c: char): Result<ServiceCode, Error> {
    match c
    case 'S' => Ok(Standard)
    case 'E' => Ok(Express)
    case 'D' => Ok(SameDay)
    case 'B' => Ok(Balikbayan)
    case 'N' => Ok(International)
    case _ => Err(UnknownServiceCode(c))
  }

  datatype TenantCode = TenantCode(code: string)

  predicate IsAlphanumeric(c: char) {
    '0' <= c <= '9' || 'a' <= c <= 'z' || 'A' <= c <= 'Z'
  }

  function NewTenant(code: string): Result<TenantCode, Error> {
    var upper := Upper(code);
    if |code| != 3 then Err(InvalidTenantCode(code))
    else if exists c :: c in upper && (!IsAlphanumeric(c) || c == 'O' || c == 'I') then Err(InvalidTenantCode(code))
    else Ok(TenantCode(upper))
  }

  /** Usable for a tenant code: alphanumeric and neither O nor I in either case. */
  predicate Usable(c: char) {
    IsAlphanumeric(c) && c !in {'O', 'I', 'o', 'i'}
  }

  function UsableOf(slug: string): (u: string)
    ensures forall i :: 0 <= i < |u| ==> Usable(u[i])
  {
    if slug == "" then "" else (if Usable(slug[0]) then [slug[0]] else "") + UsableOf(slug[1..])
  }

  function FromSlug(slug: string): Option<TenantCode> {
    var usable := UsableOf(slug);
    var code := Upper(if |usable| <= 3 then usable else usable[..3]);
    match NewTenant(code)
    case Ok(tenant) => Some(tenant)
    case Err(_) => None
  }

  predicate ValidTenant(t: TenantCode) {
    |t.code| == 3 && Coded(t.code) && IsUpper(t.code)
  }

  /** What the constructor lets through lies in the AWB charset, so a generated number always has a check character. */
  lemma TenantIsCoded(code: string)
    ensures NewTenant(code).Ok? <==> |code| == 3 && Coded(Upper(code))
    ensures NewTenant(code).Ok? ==> ValidTenant(NewTenant(code).value)
  {
    var upper := Upper(code);
    UpperIsUpper(code);
    if |code| == 3 {
      forall i | 0 <= i < 3
        ensures IsCode(upper[i]) <==> IsAlphanumeric(upper[i]) && upper[i] != 'O' && upper[i] != 'I'
      {
        assert upper[i] == UpperChar(code[i]);
      }
      assert upper == [upper[0], upper[1], upper[2]];
    }
  }

  /** A slug yields a tenant code exactly when it has three usable characters, namely the first three in upper case. */
  lemma SlugNeedsThreeUsable(slug: string)
    ensures FromSlug(slug).Some? <==> |UsableOf(slug)| >= 3
    ensures FromSlug(slug).Some? ==>
            FromSlug(slug).value.code == Upper(UsableOf(slug)[..3]) && ValidTenant(FromSlug(slug).value)
  {
    hide UsableOf, Upper, NewTenant, Coded, Usable;
    var usable := UsableOf(slug);
    var three := if |usable| <= 3 then usable else usable[..3];
    UsableIsCoded(three);
    UpperIsUpper(three);
    UpperOfUpper(Upper(three));
    TenantIsCoded(Upper(three));
    NewTenantIs(Upper(three));
  }

  /** Usable is what the charset has in upper case. */
  lemma UsableExactly(c: char)
    ensures Usable(c) <==> IsCode(UpperChar(c))
  {
  }

  lemma UsableIsCoded(s: string)
    requires forall i :: 0 <= i < |s| ==> Usable(s[i])
    ensures Coded(Upper(s))
  {
    var upper := Upper(s);
    forall i | 0 <= i < |s|
      ensures IsCode(upper[i])
    {
      UsableExactly(s[i]);
      assert upper[i] == UpperChar(s[i]);
    }
  }

  lemma NewTenantIs(code: string)
    ensures NewTenant(code).Ok? ==> NewTenant(code).value.code == Upper(code)
  {
  }

  // --- Master numbers ---

  datatype Awb = Awb(text: string)

  predicate ValidSequence(n: nat) {
    1 <= n <= 9_999_999
  }

  function Payload(tenant: TenantCode, service: ServiceCode, sequence: nat): string {
    tenant.code + [ServiceChar(service)] + Padded(sequence, 7)
  }

  lemma PayloadIsCoded(tenant: TenantCode, service: ServiceCode, sequence: nat)
    requires ValidTenant(tenant) && ValidSequence(sequence)
    ensures |Padded(sequence, 7)| == 7
    ensures |Payload(tenant, service, sequence)| == 11 && Coded(Payload(tenant, service, sequence))
  {
    assert Pow10(7) == 10_000_000;
    PaddedWidth(sequence, 7);
    var digits := Padded(sequence, 7);
    forall i | 0 <= i < 7 ensures IsCode(digits[i]) {
      assert digits[i] in digits;
    }
  }

  function Generate(tenant: TenantCode, service: ServiceCode, sequence: nat): Awb
    requires ValidTenant(tenant) && ValidSequence(sequence)
  {
    PayloadIsCoded(tenant, service, sequence);
    var check := CheckChar(Payload(tenant, service, sequence));
    Awb("CM-" + tenant.code + "-" + [ServiceChar(service)] + Padded(sequence, 7) + [check])
  }

  function Normalise(raw: string): (r: Result<string, Error>)
    ensures r.Ok? ==> |r.value| == 16 && "CM-" <= r.value
  {
    var s := Upper(Trim(raw));
    if "CM-" <= s && |s| == 16 then Ok(s)
    else if "CM" <= s && '-' !in s && |s| == 14 then
      Ok("CM-" + s[2..5] + "-" + s[5..6] + s[6..14])
    else Err(InvalidFormat)
  }

  /** Everything `parse` does after normalising. */
  function Check(normalised: string): Result<Awb, Error>
    requires |normalised| >= 3
  {
    var inner := normalised[3..];
    var k := IndexOf(inner, '-');
    if k == |inner| then Err(InvalidFormat)
    else
      var rest := inner[k + 1..];
      if |rest| != 9 then Err(InvalidFormat)
      else
        match Checksum(inner[..k] + rest[..8])
        case Err(c) => Err(InvalidCharset(c))
        case Ok(expected) =>
          if rest[8] != expected then Err(InvalidChecksum)
          else
            match ServiceOf(rest[0])
            case Err(e) => Err(e)
            case Ok(_) => Ok(Awb(normalised))
  }

  function Parse(raw: string): Result<Awb, Error> {
    match Normalise(raw)
    case Err(e) => Err(e)
    case Ok(normalised) => Check(normalised)
  }

  /** `barcode_str`: the text without its dashes. */
  function Compact(text: string): string {
    if text == "" then "" else KeepUnlessDash(text[0]) + Compact(text[1..])
  }

  function KeepUnlessDash(c: char): string {
    if c == '-' then "" else [c]
  }

  function Tenant(awb: Awb): string
    requires |awb.text| == 16
  {
    awb.text[3..6]
  }

  function Service(awb: Awb): Result<ServiceCode, Error>
    requires |awb.text| == 16
  {
    ServiceOf(awb.text[7])
  }

  /** `sequence()`; None is the case in which the program panics. */
  function Sequence(awb: Awb): Option<nat>
    requires |awb.text| == 16
  {
    ParseUnsigned(awb.text[8..15], MAX_U32)
  }

  // --- Which texts are numbers ---

  function Body(w: string): (p: string)
    requires |w| == 16
    ensures |p| == 11
    ensures forall i :: 3 <= i < 6 ==> p[i - 3] == w[i]
    ensures forall i :: 7 <= i < 15 ==> p[i - 4] == w[i]
  {
    w[3..6] + w[7..15]
  }

  /** The shape every AWB has: fixed prefix and dashes, a coded body, its check character, a known service. */
  predicate WellFormed(w: string) {
    && |w| == 16 && "CM-" <= w && w[6] == '-'
    && Coded(Body(w)) && w[15] == CheckChar(Body(w))
    && ServiceOf(w[7]).Ok?
  }

  lemma WellFormedChars(w: string)
    requires WellFormed(w)
    ensures w[0] == 'C' && w[1] == 'M' && w[2] == '-'
    ensures forall i :: 3 <= i < 16 && i != 6 ==> IsCode(w[i])
    ensures IsUpper(w) && Tight(w)
    ensures IndexOf(w[3..], '-') == 3
  {
    assert w[..3] == "CM-";
    var body := Body(w);
    assert forall i :: 3 <= i < 6 ==> w[i] == body[i - 3] && IsCode(body[i - 3]);
    assert forall i :: 7 <= i < 15 ==> w[i] == body[i - 4] && IsCode(body[i - 4]);
    IndexOfIs(w[3..], '-', 3);
  }

  /** The check accepts exactly the well-formed texts, unchanged. */
  lemma CheckAcceptsExactly(n: string)
    requires |n| == 16 && "CM-" <= n
    ensures Check(n).Ok? <==> WellFormed(n)
    ensures Check(n).Ok? ==> Check(n).value == Awb(n)
  {
    var inner := n[3..];
    var k := IndexOf(inner, '-');
    if k < |inner| && |inner[k + 1..]| == 9 {
      assert k == 3;
      assert inner[..3] + inner[4..][..8] == Body(n);
      assert inner[4..][8] == n[15] && inner[4..][0] == n[7] && inner[3] == n[6];
    } else if WellFormed(n) {
      WellFormedChars(n);
    }
  }

  lemma Regrouped(a: string, b: string, c: string)
    ensures a + (b + c) == (a + b) + c
  {
  }

  lemma {:induction false} CompactConcat(a: string, b: string)
    ensures Compact(a + b) == Compact(a) + Compact(b)
  {
    if a == "" {
      assert a + b == b;
    } else {
      CompactConcat(a[1..], b);
      assert (a + b)[1..] == a[1..] + b && (a + b)[0] == a[0];
      Regrouped(KeepUnlessDash(a[0]), Compact(a[1..]), Compact(b));
    }
  }

  lemma {:induction false} CompactOfPlain(a: string)
    requires forall i :: 0 <= i < |a| ==> a[i] != '-'
    ensures Compact(a) == a
  {
    if a != "" {
      CompactOfPlain(a[1..]);
    }
  }

  lemma FormSlices(w: string)
    requires WellFormed(w)
    ensures |w| == 16
    ensures w == w[..2] + "-" + w[3..]
    ensures w[3..] == w[3..6] + "-" + w[7..]
  {
    WellFormedChars(w);
  }

  /** The barcode form of a well-formed number: the same characters without the two dashes. */
  lemma CompactForm(w: string)
    requires WellFormed(w)
    ensures Compact(w) == w[..2] + w[3..6] + w[7..]
    ensures |Compact(w)| == 14 && '-' !in Compact(w)
  {
    hide Compact, WellFormed, Coded, Tight, IsUpper;
    FormSlices(w);
    WellFormedChars(w);
    CompactOfPlain(w[..2]);
    CompactOfPlain(w[3..6]);
    CompactOfPlain(w[7..]);
    CompactAroundDash(w[..2], w[3..]);
    CompactAroundDash(w[3..6], w[7..]);
    assert w[..2] + (w[3..6] + w[7..]) == w[..2] + w[3..6] + w[7..];
  }

  lemma DashIsDropped()
    ensures Compact("-") == ""
  {
    assert "-"[1..] == "";
  }

  lemma CompactAroundDash(a: string, b: string)
    ensures Compact(a + "-" + b) == Compact(a) + Compact(b)
  {
    hide *;
    DashIsDropped();
    CompactConcat(a + "-", b);
    CompactConcat(a, "-");
    assert Compact(a) + "" == Compact(a);
  }

  /** Puts the dashes back into fourteen characters. */
  function Dashed(s: string): (w: string)
    requires |s| == 14
    ensures |w| == 16
  {
    "CM-" + s[2..5] + "-" + s[5..6] + s[6..14]
  }

  lemma DashedOfCompact(w: string)
    requires WellFormed(w)
    ensures |Compact(w)| == 14 && "CM" <= Compact(w) && Dashed(Compact(w)) == w
  {
    CompactForm(w);
    WellFormedChars(w);
    var s := Compact(w);
    assert s[2..5] == w[3..6] && s[5..6] == w[7..8] && s[6..14] == w[8..16];
    assert w == w[..3] + w[3..6] + w[6..7] + w[7..8] + w[8..16];
  }

  lemma DashedSlices(s: string)
    requires |s| == 14 && "CM" <= s
    ensures Dashed(s)[..2] + Dashed(s)[3..6] + Dashed(s)[7..] == s
  {
    var w := Dashed(s);
    assert w[..2] == s[..2] && w[3..6] == s[2..5];
    assert s[5..] == s[5..6] + s[6..14];
    assert w[7..] == s[5..6] + s[6..14];
    assert s == s[..2] + s[2..5] + s[5..];
  }

  lemma CompactOfDashed(s: string)
    requires |s| == 14 && "CM" <= s && '-' !in s && WellFormed(Dashed(s))
    ensures Compact(Dashed(s)) == s
  {
    hide *;
    DashedSlices(s);
    CompactForm(Dashed(s));
  }

  /**
   `parse` yields w exactly for the well-formed w written in dash or compact form, in either case, with spaces around.
   */
  lemma ParseAcceptsExactly(raw: string, w: string)
    ensures Parse(raw) == Ok(Awb(w)) <==>
            WellFormed(w) && (Upper(Trim(raw)) == w || Upper(Trim(raw)) == Compact(w))
  {
    var s := Upper(Trim(raw));
    if Normalise(raw).Ok? {
      CheckAcceptsExactly(Normalise(raw).value);
    }
    if WellFormed(w) {
      WellFormedChars(w);
      CompactForm(w);
      DashedOfCompact(w);
    }
    if |s| == 14 && "CM" <= s && '-' !in s && WellFormed(Dashed(s)) {
      CompactOfDashed(s);
    }
  }

  // --- Generate, print, parse ---

  lemma GenerateIsWellFormed(tenant: TenantCode, service: ServiceCode, sequence: nat)
    requires ValidTenant(tenant) && ValidSequence(sequence)
    ensures var awb := Generate(tenant, service, sequence);
      && WellFormed(awb.text)
      && awb.text[3..6] == tenant.code && awb.text[7] == ServiceChar(service) && awb.text[8..15] == Padded(sequence, 7)
  {
    PayloadIsCoded(tenant, service, sequence);
    ServiceRoundTrips(service);
    var w := Generate(tenant, service, sequence).text;
    assert Body(w) == Payload(tenant, service, sequence);
  }

  /** Both printed forms of a well-formed number parse back to it. */
  lemma BothFormsParse(w: string)
    requires WellFormed(w)
    ensures Parse(w) == Ok(Awb(w)) && Parse(Compact(w)) == Ok(Awb(w))
  {
    WellFormedChars(w);
    TrimOfTight(w);
    UpperOfUpper(w);
    ParseAcceptsExactly(w, w);
    CompactIsNormal(w);
    ParseAcceptsExactly(Compact(w), w);
  }

  lemma ServiceRoundTrips(service: ServiceCode)
    ensures ServiceOf(ServiceChar(service)) == Ok(service)
  {
    match service
    case Standard =>
    case Express =>
    case SameDay =>
    case Balikbayan =>
    case International =>
  }

  /** The letter of each service. */
  lemma ServiceLetters()
    ensures ServiceChar(Standard) == 'S' && ServiceChar(Express) == 'E' && ServiceChar(SameDay) == 'D'
    ensures ServiceChar(Balikbayan) == 'B' && ServiceChar(International) == 'N'
    ensures forall c :: ServiceOf(c).Ok? <==> c in {'S', 'E', 'D', 'B', 'N'}
    ensures forall c :: ServiceOf(c).Err? ==> ServiceOf(c).error == UnknownServiceCode(c)
  {
  }

  /** A number printed out: what stands where. */
  lemma GenerateLayout(tenant: TenantCode, service: ServiceCode, sequence: nat)
    requires ValidTenant(tenant) && 1 <= sequence <= 9_999_999
    ensures var digits := Padded(sequence, 7);
      && |digits| == 7 && Value(digits) == sequence
      && Coded(tenant.code + [ServiceChar(service)] + digits)
      && Generate(tenant, service, sequence).text ==
         "CM-" + tenant.code + "-" + [ServiceChar(service)] + digits
         + [CheckChar(tenant.code + [ServiceChar(service)] + digits)]
  {
    PayloadIsCoded(tenant, service, sequence);
    ValueOfPadded(sequence, 7);
  }

  /** The number of booking 1234 of tenant PH1 by standard service. */
  lemma KnownNumber()
    ensures ValidTenant(TenantCode("PH1"))
    ensures Generate(TenantCode("PH1"), Standard, 1234).text == "CM-PH1-S0001234A"
    ensures Compact("CM-PH1-S0001234A") == "CMPH1S0001234A"
  {
    hide Padded, CheckChar, Coded, Generate, Compact, Value, IsUpper;
    KnownNumerals();
    ServiceLetters();
    KnownTenant();
    GenerateLayout(TenantCode("PH1"), Standard, 1234);
    assert "PH1" + ['S'] + "0001234" == "PH1S0001234";
    KnownCheck();
    KnownCompact();
  }

  lemma KnownTenant()
    ensures ValidTenant(TenantCode("PH1"))
  {
  }

  lemma KnownCompact()
    ensures Compact("CM-PH1-S0001234A") == "CMPH1S0001234A"
  {
    hide Compact;
    assert "CM-PH1-S0001234A" == "CM" + ("-" + ("PH1" + ("-" + "S0001234A")));
    DashIsDropped();
    CompactConcat("CM", "-" + ("PH1" + ("-" + "S0001234A")));
    CompactConcat("-", "PH1" + ("-" + "S0001234A"));
    CompactConcat("PH1", "-" + "S0001234A");
    CompactConcat("-", "S0001234A");
    CompactOfPlain("CM");
    CompactOfPlain("PH1");
    CompactOfPlain("S0001234A");
  }

  lemma KnownDigits()
    ensures Coded("PH1S0001234") && Digits("PH1S0001234") == [23, 17, 1, 26, 0, 0, 0, 1, 2, 3, 4]
  {
  }

  lemma KnownCheck()
    ensures Coded("PH1S0001234") && CheckChar("PH1S0001234") == 'A'
  {
    hide Luhn.Sum;
    KnownDigits();
    Luhn.KnownSum();
    assert CharOf(10) == 'A';
  }

  // --- What is refused ---

  /** The texts that can be normalised: the dash form, and the compact form, in any case and with spaces around. */
  predicate Shaped(raw: string) {
    var s := Upper(Trim(raw));
    || (|s| == 16 && s[..3] == "CM-")
    || (|s| == 14 && s[..2] == "CM" && '-' !in s)
  }

  /** What is checked, once it is normalised. */
  function Normal(raw: string): (n: string)
    requires Shaped(raw)
    ensures |n| == 16
  {
    var s := Upper(Trim(raw));
    if |s| == 16 then s else "CM-" + s[2..5] + "-" + s[5..]
  }

  /**
   Which error a text is refused with: a wrong shape; the last character of the payload outside the charset; a wrong
   check character; an unknown service.
   */
  lemma ParseRefusesExactly(raw: string)
    ensures Parse(raw) == Err(InvalidFormat) <==>
            !Shaped(raw) || Normal(raw)[6] != '-' || exists i :: 3 <= i < 6 && Normal(raw)[i] == '-'
    ensures Shaped(raw) && Normal(raw)[6] == '-' && (forall i :: 3 <= i < 6 ==> Normal(raw)[i] != '-') ==>
              var n := Normal(raw);
              if !Coded(Body(n)) then Parse(raw) == Err(InvalidCharset(Offender(Body(n))))
              else if n[15] != CheckChar(Body(n)) then Parse(raw) == Err(InvalidChecksum)
              else if n[7] !in {'S', 'E', 'D', 'B', 'N'} then Parse(raw) == Err(UnknownServiceCode(n[7]))
              else Parse(raw) == Ok(Awb(n))
  {
    hide Trim, Upper, Check, CheckChar, Offender;
    NormaliseIs(raw);
    if Shaped(raw) {
      CheckRefuses(Normal(raw));
    }
  }

  lemma NormaliseIs(raw: string)
    ensures Normalise(raw) == if Shaped(raw) then Ok(Normal(raw)) else Err(InvalidFormat)
    ensures Shaped(raw) ==> "CM-" <= Normal(raw)
  {
    hide Trim, Upper;
    var s := Upper(Trim(raw));
    if |s| >= 3 {
      assert "CM-" <= s <==> s[..3] == "CM-";
    }
    if |s| >= 2 {
      assert "CM" <= s <==> s[..2] == "CM";
    }
    if |s| == 14 {
      assert "CM-" + s[2..5] + "-" + s[5..6] + s[6..14] == "CM-" + s[2..5] + "-" + s[5..];
    }
  }

  lemma CheckRefuses(n: string)
    requires |n| == 16 && "CM-" <= n
    ensures Check(n) == Err(InvalidFormat) <==> n[6] != '-' || exists i :: 3 <= i < 6 && n[i] == '-'
    ensures n[6] == '-' && (forall i :: 3 <= i < 6 ==> n[i] != '-') ==>
              if !Coded(Body(n)) then Check(n) == Err(InvalidCharset(Offender(Body(n))))
              else if n[15] != CheckChar(Body(n)) then Check(n) == Err(InvalidChecksum)
              else if n[7] !in {'S', 'E', 'D', 'B', 'N'} then Check(n) == Err(UnknownServiceCode(n[7]))
              else Check(n) == Ok(Awb(n))
  {
    hide CheckChar, Offender;
    var inner := n[3..];
    var k := IndexOf(inner, '-');
    if n[6] == '-' && (forall i :: 3 <= i < 6 ==> n[i] != '-') {
      assert forall j :: 0 <= j < 3 ==> inner[..3][j] == n[j + 3];
      IndexOfIs(inner, '-', 3);
    }
    if k == 3 {
      assert forall j :: 0 <= j < 3 ==> inner[..3][j] == n[j + 3];
      assert inner[..3] + inner[4..][..8] == Body(n);
      assert inner[4..][8] == n[15] && inner[4..][0] == n[7] && inner[3] == n[6];
    } else if k < 3 {
      assert n[k + 3] == '-';
    }
  }

  /** Both printed forms of a generated number parse back to it, and its parts are recovered. */
  lemma GenerateRoundTrips(tenant: TenantCode, service: ServiceCode, sequence: nat)
    requires ValidTenant(tenant) && 1 <= sequence <= 9_999_999
    ensures |Generate(tenant, service, sequence).text| == 16
    ensures var awb := Generate(tenant, service, sequence);
      && Parse(awb.text) == Ok(awb) && Parse(Compact(awb.text)) == Ok(awb)
      && Tenant(awb) == tenant.code && Service(awb) == Ok(service) && Sequence(awb) == Some(sequence)
  {
    GenerateIsWellFormed(tenant, service, sequence);
    BothFormsParse(Generate(tenant, service, sequence).text);
    ParseOfPadded(sequence, 7, MAX_U32);
    ServiceRoundTrips(service);
  }

  lemma CompactIsNormal(w: string)
    requires WellFormed(w)
    ensures Upper(Trim(Compact(w))) == Compact(w) && IsUpper(Compact(w)) && Tight(Compact(w))
  {
    WellFormedChars(w);
    CompactForm(w);
    var s := Compact(w);
    assert forall i :: 0 <= i < 14 ==> IsCode(s[i]);
    TrimOfTight(s);
    UpperOfUpper(s);
  }

  /** Different bookings never share a number. */
  lemma GenerateIsInjective(t1: TenantCode, s1: ServiceCode, n1: nat, t2: TenantCode, s2: ServiceCode, n2: nat)
    requires ValidTenant(t1) && ValidSequence(n1) && ValidTenant(t2) && ValidSequence(n2)
    requires Generate(t1, s1, n1) == Generate(t2, s2, n2)
    ensures t1 == t2 && s1 == s2 && n1 == n2
  {
    GenerateRoundTrips(t1, s1, n1);
    GenerateRoundTrips(t2, s2, n2);
  }

  /** `sequence()` is total exactly on the accepted numbers whose sequence is numeric. */
  lemma SequenceIsTotalExactly(w: string)
    requires WellFormed(w)
    ensures Sequence(Awb(w)).Some? <==> AllDigits(w[8..15])
  {
    WellFormedChars(w);
    assert w[8..15][0] == w[8];
    if AllDigits(w[8..15]) {
      ValueBelow(w[8..15]);
      assert Pow10(7) == 10_000_000;
    }
  }

  /** The parser does accept a letter sequence, on which `sequence()` panics. */
  lemma LetterSequenceIsAccepted()
    ensures var w := "CM-PH1-SAAAAAAA" + [CheckChar("PH1SAAAAAAA")];
      WellFormed(w) && Parse(w) == Ok(Awb(w)) && Sequence(Awb(w)) == None
  {
    var w := "CM-PH1-SAAAAAAA" + [CheckChar("PH1SAAAAAAA")];
    assert Body(w) == "PH1SAAAAAAA";
    BothFormsParse(w);
    SequenceIsTotalExactly(w);
    assert w[8..15][0] == 'A' && 'A' in w[8..15];
  }
}
