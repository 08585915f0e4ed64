/** The closed enumeration of card issuers, with the identifier each member's
    ToString() yields and the label of its Description attribute. */
module CardTypes {

  import opened Wrappers

  /** The members in declaration order; `Unknown` is the first and so the
      zero-valued default of the enumeration. */
  datatype CreditCardType =
    | Unknown
    | AmEx
    | Discover
    | MasterCard
    | Visa
    | Bankcard
    | ChinaUnionPay
    | DCCarteBlanche
    | DCEnRoute
    | DCInternational
    | DCUSCan
    | InterPayment
    | InstaPayment
    | JCB
    | Laser
    | Maestro
    | Dankort
    | Solo
    | Switch
    | UATP
    | Verve
    | Cardguard

  /** Number of members of the enumeration. */
  const MemberCount: nat := 22

  /** The underlying integer value of a member (its declaration position). */
  function Ordinal(t: CreditCardType): (n: nat)
    ensures n < MemberCount
    ensures n == 0 <==> t == Unknown
  {
    match t
    case Unknown => 0
    case AmEx => 1
    case Discover => 2
    case MasterCard => 3
    case Visa => 4
    case Bankcard => 5
    case ChinaUnionPay => 6
    case DCCarteBlanche => 7
    case DCEnRoute => 8
    case DCInternational => 9
    case DCUSCan => 10
    case InterPayment => 11
    case InstaPayment => 12
    case JCB => 13
    case Laser => 14
    case Maestro => 15
    case Dankort => 16
    case Solo => 17
    case Switch => 18
    case UATP => 19
    case Verve => 20
    case Cardguard => 21
  }

  /** The member whose underlying value is `n`, if there is one. */
  function FromOrdinal(n: int): (r: Option<CreditCardType>)
    ensures r.Some? <==> 0 <= n < MemberCount
  {
    if n == 0 then Some(Unknown)
    else if n == 1 then Some(AmEx)
    else if n == 2 then Some(Discover)
    else if n == 3 then Some(MasterCard)
    else if n == 4 then Some(Visa)
    else if n == 5 then Some(Bankcard)
    else if n == 6 then Some(ChinaUnionPay)
    else if n == 7 then Some(DCCarteBlanche)
    else if n == 8 then Some(DCEnRoute)
    else if n == 9 then Some(DCInternational)
    else if n == 10 then Some(DCUSCan)
    else if n == 11 then Some(InterPayment)
    else if n == 12 then Some(InstaPayment)
    else if n == 13 then Some(JCB)
    else if n == 14 then Some(Laser)
    else if n == 15 then Some(Maestro)
    else if n == 16 then Some(Dankort)
    else if n == 17 then Some(Solo)
    else if n == 18 then Some(Switch)
    else if n == 19 then Some(UATP)
    else if n == 20 then Some(Verve)
    else if n == 21 then Some(Cardguard)
    else None
  }

  /** The identifier of a member, as Enum.ToString() renders it: a C#
      identifier that starts with a capital letter, so never blank. */
  function Name(t: CreditCardType): (r: string)
    ensures |r| > 0 && 'A' <= r[0] <= 'Z'
  {
    match t
    case Unknown => "Unknown"
    case AmEx => "AmEx"
    case Discover => "Discover"
    case MasterCard => "MasterCard"
    case Visa => "Visa"
    case Bankcard => "Bankcard"
    case ChinaUnionPay => "ChinaUnionPay"
    case DCCarteBlanche => "DCCarteBlanche"
    case DCEnRoute => "DCEnRoute"
    case DCInternational => "DCInternational"
    case DCUSCan => "DCUSCan"
    case InterPayment => "InterPayment"
    case InstaPayment => "InstaPayment"
    case JCB => "JCB"
    case Laser => "Laser"
    case Maestro => "Maestro"
    case Dankort => "Dankort"
    case Solo => "Solo"
    case Switch => "Switch"
    case UATP => "UATP"
    case Verve => "Verve"
    case Cardguard => "Cardguard"
  }

  /** The label of a member's Description attribute, which starts with a
      capital letter. */
  function Description(t: CreditCardType): (r: string)
    ensures |r| > 0 && 'A' <= r[0] <= 'Z'
  {
    match t
    case Unknown => "Unknown Issuer"
    case AmEx => "American Express"
    case Discover => "Discover Card"
    case MasterCard => "MasterCard"
    case Visa => "Visa"
    case Bankcard => "Bankcard"
    case ChinaUnionPay => "China Union Pay"
    case DCCarteBlanche => "Diners Club Carte Blanche"
    case DCEnRoute => "Diners Club enRoute"
    case DCInternational => "Diners Club International"
    case DCUSCan => "Diners Club US and Canada"
    case InterPayment => "InterPayment"
    case InstaPayment => "InstaPayment"
    case JCB => "JCB"
    case Laser => "Laser"
    case Maestro => "Maestro"
    case Dankort => "Dankort"
    case Solo => "Solo"
    case Switch => "Switch"
    case UATP => "UATP"
    case Verve => "Verve"
    case Cardguard => "Cardguard EAD BG ILS"
  }

  /** The member whose Description label is `s`, if there is one: the
      attribute lookup over the members in declaration order. */
  function FromDescription(s: string): (r: Option<CreditCardType>)
    ensures r.Some? ==> Description(r.value) == s
  {
    FindLabel(s, 0)
  }

  /** The first member from underlying value `n` on whose label is `s`. */
  function FindLabel(s: string, n: nat): (r: Option<CreditCardType>)
    requires n <= MemberCount
    ensures r.Some? ==> Description(r.value) == s && n <= Ordinal(r.value)
    decreases MemberCount - n
  {
    if n == MemberCount then None
    else
      var t := FromOrdinal(n).value;
      OrdinalRoundTrip(t, n);
      if Description(t) == s then Some(t) else FindLabel(s, n + 1)
  }

  /** The underlying values 0..21 number the members one to one. */
  lemma OrdinalRoundTrip(t: CreditCardType, n: int)
    ensures FromOrdinal(Ordinal(t)) == Some(t)
    ensures 0 <= n < MemberCount ==> Ordinal(FromOrdinal(n).value) == n
  {
  }

  /** The lookup finds every member by its label. */
  lemma DescriptionRoundTrip(t: CreditCardType)
    ensures FromDescription(Description(t)) == Some(t)
  {
    FindLabelFinds(t, 0);
  }

  /** Searching from a value at or below t's finds t: no member before it
      has t's label. */
  lemma {:induction false} FindLabelFinds(t: CreditCardType, n: nat)
    requires n <= Ordinal(t)
    ensures FindLabel(Description(t), n) == Some(t)
    decreases Ordinal(t) - n
  {
    var u := FromOrdinal(n).value;
    OrdinalRoundTrip(u, n);
    OrdinalRoundTrip(t, n);
    if n < Ordinal(t) {
      DescriptionInjective(u, t);
      FindLabelFinds(t, n + 1);
    }
  }

  /** No two members share a Description label. */
  lemma DescriptionInjective(a: CreditCardType, b: CreditCardType)
    ensures Description(a) == Description(b) ==> a == b
  {
  }

  /** The identifier used to fill IssuerName can differ from the label. */
  lemma NameDiffersFromDescription()
    ensures Name(DCEnRoute) == "DCEnRoute" && Description(DCEnRoute) == "Diners Club enRoute"
    ensures Name(DCEnRoute) != Description(DCEnRoute)
    ensures Description(Unknown) == "Unknown Issuer" && Description(AmEx) == "American Express"
  {
  }
}
