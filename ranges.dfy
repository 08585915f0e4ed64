/** CreditCardRange: the process-wide registry of ranges with its Luhn
    switch, and the range objects that append themselves to it. */
module CardRanges {

  import opened Wrappers
  import opened CardTypes
  import opened Text
  import opened Luhn
  import opened Numbers
  import opened Matching

  /** The static members of CreditCardRange: the `Ranges` list and the
      `UseLuhn` switch. */
  class Registry {
    var ranges: seq<CreditCardRange>
    var useLuhn: bool

    /** The static initialisers: an empty list, the switch off. */
    constructor ()
      ensures ranges == [] && !useLuhn
    {
      ranges := [];
      useLuhn := false;
    }

    /** The registered ranges' states, in registration order. */
    function States(): (rs: seq<RangeState>)
      reads this, ranges
      ensures |rs| == |ranges|
      ensures forall k | 0 <= k < |ranges| :: rs[k] == ranges[k].State()
    {
      seq(|ranges|, k reads this, ranges requires 0 <= k < |ranges| => ranges[k].State())
    }

    /** Every registered range can be asked about `number` without throwing. */
    predicate CanValidate(number: string)
      reads this, ranges
    {
      forall k | 0 <= k < |ranges| :: CanIdentify(ranges[k].State(), useLuhn, number)
    }

    /** Clear: empties the list; the switch is untouched. */
    method Clear()
      modifies this`ranges
      ensures ranges == []
    {
      ranges := [];
    }

    /** ValidateCardNumber: the issuer of the first range reporting the
        strictly greatest positive length, or Unknown. */
    method ValidateCardNumber(number: string) returns (issuer: CreditCardType)
      requires CanValidate(number)
      ensures AllIdentifiable(States(), useLuhn, number)
      ensures issuer == Classify(States(), useLuhn, number)
    {
      var rs := States();
      issuer := Unknown;
      var maxLength := 0;
      for i := 0 to |ranges|
        invariant Best(issuer, maxLength) == Scan(rs[..i], useLuhn, number)
      {
        var range := ranges[i];
        var success, length := range.LengthIdentify(this, number);
        if length > maxLength {
          maxLength := length;
          issuer := range.issuer;
        }
        assert rs[..i + 1][..i] == rs[..i];
      }
      assert rs[..|ranges|] == rs;
    }
  }

  /** One issuer range. */
  class CreditCardRange {
    var issuer: CreditCardType
    /** IssuerName; None is null. */
    var issuerName: Option<string>
    /** RangeNumbers; None until the Numbers setter first runs. */
    var rangeNumbers: Option<seq<string>>
    var lengths: seq<int>
    var rangeActive: bool
    var usesLuhn: bool

    /** The object's fields as a value. */
    function State(): RangeState
      reads this
    {
      RangeState(issuer, issuerName, rangeNumbers, lengths, rangeActive, usesLuhn)
    }

    /** The constructor: issuer Unknown (the setter leaves the name null),
        active, Luhn flag set, no lengths, no prefix list; the new range is
        appended to the registry. */
    constructor (registry: Registry)
      modifies registry
      ensures registry.ranges == old(registry.ranges) + [this]
      ensures registry.useLuhn == old(registry.useLuhn)
      ensures issuer == Unknown && issuerName == None && rangeNumbers == None
      ensures rangeActive && usesLuhn && lengths == []
    {
      issuer := Unknown;
      issuerName := None;
      rangeNumbers := None;
      rangeActive := true;
      usesLuhn := true;
      lengths := [];
      new;
      registry.ranges := registry.ranges + [this];
    }

    /** IssuerAccepted: the issuer is not Unknown. */
    predicate IssuerAccepted()
      reads this
      ensures IssuerAccepted() <==> issuer != Unknown
    {
      Matching.IssuerAccepted(State())
    }

    /** The Issuer setter: stores the value, and fills a null or blank
        IssuerName with the value's identifier unless the value is Unknown. */
    method SetIssuer(value: CreditCardType)
      modifies this`issuer, this`issuerName
      ensures issuer == value
      ensures issuerName ==
        if value != Unknown && IsNullOrWhiteSpace(old(issuerName)) then Some(Name(value))
        else old(issuerName)
      ensures value != Unknown ==> !IsNullOrWhiteSpace(issuerName)
    {
      issuer := value;
      if value != Unknown && IsNullOrWhiteSpace(issuerName) {
        var name := Name(issuer);
        assert !IsWhiteSpace(name[0]);
        issuerName := Some(name);
      }
    }

    /** The Numbers setter: replaces the prefix list by the entries of the
        comma-separated specification. The list is built locally and stored
        once complete. */
    method SetNumbers(value: string)
      modifies this`rangeNumbers
      ensures rangeNumbers == Some(ParseNumbers(value))
    {
      var numbers: seq<string> := [];
      var tokens := Split(value, ',');
      for t := 0 to |tokens|
        invariant numbers == FlatMap(ExpandToken, tokens[..t])
      {
        FlatMapStep(ExpandToken, tokens, t);
        numbers := AppendToken(numbers, tokens[t]);
      }
      assert tokens[..|tokens|] == tokens;
      rangeNumbers := Some(numbers);
    }

    /** LengthIdentify: the length of the longest prefix `number` starts
        with, forced to 0 by a length the range does not accept or, with the
        registry's switch on, a failed checksum; 0 for an inactive range. The
        flag returned is IssuerAccepted, whatever the number. */
    method LengthIdentify(registry: Registry, number: string) returns (accepted: bool, length: int)
      requires CanIdentify(State(), registry.useLuhn, number)
      ensures length == IdentifiedLength(State(), registry.useLuhn, number)
      ensures accepted == (rangeActive && IssuerAccepted())
    {
      var maxLength := 0;
      // Skip if nobody cares
      if !rangeActive {
        length := 0;
        return false, length;
      }
      // Check the possibilities
      var ps := rangeNumbers.value;
      for k := 0 to |ps|
        invariant maxLength == LongestPrefix(ps[..k], number)
      {
        assert ps[..k + 1][..k] == ps[..k];
        var num := ps[k];
        if StartsWith(number, num) && |num| > maxLength {
          maxLength := |num|;
        }
      }
      assert ps[..|ps|] == ps;
      // Validate number structure
      var bad := |number| !in lengths;
      if !bad && registry.useLuhn {
        var ok := VerifyCreditCardNumberByLuhn(number);
        bad := !ok;
      }
      if bad {
        maxLength := 0;
      }
      length := maxLength;
      accepted := IssuerAccepted();
    }
  }
}
