/** The matcher as pure functions over a snapshot of each range:
    LengthIdentify's longest-prefix match with its length and checksum gate,
    and ValidateCardNumber's scan over the registry. */
module Matching {

  import opened Wrappers
  import opened CardTypes
  import opened Text
  import opened Luhn

  /** The state of one CreditCardRange object. `prefixes` is None while the
      Numbers setter has never run (the list is still null). */
  datatype RangeState = RangeState(
    issuer: CreditCardType,
    issuerName: Option<string>,
    prefixes: Option<seq<string>>,
    lengths: seq<int>,
    active: bool,
    usesLuhn: bool)

  /** `m` is the length of the longest entry of `ps` that `number` starts
      with, and 0 when none does. */
  ghost predicate IsLongestMatch(ps: seq<string>, number: string, m: nat)
  {
    (forall i | 0 <= i < |ps| :: StartsWith(number, ps[i]) ==> |ps[i]| <= m) &&
    (m == 0 || exists i | 0 <= i < |ps| :: StartsWith(number, ps[i]) && |ps[i]| == m)
  }

  /** The `maxLength` LengthIdentify's loop holds after visiting `ps`. */
  function LongestPrefix(ps: seq<string>, number: string): (m: nat)
    ensures IsLongestMatch(ps, number, m)
    ensures m <= |number|
  {
    if ps == [] then 0
    else
      var m := LongestPrefix(ps[..|ps| - 1], number);
      var p := ps[|ps| - 1];
      if StartsWith(number, p) && |p| > m then |p| else m
  }

  /** LengthIdentify does not throw: the prefix list of an active range has
      been set, and the checksum is never asked of an empty number. */
  predicate CanIdentify(r: RangeState, useLuhn: bool, number: string)
  {
    r.active ==> r.prefixes.Some? && (useLuhn && |number| in r.lengths ==> |number| > 0)
  }

  /** The number's length is accepted and, when the global switch is on,
      its checksum passes. */
  predicate WellFormed(r: RangeState, useLuhn: bool, number: string)
    requires useLuhn && |number| in r.lengths ==> |number| > 0
  {
    |number| in r.lengths && (!useLuhn || LuhnPasses(number))
  }

  /** The length LengthIdentify reports. */
  function IdentifiedLength(r: RangeState, useLuhn: bool, number: string): nat
    requires CanIdentify(r, useLuhn, number)
  {
    if !r.active then 0
    else if !WellFormed(r, useLuhn, number) then 0
    else LongestPrefix(r.prefixes.value, number)
  }

  /** The flag LengthIdentify returns: the IssuerAccepted property. */
  predicate IssuerAccepted(r: RangeState)
  {
    r.issuer != Unknown
  }

  /** The reported length is 0 for an inactive range, for a number of a
      length the range does not accept and, with the global switch on, for a
      number that fails the checksum; otherwise it is the longest matching
      prefix. The per-range `usesLuhn` plays no part. */
  lemma IdentifiedLengthSpec(r: RangeState, useLuhn: bool, number: string, b: bool)
    requires CanIdentify(r, useLuhn, number)
    ensures var m := IdentifiedLength(r, useLuhn, number);
            && m <= |number|
            && (!r.active ==> m == 0)
            && (r.active && |number| !in r.lengths ==> m == 0)
            && (r.active && useLuhn && |number| in r.lengths && !LuhnPasses(number) ==> m == 0)
            && (r.active && WellFormed(r, useLuhn, number) ==> IsLongestMatch(r.prefixes.value, number, m))
            && m == IdentifiedLength(r.(usesLuhn := b), useLuhn, number)
  {
  }

  /** The best (issuer, length) pair of ValidateCardNumber's loop. */
  datatype Best = Best(issuer: CreditCardType, length: nat)

  predicate AllIdentifiable(rs: seq<RangeState>, useLuhn: bool, number: string)
  {
    forall k | 0 <= k < |rs| :: CanIdentify(rs[k], useLuhn, number)
  }

  /** The pair the loop holds after visiting `rs`, starting from `start`:
      a range replaces the current best only with a strictly greater length. */
  function ScanFrom(start: Best, rs: seq<RangeState>, useLuhn: bool, number: string): Best
    requires AllIdentifiable(rs, useLuhn, number)
  {
    if rs == [] then start
    else
      var rs' := rs[..|rs| - 1];
      assert forall j | 0 <= j < |rs'| :: rs'[j] == rs[j];
      var b := ScanFrom(start, rs', useLuhn, number);
      var last := rs[|rs| - 1];
      var m := IdentifiedLength(last, useLuhn, number);
      if m > b.length then Best(last.issuer, m) else b
  }

  /** The pair after visiting the whole registry from (Unknown, 0). */
  function Scan(rs: seq<RangeState>, useLuhn: bool, number: string): Best
    requires AllIdentifiable(rs, useLuhn, number)
  {
    ScanFrom(Best(Unknown, 0), rs, useLuhn, number)
  }

  /** The scan finds the greatest reported length, and the issuer of the
      first range reporting it; Unknown when every length is 0. */
  lemma {:induction false} ScanIsFirstLongest(rs: seq<RangeState>, useLuhn: bool, number: string)
    requires AllIdentifiable(rs, useLuhn, number)
    ensures var b := Scan(rs, useLuhn, number);
      && (forall j | 0 <= j < |rs| :: IdentifiedLength(rs[j], useLuhn, number) <= b.length)
      && (b.length == 0 ==> b.issuer == Unknown)
      && (b.length > 0 ==>
        exists k | 0 <= k < |rs| ::
          && IdentifiedLength(rs[k], useLuhn, number) == b.length
          && (forall j | 0 <= j < k :: IdentifiedLength(rs[j], useLuhn, number) < b.length)
          && b.issuer == rs[k].issuer)
    decreases |rs|
  {
    if rs != [] {
      var rs' := rs[..|rs| - 1];
      assert forall j | 0 <= j < |rs'| :: rs'[j] == rs[j];
      ScanIsFirstLongest(rs', useLuhn, number);
      var b' := Scan(rs', useLuhn, number);
      var last := rs[|rs| - 1];
      var m := IdentifiedLength(last, useLuhn, number);
      if m > b'.length {
        assert Scan(rs, useLuhn, number) == Best(last.issuer, m);
        assert forall j | 0 <= j < |rs| - 1 :: IdentifiedLength(rs[j], useLuhn, number) < m;
        assert IdentifiedLength(rs[|rs| - 1], useLuhn, number) == m;
      } else {
        assert Scan(rs, useLuhn, number) == b';
        assert IdentifiedLength(rs[|rs| - 1], useLuhn, number) <= b'.length;
        if b'.length > 0 {
          var k :| 0 <= k < |rs'| && IdentifiedLength(rs'[k], useLuhn, number) == b'.length
            && (forall j | 0 <= j < k :: IdentifiedLength(rs'[j], useLuhn, number) < b'.length)
            && b'.issuer == rs'[k].issuer;
          assert IdentifiedLength(rs[k], useLuhn, number) == b'.length && b'.issuer == rs[k].issuer;
          assert forall j | 0 <= j < k :: IdentifiedLength(rs[j], useLuhn, number) < b'.length;
        }
      }
    }
  }

  /** ValidateCardNumber's result. */
  function Classify(rs: seq<RangeState>, useLuhn: bool, number: string): CreditCardType
    requires AllIdentifiable(rs, useLuhn, number)
  {
    Scan(rs, useLuhn, number).issuer
  }

  /** The result is the issuer of the first range that attains the strictly
      greatest positive length. */
  lemma ClassifyFirstLongest(rs: seq<RangeState>, useLuhn: bool, number: string, k: nat)
    requires AllIdentifiable(rs, useLuhn, number)
    requires k < |rs|
    requires IdentifiedLength(rs[k], useLuhn, number) > 0
    requires forall j | 0 <= j < k ::
      IdentifiedLength(rs[j], useLuhn, number) < IdentifiedLength(rs[k], useLuhn, number)
    requires forall j | k < j < |rs| ::
      IdentifiedLength(rs[j], useLuhn, number) <= IdentifiedLength(rs[k], useLuhn, number)
    ensures Classify(rs, useLuhn, number) == rs[k].issuer
  {
    ScanIsFirstLongest(rs, useLuhn, number);
    var b := Scan(rs, useLuhn, number);
    var m := IdentifiedLength(rs[k], useLuhn, number);
    assert b.length == m;
    var w :| 0 <= w < |rs| && IdentifiedLength(rs[w], useLuhn, number) == b.length
          && (forall j | 0 <= j < w :: IdentifiedLength(rs[j], useLuhn, number) < b.length)
          && b.issuer == rs[w].issuer;
  }

  /** When no range reports a positive length the result is Unknown; in
      particular an empty registry, as after Clear, classifies nothing. */
  lemma ClassifyNoMatch(rs: seq<RangeState>, useLuhn: bool, number: string)
    requires AllIdentifiable(rs, useLuhn, number)
    requires forall j | 0 <= j < |rs| :: IdentifiedLength(rs[j], useLuhn, number) == 0
    ensures Classify(rs, useLuhn, number) == Unknown
  {
    ScanIsFirstLongest(rs, useLuhn, number);
    var b := Scan(rs, useLuhn, number);
    assert b.length == 0;
  }

  /** The length reported by an active range with the single prefix `p`
      for a well-formed number starting with it. */
  lemma SinglePrefixLength(r: RangeState, useLuhn: bool, number: string, p: string)
    requires r.active && r.prefixes == Some([p])
    requires CanIdentify(r, useLuhn, number) && WellFormed(r, useLuhn, number)
    requires StartsWith(number, p)
    ensures IdentifiedLength(r, useLuhn, number) == |p|
  {
    assert [p][..0] == [];
  }

  /** Longest-prefix precedence: of two ranges whose prefixes `p` and `q`
      both begin the number, the one with the longer prefix wins, in either
      registration order (prefix "51" over "5"). */
  lemma LongerPrefixWins(shorter: RangeState, longer: RangeState, useLuhn: bool,
                         number: string, p: string, q: string)
    requires shorter.active && shorter.prefixes == Some([p])
    requires longer.active && longer.prefixes == Some([q])
    requires |number| in shorter.lengths && |number| in longer.lengths
    requires |number| > 0 && (useLuhn ==> LuhnPasses(number))
    requires p <= q && |p| < |q| && StartsWith(number, q)
    ensures AllIdentifiable([shorter, longer], useLuhn, number)
    ensures AllIdentifiable([longer, shorter], useLuhn, number)
    ensures Classify([shorter, longer], useLuhn, number) == longer.issuer
    ensures Classify([longer, shorter], useLuhn, number) == longer.issuer
  {
    assert StartsWith(number, p);
    SinglePrefixLength(shorter, useLuhn, number, p);
    SinglePrefixLength(longer, useLuhn, number, q);
    ClassifyFirstLongest([shorter, longer], useLuhn, number, 1);
    ClassifyFirstLongest([longer, shorter], useLuhn, number, 0);
  }

  /** A strictly longer match by a range whose issuer is Unknown makes the
      result Unknown, whatever the other ranges match. */
  lemma UnknownIssuerShadows(rs: seq<RangeState>, useLuhn: bool, number: string, k: nat)
    requires AllIdentifiable(rs, useLuhn, number)
    requires k < |rs| && rs[k].issuer == Unknown
    requires IdentifiedLength(rs[k], useLuhn, number) > 0
    requires forall j | 0 <= j < |rs| && j != k ::
      IdentifiedLength(rs[j], useLuhn, number) < IdentifiedLength(rs[k], useLuhn, number)
    ensures Classify(rs, useLuhn, number) == Unknown
  {
    ClassifyFirstLongest(rs, useLuhn, number, k);
  }

  lemma {:induction false} ScanConcat(a: seq<RangeState>, b: seq<RangeState>, useLuhn: bool, number: string)
    requires AllIdentifiable(a + b, useLuhn, number)
    ensures AllIdentifiable(a, useLuhn, number) && AllIdentifiable(b, useLuhn, number)
    ensures forall start: Best :: ScanFrom(start, a + b, useLuhn, number)
                               == ScanFrom(ScanFrom(start, a, useLuhn, number), b, useLuhn, number)
    decreases |b|
  {
    assert forall j | 0 <= j < |a| :: a[j] == (a + b)[j];
    assert forall j | 0 <= j < |b| :: b[j] == (a + b)[|a| + j];
    if b != [] {
      var b' := b[..|b| - 1];
      var ab := a + b;
      assert ab[..|ab| - 1] == a + b';
      assert ab[|ab| - 1] == b[|b| - 1];
      ScanConcat(a, b', useLuhn, number);
    } else {
      assert a + b == a;
    }
  }

  /** A range that reports length 0 can be taken out of the registry without
      changing any result: inactive ranges, and ranges not accepting the
      number's length, never contribute. */
  lemma ZeroLengthIgnored(rs: seq<RangeState>, useLuhn: bool, number: string, k: nat)
    requires AllIdentifiable(rs, useLuhn, number)
    requires k < |rs| && IdentifiedLength(rs[k], useLuhn, number) == 0
    ensures AllIdentifiable(rs[..k] + rs[k + 1..], useLuhn, number)
    ensures Classify(rs, useLuhn, number) == Classify(rs[..k] + rs[k + 1..], useLuhn, number)
  {
    var a, x, c := rs[..k], rs[k], rs[k + 1..];
    assert rs == (a + [x]) + c;
    ScanConcat(a + [x], c, useLuhn, number);
    ScanConcat(a, c, useLuhn, number);
    var ax := a + [x];
    assert ax[..|ax| - 1] == a;
    assert ScanFrom(Best(Unknown, 0), a + [x], useLuhn, number) == Scan(a, useLuhn, number);
  }

  /** Inactive ranges never match. */
  lemma InactiveIgnored(rs: seq<RangeState>, useLuhn: bool, number: string, k: nat)
    requires AllIdentifiable(rs, useLuhn, number)
    requires k < |rs| && !rs[k].active
    ensures AllIdentifiable(rs[..k] + rs[k + 1..], useLuhn, number)
    ensures Classify(rs, useLuhn, number) == Classify(rs[..k] + rs[k + 1..], useLuhn, number)
  {
    ZeroLengthIgnored(rs, useLuhn, number, k);
  }

  /** With the global switch on, a number that fails the checksum is Unknown. */
  lemma BadChecksumIsUnknown(rs: seq<RangeState>, number: string)
    requires AllIdentifiable(rs, true, number)
    requires |number| > 0 && !LuhnPasses(number)
    ensures Classify(rs, true, number) == Unknown
  {
    forall j | 0 <= j < |rs| ensures IdentifiedLength(rs[j], true, number) == 0 {
    }
    ClassifyNoMatch(rs, true, number);
  }

  /** A number that passes the checksum is classified the same with the
      switch on or off. */
  lemma {:induction false} GoodChecksumUnaffected(rs: seq<RangeState>, number: string)
    requires AllIdentifiable(rs, true, number)
    requires |number| > 0 && LuhnPasses(number)
    ensures AllIdentifiable(rs, false, number)
    ensures Scan(rs, true, number) == Scan(rs, false, number)
    decreases |rs|
  {
    if rs != [] {
      var rs' := rs[..|rs| - 1];
      assert forall j | 0 <= j < |rs'| :: rs'[j] == rs[j];
      GoodChecksumUnaffected(rs', number);
      var last := rs[|rs| - 1];
      assert IdentifiedLength(last, true, number) == IdentifiedLength(last, false, number);
    }
  }
}
