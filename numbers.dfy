/** What the Numbers setter stores: the prefix list denoted by a
    comma-separated specification of prefixes and `low-high` ranges. */
module Numbers {

  import opened Text

  /** The decimal strings of low, low+1, ..., high, in ascending order
      (empty when high < low). */
  function Decimals(low: nat, high: int): (r: seq<string>)
    ensures |r| == if high < low then 0 else high - low + 1
    ensures forall k | 0 <= k < |r| :: r[k] == Decimal(low + k)
    decreases high - low
  {
    if high < low then [] else Decimals(low, high - 1) + [Decimal(high)]
  }

  /** The entries one comma-separated token contributes. The token is
      trimmed and split at every hyphen. Without a hyphen it is kept as it
      is. Otherwise only the first two pieces count, each read by
      int.TryParse (0 when unreadable); a reversed pair contributes nothing. */
  function ExpandToken(token: string): (r: seq<string>)
    ensures '-' !in Trim(token) ==> r == [Trim(token)]
    ensures '-' in Trim(token) ==> forall k | 0 <= k < |r| :: AllDigits(r[k])
  {
    ExpandPieces(Split(Trim(token), '-'))
  }

  /** The entries given by the hyphen-separated pieces of a trimmed token. */
  function ExpandPieces(extremes: seq<string>): seq<string>
    requires |extremes| >= 1
    requires forall i | 0 <= i < |extremes| :: '-' !in extremes[i]
  {
    if |extremes| == 1 then [extremes[0]]
    else
      var low, high := TryParse(extremes[0]), TryParse(extremes[1]);
      if low > high then [] else Decimals(low, high)
  }

  /** The entries of each token in turn, concatenated. */
  function FlatMap<T>(f: T -> seq<string>, tokens: seq<T>): seq<string>
  {
    if tokens == [] then []
    else FlatMap(f, tokens[..|tokens| - 1]) + f(tokens[|tokens| - 1])
  }

  /** The prefix list the Numbers setter leaves behind. No entry holds the
      separator comma. */
  function ParseNumbers(value: string): (r: seq<string>)
    ensures forall k | 0 <= k < |r| :: ',' !in r[k]
  {
    var tokens := Split(value, ',');
    CommaFreeEntries(tokens, |tokens|);
    assert tokens[..|tokens|] == tokens;
    FlatMap(ExpandToken, tokens)
  }

  /** The entries of comma-free tokens are comma-free. */
  lemma {:induction false} CommaFreeEntries(tokens: seq<string>, t: nat)
    requires t <= |tokens|
    requires forall i | 0 <= i < |tokens| :: ',' !in tokens[i]
    ensures forall k | 0 <= k < |FlatMap(ExpandToken, tokens[..t])| ::
              ',' !in FlatMap(ExpandToken, tokens[..t])[k]
  {
    if t > 0 {
      CommaFreeEntries(tokens, t - 1);
      FlatMapStep(ExpandToken, tokens, t - 1);
      TokenCommaFree(tokens[t - 1]);
    }
  }

  /** A comma-free token yields comma-free entries. */
  lemma TokenCommaFree(token: string)
    requires ',' !in token
    ensures forall k | 0 <= k < |ExpandToken(token)| :: ',' !in ExpandToken(token)[k]
  {
    var e := ExpandToken(token);
    forall k | 0 <= k < |e|
      ensures ',' !in e[k]
    {
      if '-' in Trim(token) {
        assert AllDigits(e[k]);
      } else {
        assert e[k] == Trim(token);
      }
    }
  }

  /** The body of the Numbers setter's loop: the entries of one token are
      appended to the list built so far. */
  method AppendToken(before: seq<string>, token: string) returns (numbers: seq<string>)
    ensures numbers == before + ExpandToken(token)
  {
    numbers := before;
    var extremes := Split(Trim(token), '-');
    assert ExpandToken(token) == ExpandPieces(extremes);
    if |extremes| == 1 {
      // Not a range
      numbers := numbers + [extremes[0]];
      return;
    }
    var low := TryParse(extremes[0]);
    var high := TryParse(extremes[1]);
    if low > high {
      // Malformed range
      return;
    }
    assert ExpandPieces(extremes) == Decimals(low, high);
    numbers := AppendRange(numbers, low, high);
  }

  /** The setter's inner loop: low, low+1, ..., high appended one at a time. */
  method AppendRange(before: seq<string>, low: nat, high: int) returns (numbers: seq<string>)
    ensures numbers == before + Decimals(low, high)
  {
    numbers := before;
    var i := low;
    while i <= high
      invariant low <= i
      invariant i <= high + 1 || i == low
      invariant numbers == before + Decimals(low, i - 1)
    {
      numbers := numbers + [Decimal(i)];
      i := i + 1;
    }
    assert high < low ==> Decimals(low, high) == [] && i == low;
  }

  lemma {:induction false} FlatMapConcat<T>(f: T -> seq<string>, a: seq<T>, b: seq<T>)
    ensures FlatMap(f, a + b) == FlatMap(f, a) + FlatMap(f, b)
    decreases |b|
  {
    if b == [] {
      assert a + b == a;
    } else {
      var b' := b[..|b| - 1];
      var ab := a + b;
      assert ab[..|ab| - 1] == a + b';
      assert ab[|ab| - 1] == b[|b| - 1];
      FlatMapConcat(f, a, b');
    }
  }

  /** One more token: the entries of the first t+1 tokens are those of the
      first t followed by the entries of token t. */
  lemma FlatMapStep<T>(f: T -> seq<string>, tokens: seq<T>, t: nat)
    requires t < |tokens|
    ensures FlatMap(f, tokens[..t + 1]) == FlatMap(f, tokens[..t]) + f(tokens[t])
  {
    assert tokens[..t + 1][..t] == tokens[..t];
  }

  /** Tokens do not affect each other: the entries of `a,b` are those of `a`
      followed by those of `b`. */
  lemma ParseNumbersConcat(a: string, b: string)
    ensures ParseNumbers(a + "," + b) == ParseNumbers(a) + ParseNumbers(b)
  {
    assert a + "," + b == a + [','] + b;
    SplitConcat(a, b, ',');
    FlatMapConcat(ExpandToken, Split(a, ','), Split(b, ','));
  }

  /** A specification without commas is a single token. */
  lemma ParseSingleToken(token: string)
    requires ',' !in token
    ensures ParseNumbers(token) == ExpandToken(token)
  {
    assert Split(token, ',') == [token];
    var ts := [token];
    assert ts[..0] == [] && ts[0] == token;
    assert FlatMap(ExpandToken, ts) == FlatMap(ExpandToken, ts[..0]) + ExpandToken(ts[0]);
  }

  /** A hyphen-free token contributes itself, trimmed. */
  lemma PlainToken(token: string)
    requires '-' !in token
    ensures ExpandToken(token) == [Trim(token)]
  {
  }

  /** A token `a-b...` contributes low..high, read from its first two pieces,
      when low <= high, and nothing otherwise. */
  lemma RangeToken(token: string, a: string, b: string, rest: string)
    requires '-' !in a && '-' !in b
    requires Trim(token) == a + "-" + b + rest
    requires rest == [] || rest[0] == '-'
    ensures var low, high := TryParse(a), TryParse(b);
            ExpandToken(token) == if low > high then [] else Decimals(low, high)
  {
    var e := Split(Trim(token), '-');
    SplitPieces(a, b, rest);
    assert ExpandToken(token) == ExpandPieces(e);
    var low, high := TryParse(a), TryParse(b);
    assert ExpandPieces(e) == if low > high then [] else Decimals(low, high);
  }

  /** The first two pieces of `a-b` followed by a hyphen-led rest. */
  lemma SplitPieces(a: string, b: string, rest: string)
    requires '-' !in a && '-' !in b
    requires rest == [] || rest[0] == '-'
    ensures var e := Split(a + "-" + b + rest, '-');
            |e| > 1 && e[0] == a && e[1] == b
  {
    var t := a + "-" + b + rest;
    assert Split(a, '-') == [a] && Split(b, '-') == [b];
    if rest == [] {
      assert t == a + ['-'] + b;
      SplitConcat(a, b, '-');
    } else {
      var r := rest[1..];
      assert rest == ['-'] + r;
      assert t == a + ['-'] + (b + ['-'] + r);
      SplitConcat(a, b + ['-'] + r, '-');
      SplitConcat(b, r, '-');
    }
  }

  /** A printed value has no hyphen and does not end in white space. */
  lemma DecimalShape(n: nat)
    ensures '-' !in Decimal(n)
    ensures !IsWhiteSpace(Decimal(n)[0]) && !IsWhiteSpace(Decimal(n)[|Decimal(n)| - 1])
  {
    var d := Decimal(n);
    assert forall i | 0 <= i < |d| :: IsDigit(d[i]);
  }

  /** `abc-5`: an unreadable low end is read as 0, so a token `a-n` whose
      `a` does not parse gives 0..n. */
  lemma UnreadableLowReadsAsZero(a: string, n: nat)
    requires '-' !in a && |a| > 0
    requires !IsWhiteSpace(a[0]) && !IsDigit(a[0]) && a[0] != '+'
    requires !IsNumberWhite(a[|a| - 1])
    requires n <= MaxInt32
    ensures ExpandToken(a + "-" + Decimal(n)) == Decimals(0, n)
  {
    var b := Decimal(n);
    var token := a + "-" + b;
    DecimalShape(n);
    WhiteSpaceClasses(a[0]);
    TryParseNonNumeric(a);
    TryParseDecimal(n);
    assert token[0] == a[0] && token[|token| - 1] == b[|b| - 1];
    StripUntouched(token, IsWhiteSpace);
    assert Trim(token) == a + "-" + b + "";
    RangeToken(token, a, b, "");
  }

  /** `5-abc`: an unreadable high end is read as 0, so a token `n-b` with
      n > 0 whose `b` does not parse is a reversed pair and gives nothing. */
  lemma UnreadableHighDropsToken(n: nat, b: string)
    requires 0 < n <= MaxInt32
    requires '-' !in b && |b| > 0
    requires !IsNumberWhite(b[0]) && !IsDigit(b[0]) && b[0] != '+'
    requires !IsWhiteSpace(b[|b| - 1])
    ensures ExpandToken(Decimal(n) + "-" + b) == []
  {
    var a := Decimal(n);
    var token := a + "-" + b;
    DecimalShape(n);
    WhiteSpaceClasses(b[|b| - 1]);
    TryParseNonNumeric(b);
    TryParseDecimal(n);
    assert token[0] == a[0] && token[|token| - 1] == b[|b| - 1];
    StripUntouched(token, IsWhiteSpace);
    assert Trim(token) == a + "-" + b + "";
    RangeToken(token, a, b, "");
  }

  /** `n-n`: a range with equal ends contributes the one entry n. */
  lemma SingleValueToken(n: nat)
    requires n <= MaxInt32
    ensures ExpandToken(Decimal(n) + "-" + Decimal(n)) == [Decimal(n)]
  {
    var d := Decimal(n);
    var token := d + "-" + d;
    DecimalShape(n);
    TryParseDecimal(n);
    assert token[0] == d[0] && token[|token| - 1] == d[|d| - 1];
    StripUntouched(token, IsWhiteSpace);
    RangeToken(token, d, d, "");
  }

  /** `1-3-9`: pieces after the second are ignored, so `m-n-rest` gives
      what `m-n` gives. */
  lemma ExtraPiecesIgnored(m: nat, n: nat, rest: string)
    requires m <= MaxInt32 && n <= MaxInt32
    requires rest == [] || !IsWhiteSpace(rest[|rest| - 1])
    ensures ExpandToken(Decimal(m) + "-" + Decimal(n) + "-" + rest)
         == if m > n then [] else Decimals(m, n)
  {
    var a, b := Decimal(m), Decimal(n);
    var token := a + "-" + b + ("-" + rest);
    assert token == a + "-" + b + "-" + rest;
    DecimalShape(m);
    DecimalShape(n);
    TryParseDecimal(m);
    TryParseDecimal(n);
    assert token[0] == a[0];
    assert token[|token| - 1] == if rest == [] then '-' else rest[|rest| - 1];
    StripUntouched(token, IsWhiteSpace);
    RangeToken(token, a, b, "-" + rest);
  }
}
