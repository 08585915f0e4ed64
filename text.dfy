/** The .NET string and integer primitives that the range parser and the
    matcher rely on: char.IsWhiteSpace, String.Trim, String.Split(char),
    String.IsNullOrWhiteSpace, String.StartsWith, int.TryParse and
    Int32.ToString() of a non-negative value. */
module Text {

  import opened Wrappers

  const MaxInt32: int := 0x7FFF_FFFF
  const MinInt32: int := -0x8000_0000

  /** char.IsWhiteSpace: the characters of Unicode categories Zs, Zl and Zp,
      the controls U+0009..U+000D, and U+0085. */
  predicate IsWhiteSpace(c: char)
  {
    var n := c as int;
    (0x09 <= n <= 0x0D) || n == 0x20 || n == 0x85 || n == 0xA0 || n == 0x1680 ||
    (0x2000 <= n <= 0x200A) || n == 0x2028 || n == 0x2029 || n == 0x202F ||
    n == 0x205F || n == 0x3000
  }

  /** The white space that int.TryParse skips before and after a number:
      U+0009..U+000D and U+0020. */
  predicate IsNumberWhite(c: char)
  {
    c == ' ' || '\t' <= c <= '\r'
  }

  /** char.IsWhiteSpace includes the white space int.TryParse skips, and no
      digit, sign or separator of a prefix specification. */
  lemma WhiteSpaceClasses(c: char)
    ensures IsNumberWhite(c) ==> IsWhiteSpace(c)
    ensures IsWhiteSpace(c) ==> !IsDigit(c) && c != '-' && c != '+' && c != ','
  {
  }

  predicate IsDigit(c: char)
  {
    '0' <= c <= '9'
  }

  predicate AllDigits(s: string)
  {
    forall i | 0 <= i < |s| :: IsDigit(s[i])
  }

  function DigitValue(c: char): (d: nat)
    requires IsDigit(c)
    ensures d < 10
  {
    (c as int) - ('0' as int)
  }

  function DigitChar(d: nat): (c: char)
    requires d < 10
    ensures IsDigit(c) && DigitValue(c) == d
  {
    ('0' as int + d) as char
  }

  /** The value of a string of decimal digits, most significant first. */
  function DigitsValue(s: string): nat
    requires AllDigits(s)
  {
    if s == [] then 0 else DigitsValue(s[..|s| - 1]) * 10 + DigitValue(s[|s| - 1])
  }

  /** Int32.ToString() of a non-negative value: its decimal digits, without
      leading zeros. */
  function Decimal(n: nat): (r: string)
    ensures |r| > 0 && AllDigits(r) && DigitsValue(r) == n
    ensures r[0] == '0' ==> r == "0"
  {
    if n < 10 then [DigitChar(n)]
    else
      var r := Decimal(n / 10) + [DigitChar(n % 10)];
      assert r[..|r| - 1] == Decimal(n / 10);
      r
  }

  /** Different values print differently. */
  lemma DecimalInjective(m: nat, n: nat)
    ensures Decimal(m) == Decimal(n) ==> m == n
  {
  }

  /** Number of leading characters of `s` that `white` accepts. */
  function LeadingCount(s: string, white: char -> bool): (k: nat)
    ensures k <= |s|
    ensures forall i | 0 <= i < k :: white(s[i])
    ensures k < |s| ==> !white(s[k])
  {
    if s == [] || !white(s[0]) then 0 else 1 + LeadingCount(s[1..], white)
  }

  /** Number of trailing characters of `s` that `white` accepts. */
  function TrailingCount(s: string, white: char -> bool): (k: nat)
    ensures k <= |s|
    ensures forall i | |s| - k <= i < |s| :: white(s[i])
    ensures k < |s| ==> !white(s[|s| - 1 - k])
  {
    if s == [] || !white(s[|s| - 1]) then 0 else 1 + TrailingCount(s[..|s| - 1], white)
  }

  /** `s` without its leading and trailing `white` characters. */
  function Strip(s: string, white: char -> bool): (r: string)
    ensures |r| <= |s|
    ensures r == [] || (!white(r[0]) && !white(r[|r| - 1]))
    ensures forall c :: c in r ==> c in s
    ensures (forall i | 0 <= i < |s| :: white(s[i])) ==> r == []
  {
    var t := s[LeadingCount(s, white)..];
    t[..|t| - TrailingCount(t, white)]
  }

  /** What Strip removes is white: the result is the contiguous slice of `s`
      that starts after its leading `white` characters, and only `white`
      characters follow it. */
  lemma StripIsSlice(s: string, white: char -> bool)
    ensures var k, r := LeadingCount(s, white), Strip(s, white);
            && k + |r| <= |s|
            && r == s[k..k + |r|]
            && (forall i | 0 <= i < k :: white(s[i]))
            && (forall i | k + |r| <= i < |s| :: white(s[i]))
  {
    var k := LeadingCount(s, white);
    var t := s[k..];
    var m := TrailingCount(t, white);
    var r := t[..|t| - m];
    assert Strip(s, white) == r;
    assert r == s[k..k + |r|];
    forall i | k + |r| <= i < |s|
      ensures white(s[i])
    {
      assert s[i] == t[i - k];
    }
  }

  /** Stripping changes nothing when neither end is white. */
  lemma StripUntouched(s: string, white: char -> bool)
    requires s == [] || (!white(s[0]) && !white(s[|s| - 1]))
    ensures Strip(s, white) == s
  {
  }

  /** String.Trim(): the input without its leading and trailing white
      space. */
  function Trim(s: string): (r: string)
    ensures r == [] || (!IsWhiteSpace(r[0]) && !IsWhiteSpace(r[|r| - 1]))
  {
    Strip(s, IsWhiteSpace)
  }

  /** Trimming again changes nothing. */
  lemma TrimIdempotent(s: string)
    ensures Trim(Trim(s)) == Trim(s)
  {
    StripUntouched(Trim(s), IsWhiteSpace);
  }

  /** String.IsNullOrWhiteSpace; `None` stands for null. It holds exactly
      when the string is null or trims to the empty string. */
  predicate IsNullOrWhiteSpace(s: Option<string>)
    ensures IsNullOrWhiteSpace(s) <==> s.None? || Trim(s.value) == []
  {
    s.None? || forall i | 0 <= i < |s.value| :: IsWhiteSpace(s.value[i])
  }

  /** String.StartsWith, compared character by character. */
  predicate StartsWith(s: string, prefix: string)
    ensures StartsWith(s, prefix) <==>
              |prefix| <= |s| && forall i | 0 <= i < |prefix| :: s[i] == prefix[i]
  {
    prefix <= s
  }

  /** Position of the first `c` in `s`. */
  function IndexOf(s: string, c: char): (k: nat)
    requires c in s
    ensures k < |s| && s[k] == c && c !in s[..k]
  {
    if s[0] == c then 0 else 1 + IndexOf(s[1..], c)
  }

  /** The pieces joined back together with the separator between them. */
  function Join(parts: seq<string>, sep: char): string
    requires |parts| >= 1
  {
    if |parts| == 1 then parts[0] else parts[0] + [sep] + Join(parts[1..], sep)
  }

  /** String.Split(sep): the pieces between separators, empty pieces kept. */
  function Split(s: string, sep: char): (parts: seq<string>)
    ensures |parts| >= 1
    ensures forall i | 0 <= i < |parts| :: sep !in parts[i]
    ensures Join(parts, sep) == s
    decreases |s|
  {
    if sep !in s then [s]
    else
      var k := IndexOf(s, sep);
      var parts := [s[..k]] + Split(s[k + 1..], sep);
      assert parts[1..] == Split(s[k + 1..], sep);
      assert s == s[..k] + [sep] + s[k + 1..];
      parts
  }

  /** Splitting undoes joining, so a split is determined by its pieces. */
  lemma {:induction false} SplitJoin(parts: seq<string>, sep: char)
    requires |parts| >= 1
    requires forall i | 0 <= i < |parts| :: sep !in parts[i]
    ensures Split(Join(parts, sep), sep) == parts
    decreases |parts|
  {
    if |parts| > 1 {
      var s := Join(parts, sep);
      var p := parts[0];
      assert s == p + [sep] + Join(parts[1..], sep);
      assert s[|p|] == sep && s[..|p|] == p;
      assert sep in s;
      assert IndexOf(s, sep) == |p|;
      assert s[|p| + 1..] == Join(parts[1..], sep);
      SplitJoin(parts[1..], sep);
    }
  }

  /** Splitting `a`, a separator, then `b` gives the pieces of `a` then those of `b`. */
  lemma SplitConcat(a: string, b: string, sep: char)
    ensures Split(a + [sep] + b, sep) == Split(a, sep) + Split(b, sep)
  {
    var pa, pb := Split(a, sep), Split(b, sep);
    JoinConcat(pa, pb, sep);
    SplitJoin(pa + pb, sep);
  }

  lemma {:induction false} JoinConcat(pa: seq<string>, pb: seq<string>, sep: char)
    requires |pa| >= 1 && |pb| >= 1
    ensures Join(pa + pb, sep) == Join(pa, sep) + [sep] + Join(pb, sep)
    decreases |pa|
  {
    if |pa| > 1 {
      assert (pa + pb)[1..] == pa[1..] + pb;
      JoinConcat(pa[1..], pb, sep);
    } else {
      assert (pa + pb)[1..] == pb;
    }
  }

  /** int.TryParse(s, out v) under NumberStyles.Integer: the value left in
      `v`, which is 0 whenever parsing fails (not a number, or outside the
      32-bit range). */
  function TryParse(s: string): (v: int)
    ensures MinInt32 <= v <= MaxInt32
    ensures '-' !in s ==> v >= 0
  {
    var t := Strip(s, IsNumberWhite);
    var signed := |t| > 0 && (t[0] == '+' || t[0] == '-');
    var negative := signed && t[0] == '-';
    var digits := if signed then t[1..] else t;
    if digits == [] || !AllDigits(digits) then 0
    else
      var m: int := DigitsValue(digits);
      if negative then (if m <= -MinInt32 then -m else 0)
      else if m <= MaxInt32 then m else 0
  }

  /** The value int.TryParse leaves: after the white space it skips, an
      optional sign and decimal digits give their value when it fits in 32
      bits, and anything else, or a value that does not fit, gives 0. So
      `"007"` parses as 7 and `" 5 "` as 5, and `"2147483648"` gives 0. */
  lemma TryParseValue(s: string)
    ensures var t := Strip(s, IsNumberWhite);
            |t| > 0 && AllDigits(t) ==>
              TryParse(s) == if DigitsValue(t) <= MaxInt32 then DigitsValue(t) else 0
    ensures var t := Strip(s, IsNumberWhite);
            |t| > 1 && t[0] == '+' && AllDigits(t[1..]) ==>
              TryParse(s) == if DigitsValue(t[1..]) <= MaxInt32 then DigitsValue(t[1..]) else 0
    ensures var t := Strip(s, IsNumberWhite);
            |t| > 1 && t[0] == '-' && AllDigits(t[1..]) ==>
              TryParse(s) == if DigitsValue(t[1..]) <= -MinInt32 then -(DigitsValue(t[1..]) as int) else 0
    ensures var t := Strip(s, IsNumberWhite);
            (!(|t| > 0 && AllDigits(t)) &&
             !(|t| > 1 && (t[0] == '+' || t[0] == '-') && AllDigits(t[1..]))) ==> TryParse(s) == 0
  {
  }

  /** A string that starts with neither a sign, a digit nor white space
      does not parse, so TryParse leaves 0. */
  lemma TryParseNonNumeric(s: string)
    requires |s| > 0 && !IsNumberWhite(s[|s| - 1])
    requires !IsNumberWhite(s[0]) && !IsDigit(s[0]) && s[0] != '+' && s[0] != '-'
    ensures TryParse(s) == 0
  {
    StripUntouched(s, IsNumberWhite);
  }

  /** Parsing the printed form of a 32-bit value gives the value back. */
  lemma TryParseDecimal(n: nat)
    requires n <= MaxInt32
    ensures TryParse(Decimal(n)) == n
  {
    var d := Decimal(n);
    StripUntouched(d, IsNumberWhite);
  }
}
