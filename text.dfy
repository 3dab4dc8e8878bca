/** The JavaScript string primitives the pages rely on: the `\s` class and
    `trim`, `toLowerCase`, `includes`, and the decimal rendering of a number
    in a template literal. */
module Text {

  /** An ECMAScript WhiteSpace or LineTerminator code point: exactly the
      characters the regular-expression class `\s` matches and the ones
      `String.prototype.trim` removes. */
  predicate IsWhitespace(c: char)
  {
    || c == '\t' || c == '\n' || c == '\U{B}' || c == '\U{C}' || c == '\r' || c == ' '
    || c == '\U{A0}' || c == '\U{1680}' || ('\U{2000}' <= c <= '\U{200A}')
    || c == '\U{2028}' || c == '\U{2029}' || c == '\U{202F}' || c == '\U{205F}'
    || c == '\U{3000}' || c == '\U{FEFF}'
  }

  /** Empty or whitespace only: the strings for which `!s.trim()` holds. */
  predicate IsBlank(s: string)
  {
    forall i :: 0 <= i < |s| ==> IsWhitespace(s[i])
  }

  /** Neither begins nor ends with whitespace. */
  predicate IsTrimmed(s: string)
  {
    s == [] || (!IsWhitespace(s[0]) && !IsWhitespace(s[|s| - 1]))
  }

  /** The index of the first non-blank character of `s` at or after `i`,
      or `|s|` when there is none. */
  function SkipBlanks(s: string, i: nat): (k: nat)
    requires i <= |s|
    ensures i <= k <= |s|
    ensures forall m :: i <= m < k ==> IsWhitespace(s[m])
    ensures k < |s| ==> !IsWhitespace(s[k])
    decreases |s| - i
  {
    if i < |s| && IsWhitespace(s[i]) then SkipBlanks(s, i + 1) else i
  }

  /** One past the last non-blank character of `s` before `j`, or `0`
      when there is none. */
  function DropBlanks(s: string, j: nat): (k: nat)
    requires j <= |s|
    ensures k <= j
    ensures forall m :: k <= m < j ==> IsWhitespace(s[m])
    ensures k > 0 ==> !IsWhitespace(s[k - 1])
  {
    if j > 0 && IsWhitespace(s[j - 1]) then DropBlanks(s, j - 1) else j
  }

  /** `r` is what is left of `s` once `i` blank characters are cut off its
      front and a blank tail is cut off its back. */
  predicate TrimmedAt(s: string, i: int, r: string)
  {
    0 <= i && i + |r| <= |s| && r == s[i..i + |r|] && IsBlank(s[..i]) && IsBlank(s[i + |r|..])
  }

  /** `String.prototype.trim`: the longest slice of `s` that neither begins
      nor ends with whitespace, found by cutting whitespace off both ends. */
  function Trim(s: string): (r: string)
    ensures exists i :: TrimmedAt(s, i, r)
    ensures IsTrimmed(r)
    ensures r == [] <==> IsBlank(s)
  {
    var i := SkipBlanks(s, 0);
    var j := DropBlanks(s, |s|);
    if j <= i then
      assert TrimmedAt(s, 0, []);
      []
    else
      assert TrimmedAt(s, i, s[i..j]);
      s[i..j]
  }

  lemma TrimOfTrimmed(s: string)
    requires IsTrimmed(s)
    ensures Trim(s) == s
  {
  }

  /** Trimming twice is trimming once. */
  lemma TrimIdempotent(s: string)
    ensures Trim(Trim(s)) == Trim(s)
  {
    TrimOfTrimmed(Trim(s));
  }

  /** Blank padding on either side never changes what `trim` returns. */
  lemma TrimIgnoresPadding(pre: string, s: string, post: string)
    requires IsBlank(pre) && IsBlank(post)
    ensures Trim(pre + s + post) == Trim(s)
  {
    var k := PaddedTrimOffset(pre, s, post, pre + s + post);
    TrimOfSlice(pre + s + post, k, Trim(s));
  }

  /** Where the trimmed `s` sits inside `s` with blank padding. */
  lemma PaddedTrimOffset(pre: string, s: string, post: string, w: string) returns (k: int)
    requires IsBlank(pre) && IsBlank(post) && w == pre + s + post
    ensures TrimmedAt(w, k, Trim(s)) && IsTrimmed(Trim(s))
  {
    var j, q := TrimOffset(s);
    PaddedSlice(pre, s, post, w, j, q);
    k := |pre| + j;
  }

  /** A trimmed slice with blank surroundings is what `trim` returns. */
  lemma TrimOfSlice(s: string, k: int, q: string)
    requires TrimmedAt(s, k, q) && IsTrimmed(q)
    ensures Trim(s) == q
  {
    var i, r := TrimOffset(s);
    TrimSliceUnique(s, i, r, k, q);
  }

  /** Where the slice `trim` returns begins. */
  lemma TrimOffset(s: string) returns (i: int, r: string)
    ensures r == Trim(s) && TrimmedAt(s, i, r) && IsTrimmed(r)
  {
    r := Trim(s);
    var j := DropBlanks(s, |s|);
    i := SkipBlanks(s, 0);
    if j <= i {
      i := 0;
    }
  }

  lemma PaddedSlice(pre: string, s: string, post: string, w: string, j: int, q: string)
    requires IsBlank(pre) && IsBlank(post) && w == pre + s + post && TrimmedAt(s, j, q)
    ensures TrimmedAt(w, |pre| + j, q)
  {
    assert w[|pre| + j..|pre| + j + |q|] == s[j..j + |q|];
    assert w[..|pre| + j] == pre + s[..j];
    assert w[|pre| + j + |q|..] == s[j + |q|..] + post;
    BlankConcat(pre, s[..j]);
    BlankConcat(s[j + |q|..], post);
  }

  lemma BlankConcat(a: string, b: string)
    requires IsBlank(a) && IsBlank(b)
    ensures IsBlank(a + b)
  {
  }

  /** At most one trimmed slice of a string has blank surroundings. */
  lemma TrimSliceUnique(s: string, i: int, r: string, j: int, q: string)
    requires TrimmedAt(s, i, r) && IsTrimmed(r)
    requires TrimmedAt(s, j, q) && IsTrimmed(q)
    ensures r == q
  {
    if r != [] {
      NonBlankStart(s, i, r, j, q);
      NonBlankStart(s, j, q, i, r);
      assert i == j;
      NonBlankEnd(s, i, r, j, q);
      NonBlankEnd(s, j, q, i, r);
    } else if q != [] {
      NonBlankStart(s, j, q, i, r);
    }
  }

  /** The first character of a non-empty trimmed slice is the first
      non-blank character of the whole string. */
  lemma NonBlankStart(s: string, i: int, r: string, j: int, q: string)
    requires TrimmedAt(s, i, r) && IsTrimmed(r) && r != []
    requires TrimmedAt(s, j, q)
    ensures j <= i && q != []
  {
    assert s[i] == r[0];
  }

  /** The last character of a non-empty trimmed slice is the last
      non-blank character of the whole string. */
  lemma NonBlankEnd(s: string, i: int, r: string, j: int, q: string)
    requires TrimmedAt(s, i, r) && IsTrimmed(r) && r != []
    requires TrimmedAt(s, j, q)
    ensures i + |r| <= j + |q|
  {
    assert s[i + |r| - 1] == r[|r| - 1];
  }

  /** `toLowerCase` on the ASCII letters; every other character is kept. */
  function LowerChar(c: char): char
  {
    if 'A' <= c <= 'Z' then (c as int + 32) as char else c
  }

  function ToLower(s: string): (r: string)
    ensures |r| == |s|
    ensures forall i :: 0 <= i < |s| ==> r[i] == LowerChar(s[i])
  {
    seq(|s|, i requires 0 <= i < |s| => LowerChar(s[i]))
  }

  /** Lower-casing a lower-cased string changes nothing. */
  lemma ToLowerIdempotent(s: string)
    ensures ToLower(ToLower(s)) == ToLower(s)
  {
  }

  /** `needle` occurs in `hay` starting at index `i`. */
  predicate OccursAt(hay: string, needle: string, i: int)
  {
    0 <= i && i + |needle| <= |hay| && hay[i..i + |needle|] == needle
  }

  /** `hay.includes(needle)`, by trying every start position from the left. */
  function Includes(hay: string, needle: string): (r: bool)
    ensures r <==> exists i :: OccursAt(hay, needle, i)
    decreases |hay|
  {
    if |needle| <= |hay| && hay[..|needle|] == needle then
      assert OccursAt(hay, needle, 0);
      true
    else if hay == [] then
      false
    else
      var r := Includes(hay[1..], needle);
      if r then
        var i :| OccursAt(hay[1..], needle, i);
        assert OccursAt(hay, needle, i + 1);
        true
      else
        assert forall i :: OccursAt(hay, needle, i) ==> i > 0 && OccursAt(hay[1..], needle, i - 1);
        false
  }

  /** Every string includes the empty string. */
  lemma IncludesEmpty(hay: string)
    ensures Includes(hay, "")
  {
    assert OccursAt(hay, "", 0);
  }

  function DigitChar(d: nat): (c: char)
    requires d < 10
    ensures '0' <= c <= '9' && c as int - '0' as int == d
  {
    (d + '0' as int) as char
  }

  predicate IsDigits(s: string)
  {
    forall i :: 0 <= i < |s| ==> '0' <= s[i] <= '9'
  }

  /** The number a string of decimal digits denotes. */
  function DecimalValue(s: string): nat
    requires IsDigits(s)
  {
    if s == [] then 0 else 10 * DecimalValue(s[..|s| - 1]) + (s[|s| - 1] as int - '0' as int)
  }

  /** The decimal text JavaScript produces for a non-negative integer:
      digits only, no superfluous leading zero, and denoting `n`. */
  function NatToDecimal(n: nat): (r: string)
    ensures r != [] && IsDigits(r)
    ensures r[0] == '0' ==> r == "0"
    ensures DecimalValue(r) == n
  {
    if n < 10 then
      [DigitChar(n)]
    else
      var r := NatToDecimal(n / 10) + [DigitChar(n % 10)];
      assert r[..|r| - 1] == NatToDecimal(n / 10);
      r
  }

  /** Decimal digits as JavaScript writes them: non-empty, with no
      superfluous leading zero. */
  predicate CanonicalDecimal(s: string)
  {
    s != [] && IsDigits(s) && (s[0] == '0' ==> s == "0")
  }

  /** Two or more digits without a leading zero denote at least ten. */
  lemma {:induction false} LongDecimalAtLeastTen(s: string)
    requires IsDigits(s) && |s| >= 2 && s[0] != '0'
    ensures DecimalValue(s) >= 10
    decreases |s|
  {
    var p := s[..|s| - 1];
    assert IsDigits(p);
    if |s| == 2 {
      assert p[..0] == [];
      assert DecimalValue(p) == p[0] as int - '0' as int >= 1;
    } else {
      assert p[0] == s[0];
      LongDecimalAtLeastTen(p);
    }
  }

  /** A number has exactly one canonical decimal text. */
  lemma {:induction false} CanonicalDecimalUnique(s: string, t: string)
    requires CanonicalDecimal(s) && CanonicalDecimal(t)
    requires DecimalValue(s) == DecimalValue(t)
    ensures s == t
    decreases |s|
  {
    if |s| >= 2 && |t| >= 2 {
      var ps, pt := s[..|s| - 1], t[..|t| - 1];
      assert IsDigits(ps) && IsDigits(pt);
      assert DecimalValue(ps) == DecimalValue(s) / 10 == DecimalValue(pt);
      assert s[|s| - 1] == t[|t| - 1];
      assert ps[0] == s[0] && pt[0] == t[0];
      CanonicalDecimalUnique(ps, pt);
      assert s == ps + [s[|s| - 1]] && t == pt + [t[|t| - 1]];
    } else if |s| >= 2 {
      LongDecimalAtLeastTen(s);
    } else if |t| >= 2 {
      LongDecimalAtLeastTen(t);
    } else {
      assert s[..0] == [] && t[..0] == [];
    }
  }

  /** `NatToDecimal(n)` is the only canonical decimal text denoting `n`. */
  lemma NatToDecimalUnique(n: nat, s: string)
    requires CanonicalDecimal(s) && DecimalValue(s) == n
    ensures s == NatToDecimal(n)
  {
    CanonicalDecimalUnique(s, NatToDecimal(n));
  }

  /** The number denoted by an optionally negated run of decimal digits. */
  function SignedValue(s: string): int
    requires s != [] && (IsDigits(s) || (s[0] == '-' && IsDigits(s[1..])))
  {
    if s[0] == '-' then 0 - DecimalValue(s[1..]) else DecimalValue(s)
  }

  /** `${i}` for an integer `i`: a minus sign exactly for a negative value,
      then the decimal digits of its magnitude with no superfluous leading
      zero (so zero is written "0", never "-0" or "00"). */
  function IntToDecimal(i: int): (r: string)
    ensures r != [] && (IsDigits(r) || (r[0] == '-' && IsDigits(r[1..])))
    ensures r[0] == '-' <==> i < 0
    ensures var d := if i < 0 then r[1..] else r;
      d != [] && (d[0] == '0' ==> d == "0")
    ensures SignedValue(r) == i
  {
    if i < 0 then "-" + NatToDecimal(-i) else NatToDecimal(i)
  }
}
