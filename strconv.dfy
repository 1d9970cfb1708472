/** The parsing of the current version string: Go's `strings.TrimSpace`
    (restricted to ASCII white space) followed by `strconv.ParseInt(s, 10, 64)`,
    with `strconv.FormatInt` as the reference that parsing inverts. */
module StrConv {
  import opened Common

  /** The ASCII white space that `strings.TrimSpace` removes:
      space, \t, \n, \v, \f, \r. */
  predicate IsSpace(c: char) {
    c == ' ' || c == '\t' || c == '\n' || c == '\r' || c as int == 0x0B || c as int == 0x0C
  }

  /** Drops leading white space; the result is a suffix of `s`. */
  function TrimLeft(s: string): (r: string)
    ensures |r| <= |s| && r == s[|s| - |r|..]
    ensures forall i :: 0 <= i < |s| - |r| ==> IsSpace(s[i])
    ensures r != [] ==> !IsSpace(r[0])
  {
    if s != [] && IsSpace(s[0]) then TrimLeft(s[1..]) else s
  }

  /** Drops trailing white space; the result is a prefix of `s`. */
  function TrimRight(s: string): (r: string)
    ensures |r| <= |s| && r == s[..|r|]
    ensures forall i :: |r| <= i < |s| ==> IsSpace(s[i])
    ensures r != [] ==> !IsSpace(r[|r| - 1])
  {
    if s != [] && IsSpace(s[|s| - 1]) then TrimRight(s[..|s| - 1]) else s
  }

  /** `strings.TrimSpace`: the slice of `s` between its leading and trailing
      white space. */
  function TrimSpace(s: string): (r: string)
    ensures exists i, j ::
      && 0 <= i <= j <= |s| && r == s[i..j]
      && (forall k :: 0 <= k < i ==> IsSpace(s[k]))
      && (forall k :: j <= k < |s| ==> IsSpace(s[k]))
    ensures r != [] ==> !IsSpace(r[0]) && !IsSpace(r[|r| - 1])
  {
    var l := TrimLeft(s);
    var r := TrimRight(l);
    assert r == s[|s| - |l|..|s| - |l| + |r|];
    r
  }

  predicate IsDigit(c: char) {
    '0' <= c <= '9'
  }

  predicate AllDigits(d: string) {
    forall i :: 0 <= i < |d| ==> IsDigit(d[i])
  }

  /** The number a string of decimal digits spells, most significant first. */
  function DigitsValue(d: string): nat
    requires AllDigits(d)
  {
    if d == [] then 0 else DigitsValue(d[..|d| - 1]) * 10 + (d[|d| - 1] as int - '0' as int)
  }

  /** `strconv.ParseInt(s, 10, 64)`: an optional '+' or '-' and at least one
      decimal digit, whose value must fit in 64 bits. Go's two error kinds
      (syntax and range) are both None here. */
  function ParseInt(s: string): (r: Option<Int64>)
    ensures r.Some? ==> |s| > 0 && (IsDigit(s[0]) || s[0] == '+' || s[0] == '-')
    ensures r.Some? ==> AllDigits(s[1..]) && (!IsDigit(s[0]) ==> |s| > 1)
    ensures r.Some? && r.value < 0 ==> s[0] == '-'
  {
    if s == [] then None
    else
      var neg := s[0] == '-';
      var digits := if s[0] == '+' || s[0] == '-' then s[1..] else s;
      if digits == [] || !AllDigits(digits) then None
      else
        var n: int := DigitsValue(digits);
        if !neg && n > MaxInt64 then None
        else if neg && n > -MinInt64 then None
        else Some(if neg then -n else n)
  }

  /** `strconv.FormatInt(n, 10)` for a non-negative `n`. */
  function FormatNat(n: nat): (d: string)
  {
    if n < 10 then [(n + '0' as int) as char]
    else FormatNat(n / 10) + [(n % 10 + '0' as int) as char]
  }

  /** `strconv.FormatInt(n, 10)`. */
  function FormatInt(n: int): string {
    if n < 0 then "-" + FormatNat(-n) else FormatNat(n)
  }

  /** The decimal form of `n` is a non-empty digit string worth `n`. */
  lemma {:induction false} FormatNatValue(n: nat)
    ensures |FormatNat(n)| > 0 && AllDigits(FormatNat(n))
    ensures DigitsValue(FormatNat(n)) == n
  {
    var d := FormatNat(n);
    if n >= 10 {
      FormatNatValue(n / 10);
      assert d[..|d| - 1] == FormatNat(n / 10);
    }
  }

  /** Parsing inverts formatting on every 64-bit integer. */
  lemma ParseFormat(n: Int64)
    ensures ParseInt(FormatInt(n)) == Some(n)
  {
    var m: int := n;
    if m < 0 {
      FormatNatValue(-m);
      assert FormatInt(m)[1..] == FormatNat(-m);
    } else {
      FormatNatValue(m);
    }
  }

  /** What ParseInt makes of a digit string with and without a sign: its
      value, negated after '-', when that fits in 64 bits, and otherwise the
      range error (None). */
  lemma ParseIntSigned(d: string)
    requires d != [] && AllDigits(d)
    ensures ParseInt(d) == if DigitsValue(d) <= MaxInt64 then Some(DigitsValue(d)) else None
    ensures ParseInt("+" + d) == ParseInt(d)
    ensures ParseInt("-" + d) == if DigitsValue(d) <= -MinInt64 then Some(-(DigitsValue(d) as int)) else None
  {
    assert ("+" + d)[1..] == d;
    assert ("-" + d)[1..] == d;
  }

  /** Leading white space is invisible to TrimLeft. */
  lemma {:induction false} TrimLeftSkips(pre: string, x: string)
    requires forall i :: 0 <= i < |pre| ==> IsSpace(pre[i])
    ensures TrimLeft(pre + x) == TrimLeft(x)
  {
    if pre != [] {
      assert (pre + x)[1..] == pre[1..] + x;
      TrimLeftSkips(pre[1..], x);
    } else {
      assert pre + x == x;
    }
  }

  /** Trailing white space is invisible to TrimRight. */
  lemma {:induction false} TrimRightSkips(x: string, post: string)
    requires forall i :: 0 <= i < |post| ==> IsSpace(post[i])
    ensures TrimRight(x + post) == TrimRight(x)
  {
    if post != [] {
      assert (x + post)[..|x + post| - 1] == x + post[..|post| - 1];
      TrimRightSkips(x, post[..|post| - 1]);
    } else {
      assert x + post == x;
    }
  }

  /** TrimSpace removes exactly the white space padding around a word that
      neither starts nor ends with white space. */
  lemma TrimSpacePadding(pre: string, w: string, post: string)
    requires forall i :: 0 <= i < |pre| ==> IsSpace(pre[i])
    requires forall i :: 0 <= i < |post| ==> IsSpace(post[i])
    requires w != [] && !IsSpace(w[0]) && !IsSpace(w[|w| - 1])
    ensures TrimSpace(pre + w + post) == w
  {
    assert pre + w + post == pre + (w + post);
    TrimLeftSkips(pre, w + post);
    assert (w + post)[0] == w[0];
    TrimRightSkips(w, post);
  }

  /** A current version written in decimal with white space around it parses
      back to its value. */
  lemma CurrentVersionRoundTrip(pre: string, n: Int64, post: string)
    requires forall i :: 0 <= i < |pre| ==> IsSpace(pre[i])
    requires forall i :: 0 <= i < |post| ==> IsSpace(post[i])
    ensures ParseInt(TrimSpace(pre + FormatInt(n) + post)) == Some(n)
  {
    var w := FormatInt(n);
    var m: int := n;
    if m < 0 { FormatNatValue(-m); } else { FormatNatValue(m); }
    assert IsDigit(w[|w| - 1]);
    TrimSpacePadding(pre, w, post);
    ParseFormat(n);
  }
}
