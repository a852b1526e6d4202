/**
 * The string helpers of Go's standard library that the chat server relies on:
 * `fmt`'s `%d` for a non-negative count, `strings.Replace(s, "\n", "", -1)`
 * and `strings.TrimSpace`.
 */
module Text {

  predicate IsDigit(c: char) { '0' <= c <= '9' }

  function Digit(d: nat): (c: char)
    requires d < 10
    ensures IsDigit(c) && c as int - '0' as int == d
  {
    (d + '0' as int) as char
  }

  /** `fmt.Sprintf("%d", n)` for a non-negative `n`: base ten, no sign, no padding. */
  function Decimal(n: nat): (r: string)
    ensures |r| > 0
    ensures forall i :: 0 <= i < |r| ==> IsDigit(r[i])
    ensures r[0] == '0' ==> n == 0 && |r| == 1
    decreases n
  {
    if n < 10 then [Digit(n)] else Decimal(n / 10) + [Digit(n % 10)]
  }

  /** Reads a string of decimal digits back as a number: the inverse of `Decimal`. */
  function ParseDecimal(s: string): (n: nat)
    requires forall i :: 0 <= i < |s| ==> IsDigit(s[i])
    decreases |s|
  {
    if s == [] then 0
    else
      assert IsDigit(s[|s| - 1]);
      ParseDecimal(s[..|s| - 1]) * 10 + (s[|s| - 1] as int - '0' as int)
  }

  lemma {:induction false} ParseDecimalOfDecimal(n: nat)
    ensures ParseDecimal(Decimal(n)) == n
    decreases n
  {
    if n >= 10 {
      var r := Decimal(n);
      assert r[..|r| - 1] == Decimal(n / 10);
      ParseDecimalOfDecimal(n / 10);
    }
  }

  /** `strings.Replace(s, "\n", "", -1)`: every newline removed, everything else kept in order. */
  function RemoveNewlines(s: string): (r: string)
    ensures '\n' !in r
    ensures |r| <= |s|
  {
    if s == [] then []
    else (if s[0] == '\n' then [] else [s[0]]) + RemoveNewlines(s[1..])
  }

  /** Removing newlines keeps exactly the non-newline characters, with their multiplicities. */
  lemma {:induction false} RemoveNewlinesKeepsOthers(s: string)
    ensures multiset(RemoveNewlines(s)) == multiset(s)[ '\n' := 0 ]
  {
    if s != [] {
      RemoveNewlinesKeepsOthers(s[1..]);
      assert s == [s[0]] + s[1..];
    }
  }

  /** A character other than a newline survives removal exactly when it was there. */
  lemma RemoveNewlinesKeeps(s: string, c: char)
    requires c != '\n'
    ensures c in RemoveNewlines(s) <==> c in s
  {
    RemoveNewlinesKeepsOthers(s);
    assert multiset(RemoveNewlines(s))[c] == multiset(s)[c];
  }

  /** Removal works piecewise, so the characters that remain keep their order. */
  lemma {:induction false} RemoveNewlinesAppend(a: string, b: string)
    ensures RemoveNewlines(a + b) == RemoveNewlines(a) + RemoveNewlines(b)
    decreases |a|
  {
    if a == [] {
      assert a + b == b;
    } else {
      assert (a + b)[1..] == a[1..] + b;
      RemoveNewlinesAppend(a[1..], b);
    }
  }

  /** A string without newlines is left as it is, so removal is idempotent. */
  lemma {:induction false} RemoveNewlinesNoop(s: string)
    requires '\n' !in s
    ensures RemoveNewlines(s) == s
  {
    if s != [] {
      assert s == [s[0]] + s[1..];
      RemoveNewlinesNoop(s[1..]);
    }
  }

  lemma RemoveNewlinesIdempotent(s: string)
    ensures RemoveNewlines(RemoveNewlines(s)) == RemoveNewlines(s)
  {
    RemoveNewlinesNoop(RemoveNewlines(s));
  }

  /** Go's `unicode.IsSpace`: the Latin-1 spaces and the Unicode White_Space characters. */
  predicate IsSpace(c: char) {
    c == ' ' || c == '\t' || c == '\n' || c == '\U{000B}' || c == '\U{000C}' || c == '\r'
    || c == '\U{0085}' || c == '\U{00A0}' || c == '\U{1680}'
    || ('\U{2000}' <= c <= '\U{200A}')
    || c == '\U{2028}' || c == '\U{2029}' || c == '\U{202F}' || c == '\U{205F}' || c == '\U{3000}'
  }

  predicate AllSpace(s: string) {
    forall i :: 0 <= i < |s| ==> IsSpace(s[i])
  }

  /** Drops the leading white space. */
  function TrimLeft(s: string): (r: string)
    ensures |r| <= |s| && r == s[|s| - |r|..]
    ensures AllSpace(s[..|s| - |r|])
    ensures r != [] ==> !IsSpace(r[0])
  {
    if s != [] && IsSpace(s[0]) then TrimLeft(s[1..]) else s
  }

  /** Drops the trailing white space. */
  function TrimRight(s: string): (r: string)
    ensures |r| <= |s| && r == s[..|r|]
    ensures AllSpace(s[|r|..])
    ensures r != [] ==> !IsSpace(r[|r| - 1])
  {
    if s != [] && IsSpace(s[|s| - 1]) then TrimRight(s[..|s| - 1]) else s
  }

  /** `strings.TrimSpace`: the string without its leading and trailing white space. */
  function TrimSpace(s: string): (r: string)
    ensures |r| <= |s|
    ensures r != [] ==> !IsSpace(r[0]) && !IsSpace(r[|r| - 1])
    ensures exists a, b :: 0 <= a <= b <= |s| && r == s[a..b] && AllSpace(s[..a]) && AllSpace(s[b..])
  {
    var l := TrimLeft(s);
    var r := TrimRight(l);
    MiddleSlice(s, l, r);
    assert r == s[|s| - |l|..|s| - |l| + |r|];
    r
  }

  /**
   * A prefix `r` of a suffix `l` of `s` is the middle slice of `s`; the
   * white space outside `r` in `l` is white space outside it in `s`.
   */
  lemma MiddleSlice(s: string, l: string, r: string)
    requires |l| <= |s| && l == s[|s| - |l|..] && |r| <= |l| && r == l[..|r|]
    requires AllSpace(l[|r|..])
    ensures r == s[|s| - |l|..|s| - |l| + |r|]
    ensures AllSpace(s[|s| - |l| + |r|..])
  {
    assert s[|s| - |l| + |r|..] == l[|r|..];
  }

  /** Trimming yields the empty string exactly when the input is all white space. */
  lemma TrimSpaceEmpty(s: string)
    ensures TrimSpace(s) == [] <==> AllSpace(s)
  {
    var l := TrimLeft(s);
    if TrimSpace(s) == [] {
      assert AllSpace(l[0..]);
      assert l == [];
      assert s[..|s|] == s;
    } else {
      var r := TrimSpace(s);
      assert l[..|r|] == r;
      assert s[|s| - |l|] == r[0];
    }
  }

  /** A trimmed string is trimmed already. */
  lemma TrimSpaceIdempotent(s: string)
    ensures TrimSpace(TrimSpace(s)) == TrimSpace(s)
  {
    var r := TrimSpace(s);
    if r != [] {
      assert TrimLeft(r) == r;
      assert TrimRight(r) == r;
    }
  }
}
