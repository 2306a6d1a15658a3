/** The handful of Python `str` operations the backend relies on
    (`strip`, `lower`, `in`, `startswith`, `endswith`, `replace`, `rfind`,
    `split`) and decimal digit conversion, over `seq<char>`. */
module PyStr {

  /** The characters for which Python's `str.isspace()` holds; `str.strip()`
      with no argument removes exactly these. */
  predicate IsSpace(c: char) {
    c == ' ' || ('\t' <= c <= '\r') || ('\U{1c}' <= c <= '\U{1f}')
    || c == '\U{85}' || c == '\U{a0}' || c == '\U{1680}'
    || ('\U{2000}' <= c <= '\U{200a}') || c == '\U{2028}' || c == '\U{2029}'
    || c == '\U{202f}' || c == '\U{205f}' || c == '\U{3000}'
  }

  function LStrip(s: string): (r: string)
    ensures |r| <= |s| && r == s[|s| - |r|..]
    ensures forall k :: 0 <= k < |s| - |r| ==> IsSpace(s[k])
    ensures r == [] || !IsSpace(r[0])
  {
    if |s| > 0 && IsSpace(s[0]) then LStrip(s[1..]) else s
  }

  function RStrip(s: string): (r: string)
    ensures |r| <= |s| && r == s[..|r|]
    ensures forall k :: |r| <= k < |s| ==> IsSpace(s[k])
    ensures r == [] || !IsSpace(r[|r| - 1])
  {
    if |s| > 0 && IsSpace(s[|s| - 1]) then RStrip(s[..|s| - 1]) else s
  }

  /** `r` is the piece of `s` starting at `i`, and everything of `s` before
      and after that piece is white space. */
  predicate PieceAmidSpace(s: string, i: int, r: string) {
    && 0 <= i <= |s| - |r| && r == s[i..i + |r|]
    && (forall k :: 0 <= k < i ==> IsSpace(s[k]))
    && (forall k :: i + |r| <= k < |s| ==> IsSpace(s[k]))
  }

  /** Right-stripping what left-stripping leaves is a piece of `s` amid
      white space. */
  lemma {:induction false} StripPiece(s: string)
    ensures PieceAmidSpace(s, |s| - |LStrip(s)|, RStrip(LStrip(s)))
  {
    var l := LStrip(s);
    var r := RStrip(l);
    assert |l| <= |s| && l == s[|s| - |l|..];
    assert forall k :: 0 <= k < |s| - |l| ==> IsSpace(s[k]);
    assert |r| <= |l| && r == l[..|r|];
    assert forall k :: |r| <= k < |l| ==> IsSpace(l[k]);
    SpaceAroundPrefixOfSuffix(s, l, r);
  }

  /** A prefix `r` of a suffix `l` of `s`, with only white space cut off on
      both sides, is a piece of `s` amid white space. */
  lemma {:induction false} SpaceAroundPrefixOfSuffix(s: string, l: string, r: string)
    requires |l| <= |s| && l == s[|s| - |l|..]
    requires |r| <= |l| && r == l[..|r|]
    requires forall k :: 0 <= k < |s| - |l| ==> IsSpace(s[k])
    requires forall k :: |r| <= k < |l| ==> IsSpace(l[k])
    ensures PieceAmidSpace(s, |s| - |l|, r)
  {
    var i := |s| - |l|;
    forall k | i + |r| <= k < |s|
      ensures IsSpace(s[k])
    {
      assert s[k] == l[k - i];
    }
  }

  /** `s.strip()`: the result is a contiguous piece of `s`, everything cut off
      on either side is white space, and the result neither starts nor ends
      with white space. */
  function Strip(s: string): (r: string)
    ensures exists i :: PieceAmidSpace(s, i, r)
    ensures r == [] || (!IsSpace(r[0]) && !IsSpace(r[|r| - 1]))
  {
    StripPiece(s);
    RStrip(LStrip(s))
  }

  lemma {:induction false} StripNoSpaceAtEnds(s: string)
    requires s == [] || (!IsSpace(s[0]) && !IsSpace(s[|s| - 1]))
    ensures Strip(s) == s
  {
  }

  /** Stripping twice is stripping once. */
  lemma {:induction false} StripIdempotent(s: string)
    ensures Strip(Strip(s)) == Strip(s)
  {
    StripNoSpaceAtEnds(Strip(s));
  }

  /** ASCII lower-casing (Unicode case mapping is not modelled). */
  function LowerChar(c: char): char {
    if 'A' <= c <= 'Z' then (c as int + 32) as char else c
  }

  function Lower(s: string): string {
    seq(|s|, i requires 0 <= i < |s| => LowerChar(s[i]))
  }

  lemma {:induction false} LowerIdempotent(s: string)
    ensures Lower(Lower(s)) == Lower(s)
  {
  }

  /** `s.startswith(p)` */
  predicate StartsWith(s: string, p: string) {
    |p| <= |s| && s[..|p|] == p
  }

  /** `s.endswith(p)` */
  predicate EndsWith(s: string, p: string) {
    |p| <= |s| && s[|s| - |p|..] == p
  }

  /** `needle` occurs in `hay` at offset `i`. */
  predicate OccursAt(needle: string, hay: string, i: int) {
    0 <= i <= |hay| - |needle| && hay[i..i + |needle|] == needle
  }

  /** The meaning of `needle in hay`: `needle` occurs at some offset of `hay`. */
  ghost predicate Occurs(needle: string, hay: string) {
    exists i :: OccursAt(needle, hay, i)
  }

  /** `needle in hay`, computed by trying each offset from the left. */
  function Contains(hay: string, needle: string): (r: bool)
    ensures r <==> Occurs(needle, hay)
    decreases |hay|
  {
    if |needle| > |hay| then false
    else if hay[..|needle|] == needle then
      assert OccursAt(needle, hay, 0);
      true
    else
      var rest := Contains(hay[1..], needle);
      assert rest ==> Occurs(needle, hay) by {
        if rest {
          var i :| OccursAt(needle, hay[1..], i);
          assert hay[i + 1..i + 1 + |needle|] == hay[1..][i..i + |needle|];
          assert OccursAt(needle, hay, i + 1);
        }
      }
      assert Occurs(needle, hay) ==> rest by {
        if Occurs(needle, hay) {
          var i :| OccursAt(needle, hay, i);
          assert i != 0;
          assert hay[1..][i - 1..i - 1 + |needle|] == hay[i..i + |needle|];
          assert OccursAt(needle, hay[1..], i - 1);
        }
      }
      rest
  }

  /** `s.replace(c, t)` for a one-character pattern `c`. */
  function ReplaceChar(s: string, c: char, t: string): (r: string)
    ensures c !in t ==> c !in r
    ensures c !in s ==> r == s
    ensures |t| == 1 ==> |r| == |s| && forall i :: 0 <= i < |s| ==> r[i] == (if s[i] == c then t[0] else s[i])
  {
    if s == [] then []
    else (if s[0] == c then t else [s[0]]) + ReplaceChar(s[1..], c, t)
  }

  /** Replacing works character by character: each `c` becomes `t`, every
      other character is kept, and the pieces stay in order. */
  lemma {:induction false} ReplaceCharAppend(a: string, b: string, c: char, t: string)
    ensures ReplaceChar(a + b, c, t) == ReplaceChar(a, c, t) + ReplaceChar(b, c, t)
    decreases |a|
  {
    if a == [] {
      assert a + b == b;
    } else {
      assert (a + b)[0] == a[0] && (a + b)[1..] == a[1..] + b;
      ReplaceCharAppend(a[1..], b, c, t);
    }
  }

  /** Replacing inside a middle piece when the outer pieces hold no `c`. */
  lemma {:induction false} ReplaceCharInside(a: string, m: string, b: string, c: char, t: string)
    requires c !in a && c !in b
    ensures ReplaceChar(a + m + b, c, t) == a + ReplaceChar(m, c, t) + b
  {
    ReplaceCharAppend(a, m, c, t);
    ReplaceCharAppend(a + m, b, c, t);
  }

  /** One character: `c` becomes `t`, anything else stays. */
  lemma {:induction false} ReplaceCharOne(x: char, c: char, t: string)
    ensures ReplaceChar([x], c, t) == if x == c then t else [x]
  {
    assert [x][1..] == [];
  }

  /** `sep.join(parts)` for a one-character separator. */
  function Join(parts: seq<string>, sep: char): string
    decreases |parts|
  {
    if parts == [] then ""
    else if |parts| == 1 then parts[0]
    else parts[0] + [sep] + Join(parts[1..], sep)
  }

  /** `"".join(parts)`. */
  function Concat(parts: seq<string>): string
    decreases |parts|
  {
    if parts == [] then "" else parts[0] + Concat(parts[1..])
  }

  /** Splitting a join of separator-free pieces gives the pieces back. */
  lemma {:induction false} SplitJoin(parts: seq<string>, sep: char)
    requires |parts| >= 1 && forall k :: 0 <= k < |parts| ==> sep !in parts[k]
    ensures Split(Join(parts, sep), sep) == parts
    decreases |parts|
  {
    if |parts| == 1 {
      assert Find(parts[0], sep) == -1;
    } else {
      SplitAfter(parts[0], sep, Join(parts[1..], sep));
      SplitJoin(parts[1..], sep);
      assert parts == [parts[0]] + parts[1..];
    }
  }

  /** Deleting the separator from a join of separator-free pieces runs the
      pieces together. */
  lemma {:induction false} DeleteJoinSeparator(parts: seq<string>, sep: char)
    requires forall k :: 0 <= k < |parts| ==> sep !in parts[k]
    ensures ReplaceChar(Join(parts, sep), sep, "") == Concat(parts)
    decreases |parts|
  {
    if |parts| == 1 {
      assert Concat(parts) == parts[0] + Concat(parts[1..]);
      assert Concat(parts[1..]) == "";
    } else if |parts| > 1 {
      var rest := Join(parts[1..], sep);
      ReplaceCharAppend(parts[0] + [sep], rest, sep, "");
      ReplaceCharAppend(parts[0], [sep], sep, "");
      ReplaceCharOne(sep, sep, "");
      DeleteJoinSeparator(parts[1..], sep);
    }
  }

  /** `s.find(c)`: the first index of `c`, or -1. */
  function Find(s: string, c: char): (r: int)
    ensures r == -1 <==> c !in s
    ensures 0 <= r ==> r < |s| && s[r] == c && c !in s[..r]
    ensures 0 <= r ==> forall j :: 0 <= j < r ==> s[j] != c
  {
    if s == [] then -1
    else if s[0] == c then 0
    else
      var k := Find(s[1..], c);
      if k < 0 then -1 else
        assert s[..k + 1] == [s[0]] + s[1..][..k];
        k + 1
  }

  /** `Find` is the first occurrence. */
  lemma {:induction false} FindFirst(s: string, c: char, i: nat)
    requires i < |s| && s[i] == c
    requires forall j :: 0 <= j < i ==> s[j] != c
    ensures Find(s, c) == i
  {
  }

  /** The last index of `c` below `n`, or -1. */
  function RFindBelow(s: string, c: char, n: nat): (r: int)
    requires n <= |s|
    ensures -1 <= r < n
    ensures 0 <= r ==> s[r] == c
    ensures forall j :: r < j < n ==> s[j] != c
  {
    if n == 0 then -1
    else if s[n - 1] == c then n - 1
    else RFindBelow(s, c, n - 1)
  }

  /** `s.rfind(c)`: the last index of `c`, or -1. */
  function RFind(s: string, c: char): (r: int)
    ensures -1 <= r < |s|
    ensures r == -1 <==> c !in s
    ensures 0 <= r ==> s[r] == c && c !in s[r + 1..]
  {
    var r := RFindBelow(s, c, |s|);
    assert 0 <= r ==> c in s;
    r
  }

  /** `s.split(sep)` for a one-character separator: never empty, and no piece
      contains the separator. */
  function Split(s: string, sep: char): (parts: seq<string>)
    ensures |parts| >= 1
    ensures forall k :: 0 <= k < |parts| ==> sep !in parts[k]
    decreases |s|
  {
    var k := Find(s, sep);
    if k < 0 then [s] else [s[..k]] + Split(s[k + 1..], sep)
  }

  /** Splitting a prefix that is free of the separator off a string. */
  lemma {:induction false} SplitAfter(a: string, sep: char, b: string)
    requires sep !in a
    ensures Split(a + [sep] + b, sep) == [a] + Split(b, sep)
  {
    var s := a + [sep] + b;
    assert s[|a|] == sep;
    assert s[..|a|] == a;
    assert Find(s, sep) == |a|;
    assert s[|a| + 1..] == b;
  }

  predicate IsDigit(c: char) {
    '0' <= c <= '9'
  }

  predicate AllDigits(s: string) {
    forall k :: 0 <= k < |s| ==> IsDigit(s[k])
  }

  function DigitValue(c: char): nat
    requires IsDigit(c)
  {
    c as int - '0' as int
  }

  /** The number a string of ASCII digits denotes ("" denotes 0). */
  function DigitsValue(s: string): nat
    requires AllDigits(s)
  {
    if s == [] then 0 else 10 * DigitsValue(s[..|s| - 1]) + DigitValue(s[|s| - 1])
  }

  function DigitChar(d: nat): char
    requires d < 10
  {
    ('0' as int + d) as char
  }

  /** `str(n)` for a natural number. */
  function NatToString(n: nat): (r: string)
    ensures |r| >= 1 && AllDigits(r)
  {
    if n < 10 then [DigitChar(n)] else NatToString(n / 10) + [DigitChar(n % 10)]
  }

  /** Reading back a rendered number gives the number. */
  lemma {:induction false} NatToStringRoundTrip(n: nat)
    ensures DigitsValue(NatToString(n)) == n
  {
    var r := NatToString(n);
    if n >= 10 {
      NatToStringRoundTrip(n / 10);
      assert r[..|r| - 1] == NatToString(n / 10);
    }
  }

  /** `"%0*d" % (width, n)`: the decimal digits of `n`, left-padded with '0'. */
  function ZeroPad(n: nat, width: nat): (r: string)
    ensures |r| >= width && AllDigits(r)
  {
    var t := NatToString(n);
    if |t| >= width then t else seq(width - |t|, _ => '0') + t
  }
}
