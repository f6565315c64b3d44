/** String operations the Python code takes from `str` and from small fixed
    regular expressions: whitespace in Python's sense, `lower`, `in`,
    `startswith`, `strip`, `split`, `join` and `re.sub(r'\s+', ' ', s)`. */
module Text {

  /** Python's `str.isspace`, which is also what `\s` matches in a `str`
      pattern: the ASCII white space, the four separators 0x1C-0x1F and the
      Unicode space characters. */
  predicate IsSpace(c: char) {
    ('\t' <= c <= '\r') || ('\U{1C}' <= c <= ' ') || c == '\U{85}'
    || c == '\U{A0}' || c == '\U{1680}' || ('\U{2000}' <= c <= '\U{200A}')
    || c == '\U{2028}' || c == '\U{2029}' || c == '\U{202F}'
    || c == '\U{205F}' || c == '\U{3000}'
  }

  predicate AllSpace(s: string) {
    forall i :: 0 <= i < |s| ==> IsSpace(s[i])
  }

  /** The position of the first c at or after i, or the length when there
      is none: `str.find`, with the length for -1. */
  function CharIndex(s: string, c: char, i: nat): (d: nat)
    requires i <= |s|
    ensures i <= d <= |s|
    ensures d == |s| || s[d] == c
    ensures forall m :: i <= m < d ==> s[m] != c
    decreases |s| - i
  {
    if i == |s| || s[i] == c then i else CharIndex(s, c, i + 1)
  }

  function LowerChar(c: char): char {
    if 'A' <= c <= 'Z' then (c as int + 32) as char else c
  }

  /** `s.lower()` on the ASCII letters (other characters are kept). */
  function Lower(s: string): (r: string)
    ensures |r| == |s|
    ensures forall i :: 0 <= i < |s| ==> r[i] == LowerChar(s[i])
  {
    if s == [] then [] else [LowerChar(s[0])] + Lower(s[1..])
  }

  lemma LowerAppend(a: string, b: string)
    ensures Lower(a + b) == Lower(a) + Lower(b)
  {
    assert Lower(a + b) == Lower(a) + Lower(b);
  }

  predicate StartsWith(s: string, prefix: string) {
    |prefix| <= |s| && s[..|prefix|] == prefix
  }

  /** `s[:n]`. */
  function Take(s: string, n: nat): (r: string)
    ensures |r| <= n && |r| <= |s|
    ensures |r| == n || r == s
    ensures StartsWith(s, r)
  {
    if |s| <= n then s else s[..n]
  }

  /** `sub in s`. */
  predicate Contains(s: string, sub: string) {
    exists i :: 0 <= i <= |s| && StartsWith(s[i..], sub)
  }

  lemma ContainsAt(s: string, sub: string, i: nat)
    requires i <= |s| && StartsWith(s[i..], sub)
    ensures Contains(s, sub)
  {
  }

  predicate NoCapitals(s: string) {
    forall i :: 0 <= i < |s| ==> !('A' <= s[i] <= 'Z')
  }

  /** A string with no capital letters is its own lowercase form. */
  lemma LowerIdentity(s: string)
    requires NoCapitals(s)
    ensures Lower(s) == s
  {
  }

  /** A string that lacks one of the characters of `sub` does not contain it. */
  lemma NotContained(s: string, sub: string, j: nat)
    requires j < |sub| && forall i :: 0 <= i < |s| ==> s[i] != sub[j]
    ensures !Contains(s, sub)
  {
    forall i | 0 <= i <= |s|
      ensures !StartsWith(s[i..], sub)
    {
      if i + |sub| <= |s| {
        assert s[i..][..|sub|][j] == s[i + j];
      }
    }
  }

  /** The first index at or after `i` that does not hold white space. */
  function SkipSpace(s: string, i: nat): (k: nat)
    requires i <= |s|
    ensures i <= k <= |s|
    ensures forall j :: i <= j < k ==> IsSpace(s[j])
    ensures k == |s| || !IsSpace(s[k])
    decreases |s| - i
  {
    if i < |s| && IsSpace(s[i]) then SkipSpace(s, i + 1) else i
  }

  /** `SkipSpace` is the only index with its two properties. */
  lemma SkipSpaceUnique(s: string, i: nat, k: nat)
    requires i <= k <= |s|
    requires forall j :: i <= j < k ==> IsSpace(s[j])
    requires k == |s| || !IsSpace(s[k])
    ensures SkipSpace(s, i) == k
  {
  }

  /** The length of `s.rstrip()`. */
  function TrimmedEnd(s: string): (e: nat)
    ensures e <= |s|
    ensures forall j :: e <= j < |s| ==> IsSpace(s[j])
    ensures e == 0 || !IsSpace(s[e - 1])
  {
    if s != [] && IsSpace(s[|s| - 1]) then TrimmedEnd(s[..|s| - 1]) else |s|
  }

  /** `s.strip()`: the slice of `s` between its leading and its trailing
      white space. */
  function Strip(s: string): (r: string)
    ensures r == [] <==> AllSpace(s)
    ensures r != [] ==> !IsSpace(r[0]) && !IsSpace(r[|r| - 1])
    ensures SkipSpace(s, 0) + |r| <= |s| && r == s[SkipSpace(s, 0)..SkipSpace(s, 0) + |r|]
  {
    var a := SkipSpace(s, 0);
    if a == |s| then [] else s[a..TrimmedEnd(s)]
  }

  /** Leading white space does not change what `strip` returns. */
  lemma StripLeadingSpace(c: char, s: string)
    requires IsSpace(c)
    ensures Strip([c] + s) == Strip(s)
  {
    if SkipSpace(s, 0) < |s| {
      StripLeadingSpaceSome(c, s);
    } else {
      SkipSpaceShift(c, s, 0);
      assert SkipSpace([c] + s, 0) == |[c] + s| by { assert ([c] + s)[0] == c; }
    }
  }

  lemma StripLeadingSpaceSome(c: char, s: string)
    requires IsSpace(c) && SkipSpace(s, 0) < |s|
    ensures Strip([c] + s) == Strip(s)
  {
    var t := [c] + s;
    SkipSpaceShift(c, s, 0);
    SkipLeadingSpace(t);
    NotAllSpace(s);
    TrimmedEndShift(c, s);
    var a, e := SkipSpace(s, 0), TrimmedEnd(s);
    ConsSlice(c, s, a, e);
    StripShift(t, s, a, e);
  }

  /** Two texts whose stripped slices coincide strip to the same text. */
  lemma StripShift(t: string, s: string, a: nat, e: nat)
    requires SkipSpace(t, 0) < |t| && SkipSpace(s, 0) < |s|
    requires SkipSpace(t, 0) == a + 1 && TrimmedEnd(t) == e + 1 && SkipSpace(s, 0) == a && TrimmedEnd(s) == e
    requires a <= e && e + 1 <= |t| && t[a + 1..e + 1] == s[a..e]
    ensures Strip(t) == Strip(s)
  {
    StripUnfold(t);
    StripUnfold(s);
  }

  lemma SkipLeadingSpace(s: string)
    requires s != [] && IsSpace(s[0])
    ensures SkipSpace(s, 0) == SkipSpace(s, 1)
  {
  }

  /** Text that is not all white space has its first character that is not
      white space before its last one. */
  lemma NotAllSpace(s: string)
    requires SkipSpace(s, 0) < |s|
    ensures !AllSpace(s) && SkipSpace(s, 0) < TrimmedEnd(s)
  {
    assert !IsSpace(s[SkipSpace(s, 0)]);
  }

  lemma StripUnfold(s: string)
    requires SkipSpace(s, 0) < |s|
    ensures SkipSpace(s, 0) < TrimmedEnd(s) && Strip(s) == s[SkipSpace(s, 0)..TrimmedEnd(s)]
  {
    NotAllSpace(s);
  }

  lemma ConsSlice(c: char, s: string, a: nat, e: nat)
    requires a <= e <= |s|
    ensures ([c] + s)[a + 1..e + 1] == s[a..e]
  {
  }

  lemma {:induction false} SkipSpaceShift(c: char, s: string, i: nat)
    requires i <= |s|
    ensures SkipSpace([c] + s, i + 1) == SkipSpace(s, i) + 1
    decreases |s| - i
  {
    assert ([c] + s)[i + 1..] == s[i..];
    if i < |s| && IsSpace(s[i]) {
      SkipSpaceShift(c, s, i + 1);
    }
  }

  lemma {:induction false} TrimmedEndShift(c: char, s: string)
    requires !AllSpace(s)
    ensures TrimmedEnd([c] + s) == TrimmedEnd(s) + 1
  {
    var t := [c] + s;
    if IsSpace(s[|s| - 1]) {
      assert t[..|t| - 1] == [c] + s[..|s| - 1];
      var k :| 0 <= k < |s| && !IsSpace(s[k]);
      assert k < |s| - 1 && s[..|s| - 1][k] == s[k];
      TrimmedEndShift(c, s[..|s| - 1]);
    }
  }

  lemma StripOfStripped(s: string)
    requires s == [] || (!IsSpace(s[0]) && !IsSpace(s[|s| - 1]))
    ensures Strip(s) == s
  {
  }

  /** Stripping only removes characters: none outside the text appears. */
  lemma StripAvoids(s: string, cs: set<char>)
    requires forall i :: 0 <= i < |s| ==> s[i] !in cs
    ensures forall i :: 0 <= i < |Strip(s)| ==> Strip(s)[i] !in cs
  {
    var a, r := SkipSpace(s, 0), Strip(s);
    assert forall i :: 0 <= i < |r| ==> r[i] == s[a + i];
  }

  /** `re.sub(r'\s+', ' ', s)`: every maximal run of white space becomes one
      blank. */
  function CollapseSpace(s: string): (r: string)
    ensures |r| <= |s|
    ensures forall i :: 0 <= i < |r| && IsSpace(r[i]) ==> r[i] == ' '
    ensures forall i :: 0 <= i < |r| - 1 ==> !(r[i] == ' ' && r[i + 1] == ' ')
    ensures r != [] && s != [] ==> (IsSpace(r[0]) <==> IsSpace(s[0]))
    decreases |s|
  {
    if s == [] then []
    else if IsSpace(s[0]) then
      var k := SkipSpace(s, 0);
      var rest := CollapseSpace(s[k..]);
      assert rest != [] ==> !IsSpace(rest[0]);
      " " + rest
    else
      [s[0]] + CollapseSpace(s[1..])
  }

  /** `re.sub(r'\s+', ' ', s).strip()`: single blanks between words, none at
      either end. */
  function NormalizeSpace(s: string): (r: string)
    ensures r == [] || (!IsSpace(r[0]) && !IsSpace(r[|r| - 1]))
    ensures forall i :: 0 <= i < |r| && IsSpace(r[i]) ==> r[i] == ' '
    ensures forall i :: 0 <= i < |r| - 1 ==> !(r[i] == ' ' && r[i + 1] == ' ')
  {
    var c := CollapseSpace(s);
    SliceKeeps(c, SkipSpace(c, 0), SkipSpace(c, 0) + |Strip(c)|);
    Strip(c)
  }

  lemma SliceKeeps(c: string, a: nat, b: nat)
    requires a <= b <= |c|
    requires forall i :: 0 <= i < |c| && IsSpace(c[i]) ==> c[i] == ' '
    requires forall i :: 0 <= i < |c| - 1 ==> !(c[i] == ' ' && c[i + 1] == ' ')
    ensures forall i :: 0 <= i < b - a && IsSpace(c[a..b][i]) ==> c[a..b][i] == ' '
    ensures forall i :: 0 <= i < b - a - 1 ==> !(c[a..b][i] == ' ' && c[a..b][i + 1] == ' ')
  {
  }

  /** Text with single blanks between words and none at the ends is left as
      it is; in particular normalising twice is normalising once. */
  lemma NormalizeFixed(s: string)
    requires s == [] || (!IsSpace(s[0]) && !IsSpace(s[|s| - 1]))
    requires forall i :: 0 <= i < |s| && IsSpace(s[i]) ==> s[i] == ' '
    requires forall i :: 0 <= i < |s| - 1 ==> !(s[i] == ' ' && s[i + 1] == ' ')
    ensures NormalizeSpace(s) == s
  {
    CollapseFixed(s);
    StripOfStripped(s);
  }

  lemma {:induction false} CollapseFixed(s: string)
    requires forall i :: 0 <= i < |s| && IsSpace(s[i]) ==> s[i] == ' '
    requires forall i :: 0 <= i < |s| - 1 ==> !(s[i] == ' ' && s[i + 1] == ' ')
    ensures CollapseSpace(s) == s
  {
    if s != [] {
      if IsSpace(s[0]) {
        SkipSpaceUnique(s, 0, 1);
      }
      CollapseFixed(s[1..]);
    }
  }

  lemma NormalizeIdempotent(s: string)
    ensures NormalizeSpace(NormalizeSpace(s)) == NormalizeSpace(s)
  {
    NormalizeFixed(NormalizeSpace(s));
  }

  /** White space in front of the text makes no difference to
      `re.sub(r'\s+', ' ', s).strip()`. */
  lemma NormalizeSkipsLeadingSpace(x: string, k: nat)
    requires k <= |x| && forall j :: 0 <= j < k ==> IsSpace(x[j])
    ensures NormalizeSpace(x[k..]) == NormalizeSpace(x)
  {
    if k > 0 {
      var y, m := x[k..], SkipSpace(x, 0);
      CollapseLeading(x);
      if y == [] {
        AllSpaceNormal(x);
      } else if IsSpace(y[0]) {
        assert SkipSpace(y, 0) == m - k && y[m - k..] == x[m..] by {
          SkipSpaceUnique(y, 0, m - k) by {
            forall j | 0 <= j < m - k ensures IsSpace(y[j]) { assert y[j] == x[k + j]; }
          }
        }
        CollapseLeading(y);
      } else {
        SkipSpaceUnique(x, 0, k);
        StripLeadingSpace(' ', CollapseSpace(y));
      }
    }
  }

  /** A run of white space at the front collapses to one blank. */
  lemma CollapseLeading(x: string)
    requires x != [] && IsSpace(x[0])
    ensures CollapseSpace(x) == [' '] + CollapseSpace(x[SkipSpace(x, 0)..])
  {
  }

  /** Text made only of white space normalises to nothing. */
  lemma AllSpaceNormal(x: string)
    requires x != [] && IsSpace(x[0]) && SkipSpace(x, 0) == |x|
    ensures NormalizeSpace(x) == []
  {
    CollapseLeading(x);
    assert x[|x|..] == [];
    assert CollapseSpace(x) == [' '];
  }

  /** `s.split(sep)`: the pieces between the separator characters, always at
      least one. */
  function Split(s: string, seps: set<char>): (r: seq<string>)
    ensures |r| >= 1
    ensures forall k, i :: 0 <= k < |r| && 0 <= i < |r[k]| ==> r[k][i] !in seps
  {
    if s == [] then [[]]
    else if s[0] in seps then [[]] + Split(s[1..], seps)
    else
      var rest := Split(s[1..], seps);
      [[s[0]] + rest[0]] + rest[1..]
  }

  /** Text without separators is one piece. */
  lemma {:induction false} SplitNoSeps(a: string, seps: set<char>)
    requires forall i :: 0 <= i < |a| ==> a[i] !in seps
    ensures Split(a, seps) == [a]
  {
    if a != [] {
      SplitNoSeps(a[1..], seps);
      assert [a[0]] + a[1..] == a;
    }
  }

  /** The pieces of `[x] + u` from the pieces of `u`: a separator starts
      a new empty piece, any other character joins the first piece. */
  function PushChar(x: char, r: seq<string>, seps: set<char>): seq<string>
    requires |r| >= 1
  {
    if x in seps then [[]] + r else [[x] + r[0]] + r[1..]
  }

  lemma SplitCons(x: char, u: string, seps: set<char>)
    ensures Split([x] + u, seps) == PushChar(x, Split(u, seps), seps)
  {
    assert ([x] + u)[1..] == u;
  }

  lemma PushCharAppend(x: char, ra: seq<string>, rb: seq<string>, seps: set<char>)
    requires |ra| >= 1
    ensures PushChar(x, ra + rb, seps) == PushChar(x, ra, seps) + rb
  {
    if x !in seps {
      assert (ra + rb)[1..] == ra[1..] + rb;
    }
  }

  /** A separator cuts the text into the pieces of either side. */
  lemma {:induction false} SplitAppendSep(a: string, c: char, b: string, seps: set<char>)
    requires c in seps
    ensures Split(a + [c] + b, seps) == Split(a, seps) + Split(b, seps)
  {
    if a == [] {
      assert a + [c] + b == [c] + b;
      SplitCons(c, b, seps);
    } else {
      var u := a[1..];
      assert a + [c] + b == [a[0]] + (u + [c] + b);
      assert a == [a[0]] + u;
      SplitAppendSep(u, c, b, seps);
      SplitCons(a[0], u + [c] + b, seps);
      SplitCons(a[0], u, seps);
      PushCharAppend(a[0], Split(u, seps), Split(b, seps), seps);
    }
  }

  /** `sep.join(parts)`. */
  function Join(sep: string, parts: seq<string>): string {
    if parts == [] then []
    else if |parts| == 1 then parts[0]
    else parts[0] + sep + Join(sep, parts[1..])
  }

  /** Splitting on one character and joining with it gives the text back. */
  lemma {:induction false} JoinSplit(s: string, c: char)
    ensures Join([c], Split(s, {c})) == s
  {
    if s == [] {
    } else if s[0] == c {
      JoinSplit(s[1..], c);
      var rest := Split(s[1..], {c});
      assert Split(s, {c}) == [[]] + rest;
      assert Join([c], [[]] + rest) == [] + [c] + Join([c], rest);
    } else {
      JoinSplit(s[1..], c);
      var rest := Split(s[1..], {c});
      if |rest| == 1 {
        assert Split(s, {c}) == [[s[0]] + rest[0]];
      } else {
        assert Split(s, {c}) == [[s[0]] + rest[0]] + rest[1..];
        assert Join([c], rest) == rest[0] + [c] + Join([c], rest[1..]);
      }
    }
  }

  /** `str(n)` for a natural number. */
  function NatToString(n: nat): (r: string)
    ensures |r| >= 1
    ensures forall i :: 0 <= i < |r| ==> '0' <= r[i] <= '9'
  {
    if n < 10 then [Digit(n)] else NatToString(n / 10) + [Digit(n % 10)]
  }

  function Digit(d: nat): (c: char)
    requires d < 10
    ensures '0' <= c <= '9' && c as int - '0' as int == d
  {
    ('0' as int + d) as char
  }

  /** `str(i)` for an integer. */
  function IntToString(i: int): (r: string)
    ensures |r| >= 1
    ensures (r[0] == '-') <==> i < 0
  {
    if i < 0 then "-" + NatToString(-i) else NatToString(i)
  }

  /** Python's `a <= b` on strings: lexicographic order of code points. */
  predicate StrLe(a: string, b: string) {
    if a == [] then true
    else if b == [] then false
    else if a[0] != b[0] then a[0] < b[0]
    else StrLe(a[1..], b[1..])
  }

  lemma {:induction false} StrLeTotal(a: string, b: string)
    ensures StrLe(a, b) || StrLe(b, a)
  {
    if a != [] && b != [] && a[0] == b[0] {
      StrLeTotal(a[1..], b[1..]);
    }
  }

  lemma {:induction false} StrLeTransitive(a: string, b: string, c: string)
    requires StrLe(a, b) && StrLe(b, c)
    ensures StrLe(a, c)
  {
    if a != [] && b != [] && c != [] && a[0] == b[0] && b[0] == c[0] {
      StrLeTransitive(a[1..], b[1..], c[1..]);
    }
  }

  lemma {:induction false} StrLeAntisymmetric(a: string, b: string)
    requires StrLe(a, b) && StrLe(b, a)
    ensures a == b
  {
    if a != [] && b != [] {
      StrLeAntisymmetric(a[1..], b[1..]);
      assert a == [a[0]] + a[1..] && b == [b[0]] + b[1..];
    }
  }
}
