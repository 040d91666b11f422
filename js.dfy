/** The JavaScript string and array built-ins the core relies on, with their
    ECMAScript semantics written out: `slice` with negative indices, `join`,
    `trim`/`trimEnd`, `toLowerCase`/`toUpperCase` (ASCII letters only), number
    formatting of naturals, and the insertion-ordered `Set` used for de-duplication. */
module Js {

  /** `s.slice(start)`: a negative start counts from the end; `slice(-0)` is `slice(0)`. */
  function SliceFrom<T>(s: seq<T>, start: int): (r: seq<T>)
    ensures start >= 0 ==> r == s[(if start <= |s| then start else |s|)..]
    ensures start < 0 ==> r == s[(if |s| + start >= 0 then |s| + start else 0)..]
    ensures |r| <= |s| && r == s[|s| - |r|..]
  {
    var b := if start >= 0 then (if start <= |s| then start else |s|)
             else (if |s| + start >= 0 then |s| + start else 0);
    s[b..]
  }

  /** `s.slice(0, end)`: a negative end counts from the end. */
  function SliceTo<T>(s: seq<T>, end: int): (r: seq<T>)
    ensures end >= 0 ==> r == s[..(if end <= |s| then end else |s|)]
    ensures end < 0 ==> r == s[..(if |s| + end >= 0 then |s| + end else 0)]
    ensures |r| <= |s| && r == s[..|r|]
  {
    var e := if end >= 0 then (if end <= |s| then end else |s|)
             else (if |s| + end >= 0 then |s| + end else 0);
    s[..e]
  }

  /** `parts.join(sep)`. */
  function Join(parts: seq<string>, sep: string): (r: string)
  {
    if |parts| == 0 then ""
    else if |parts| == 1 then parts[0]
    else Join(parts[..|parts| - 1], sep) + sep + parts[|parts| - 1]
  }

  lemma {:induction false} JoinLength(parts: seq<string>, sep: string)
    requires |parts| > 0
    ensures |Join(parts, sep)| == SumLengths(parts) + (|parts| - 1) * |sep|
  {
    if |parts| > 1 {
      JoinLength(parts[..|parts| - 1], sep);
      assert SumLengths(parts) == SumLengths(parts[..|parts| - 1]) + |parts[|parts| - 1]|;
    }
  }

  function SumLengths(parts: seq<string>): nat
  {
    if parts == [] then 0 else SumLengths(parts[..|parts| - 1]) + |parts[|parts| - 1]|
  }

  /** ECMAScript WhiteSpace and LineTerminator code points, which `trim` removes. */
  predicate IsSpace(c: char)
  {
    c == '\t' || c == '\n' || c == '\U{000B}' || c == '\U{000C}' || c == '\r' || c == ' '
    || c == '\U{00A0}' || c == '\U{1680}' || ('\U{2000}' <= c <= '\U{200A}')
    || c == '\U{2028}' || c == '\U{2029}' || c == '\U{202F}' || c == '\U{205F}'
    || c == '\U{3000}' || c == '\U{FEFF}'
  }

  /** `s.trimEnd()`: the longest prefix that does not end in white space. */
  function TrimEnd(s: string): (r: string)
    ensures |r| <= |s| && r == s[..|r|]
    ensures r == [] || !IsSpace(r[|r| - 1])
    ensures forall i :: |r| <= i < |s| ==> IsSpace(s[i])
  {
    if s != [] && IsSpace(s[|s| - 1]) then
      var r := TrimEnd(s[..|s| - 1]);
      assert forall i :: |r| <= i < |s| - 1 ==> s[i] == s[..|s| - 1][i];
      r
    else s
  }

  /** `s.trimStart()`: the longest suffix that does not start with white space. */
  function TrimStart(s: string): (r: string)
    ensures |r| <= |s| && r == s[|s| - |r|..]
    ensures r == [] || !IsSpace(r[0])
    ensures forall i :: 0 <= i < |s| - |r| ==> IsSpace(s[i])
  {
    if s != [] && IsSpace(s[0]) then
      var r := TrimStart(s[1..]);
      assert forall i :: 1 <= i < |s| - |r| ==> s[i] == s[1..][i - 1];
      r
    else s
  }

  /** `s.trim()`. */
  function Trim(s: string): (r: string)
    ensures |r| <= |s|
    ensures r == [] || (!IsSpace(r[0]) && !IsSpace(r[|r| - 1]))
    ensures exists k :: Padded(s, k, r)
  {
    TrimPadded(s);
    TrimStart(TrimEnd(s))
  }

  /** The white space `Trim` removes from the front is what `TrimStart` drops. */
  lemma TrimPadded(s: string)
    ensures var e := TrimEnd(s); Padded(s, |e| - |TrimStart(e)|, TrimStart(e))
  {
    PaddedOf(s, TrimEnd(s), TrimStart(TrimEnd(s)));
  }

  /** A prefix `e` of `s` followed by white space, and a suffix `r` of `e`
      preceded by white space: `s` is `r` padded. */
  lemma PaddedOf(s: string, e: string, r: string)
    requires |e| <= |s| && e == s[..|e|] && forall i :: |e| <= i < |s| ==> IsSpace(s[i])
    requires |r| <= |e| && r == e[|e| - |r|..] && forall i :: 0 <= i < |e| - |r| ==> IsSpace(e[i])
    ensures Padded(s, |e| - |r|, r)
  {
    var k := |e| - |r|;
    assert r == s[k..k + |r|];
    forall i | 0 <= i < k
      ensures IsSpace(s[i])
    {
      assert s[i] == e[i];
    }
  }

  /** `s` is `r` with only white space before it (the first `k` characters)
      and after it. */
  predicate Padded(s: string, k: int, r: string)
  {
    && 0 <= k <= |s| - |r| && r == s[k..k + |r|]
    && (forall i :: 0 <= i < k ==> IsSpace(s[i]))
    && (forall i :: k + |r| <= i < |s| ==> IsSpace(s[i]))
  }

  /** A string with no white space at either end is its own trim. */
  lemma TrimOfTrimmed(s: string)
    requires s == [] || (!IsSpace(s[0]) && !IsSpace(s[|s| - 1]))
    ensures Trim(s) == s
  {
  }

  /** Trimming twice is trimming once. */
  lemma TrimIdempotent(s: string)
    ensures Trim(Trim(s)) == Trim(s)
  {
    TrimOfTrimmed(Trim(s));
  }

  function LowerChar(c: char): char
  {
    if 'A' <= c <= 'Z' then (c as int + 32) as char else c
  }

  function UpperChar(c: char): char
  {
    if 'a' <= c <= 'z' then (c as int - 32) as char else c
  }

  /** `s.toLowerCase()` restricted to ASCII letters. */
  function ToLower(s: string): (r: string)
    ensures |r| == |s|
    ensures forall i :: 0 <= i < |s| ==> r[i] == LowerChar(s[i])
  {
    if s == [] then [] else ToLower(s[..|s| - 1]) + [LowerChar(s[|s| - 1])]
  }

  /** `s.toUpperCase()` restricted to ASCII letters. */
  function ToUpper(s: string): (r: string)
    ensures |r| == |s|
    ensures forall i :: 0 <= i < |s| ==> r[i] == UpperChar(s[i])
  {
    if s == [] then [] else ToUpper(s[..|s| - 1]) + [UpperChar(s[|s| - 1])]
  }

  /** Decimal rendering of a natural number, as template literals print it. */
  function NatToString(n: nat): (r: string)
    ensures |r| >= 1
    ensures forall i :: 0 <= i < |r| ==> '0' <= r[i] <= '9'
  {
    var d := ['0' + (n % 10) as char];
    if n < 10 then d else NatToString(n / 10) + d
  }

  ghost predicate Distinct<T>(s: seq<T>)
  {
    forall i, j :: 0 <= i < j < |s| ==> s[i] != s[j]
  }

  /** `Array.from(new Set(s))`: the elements of `s` without repeats, in order of
      first occurrence. */
  function Dedup<T(==)>(s: seq<T>): (r: seq<T>)
    ensures forall i :: 0 <= i < |s| ==> s[i] in r
    ensures forall i :: 0 <= i < |r| ==> r[i] in s
    ensures Distinct(r)
  {
    if s == [] then []
    else
      var d := Dedup(s[..|s| - 1]);
      if s[|s| - 1] in d then d else d + [s[|s| - 1]]
  }

  /** `s.filter(p)`: the elements satisfying `p`, in their original order. */
  function Filter<T>(s: seq<T>, p: T -> bool): (r: seq<T>)
    ensures |r| <= |s|
    ensures forall i :: 0 <= i < |r| ==> r[i] in s && p(r[i])
    ensures forall i :: 0 <= i < |s| && p(s[i]) ==> s[i] in r
    ensures multiset(r) <= multiset(s)
  {
    if s == [] then []
    else
      var f := Filter(s[..|s| - 1], p);
      assert s == s[..|s| - 1] + [s[|s| - 1]];
      if p(s[|s| - 1]) then f + [s[|s| - 1]] else f
  }

  /** Slicing a sequence up to its length gives the sequence back. */
  lemma WholeSlice<T>(s: seq<T>)
    ensures s[..|s|] == s
  {
  }

  /** A prefix of a prefix is a prefix. */
  lemma PrefixSlice<T>(s: seq<T>, i: int, j: int)
    requires 0 <= i <= j <= |s|
    ensures s[..j][..i] == s[..i]
  {
  }

  /** An element is kept by a filter exactly when it occurs in the input and passes. */
  lemma FilterContains<T>(s: seq<T>, p: T -> bool)
    ensures forall x :: x in Filter(s, p) <==> x in s && p(x)
  {
    forall x | x in s && p(x) ensures x in Filter(s, p) {
      var i :| 0 <= i < |s| && s[i] == x;
    }
  }

  /** Nothing passes a filter that rejects every element. */
  lemma {:induction false} FilterNone<T>(s: seq<T>, p: T -> bool)
    requires forall i :: 0 <= i < |s| ==> !p(s[i])
    ensures Filter(s, p) == []
  {
    if s != [] {
      FilterNone(s[..|s| - 1], p);
    }
  }

  /** Filtering keeps a key that was unique unique. */
  lemma {:induction false} FilterUniqueKeys<T, K>(s: seq<T>, p: T -> bool, k: T -> K)
    requires forall i, j :: 0 <= i < j < |s| ==> k(s[i]) != k(s[j])
    ensures forall i, j :: 0 <= i < j < |Filter(s, p)| ==> k(Filter(s, p)[i]) != k(Filter(s, p)[j])
  {
    if s != [] {
      var init := s[..|s| - 1];
      var last := s[|s| - 1];
      var f := Filter(init, p);
      FilterUniqueKeys(init, p, k);
      assert Filter(s, p) == if p(last) then f + [last] else f;
      forall i | 0 <= i < |f| ensures k(f[i]) != k(last) {
        var n :| 0 <= n < |init| && init[n] == f[i];
        assert s[n] == f[i];
      }
    }
  }

  /** The first occurrence of `x` in `s`. */
  function IndexOf<T(==)>(s: seq<T>, x: T): (i: nat)
    requires x in s
    ensures i < |s| && s[i] == x && x !in s[..i]
  {
    if s[0] == x then 0 else 1 + IndexOf(s[1..], x)
  }

  /** De-duplication keeps the order of first occurrences. */
  lemma {:induction false} DedupKeepsFirstOccurrenceOrder<T>(s: seq<T>, i: nat, j: nat)
    requires i < j < |Dedup(s)|
    ensures IndexOf(s, Dedup(s)[i]) < IndexOf(s, Dedup(s)[j])
  {
    var d := Dedup(s[..|s| - 1]);
    var p := s[..|s| - 1];
    var x, y := Dedup(s)[i], Dedup(s)[j];
    if s[|s| - 1] in d {
      DedupKeepsFirstOccurrenceOrder(p, i, j);
      IndexOfPrefix(s, p, x);
      IndexOfPrefix(s, p, y);
    } else if j < |d| {
      DedupKeepsFirstOccurrenceOrder(p, i, j);
      IndexOfPrefix(s, p, x);
      IndexOfPrefix(s, p, y);
    } else {
      assert y == s[|s| - 1] && y !in p;
      IndexOfPrefix(s, p, x);
      assert IndexOf(s, x) < |p|;
      assert IndexOf(s, y) == |p| by {
        assert s[..|p|] == p;
      }
    }
  }

  lemma IndexOfPrefix<T>(s: seq<T>, p: seq<T>, x: T)
    requires |p| <= |s| && p == s[..|p|] && x in p
    ensures IndexOf(s, x) == IndexOf(p, x) < |p|
  {
    if s[0] != x {
      IndexOfPrefix(s[1..], p[1..], x);
    }
  }

  // ---- text.split(/\n\n+/) ----------------------------------------------------------

  /** The text after its leading line feeds. */
  function DropNewlines(s: string): (r: string)
    ensures |r| <= |s| && r == s[|s| - |r|..]
    ensures r == [] || r[0] != '\n'
    ensures s != [] && s[0] == '\n' ==> |r| < |s|
    ensures forall i :: 0 <= i < |s| - |r| ==> s[i] == '\n'
  {
    if s != [] && s[0] == '\n' then
      var r := DropNewlines(s[1..]);
      assert forall i :: 1 <= i < |s| - |r| ==> s[i] == s[1..][i - 1];
      r
    else s
  }

  /** No two consecutive line feeds. */
  predicate NoBreak(p: string)
  {
    forall k :: 0 <= k < |p| - 1 ==> !(p[k] == '\n' && p[k + 1] == '\n')
  }

  /** `text.split(/\n\n+/)`: the leftmost run of two or more line feeds is a
      separator, consumed whole. The pieces hold no blank line, no piece after
      a separator starts with a line feed, and no piece before one ends with one. */
  function Paragraphs(s: string): (r: seq<string>)
    ensures |r| >= 1 && |r[0]| <= |s| && r[0] == s[..|r[0]|]
    ensures forall i :: 0 <= i < |r| ==> NoBreak(r[i])
    ensures forall i :: 1 <= i < |r| ==> r[i] == [] || r[i][0] != '\n'
    ensures forall i :: 0 <= i < |r| - 1 ==> r[i] == [] || r[i][|r[i]| - 1] != '\n'
    ensures |r| > 1 && r[0] == [] ==> |s| >= 2 && s[0] == '\n' && s[1] == '\n'
    decreases |s|
  {
    if s == [] then [""]
    else if |s| >= 2 && s[0] == '\n' && s[1] == '\n' then [""] + Paragraphs(DropNewlines(s))
    else
      var rest := Paragraphs(s[1..]);
      [[s[0]] + rest[0]] + rest[1..]
  }

  /** No run of three line feeds. */
  predicate NoLongBreak(s: string)
  {
    forall k :: 0 <= k < |s| - 2 ==> !(s[k] == '\n' && s[k + 1] == '\n' && s[k + 2] == '\n')
  }

  lemma {:induction false} JoinCons(p: string, ps: seq<string>, sep: string)
    requires ps != []
    ensures Join([p] + ps, sep) == p + sep + Join(ps, sep)
    decreases |ps|
  {
    if |ps| > 1 {
      var q := [p] + ps;
      assert q[..|q| - 1] == [p] + ps[..|ps| - 1];
      JoinCons(p, ps[..|ps| - 1], sep);
    }
  }

  /** Splitting a text with no run of three line feeds and joining the pieces
      with a blank line gives the text back. */
  lemma {:induction false} JoinParagraphs(s: string)
    requires NoLongBreak(s)
    ensures Join(Paragraphs(s), "\n\n") == s
    decreases |s|
  {
    if s == [] {
    } else if |s| >= 2 && s[0] == '\n' && s[1] == '\n' {
      var d := DropNewlines(s);
      assert d == s[2..] by {
        if |s| > 2 {
          assert s[2] != '\n';
        }
      }
      NoLongBreakSuffix(s, 2);
      JoinParagraphs(d);
      JoinCons("", Paragraphs(d), "\n\n");
    } else {
      var t := s[1..];
      NoLongBreakSuffix(s, 1);
      JoinParagraphs(t);
      JoinFirst(s[0], Paragraphs(t), "\n\n");
    }
  }

  lemma NoLongBreakSuffix(s: string, n: nat)
    requires NoLongBreak(s) && n <= |s|
    ensures NoLongBreak(s[n..])
  {
    var t := s[n..];
    forall k | 0 <= k < |t| - 2 ensures !(t[k] == '\n' && t[k + 1] == '\n' && t[k + 2] == '\n') {
      assert t[k] == s[k + n] && t[k + 1] == s[k + n + 1] && t[k + 2] == s[k + n + 2];
    }
  }

  /** A character put in front of the first piece is put in front of the join. */
  lemma JoinFirst(c: char, ps: seq<string>, sep: string)
    requires ps != []
    ensures Join([[c] + ps[0]] + ps[1..], sep) == [c] + Join(ps, sep)
  {
    if |ps| == 1 {
      assert [[c] + ps[0]] + ps[1..] == [[c] + ps[0]];
    } else {
      JoinCons(ps[0], ps[1..], sep);
      JoinCons([c] + ps[0], ps[1..], sep);
      assert ps == [ps[0]] + ps[1..];
    }
  }

}
