/** The string primitives the adapter borrows from Go's `strings` and `unicode`
    packages: `Join`, `TrimSpace` and `EqualFold`. */
module Text {

  /** Go's `strings.Join`: the parts in order, separated by `sep`. */
  function Join(parts: seq<string>, sep: string): string
  {
    if |parts| == 0 then ""
    else if |parts| == 1 then parts[0]
    else parts[0] + sep + Join(parts[1..], sep)
  }

  /** Every part preceded by `sep`, all concatenated: the tail of a join. */
  function Prefixed(parts: seq<string>, sep: string): string
  {
    if |parts| == 0 then "" else sep + parts[0] + Prefixed(parts[1..], sep)
  }

  /** The sum of the lengths of the parts. */
  function TotalLength(parts: seq<string>): nat
  {
    if |parts| == 0 then 0 else |parts[0]| + TotalLength(parts[1..])
  }

  /** A join is its first part followed by every later part behind a separator. */
  lemma {:induction false} JoinAsPrefixed(parts: seq<string>, sep: string)
    requires |parts| > 0
    ensures Join(parts, sep) == parts[0] + Prefixed(parts[1..], sep)
  {
    if |parts| > 1 {
      JoinAsPrefixed(parts[1..], sep);
      assert parts[1..][1..] == parts[2..];
    }
  }

  /** A join of parts starts with the first part and ends with the last one. */
  lemma {:induction false} JoinEnds(parts: seq<string>, sep: string)
    ensures |parts| > 0 ==> |parts[0]| <= |Join(parts, sep)| && Join(parts, sep)[..|parts[0]|] == parts[0]
    ensures |parts| > 0 ==> |parts[|parts| - 1]| <= |Join(parts, sep)|
    ensures |parts| > 0 ==>
      Join(parts, sep)[|Join(parts, sep)| - |parts[|parts| - 1]|..] == parts[|parts| - 1]
  {
    if |parts| > 1 {
      var rest := parts[1..];
      JoinEnds(rest, sep);
      var j := Join(rest, sep);
      var last := parts[|parts| - 1];
      assert rest[|rest| - 1] == last;
      assert Join(parts, sep) == (parts[0] + sep) + j;
    }
  }

  /** Prefixing distributes over concatenation of the part lists. */
  lemma {:induction false} PrefixedAppend(a: seq<string>, b: seq<string>, sep: string)
    ensures Prefixed(a + b, sep) == Prefixed(a, sep) + Prefixed(b, sep)
  {
    if |a| == 0 {
      assert a + b == b;
    } else {
      assert (a + b)[1..] == a[1..] + b;
      PrefixedAppend(a[1..], b, sep);
    }
  }

  /** Two joins of non-empty lists, glued by the separator, are one join. */
  lemma {:induction false} JoinConcat(a: seq<string>, b: seq<string>, sep: string)
    requires |a| > 0 && |b| > 0
    ensures Join(a + b, sep) == Join(a, sep) + sep + Join(b, sep)
  {
    assert (a + b)[0] == a[0];
    if |a| == 1 {
      assert (a + b)[1..] == b;
    } else {
      assert (a + b)[1..] == a[1..] + b;
      JoinConcat(a[1..], b, sep);
      Associative(a[0] + sep, Join(a[1..], sep) + sep, Join(b, sep));
      Associative(a[0] + sep, Join(a[1..], sep), sep);
    }
  }

  lemma Associative(x: string, y: string, z: string)
    ensures x + (y + z) == (x + y) + z
  {
  }

  /** A join of n parts is as long as the parts plus n - 1 separators. */
  lemma {:induction false} JoinLength(parts: seq<string>, sep: string)
    requires |parts| > 0
    ensures |Join(parts, sep)| == TotalLength(parts) + (|parts| - 1) * |sep|
  {
    if |parts| > 1 {
      JoinLength(parts[1..], sep);
    }
  }

  /** Joining parts that are all non-empty gives "" exactly when there are no parts. */
  lemma {:induction false} JoinEmptyIff(parts: seq<string>, sep: string)
    requires forall i :: 0 <= i < |parts| ==> parts[i] != ""
    ensures Join(parts, sep) == "" <==> |parts| == 0
  {
    if |parts| > 0 {
      JoinLength(parts, sep);
      assert TotalLength(parts) >= |parts[0]| > 0;
    }
  }

  /** Go's `unicode.IsSpace`: the Latin-1 spaces plus the Unicode White_Space
      characters outside Latin-1. */
  predicate IsSpace(c: char)
  {
    || c == ' ' || c == '\t' || c == '\n' || c == '\U{000B}' || c == '\U{000C}' || c == '\r'
    || c == '\U{0085}' || c == '\U{00A0}' || c == '\U{1680}'
    || ('\U{2000}' <= c <= '\U{200A}')
    || c == '\U{2028}' || c == '\U{2029}' || c == '\U{202F}' || c == '\U{205F}' || c == '\U{3000}'
  }

  predicate AllSpace(s: string)
  {
    forall i :: 0 <= i < |s| ==> IsSpace(s[i])
  }

  /** The number of white-space characters `s` starts with. */
  function LeadingSpaces(s: string): (n: nat)
    ensures n <= |s| && AllSpace(s[..n])
    ensures n < |s| ==> !IsSpace(s[n])
  {
    if |s| > 0 && IsSpace(s[0]) then
      var n := LeadingSpaces(s[1..]);
      assert s[..n + 1] == [s[0]] + s[1..][..n];
      n + 1
    else 0
  }

  /** One more trailing space extends the all-space suffix by one. */
  lemma TrailingStep(s: string, n: nat)
    requires |s| > 0 && IsSpace(s[|s| - 1])
    requires n <= |s| - 1 && AllSpace(s[..|s| - 1][|s| - 1 - n..])
    requires n < |s| - 1 ==> !IsSpace(s[..|s| - 1][|s| - 1 - n - 1])
    ensures AllSpace(s[|s| - (n + 1)..])
    ensures n + 1 < |s| ==> !IsSpace(s[|s| - (n + 1) - 1])
  {
    var t := s[..|s| - 1];
    var u := s[|s| - (n + 1)..];
    forall i | 0 <= i < |u| ensures IsSpace(u[i]) {
      if i < n {
        assert u[i] == t[|t| - n..][i];
      }
    }
    if n + 1 < |s| {
      assert s[|s| - (n + 1) - 1] == t[|t| - n - 1];
    }
  }

  /** The number of white-space characters `s` ends with. */
  function TrailingSpaces(s: string): (n: nat)
    ensures n <= |s| && AllSpace(s[|s| - n..])
    ensures n < |s| ==> !IsSpace(s[|s| - n - 1])
  {
    if |s| > 0 && IsSpace(s[|s| - 1]) then
      var n := TrailingSpaces(s[..|s| - 1]);
      TrailingStep(s, n);
      n + 1
    else 0
  }

  /** Go's `strings.TrimSpace`: `s` without leading and trailing white space. */
  function TrimSpace(s: string): (r: string)
    ensures var k := LeadingSpaces(s);
      && k + |r| <= |s| && r == s[k..k + |r|]
      && AllSpace(s[..k]) && AllSpace(s[k + |r|..])
    ensures r == "" <==> AllSpace(s)
    ensures r != "" ==> !IsSpace(r[0]) && !IsSpace(r[|r| - 1])
  {
    var k := LeadingSpaces(s);
    var l := s[k..];
    var r := l[..|l| - TrailingSpaces(l)];
    TrimCompose(s, l, r, k);
    r
  }

  /** Stripping an all-space prefix of length `k` and then an all-space suffix. */
  lemma TrimCompose(s: string, l: string, r: string, k: nat)
    requires k <= |s| && l == s[k..] && AllSpace(s[..k])
    requires |r| <= |l| && r == l[..|r|] && AllSpace(l[|r|..])
    requires l == "" || !IsSpace(l[0])
    ensures k + |r| <= |s| && r == s[k..k + |r|]
    ensures AllSpace(s[k + |r|..])
    ensures r == "" <==> AllSpace(s)
  {
    assert s[k + |r|..] == l[|r|..];
    if r == "" {
      assert l[|r|..] == l;
      assert l == "";
      assert s[..k] == s;
    } else {
      assert r[0] == l[0] == s[k];
    }
  }

  /** Trimming a string that has nothing to trim changes nothing. */
  lemma TrimSpaceUntouched(s: string)
    requires s == "" || (!IsSpace(s[0]) && !IsSpace(s[|s| - 1]))
    ensures TrimSpace(s) == s
  {
  }

  /** Trimming is idempotent. */
  lemma TrimSpaceIdempotent(s: string)
    ensures TrimSpace(TrimSpace(s)) == TrimSpace(s)
  {
    TrimSpaceUntouched(TrimSpace(s));
  }

  /** Simple case folding restricted to ASCII: upper-case letters to lower case. */
  function Fold(c: char): char
  {
    if 'A' <= c <= 'Z' then (c as int + 32) as char else c
  }

  /** The string with every ASCII upper-case letter lowered. */
  function Lower(s: string): (r: string)
    ensures |r| == |s|
    ensures forall i :: 0 <= i < |s| ==> r[i] == Fold(s[i])
  {
    if |s| == 0 then "" else [Fold(s[0])] + Lower(s[1..])
  }

  /** Go's `strings.EqualFold` for ASCII letters: equal up to letter case. */
  predicate EqualFold(a: string, b: string)
  {
    |a| == |b| && forall i :: 0 <= i < |a| ==> Fold(a[i]) == Fold(b[i])
  }

  /** Equal up to letter case is equal once both sides are lowered. */
  lemma EqualFoldLower(a: string, b: string)
    ensures EqualFold(a, b) <==> Lower(a) == Lower(b)
  {
    if Lower(a) == Lower(b) {
      assert forall i :: 0 <= i < |a| ==> Fold(a[i]) == Lower(a)[i] == Lower(b)[i] == Fold(b[i]);
    }
  }

  /** Case-insensitive equality is an equivalence relation. */
  lemma EqualFoldEquivalence(a: string, b: string, c: string)
    ensures EqualFold(a, a)
    ensures EqualFold(a, b) ==> EqualFold(b, a)
    ensures EqualFold(a, b) && EqualFold(b, c) ==> EqualFold(a, c)
  {
  }

  /** The number of occurrences of `c` in `s`. */
  function Count(s: string, c: char): nat
  {
    if |s| == 0 then 0 else (if s[0] == c then 1 else 0) + Count(s[1..], c)
  }
}
