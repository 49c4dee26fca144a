/** The string operations of the program: `str.endswith`, the substring test
    `x in s`, `os.path.join` (POSIX form) and `str.join`. */
module Text {

  predicate StartsWith(s: string, prefix: string) {
    |prefix| <= |s| && s[..|prefix|] == prefix
  }

  /** `s.endswith(suffix)`. */
  predicate EndsWith(s: string, suffix: string) {
    |suffix| <= |s| && s[|s| - |suffix|..] == suffix
  }

  /** `needle` occurs in `hay` starting at index i. */
  ghost predicate OccursAt(hay: string, needle: string, i: int) {
    0 <= i && i + |needle| <= |hay| && hay[i..i + |needle|] == needle
  }

  /** `needle in hay` on strings: a substring test. */
  function Contains(hay: string, needle: string): bool
    decreases |hay|
  {
    StartsWith(hay, needle) || (|hay| > 0 && Contains(hay[1..], needle))
  }

  lemma {:induction false} ContainsOccurs(hay: string, needle: string)
    requires Contains(hay, needle)
    ensures exists i :: OccursAt(hay, needle, i)
    decreases |hay|
  {
    if StartsWith(hay, needle) {
      assert OccursAt(hay, needle, 0);
    } else {
      ContainsOccurs(hay[1..], needle);
      var i :| OccursAt(hay[1..], needle, i);
      assert hay[1..][i..i + |needle|] == hay[i + 1..i + 1 + |needle|];
      assert OccursAt(hay, needle, i + 1);
    }
  }

  lemma {:induction false} OccursContains(hay: string, needle: string, i: int)
    requires OccursAt(hay, needle, i)
    ensures Contains(hay, needle)
    decreases i
  {
    if i > 0 {
      assert hay[1..][i - 1..i - 1 + |needle|] == hay[i..i + |needle|];
      OccursContains(hay[1..], needle, i - 1);
    }
  }

  /** Contains holds exactly when the needle occurs at some position. */
  lemma ContainsIff(hay: string, needle: string)
    ensures Contains(hay, needle) <==> exists i :: OccursAt(hay, needle, i)
  {
    if Contains(hay, needle) {
      ContainsOccurs(hay, needle);
    }
    if exists i :: OccursAt(hay, needle, i) {
      var i :| OccursAt(hay, needle, i);
      OccursContains(hay, needle, i);
    }
  }

  /** The part `os.path.join(a, b)` puts before a relative `b`. */
  function DirPrefix(a: string): string {
    if a == [] || EndsWith(a, "/") then a else a + "/"
  }

  /** `os.path.join(a, b)` with the POSIX separator: an absolute `b` replaces
      `a`, otherwise a separator is inserted unless `a` is empty or ends with one. */
  function JoinPath(a: string, b: string): string {
    if StartsWith(b, "/") then b
    else if a == [] || EndsWith(a, "/") then a + b
    else a + "/" + b
  }

  /** The joined path always ends with `b`; for a relative `b` it starts with
      `a` and adds at most the one separator between them. */
  lemma JoinPathShape(a: string, b: string)
    ensures var r := JoinPath(a, b);
      && EndsWith(r, b)
      && (!StartsWith(b, "/") ==> StartsWith(r, a) && |a| + |b| <= |r| <= |a| + |b| + 1)
      && (StartsWith(b, "/") ==> r == b)
  {
  }

  /** Joining distinct relative names onto one folder gives distinct paths. */
  lemma JoinPathInjective(a: string, x: string, y: string)
    requires !StartsWith(x, "/") && !StartsWith(y, "/")
    requires JoinPath(a, x) == JoinPath(a, y)
    ensures x == y
  {
    var p := DirPrefix(a);
    assert x == (p + x)[|p|..] && y == (p + y)[|p|..];
  }

  /** `sep.join(xs)`. */
  function JoinWith(sep: string, xs: seq<string>): string
  {
    if |xs| == 0 then ""
    else if |xs| == 1 then xs[0]
    else xs[0] + sep + JoinWith(sep, xs[1..])
  }

  /** A needle found in a string is still found after text is appended to it. */
  lemma {:induction false} ContainsBefore(hay: string, post: string, needle: string)
    requires Contains(hay, needle)
    ensures Contains(hay + post, needle)
    decreases |hay|
  {
    if StartsWith(hay, needle) {
      assert (hay + post)[..|needle|] == hay[..|needle|];
    } else {
      ContainsBefore(hay[1..], post, needle);
      assert (hay + post)[1..] == hay[1..] + post;
    }
  }

  /** A needle found in a string is still found after a prefix is put before it. */
  lemma {:induction false} ContainsAfter(pre: string, rest: string, needle: string)
    requires Contains(rest, needle)
    ensures Contains(pre + rest, needle)
    decreases |pre|
  {
    if pre == [] {
      assert pre + rest == rest;
    } else {
      ContainsAfter(pre[1..], rest, needle);
      assert (pre + rest)[1..] == pre[1..] + rest;
    }
  }

  /** Every joined item appears in the joined string. */
  lemma {:induction false} JoinWithContains(sep: string, xs: seq<string>, x: string)
    requires x in xs
    ensures Contains(JoinWith(sep, xs), x)
  {
    assert Contains(x, x);
    if |xs| > 1 {
      if xs[0] == x {
        ContainsBefore(x, sep, x);
        ContainsBefore(x + sep, JoinWith(sep, xs[1..]), x);
      } else {
        JoinWithContains(sep, xs[1..], x);
        ContainsAfter(xs[0] + sep, JoinWith(sep, xs[1..]), x);
      }
    }
  }
}
