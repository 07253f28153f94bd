/**
 * The part of Node's `path` module that the search relies on, over absolute paths held as lists
 * of segments: the root is `[]` and `/home/app` is `["home", "app"]`. Both `/` and `\` separate
 * segments; drive letters and UNC prefixes are not modelled.
 */
module Paths {
  import opened Wrappers
  import opened PathSeparator

  /** An absolute directory or file path, as its segments from the root. */
  type Path = seq<string>

  /** A segment as `path.resolve` leaves it: not empty, not `.` or `..`, and without separators. */
  predicate IsSegment(s: string) {
    s != "" && s != "." && s != ".." && SeparatorFree(s)
  }

  predicate IsWellFormed(p: Path) {
    forall i :: 0 <= i < |p| ==> IsSegment(p[i])
  }

  /** A path that `path.resolve` can produce, such as `process.cwd()`: every segment well-formed. */
  type Directory = p: Path | IsWellFormed(p) witness []

  /** `a` is `d` itself or one of its ancestors. */
  predicate IsAncestorOrSelf(a: Path, d: Path) {
    |a| <= |d| && d[..|a|] == a
  }

  /**
   * `path.dirname`: the parent directory; the root is its own parent, which is how the walk up
   * recognises the root. Every other path has a strictly shorter parent.
   */
  function Dirname(p: Path): (r: Path)
    ensures r == p <==> p == []
    ensures p != [] ==> |r| == |p| - 1 && IsAncestorOrSelf(r, p)
    ensures IsWellFormed(p) ==> IsWellFormed(r)
  {
    if p == [] then [] else p[..|p| - 1]
  }

  /** `path.basename`: the last segment, or the empty string for the root. */
  function Basename(p: Path): (r: string)
    ensures p == [] ==> r == ""
    ensures p != [] ==> Dirname(p) + [r] == p
    ensures IsWellFormed(p) && p != [] ==> IsSegment(r)
  {
    if p == [] then "" else p[|p| - 1]
  }

  /** The segments below the root, each preceded by `/`. */
  function Join(p: Path): (r: string)
    ensures r == [] <==> p == []
    ensures r != [] ==> r[0] == '/'
  {
    if p == [] then "" else "/" + p[0] + Join(p[1..])
  }

  /** The string form of an absolute path, with `/` separators: `/` for the root, `/a/b` otherwise. */
  function Render(p: Path): (r: string)
    ensures r != [] && r[0] == '/'
  {
    if p == [] then "/" else Join(p)
  }

  /** `path.isAbsolute`: the string starts at the root. */
  predicate IsAbsolute(s: string) {
    s != [] && IsSeparator(s[0])
  }

  /** The pieces of `s` between separators, empty pieces included. */
  function Split(s: string): (r: seq<string>)
    ensures |r| >= 1
    ensures forall i :: 0 <= i < |r| ==> SeparatorFree(r[i])
  {
    if s == [] then [""]
    else if IsSeparator(s[0]) then [""] + Split(s[1..])
    else
      var rest := Split(s[1..]);
      [[s[0]] + rest[0]] + rest[1..]
  }

  /** Applies the pieces of a relative path to `base`: empty pieces and `.` stay, `..` goes up. */
  function Navigate(base: Path, pieces: seq<string>): (r: Path)
    requires forall i :: 0 <= i < |pieces| ==> SeparatorFree(pieces[i])
    ensures IsWellFormed(base) ==> IsWellFormed(r)
    decreases |pieces|
  {
    if pieces == [] then base
    else if pieces[0] == "" || pieces[0] == "." then Navigate(base, pieces[1..])
    else if pieces[0] == ".." then Navigate(Dirname(base), pieces[1..])
    else Navigate(base + [pieces[0]], pieces[1..])
  }

  /** `path.resolve(from, s)` where `from` is already absolute. */
  function Resolve(from: Path, s: string): (r: Path)
    ensures IsWellFormed(from) ==> IsWellFormed(r)
  {
    Navigate(if IsAbsolute(s) then [] else from, Split(s))
  }

  /**
   * Scans `s[..n]` backwards for Node's `path.dirname`: separators at the end are skipped, then
   * the last segment, and the result is the index of the separator met after it. Position 0
   * is never examined, so the result is 0 when no such separator exists.
   */
  function DirnameEnd(s: string, n: nat, seenSegment: bool): (e: nat)
    requires n <= |s|
    ensures e == 0 || (1 <= e < n && IsSeparator(s[e]))
    decreases n
  {
    if n <= 1 then 0
    else if IsSeparator(s[n - 1]) then (if seenSegment then n - 1 else DirnameEnd(s, n - 1, false))
    else DirnameEnd(s, n - 1, true)
  }

  /**
   * `path.dirname` on a string: the text before the separator that precedes the last segment,
   * ignoring separators at the end; `/` when only the root is left, `.` when there is no root,
   * and `//` for a segment right below a doubled root separator.
   */
  function DirnameOf(s: string): (r: string)
    ensures r == "." || r == "/" || r == "//" || (0 < |r| < |s| && r == s[..|r|])
  {
    if s == [] then "."
    else
      var e := DirnameEnd(s, |s|, false);
      if e == 0 then (if IsSeparator(s[0]) then "/" else ".")
      else if IsSeparator(s[0]) && e == 1 then "//"
      else s[..e]
  }

  /** The scan stops at the separator in front of a final segment. */
  lemma {:induction false} DirnameEndAtSegment(s: string, k: nat, n: nat, seenSegment: bool)
    requires 1 <= k < n <= |s| && IsSeparator(s[k])
    requires forall i :: k < i < n ==> !IsSeparator(s[i])
    requires seenSegment || k + 1 < n
    ensures DirnameEnd(s, n, seenSegment) == k
    decreases n
  {
    if n - 1 > k {
      DirnameEndAtSegment(s, k, n - 1, true);
    }
  }

  /** The scan of `s[..n]` only looks at `s[..n]`. */
  lemma {:induction false} DirnameEndOfPrefix(s: string, t: string, n: nat, seenSegment: bool)
    requires n <= |s| && n <= |t| && s[..n] == t[..n]
    ensures DirnameEnd(s, n, seenSegment) == DirnameEnd(t, n, seenSegment)
    decreases n
  {
    if n > 1 {
      assert s[n - 1] == s[..n][n - 1] == t[..n][n - 1] == t[n - 1];
      assert s[..n - 1] == s[..n][..n - 1];
      assert t[..n - 1] == t[..n][..n - 1];
      DirnameEndOfPrefix(s, t, n - 1, false);
      DirnameEndOfPrefix(s, t, n - 1, true);
    }
  }

  /**
   * The directory of `dir + "/" + name` is `dir` again for a segment `name`, unless `dir` is a
   * lone separator (the root, whose child `//name` keeps the doubled root).
   */
  lemma DirnameOfChild(dir: string, name: string)
    requires dir != [] && !(|dir| == 1 && IsSeparator(dir[0])) && IsSegment(name)
    ensures DirnameOf(dir + "/" + name) == dir
  {
    var s := dir + "/" + name;
    forall i | |dir| < i < |s| ensures !IsSeparator(s[i]) {
      assert s[i] == name[i - |dir| - 1];
    }
    DirnameEndAtSegment(s, |dir|, |s|, false);
    assert s[..|dir|] == dir;
  }

  /** The child of the root, `//name`, has the doubled root `//` as its directory. */
  lemma DirnameOfRootChild(name: string)
    requires IsSegment(name)
    ensures DirnameOf("//" + name) == "//"
  {
    var s := "//" + name;
    forall i | 1 < i < |s| ensures !IsSeparator(s[i]) {
      assert s[i] == name[i - 2];
    }
    DirnameEndAtSegment(s, 1, |s|, false);
  }

  /** Separators at the end do not change the directory: `path.dirname("/a/")` is `/`. */
  lemma DirnameIgnoresTrailingSeparator(s: string, c: char)
    requires s != [] && IsSeparator(c)
    ensures DirnameOf(s + [c]) == DirnameOf(s)
  {
    var t := s + [c];
    assert t[..|s|] == s[..|s|];
    DirnameEndOfPrefix(t, s, |s|, false);
    assert t[0] == s[0];
    if DirnameEnd(s, |s|, false) > 0 {
      assert t[..DirnameEnd(s, |s|, false)] == s[..DirnameEnd(s, |s|, false)];
    }
  }

  /** Rendered well-formed paths are already in separator normal form. */
  lemma {:induction false} RenderIsNormalized(p: Path)
    requires IsWellFormed(p)
    ensures NormalizePathSeparator(Render(p)) == Render(p)
  {
    if p == [] {
      assert SkipSeparators("") == "";
    } else {
      JoinIsNormalized(p);
    }
  }

  lemma {:induction false} JoinIsNormalized(p: Path)
    requires IsWellFormed(p)
    ensures NormalizePathSeparator(Join(p)) == Join(p)
    decreases |p|
  {
    if p != [] {
      var rest := Join(p[1..]);
      assert Join(p) == "/" + (p[0] + rest);
      WellFormedTail(p);
      JoinIsNormalized(p[1..]);
      NormalizeSeparatorFreePrefix(p[0], rest);
      NormalizeAfterSlash(p[0] + rest);
    }
  }

  lemma WellFormedTail(p: Path)
    requires p != [] && IsWellFormed(p)
    ensures IsSegment(p[0]) && IsWellFormed(p[1..])
  {
    forall i | 0 <= i < |p| - 1 ensures IsSegment(p[1..][i]) {
      assert p[1..][i] == p[i + 1];
    }
  }

  /** Distinct well-formed paths render to distinct strings, so comparing paths compares their strings. */
  lemma {:induction false} RenderInjective(p: Path, q: Path)
    requires IsWellFormed(p) && IsWellFormed(q)
    requires Render(p) == Render(q)
    ensures p == q
  {
    if p != [] && q != [] {
      JoinInjective(p, q);
    }
  }

  lemma {:induction false} JoinInjective(p: Path, q: Path)
    requires IsWellFormed(p) && IsWellFormed(q)
    requires Join(p) == Join(q)
    ensures p == q
    decreases |p|
  {
    if p != [] && q != [] {
      var a, b := p[0], q[0];
      var s := Join(p);
      assert s == "/" + a + Join(p[1..]) && s == "/" + b + Join(q[1..]);
      SegmentBoundary(a, Join(p[1..]), b, Join(q[1..]));
      assert Join(p[1..]) == Join(q[1..]) by {
        assert Join(p[1..]) == s[1 + |a|..] && Join(q[1..]) == s[1 + |b|..];
      }
      WellFormedTail(p);
      WellFormedTail(q);
      JoinInjective(p[1..], q[1..]);
      assert p == [a] + p[1..] && q == [b] + q[1..];
    }
  }

  /** The leading separator-free part of `s`. */
  function LeadingSegment(s: string): (r: string)
  {
    if s == [] || IsSeparator(s[0]) then [] else [s[0]] + LeadingSegment(s[1..])
  }

  /** A separator-free `a` followed by nothing or by a separator is read back whole. */
  lemma {:induction false} LeadingSegmentOf(a: string, x: string)
    requires SeparatorFree(a)
    requires x == [] || IsSeparator(x[0])
    ensures LeadingSegment(a + x) == a
    decreases |a|
  {
    if a == [] {
      assert a + x == x;
    } else {
      assert (a + x)[0] == a[0] && (a + x)[1..] == a[1..] + x;
      assert SeparatorFree(a[1..]) by {
        forall i | 0 <= i < |a[1..]| ensures !IsSeparator(a[1..][i]) { assert a[1..][i] == a[i + 1]; }
      }
      LeadingSegmentOf(a[1..], x);
      assert a == [a[0]] + a[1..];
    }
  }

  /** Two separator-free segments each followed by `""` or a `/`-led rest cannot differ when the strings agree. */
  lemma SegmentBoundary(a: string, x: string, b: string, y: string)
    requires SeparatorFree(a) && SeparatorFree(b)
    requires x == [] || x[0] == '/'
    requires y == [] || y[0] == '/'
    requires "/" + a + x == "/" + b + y
    ensures a == b
  {
    var s := "/" + a + x;
    assert s[1..] == a + x == b + y;
    LeadingSegmentOf(a, x);
    LeadingSegmentOf(b, y);
  }

  /** A string without separators is a single piece. */
  lemma {:induction false} SplitSeparatorFree(a: string)
    requires SeparatorFree(a)
    ensures Split(a) == [a]
    decreases |a|
  {
    if a != [] {
      assert SeparatorFree(a[1..]) by {
        forall i | 0 <= i < |a| - 1 ensures !IsSeparator(a[1..][i]) { assert a[1..][i] == a[i + 1]; }
      }
      SplitSeparatorFree(a[1..]);
      assert a == [a[0]] + a[1..];
    }
  }

  /** A separator ends the piece before it. */
  lemma {:induction false} SplitAtSeparator(a: string, c: char, rest: string)
    requires SeparatorFree(a) && IsSeparator(c)
    ensures Split(a + [c] + rest) == [a] + Split(rest)
    decreases |a|
  {
    var s := a + [c] + rest;
    if a == [] {
      assert s == [c] + rest && s[1..] == rest;
    } else {
      assert s[0] == a[0] && s[1..] == a[1..] + [c] + rest;
      assert SeparatorFree(a[1..]) by {
        forall i | 0 <= i < |a| - 1 ensures !IsSeparator(a[1..][i]) { assert a[1..][i] == a[i + 1]; }
      }
      SplitAtSeparator(a[1..], c, rest);
      assert a == [a[0]] + a[1..];
    }
  }

  /** Sequences that agree after the same first element are equal. */
  lemma ConsCancel<T>(x: T, a: seq<T>, b: seq<T>)
    requires [x] + a == [x] + b
    ensures a == b
  {
    assert a == ([x] + a)[1..];
    assert b == ([x] + b)[1..];
  }

  /** Two leading elements, then the tail of `p` and `r`, are the first element, `p` and `r`. */
  lemma Regroup<T>(x: T, p: seq<T>, r: seq<T>)
    requires p != []
    ensures [x, p[0]] + (p[1..] + r) == [x] + p + r
  {
    assert p == [p[0]] + p[1..];
  }

  /** A leading separator opens an empty first piece. */
  lemma SplitLeadingSeparator(z: string)
    ensures Split(['/'] + z) == [""] + Split(z)
  {
    assert (['/'] + z)[1..] == z;
  }

  /** Unfolds `Join` once in front of a separator and a suffix. */
  lemma JoinThenSuffix(p: Path, rest: string)
    requires p != []
    ensures Join(p) + "/" + rest == ['/'] + (p[0] + (Join(p[1..]) + "/" + rest))
  {
  }

  /** `/a/z` splits into an empty piece, the segment `a`, and the pieces of `z`. */
  lemma SplitSegmentThen(a: string, z: string)
    requires SeparatorFree(a)
    ensures Split(['/'] + (a + (['/'] + z))) == ["", a] + Split(z)
  {
    SplitLeadingSeparator(a + (['/'] + z));
    assert a + (['/'] + z) == a + ['/'] + z;
    SplitAtSeparator(a, '/', z);
  }

  /** Putting `/a` in front of a `/`-led string puts an empty piece and `a` in front of its pieces. */
  lemma SplitSegmentBefore(a: string, after: string, pieces: seq<string>)
    requires SeparatorFree(a) && after != [] && after[0] == '/'
    requires Split(after) == [""] + pieces
    ensures Split(['/'] + (a + after)) == ["", a] + pieces
  {
    var z := after[1..];
    assert after == ['/'] + z;
    SplitLeadingSeparator(z);
    ConsCancel("", Split(z), pieces);
    SplitSegmentThen(a, z);
  }

  /** The pieces of a rendered path followed by `/` and more text: an empty piece, then its segments. */
  lemma {:induction false} SplitJoined(p: Path, rest: string)
    requires IsWellFormed(p)
    ensures Split(Join(p) + "/" + rest) == [""] + p + Split(rest)
    decreases |p|
  {
    if p == [] {
      assert Join(p) + "/" + rest == ['/'] + rest;
      SplitLeadingSeparator(rest);
    } else {
      WellFormedTail(p);
      var after := Join(p[1..]) + "/" + rest;
      SplitJoined(p[1..], rest);
      assert [""] + p[1..] + Split(rest) == [""] + (p[1..] + Split(rest));
      SplitSegmentBefore(p[0], after, p[1..] + Split(rest));
      JoinThenSuffix(p, rest);
      Regroup("", p, Split(rest));
    }
  }

  /** Well-formed segments are appended one by one. */
  lemma {:induction false} NavigateSegments(base: Path, p: Path, more: seq<string>)
    requires IsWellFormed(p)
    requires forall i :: 0 <= i < |more| ==> SeparatorFree(more[i])
    ensures Navigate(base, p + more) == Navigate(base + p, more)
    decreases |p|
  {
    if p == [] {
      assert p + more == more && base + p == base;
    } else {
      WellFormedTail(p);
      assert (p + more)[0] == p[0] && (p + more)[1..] == p[1..] + more;
      NavigateSegments(base + [p[0]], p[1..], more);
      assert base + [p[0]] + p[1..] == base + p;
    }
  }

  /** The pieces of the rendered `dir + "/" + name`: empty pieces for the root, then the segments. */
  lemma SplitRenderedChild(dir: Path, name: string)
    requires IsWellFormed(dir) && IsSegment(name)
    ensures Split(Render(dir) + "/" + name) == (if dir == [] then ["", ""] else [""]) + (dir + [name])
  {
    SplitSeparatorFree(name);
    if dir == [] {
      assert Render(dir) + "/" + name == ['/'] + (['/'] + name);
      SplitLeadingSeparator(['/'] + name);
      SplitLeadingSeparator(name);
    } else {
      SplitJoined(dir, name);
    }
  }

  /** An empty piece leaves the base where it is. */
  lemma NavigateSkipsEmpty(base: Path, pieces: seq<string>)
    requires forall i :: 0 <= i < |pieces| ==> SeparatorFree(pieces[i])
    ensures Navigate(base, [""] + pieces) == Navigate(base, pieces)
  {
    assert ([""] + pieces)[1..] == pieces;
  }

  /** Resolving the rendered `dir + "/" + name` gives back the directory and the name, from anywhere. */
  lemma ResolveRendered(from: Path, dir: Path, name: string)
    requires IsWellFormed(dir) && IsSegment(name)
    ensures Resolve(from, Render(dir) + "/" + name) == dir + [name]
  {
    var q := dir + [name];
    var s := Render(dir) + "/" + name;
    assert forall i :: 0 <= i < |q| ==> SeparatorFree(q[i]);
    assert IsAbsolute(s);
    assert Resolve(from, s) == Navigate([], Split(s));
    SplitRenderedChild(dir, name);
    if dir == [] {
      assert ["", ""] + q == [""] + ([""] + q);
      NavigateSkipsEmpty([], [""] + q);
    }
    NavigateSkipsEmpty([], q);
    assert Navigate([], Split(s)) == Navigate([], q);
    NavigateSegments([], dir, [name]);
    assert Navigate(dir, [name]) == Navigate(dir + [name], []);
  }

  /** A relative path that starts with a segment resolves one level below `from`. */
  lemma ResolveBelow(from: Path, a: string, rest: string)
    requires IsSegment(a) && !IsAbsolute(rest)
    ensures Resolve(from, a + "/" + rest) == Resolve(from + [a], rest)
  {
    SplitAtSeparator(a, '/', rest);
    assert a + "/" + rest == a + ['/'] + rest;
    var pieces := [a] + Split(rest);
    assert pieces[0] == a && pieces[1..] == Split(rest);
  }

  /** A single segment resolves to the child of `from`. */
  lemma ResolveSegment(from: Path, a: string)
    requires IsSegment(a)
    ensures Resolve(from, a) == from + [a]
  {
    SplitSeparatorFree(a);
    assert !IsSeparator(a[0]);
    assert [a][1..] == [];
    assert Navigate(from, [a]) == Navigate(from + [a], []);
  }
}
