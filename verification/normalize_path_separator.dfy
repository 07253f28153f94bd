/**
 * Separator normalisation of src/normalize-path-separator.ts: every maximal run of
 * `/` or `\` characters is replaced by a single `/` (the global regular expression `[/\\]+`).
 */
module PathSeparator {

  /** The characters matched by the character class `[/\\]`. */
  predicate IsSeparator(c: char) {
    c == '/' || c == '\\'
  }

  predicate SeparatorFree(s: string) {
    forall i :: 0 <= i < |s| ==> !IsSeparator(s[i])
  }

  /** A string already in normal form: no backslash and no two adjacent slashes. */
  predicate IsNormal(s: string) {
    && (forall i :: 0 <= i < |s| ==> s[i] != '\\')
    && (forall i :: 0 <= i < |s| - 1 ==> !(s[i] == '/' && s[i + 1] == '/'))
  }

  /** Drops the run of separators at the front of `s` (the rest of a greedy regex match). */
  function SkipSeparators(s: string): (r: string)
    ensures |r| <= |s| && r == s[|s| - |r|..]
    ensures r == [] || !IsSeparator(r[0])
    ensures forall i :: 0 <= i < |s| - |r| ==> IsSeparator(s[i])
  {
    if s != [] && IsSeparator(s[0]) then SkipSeparators(s[1..]) else s
  }

  /**
   * `path.replace(/[/\\]+/g, '/')`: scanning left to right, a separator starts a run that is
   * replaced by one `/` and skipped whole; any other character is copied.
   */
  function NormalizePathSeparator(path: string): (r: string)
    decreases |path|
    ensures |r| <= |path|
    ensures r == [] <==> path == []
    ensures r != [] ==> (r[0] == '/' <==> IsSeparator(path[0]))
  {
    if path == [] then []
    else if IsSeparator(path[0]) then "/" + NormalizePathSeparator(SkipSeparators(path[1..]))
    else [path[0]] + NormalizePathSeparator(path[1..])
  }

  /** The characters of `s` that are not separators, in order. */
  function NonSeparators(s: string): (r: string)
    ensures |r| <= |s|
  {
    if s == [] then []
    else if IsSeparator(s[0]) then NonSeparators(s[1..])
    else [s[0]] + NonSeparators(s[1..])
  }

  /** The output is in normal form: no backslash survives and no two slashes are adjacent. */
  lemma {:induction false} NormalizeIsNormal(path: string)
    ensures IsNormal(NormalizePathSeparator(path))
    decreases |path|
  {
    var r := NormalizePathSeparator(path);
    if path == [] {
    } else if IsSeparator(path[0]) {
      var rest := SkipSeparators(path[1..]);
      var tail := NormalizePathSeparator(rest);
      NormalizeIsNormal(rest);
      assert r == "/" + tail;
      assert tail != [] ==> tail[0] != '/';
      forall i | 0 <= i < |r| - 1
        ensures !(r[i] == '/' && r[i + 1] == '/')
      {
        if i > 0 { assert r[i] == tail[i - 1] && r[i + 1] == tail[i]; }
      }
    } else {
      var tail := NormalizePathSeparator(path[1..]);
      NormalizeIsNormal(path[1..]);
      assert r == [path[0]] + tail;
      forall i | 0 <= i < |r| - 1
        ensures !(r[i] == '/' && r[i + 1] == '/')
      {
        if i > 0 { assert r[i] == tail[i - 1] && r[i + 1] == tail[i]; }
      }
    }
  }

  /** A string in normal form is left unchanged. */
  lemma {:induction false} NormalFormIsFixpoint(path: string)
    requires IsNormal(path)
    ensures NormalizePathSeparator(path) == path
    decreases |path|
  {
    if path != [] {
      assert IsNormal(path[1..]) by {
        forall i | 0 <= i < |path| - 2
          ensures !(path[1..][i] == '/' && path[1..][i + 1] == '/')
        {
          assert path[1..][i] == path[i + 1] && path[1..][i + 1] == path[i + 2];
        }
      }
      NormalFormIsFixpoint(path[1..]);
      if IsSeparator(path[0]) {
        assert path[1..] == [] || path[1] != '/';
        assert path[1..] == [] || !IsSeparator(path[1..][0]);
        assert SkipSeparators(path[1..]) == path[1..];
      }
    }
  }

  /** Normalising twice is the same as normalising once. */
  lemma NormalizeIsIdempotent(path: string)
    ensures NormalizePathSeparator(NormalizePathSeparator(path)) == NormalizePathSeparator(path)
  {
    NormalizeIsNormal(path);
    NormalFormIsFixpoint(NormalizePathSeparator(path));
  }

  /** The output contains neither a backslash nor two consecutive slashes. */
  lemma NormalizeHasNoBackslashOrDoubleSlash(path: string)
    ensures '\\' !in NormalizePathSeparator(path)
    ensures forall i :: 0 <= i < |NormalizePathSeparator(path)| - 1 ==>
      !(NormalizePathSeparator(path)[i] == '/' && NormalizePathSeparator(path)[i + 1] == '/')
  {
    NormalizeIsNormal(path);
  }

  /** A string without any `/` or `\` is returned unchanged. */
  lemma {:induction false} SeparatorFreeIsUnchanged(path: string)
    requires SeparatorFree(path)
    ensures NormalizePathSeparator(path) == path
  {
    assert IsNormal(path);
    NormalFormIsFixpoint(path);
  }

  /** Separators are only ever dropped from the front of a run: the other characters are unchanged. */
  lemma {:induction false} SkipKeepsNonSeparators(s: string)
    ensures NonSeparators(SkipSeparators(s)) == NonSeparators(s)
    decreases |s|
  {
    if s != [] && IsSeparator(s[0]) {
      SkipKeepsNonSeparators(s[1..]);
    }
  }

  /** Every non-separator character is kept, in order, and no other character is introduced. */
  lemma {:induction false} NormalizeKeepsNonSeparators(path: string)
    ensures NonSeparators(NormalizePathSeparator(path)) == NonSeparators(path)
    decreases |path|
  {
    if path == [] {
    } else if IsSeparator(path[0]) {
      var rest := SkipSeparators(path[1..]);
      NormalizeKeepsNonSeparators(rest);
      SkipKeepsNonSeparators(path[1..]);
      assert ("/" + NormalizePathSeparator(rest))[1..] == NormalizePathSeparator(rest);
    } else {
      NormalizeKeepsNonSeparators(path[1..]);
      assert ([path[0]] + NormalizePathSeparator(path[1..]))[1..] == NormalizePathSeparator(path[1..]);
    }
  }

  /** A separator-free prefix passes through unchanged, and normalisation continues after it. */
  lemma {:induction false} NormalizeSeparatorFreePrefix(prefix: string, rest: string)
    requires SeparatorFree(prefix)
    ensures NormalizePathSeparator(prefix + rest) == prefix + NormalizePathSeparator(rest)
    decreases |prefix|
  {
    if prefix == [] {
      assert prefix + rest == rest;
    } else {
      var s := prefix + rest;
      assert s[0] == prefix[0] && s[1..] == prefix[1..] + rest;
      assert SeparatorFree(prefix[1..]) by {
        forall i | 0 <= i < |prefix| - 1 ensures !IsSeparator(prefix[1..][i]) {
          assert prefix[1..][i] == prefix[i + 1];
        }
      }
      NormalizeSeparatorFreePrefix(prefix[1..], rest);
      assert prefix == [prefix[0]] + prefix[1..];
    }
  }

  /** A single separator in front of a non-separator becomes one `/`. */
  lemma NormalizeAfterSlash(s: string)
    requires s != [] && !IsSeparator(s[0])
    ensures NormalizePathSeparator("/" + s) == "/" + NormalizePathSeparator(s)
  {
    assert ("/" + s)[0] == '/' && ("/" + s)[1..] == s;
  }
}
