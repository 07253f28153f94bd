/**
 * The generic walk up a directory tree of src/find-file-up.ts (copied at src/index.ts:9-31):
 * probe a directory, and stop at the first hit, at the stop directory, or at the root.
 */
module FileUp {
  import opened Wrappers
  import opened Paths

  /**
   * The length of the highest directory the walk probes from `directory`: the stop directory's
   * when it is `directory` or one of its ancestors, otherwise the root's. A stop directory
   * that is not on the way up is never met.
   */
  function Floor(directory: Path, stopDirectory: Option<Path>): (k: nat)
    ensures k <= |directory|
  {
    if stopDirectory.Some? && IsAncestorOrSelf(stopDirectory.value, directory)
    then |stopDirectory.value|
    else 0
  }

  /**
   * `findFileUp(directory, stopDirectory, callback)`. The result is defined exactly when some
   * directory from `directory` up to `Floor` (both included) has a hit, and it is then the hit
   * of the closest such directory.
   */
  function FindFileUp<T>(directory: Path, stopDirectory: Option<Path>, callback: Path -> Option<T>): (r: Option<T>)
    decreases |directory|
    ensures r.Some? <==>
      exists k :: Floor(directory, stopDirectory) <= k <= |directory| && callback(directory[..k]).Some?
    ensures r.Some? ==>
      exists k :: Floor(directory, stopDirectory) <= k <= |directory| && r == callback(directory[..k])
        && forall j :: k < j <= |directory| ==> callback(directory[..j]).None?
  {
    var result := callback(directory);
    if result.Some? then
      assert directory[..|directory|] == directory;
      result
    else if stopDirectory == Some(directory) then
      assert directory[..|directory|] == directory;
      None
    else
      var parentPath := Dirname(directory);
      if parentPath == directory then
        assert directory[..0] == directory;
        None
      else
        var r := FindFileUp(parentPath, stopDirectory, callback);
        FloorOfParent(directory, stopDirectory);
        PrefixOfParent(directory);
        assert directory[..|directory|] == directory;
        r
  }

  /** Leaving a directory that is not the stop directory keeps the same floor. */
  lemma FloorOfParent(directory: Path, stopDirectory: Option<Path>)
    requires directory != [] && stopDirectory != Some(directory)
    ensures Floor(Dirname(directory), stopDirectory) == Floor(directory, stopDirectory)
  {
    if stopDirectory.Some? {
      var s := stopDirectory.value;
      assert directory[..|directory|] == directory;
      if IsAncestorOrSelf(s, directory) {
        assert Dirname(directory)[..|s|] == directory[..|s|];
      } else if |s| <= |directory| - 1 {
        assert Dirname(directory)[..|s|] == directory[..|s|];
      }
    }
  }

  /** An ancestor of the parent is an ancestor of the directory. */
  lemma AncestorOfParent(a: Path, directory: Path)
    requires directory != []
    ensures IsAncestorOrSelf(a, Dirname(directory)) ==> IsAncestorOrSelf(a, directory)
  {
    if |a| <= |directory| - 1 {
      assert Dirname(directory)[..|a|] == directory[..|a|];
    }
  }

  /** The ancestors of the parent are the ancestors of the directory. */
  lemma PrefixOfParent(directory: Path)
    requires directory != []
    ensures forall k :: 0 <= k <= |directory| - 1 ==> Dirname(directory)[..k] == directory[..k]
  {
  }

  /**
   * The four exits of one step: a hit is returned at once, even at the stop directory; a miss at
   * the stop directory or at the root ends the walk; any other miss continues with the parent.
   */
  lemma FindFileUpStep<T>(directory: Path, stopDirectory: Option<Path>, callback: Path -> Option<T>)
    ensures callback(directory).Some? ==>
      FindFileUp(directory, stopDirectory, callback) == callback(directory)
    ensures callback(directory).None? && stopDirectory == Some(directory) ==>
      FindFileUp(directory, stopDirectory, callback) == None
    ensures callback(directory).None? && Dirname(directory) == directory ==>
      FindFileUp(directory, stopDirectory, callback) == None
    ensures callback(directory).None? && stopDirectory != Some(directory) && Dirname(directory) != directory ==>
      FindFileUp(directory, stopDirectory, callback) == FindFileUp(Dirname(directory), stopDirectory, callback)
  {
  }

  /** A stop directory that is neither the start nor one of its ancestors acts as no stop directory. */
  lemma {:induction false} StopOffTheWayIsIgnored<T>(directory: Path, stopDirectory: Path, callback: Path -> Option<T>)
    requires !IsAncestorOrSelf(stopDirectory, directory)
    ensures FindFileUp(directory, Some(stopDirectory), callback) == FindFileUp(directory, None, callback)
    decreases |directory|
  {
    if callback(directory).None? && directory != [] {
      assert stopDirectory != directory;
      var parentPath := Dirname(directory);
      AncestorOfParent(stopDirectory, directory);
      StopOffTheWayIsIgnored(parentPath, stopDirectory, callback);
    }
  }

  /**
   * Only the directories from the start up to the floor are probed: two callbacks that agree there
   * give the same result, whatever they answer above the stop directory.
   */
  lemma {:induction false} ProbesOnlyUpToFloor<T>(
    directory: Path, stopDirectory: Option<Path>, callback: Path -> Option<T>, other: Path -> Option<T>)
    requires forall k :: Floor(directory, stopDirectory) <= k <= |directory| ==>
      callback(directory[..k]) == other(directory[..k])
    ensures FindFileUp(directory, stopDirectory, callback) == FindFileUp(directory, stopDirectory, other)
    decreases |directory|
  {
    assert directory[..|directory|] == directory;
    if callback(directory).None? && stopDirectory != Some(directory) && directory != [] {
      var parentPath := Dirname(directory);
      FloorOfParent(directory, stopDirectory);
      PrefixOfParent(directory);
      ProbesOnlyUpToFloor(parentPath, stopDirectory, callback, other);
    }
  }
}
