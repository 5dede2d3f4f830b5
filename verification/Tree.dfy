/** A destination directory: files and directories below it, by the elements of their paths.  Symbolic links
    are not modelled. */
module Tree {
  import opened Base

  type Key = seq<string>

  datatype Fs = Fs(files: map<Key, Bytes>, dirs: set<Key>)

  ghost predicate WellFormed(fs: Fs) {
    fs.files.Keys !! fs.dirs
  }

  /** `p` names a directory on the way to `k`. */
  predicate Above(p: Key, k: Key) {
    p != [] && |p| < |k| && p <= k
  }

  function Parents(k: Key): set<Key> {
    set i | 0 < i < |k| :: k[..i]
  }

  lemma ParentsAbove(k: Key, p: Key)
    ensures p in Parents(k) <==> Above(p, k)
  {
    if Above(p, k) {
      assert p == k[..|p|];
    }
  }

  predicate Blocked(fs: Fs, k: Key) {
    exists p :: p in fs.files && Above(p, k)
  }

  predicate HasEntries(fs: Fs, k: Key) {
    (exists x :: x in fs.files && Above(k, x)) || (exists x :: x in fs.dirs && Above(k, x))
  }

  /** Removes a file or an empty directory; anything else stays. */
  function Removed(fs: Fs, k: Key): Fs {
    if k in fs.files then fs.(files := fs.files - {k})
    else if k in fs.dirs && !HasEntries(fs, k) then fs.(dirs := fs.dirs - {k})
    else fs
  }

  /** Parent directories made, the old target removed if `overwrite`, and the target opened empty for writing;
      `None` if a file is in the way of a parent or a directory is in the way of the target. */
  function Opened(fs: Fs, overwrite: bool, k: Key): Option<Fs> {
    if Blocked(fs, k) then None
    else
      var made := fs.(dirs := fs.dirs + Parents(k));
      var cleared := if overwrite then Removed(made, k) else made;
      if k in cleared.dirs then None else Some(cleared.(files := cleared.files[k := []]))
  }

  function Written(fs: Fs, k: Key, data: Bytes): Fs {
    fs.(files := fs.files[k := data])
  }

  // --- Writing a set of targets ---

  /** No target runs through a file or another target, and none is a directory, unless it is empty and may go. */
  ghost predicate Free(fs: Fs, overwrite: bool, targets: set<Key>) {
    forall k :: k in targets ==> FreeOne(fs, overwrite, targets, k)
  }

  ghost predicate FreeOne(fs: Fs, overwrite: bool, targets: set<Key>, k: Key) {
    && (forall p :: Above(p, k) ==> p !in fs.files && p !in targets)
    && (k in fs.dirs ==> overwrite && !HasEntries(fs, k))
  }

  /** What writing `targets` leaves: their files, everything else as it was, and the directories they need. */
  ghost predicate After(was: Fs, fs: Fs, targets: set<Key>) {
    && (forall k :: k in fs.files <==> k in was.files || k in targets)
    && (forall k :: k in was.files && k !in targets ==> fs.files[k] == was.files[k])
    && (forall k :: k in fs.dirs <==> (k in was.dirs && k !in targets) || Needed(targets, k))
  }

  ghost predicate Needed(targets: set<Key>, k: Key) {
    exists j :: j in targets && Above(k, j)
  }

  /** A directory has entries later exactly if it had some before or a target was written below it. */
  lemma EntriesAfter(was: Fs, fs: Fs, targets: set<Key>, k: Key)
    requires After(was, fs, targets) && !Needed(targets, k)
    ensures HasEntries(fs, k) <==> HasEntries(was, k)
  {
  }

  lemma OpenedShape(fs: Fs, overwrite: bool, k: Key)
    requires k != []
    ensures Opened(fs, overwrite, k).Some? <==>
            !Blocked(fs, k) && (k in fs.dirs ==> overwrite && k !in fs.files && !HasEntries(fs, k))
    ensures var r := Opened(fs, overwrite, k);
            r.Some? ==> r.value.files == fs.files[k := []] && r.value.dirs == fs.dirs + Parents(k) - {k}
  {
    ParentsAbove(k, k);
    var made := fs.(dirs := fs.dirs + Parents(k));
    forall x | x in Parents(k) ensures !Above(k, x) {
      ParentsAbove(k, x);
    }
    assert HasEntries(made, k) <==> HasEntries(fs, k);
    assert (fs.files - {k})[k := []] == fs.files[k := []];
    assert k !in Parents(k);
  }

  lemma DirsAfter(targets: set<Key>, k: Key, x: Key)
    ensures Needed(targets + {k}, x) <==> Needed(targets, x) || x in Parents(k)
  {
    ParentsAbove(k, x);
    if Needed(targets, x) {
      var j :| j in targets && Above(x, j);
      assert j in targets + {k};
    }
    if Above(x, k) {
      assert k in targets + {k};
    }
  }

  /** The next target can be opened exactly if the targets so far and it are free together. */
  lemma OpenedWhenFree(was: Fs, fs: Fs, overwrite: bool, targets: set<Key>, k: Key)
    requires WellFormed(was) && After(was, fs, targets) && Free(was, overwrite, targets) && k != []
    ensures Opened(fs, overwrite, k).Some? <==> Free(was, overwrite, targets + {k})
  {
    OpenedShape(fs, overwrite, k);
    var all := targets + {k};
    if Needed(targets, k) {
      var j :| j in targets && Above(k, j);
      assert !FreeOne(was, overwrite, all, j);
      assert HasEntries(fs, k);
      assert k in fs.dirs;
    } else {
      EntriesAfter(was, fs, targets, k);
      BlockedAfter(was, fs, targets, k);
      if FreeOne(was, overwrite, all, k) {
        forall j | j in all ensures FreeOne(was, overwrite, all, j) {
          StillFree(was, overwrite, targets, k, j);
        }
      }
      TargetIsFile(was, fs, overwrite, targets, k);
    }
  }

  lemma BlockedAfter(was: Fs, fs: Fs, targets: set<Key>, k: Key)
    requires After(was, fs, targets)
    ensures Blocked(fs, k) <==> exists p :: Above(p, k) && (p in was.files || p in targets)
  {
    if p :| Above(p, k) && (p in was.files || p in targets) {
      assert p in fs.files;
    }
  }

  lemma StillFree(was: Fs, overwrite: bool, targets: set<Key>, k: Key, j: Key)
    requires Free(was, overwrite, targets) && !Needed(targets, k) && FreeOne(was, overwrite, targets + {k}, k)
    requires j in targets + {k}
    ensures FreeOne(was, overwrite, targets + {k}, j)
  {
    if j in targets {
      assert FreeOne(was, overwrite, targets, j);
    }
  }

  lemma TargetIsFile(was: Fs, fs: Fs, overwrite: bool, targets: set<Key>, k: Key)
    requires WellFormed(was) && After(was, fs, targets) && Free(was, overwrite, targets) && !Needed(targets, k)
    ensures k in fs.dirs ==> k !in fs.files && k !in targets && k in was.dirs
    ensures k in targets ==> FreeOne(was, overwrite, targets + {k}, k)
  {
    if k in targets {
      assert targets + {k} == targets;
    }
  }

  /** Opening and writing one more target. */
  lemma WrittenAfter(was: Fs, fs: Fs, overwrite: bool, targets: set<Key>, k: Key, data: Bytes)
    requires WellFormed(was) && After(was, fs, targets) && Free(was, overwrite, targets + {k}) && k != []
    requires Opened(fs, overwrite, k).Some?
    ensures After(was, Written(Opened(fs, overwrite, k).value, k, data), targets + {k})
    ensures forall j :: j in targets && j != k ==>
              Written(Opened(fs, overwrite, k).value, k, data).files[j] == fs.files[j]
  {
    OpenedShape(fs, overwrite, k);
    var fs' := Written(Opened(fs, overwrite, k).value, k, data);
    forall x ensures x in fs'.dirs <==> (x in was.dirs && x !in targets + {k}) || Needed(targets + {k}, x) {
      DirsAfter(targets, k, x);
    }
  }

  lemma FreeSubset(fs: Fs, overwrite: bool, some: set<Key>, all: set<Key>)
    requires Free(fs, overwrite, all) && some <= all
    ensures Free(fs, overwrite, some)
  {
    forall k | k in some ensures FreeOne(fs, overwrite, some, k) {
      assert FreeOne(fs, overwrite, all, k);
    }
  }
}
