/** The audit of a materialized directory against its manifest. */
module Verifier {
  import opened Base
  import opened Paths
  import opened Manifest
  import opened Tree
  import opened Materializer

  datatype Report = Report(
    totalFiles: nat, validFiles: nat, corruptFiles: nat, missingFiles: nat,
    totalChunks: nat, verifiedChunks: nat, corruptChunks: nat,
    allValid: bool, results: seq<bool>)

  /** What is found under a path: bytes, a directory of some reported size, nothing, or a path through a file. */
  datatype Found = Bytes_(data: Bytes) | Directory(size: int) | Missing | NotADirectory

  function Probe(fs: Fs, dirSize: int, k: Key): Found {
    if k in fs.files then Bytes_(fs.files[k])
    else if k in fs.dirs then Directory(dirSize)
    else if Blocked(fs, k) then NotADirectory
    else Missing
  }

  /** At most `n` bytes from `offset` on; fewer at the end of the file. */
  function ReadAt(data: Bytes, offset: nat, n: nat): Bytes {
    data[Min(offset, |data|)..Min(offset + n, |data|)]
  }

  /** Seeking before the start fails, and so does reading bytes from a directory. */
  predicate Readable(x: Found, r: ChunkRef) {
    r.offset >= 0 && (x.Bytes_? || r.size <= 0)
  }

  function BytesOf(x: Found, r: ChunkRef): Bytes {
    if x.Bytes_? && r.offset >= 0 && r.size >= 0 then ReadAt(x.data, r.offset, r.size) else []
  }

  ghost predicate ChunkMatches(sha: Bytes -> Hash, x: Found, r: ChunkRef) {
    Readable(x, r) && sha(BytesOf(x, r)) == r.hash
  }

  function SizeOf(x: Found): int
    requires x.Bytes_? || x.Directory?
  {
    if x.Bytes_? then |x.data| else x.size
  }

  /** The declared size, and under every chunk reference bytes of its digest. */
  ghost predicate FileMatches(sha: Bytes -> Hash, f: FileEntry, x: Found) {
    && (x.Bytes_? || x.Directory?) && SizeOf(x) == f.size
    && forall i :: 0 <= i < |f.chunks| ==> ChunkMatches(sha, x, f.chunks[i])
  }

  /** How many of the first `n` references cover bytes of their digest. */
  ghost function Matching(sha: Bytes -> Hash, x: Found, refs: seq<ChunkRef>, n: nat): nat
    requires n <= |refs|
  {
    if n == 0 then 0 else Matching(sha, x, refs, n - 1) + if ChunkMatches(sha, x, refs[n - 1]) then 1 else 0
  }

  /** The chunk loop of one file; it stops at a reference it cannot read. */
  method VerifyChunks(sha: Bytes -> Hash, x: Found, refs: seq<ChunkRef>)
    returns (valid: bool, total: nat, verified: nat, corrupt: nat)
    ensures valid <==> forall i :: 0 <= i < |refs| ==> ChunkMatches(sha, x, refs[i])
    ensures verified + corrupt <= total <= |refs| && (valid ==> verified == |refs|) && (corrupt > 0 ==> !valid)
    ensures total < |refs| ==> total > 0 && !Readable(x, refs[total - 1])
    ensures verified == Matching(sha, x, refs, total)
    ensures corrupt == if total > 0 && !Readable(x, refs[total - 1]) then total - 1 - verified else total - verified
  {
    valid, total, verified, corrupt := true, 0, 0, 0;
    for i := 0 to |refs|
      invariant valid <==> forall k :: 0 <= k < i ==> ChunkMatches(sha, x, refs[k])
      invariant verified + corrupt == total == i && (valid ==> corrupt == 0) && (corrupt > 0 ==> !valid)
      invariant verified == Matching(sha, x, refs, i) && (i > 0 ==> Readable(x, refs[i - 1]))
    {
      var r := refs[i];
      total := total + 1;
      if !Readable(x, r) {
        assert !ChunkMatches(sha, x, refs[i]);
        valid := false;
        return;
      }
      if sha(BytesOf(x, r)) != r.hash {
        assert !ChunkMatches(sha, x, refs[i]);
        valid := false;
        corrupt := corrupt + 1;
      } else {
        verified := verified + 1;
      }
    }
  }

  predicate Joined(destDir: string, f: FileEntry) {
    SafeJoin(destDir, f.path).Some?
  }

  ghost predicate Passes(sha: Bytes -> Hash, destDir: string, fs: Fs, dirSize: int, f: FileEntry) {
    Joined(destDir, f) && FileMatches(sha, f, Probe(fs, dirSize, KeyOf(f)))
  }

  ghost predicate IsMissing(destDir: string, fs: Fs, f: FileEntry) {
    Joined(destDir, f) && KeyOf(f) !in fs.files && KeyOf(f) !in fs.dirs && !Blocked(fs, KeyOf(f))
  }

  lemma FoundAt(sha: Bytes -> Hash, destDir: string, fs: Fs, dirSize: int, f: FileEntry, joined: Option<string>,
      key: Key)
    requires joined == SafeJoin(destDir, f.path) && key == KeyOf(f)
    ensures IsMissing(destDir, fs, f) <==> joined.Some? && Probe(fs, dirSize, key).Missing?
    ensures Passes(sha, destDir, fs, dirSize, f) <==> joined.Some? && FileMatches(sha, f, Probe(fs, dirSize, key))
  {
  }

  function Count(bs: seq<bool>): nat {
    if bs == [] then 0 else Count(bs[..|bs| - 1]) + if bs[|bs| - 1] then 1 else 0
  }

  /** The counters after some files; `results` has one entry per file. */
  ghost predicate Tallied(r: Report, done: nat) {
    && r.validFiles + r.corruptFiles + r.missingFiles == done == |r.results|
    && r.validFiles == Count(r.results)
    && (r.allValid <==> r.corruptFiles + r.missingFiles == 0)
    && r.verifiedChunks + r.corruptChunks <= r.totalChunks
    && (r.allValid ==> r.verifiedChunks == r.totalChunks && r.corruptChunks == 0)
  }

  lemma CountSnoc(bs: seq<bool>, b: bool)
    ensures Count(bs + [b]) == Count(bs) + if b then 1 else 0
  {
    assert (bs + [b])[..|bs|] == bs;
  }

  /** One more file that was not read: missing, or not what it should be. */
  function Rejected(r: Report, missing: bool): Report {
    var counted := if missing then r.(missingFiles := r.missingFiles + 1) else r.(corruptFiles := r.corruptFiles + 1);
    counted.(allValid := false, results := r.results + [false])
  }

  lemma RejectedTallies(r: Report, missing: bool)
    requires Tallied(r, |r.results|)
    ensures Tallied(Rejected(r, missing), |r.results| + 1)
  {
    CountSnoc(r.results, false);
  }

  method VerifyNext(sha: Bytes -> Hash, f: FileEntry, fs: Fs, destDir: string, dirSize: int, r: Report)
    returns (r': Report, good: bool)
    requires Tallied(r, |r.results|)
    ensures Tallied(r', |r.results| + 1) && r'.totalFiles == r.totalFiles
    ensures r'.results == r.results + [good] && (good <==> Passes(sha, destDir, fs, dirSize, f))
    ensures r'.allValid <==> r.allValid && Passes(sha, destDir, fs, dirSize, f)
    ensures r'.missingFiles == r.missingFiles + (if IsMissing(destDir, fs, f) then 1 else 0)
    ensures r'.totalChunks <= r.totalChunks + |f.chunks|
    ensures r'.allValid ==> r'.totalChunks == r.totalChunks + |f.chunks|
  {
    var joined, key := SafeJoin(destDir, f.path), KeyOf(f);
    FoundAt(sha, destDir, fs, dirSize, f, joined, key);
    if joined.None? {
      RejectedTallies(r, false);
      return Rejected(r, false), false;
    }
    r', good := VerifyFound(sha, f, Probe(fs, dirSize, key), r);
  }

  /** What was found in place of a file. */
  method VerifyFound(sha: Bytes -> Hash, f: FileEntry, x: Found, r: Report)
    returns (r': Report, good: bool)
    requires Tallied(r, |r.results|)
    ensures Tallied(r', |r.results| + 1) && r'.totalFiles == r.totalFiles
    ensures r'.results == r.results + [good] && (good <==> FileMatches(sha, f, x))
    ensures r'.allValid <==> r.allValid && FileMatches(sha, f, x)
    ensures r'.missingFiles == r.missingFiles + (if x.Missing? then 1 else 0)
    ensures r'.totalChunks <= r.totalChunks + |f.chunks|
    ensures r'.allValid ==> r'.totalChunks == r.totalChunks + |f.chunks|
    ensures var n := r'.totalChunks - r.totalChunks;
            0 <= n <= |f.chunks| && r'.verifiedChunks == r.verifiedChunks + Matching(sha, x, f.chunks, n)
  {
    RejectedTallies(r, x.Missing?);
    if x.Missing? {
      return Rejected(r, true), false;
    }
    if x.NotADirectory? || SizeOf(x) != f.size {
      return Rejected(r, false), false;
    }
    r', good := VerifyContents(sha, f, x, r);
  }

  /** A file of the declared size: its chunks decide. */
  method VerifyContents(sha: Bytes -> Hash, f: FileEntry, x: Found, r: Report)
    returns (r': Report, good: bool)
    requires Tallied(r, |r.results|) && (x.Bytes_? || x.Directory?) && SizeOf(x) == f.size
    ensures Tallied(r', |r.results| + 1) && r'.totalFiles == r.totalFiles && r'.missingFiles == r.missingFiles
    ensures r'.results == r.results + [good] && (good <==> FileMatches(sha, f, x))
    ensures r'.allValid <==> r.allValid && FileMatches(sha, f, x)
    ensures r'.totalChunks <= r.totalChunks + |f.chunks|
    ensures r'.allValid ==> r'.totalChunks == r.totalChunks + |f.chunks|
    ensures var n := r'.totalChunks - r.totalChunks;
            0 <= n <= |f.chunks| && r'.verifiedChunks == r.verifiedChunks + Matching(sha, x, f.chunks, n)
    ensures var n := r'.totalChunks - r.totalChunks;
            var unread := if n > 0 && !Readable(x, f.chunks[n - 1]) then 1 else 0;
            r'.corruptChunks == r.corruptChunks + n - unread - Matching(sha, x, f.chunks, n)
  {
    CountSnoc(r.results, false);
    CountSnoc(r.results, true);
    var total, verified, corrupt;
    good, total, verified, corrupt := VerifyChunks(sha, x, f.chunks);
    r' := r.(totalChunks := r.totalChunks + total, verifiedChunks := r.verifiedChunks + verified,
             corruptChunks := r.corruptChunks + corrupt, results := r.results + [good]);
    if good {
      r' := r'.(validFiles := r.validFiles + 1);
    } else {
      r' := r'.(corruptFiles := r.corruptFiles + 1, allValid := false);
    }
  }

  /** How many of the first `n` files are not there: their paths can be joined, and lead to nothing. */
  ghost function NotThere(files: seq<FileEntry>, n: nat, fs: Fs, destDir: string): nat
    requires n <= |files|
  {
    if n == 0 then 0 else NotThere(files, n - 1, fs, destDir) + if IsMissing(destDir, fs, files[n - 1]) then 1 else 0
  }

  /** The number of references of the first `n` files. */
  function RefCount(files: seq<FileEntry>, n: nat): nat
    requires n <= |files|
  {
    if n == 0 then 0 else RefCount(files, n - 1) + |files[n - 1].chunks|
  }

  /** The report is right about the first `i` files. */
  ghost predicate Judged(sha: Bytes -> Hash, files: seq<FileEntry>, i: nat, fs: Fs, destDir: string, dirSize: int,
      r: Report)
    requires i <= |files|
  {
    && Tallied(r, i) && r.missingFiles == NotThere(files, i, fs, destDir)
    && r.totalChunks <= RefCount(files, i) && (r.allValid ==> r.totalChunks == RefCount(files, i))
    && (forall k :: 0 <= k < i ==> (r.results[k] <==> Passes(sha, destDir, fs, dirSize, files[k])))
    && (r.allValid <==> forall k :: 0 <= k < i ==> r.results[k])
  }

  lemma JudgedNone(sha: Bytes -> Hash, files: seq<FileEntry>, fs: Fs, destDir: string, dirSize: int, r: Report)
    requires Tallied(r, 0) && r.missingFiles == 0 && r.totalChunks == 0
    ensures Judged(sha, files, 0, fs, destDir, dirSize, r)
  {
  }

  lemma JudgedOneMore(sha: Bytes -> Hash, files: seq<FileEntry>, i: nat, fs: Fs, destDir: string, dirSize: int,
      r: Report, r': Report, good: bool)
    requires i < |files| && Judged(sha, files, i, fs, destDir, dirSize, r) && Tallied(r', i + 1)
    requires r'.results == r.results + [good] && (good <==> Passes(sha, destDir, fs, dirSize, files[i]))
    requires r'.allValid <==> r.allValid && good
    requires r'.missingFiles == r.missingFiles + (if IsMissing(destDir, fs, files[i]) then 1 else 0)
    requires r'.totalChunks <= r.totalChunks + |files[i].chunks|
    requires r'.allValid ==> r'.totalChunks == r.totalChunks + |files[i].chunks|
    ensures Judged(sha, files, i + 1, fs, destDir, dirSize, r')
  {
    assert r'.results[i] == good;
    forall k | 0 <= k < i ensures r'.results[k] == r.results[k] {
    }
  }

  lemma JudgedAll(sha: Bytes -> Hash, files: seq<FileEntry>, fs: Fs, destDir: string, dirSize: int, r: Report)
    requires Judged(sha, files, |files|, fs, destDir, dirSize, r)
    ensures r.allValid <==> forall f :: f in files ==> Passes(sha, destDir, fs, dirSize, f)
  {
    if r.allValid {
      forall f | f in files ensures Passes(sha, destDir, fs, dirSize, f) {
        var k :| 0 <= k < |files| && files[k] == f;
        assert r.results[k];
      }
    } else {
      var k :| 0 <= k < |files| && !r.results[k];
      assert files[k] in files;
    }
  }

  /** A report for every valid manifest, whatever the directory holds: the three counts add up, `results` says
      file by file whether it matches, and `allValid` holds exactly if all do. */
  method VerifyMaterializedDirectory(sha: Bytes -> Hash, digest: Digest, m: Artifact, fs: Fs, destDir: string,
      dirSize: int)
    returns (r: Option<Report>)
    ensures r.Some? <==> Valid(digest, m)
    ensures r.Some? ==> r.value.totalFiles == |m.files| && Tallied(r.value, |m.files|)
    ensures r.Some? ==> forall i :: 0 <= i < |m.files| ==>
              (r.value.results[i] <==> Passes(sha, destDir, fs, dirSize, m.files[i]))
    ensures r.Some? ==> (r.value.allValid <==> forall f :: f in m.files ==> Passes(sha, destDir, fs, dirSize, f))
    ensures r.Some? && r.value.allValid ==> r.value.validFiles == |m.files|
    ensures r.Some? ==> r.value.missingFiles == NotThere(m.files, |m.files|, fs, destDir)
    ensures r.Some? ==> r.value.totalChunks <= RefCount(m.files, |m.files|)
    ensures r.Some? && r.value.allValid ==> r.value.verifiedChunks == RefCount(m.files, |m.files|)
  {
    var valid := Validate(digest, m);
    if !valid {
      return None;
    }
    var rep := VerifyFiles(sha, m.files, fs, destDir, dirSize);
    JudgedAll(sha, m.files, fs, destDir, dirSize, rep);
    r := Some(rep);
  }

  method VerifyFiles(sha: Bytes -> Hash, files: seq<FileEntry>, fs: Fs, destDir: string, dirSize: int)
    returns (r: Report)
    ensures r.totalFiles == |files| && Judged(sha, files, |files|, fs, destDir, dirSize, r)
  {
    r := Report(|files|, 0, 0, 0, 0, 0, 0, true, []);
    JudgedNone(sha, files, fs, destDir, dirSize, r);
    for i := 0 to |files|
      invariant r.totalFiles == |files| && Judged(sha, files, i, fs, destDir, dirSize, r)
    {
      ghost var was := r;
      var good;
      r, good := VerifyNext(sha, files[i], fs, destDir, dirSize, r);
      JudgedOneMore(sha, files, i, fs, destDir, dirSize, was, r, good);
    }
  }
}
