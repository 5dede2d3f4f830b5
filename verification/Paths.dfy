/** Lexical path handling, as the manifest and the materializer use it (forward slashes only). */
module Paths {
  import opened Base

  // --- Splitting and joining at slashes ---

  function Split(p: string): (cs: seq<string>)
    ensures |cs| >= 1
  {
    if p == "" then [""]
    else if p[0] == '/' then [""] + Split(p[1..])
    else PushChar(p[0], Split(p[1..]))
  }

  function PushChar(c: char, cs: seq<string>): seq<string>
    requires cs != []
  {
    [[c] + cs[0]] + cs[1..]
  }

  lemma PushCharConcat(c: char, x: seq<string>, y: seq<string>)
    requires x != []
    ensures PushChar(c, x + y) == PushChar(c, x) + y
  {
    assert (x + y)[1..] == x[1..] + y;
  }

  function Join(cs: seq<string>): string {
    if cs == [] then "" else if |cs| == 1 then cs[0] else cs[0] + "/" + Join(cs[1..])
  }

  predicate NoSlash(c: string) {
    '/' !in c
  }

  lemma {:induction false} SplitPiece(c: string)
    requires NoSlash(c)
    ensures Split(c) == [c]
    decreases |c|
  {
    if c != "" {
      SplitPiece(c[1..]);
      assert [c[0]] + c[1..] == c;
    }
  }

  lemma {:induction false} SplitConcat(a: string, b: string)
    ensures Split(a + "/" + b) == Split(a) + Split(b)
    decreases |a|
  {
    var s := a + "/" + b;
    if a == "" {
      assert s == "/" + b;
      assert s[1..] == b;
    } else {
      assert s[1..] == a[1..] + "/" + b && s[0] == a[0];
      SplitConcat(a[1..], b);
      if a[0] == '/' {
        assert [""] + (Split(a[1..]) + Split(b)) == [""] + Split(a[1..]) + Split(b);
      } else {
        PushCharConcat(a[0], Split(a[1..]), Split(b));
      }
    }
  }

  lemma {:induction false} SplitJoin(cs: seq<string>)
    requires cs != [] && forall i :: 0 <= i < |cs| ==> NoSlash(cs[i])
    ensures Split(Join(cs)) == cs
    decreases |cs|
  {
    SplitPiece(cs[0]);
    if |cs| > 1 {
      SplitConcat(cs[0], Join(cs[1..]));
      SplitJoin(cs[1..]);
      assert Join(cs) == cs[0] + "/" + Join(cs[1..]);
      assert cs == [cs[0]] + cs[1..];
    }
  }

  lemma {:induction false} SplitHasNoSlash(p: string)
    ensures forall i :: 0 <= i < |Split(p)| ==> NoSlash(Split(p)[i])
    decreases |p|
  {
    if p != "" {
      SplitHasNoSlash(p[1..]);
    }
  }

  lemma {:induction false} JoinConcat(a: seq<string>, b: seq<string>)
    requires a != [] && b != []
    ensures Join(a + b) == Join(a) + "/" + Join(b)
    decreases |a|
  {
    if |a| == 1 {
      assert (a + b)[1..] == b;
    } else {
      assert (a + b)[1..] == a[1..] + b;
      JoinConcat(a[1..], b);
      assert a[0] + "/" + (Join(a[1..]) + "/" + Join(b)) == a[0] + "/" + Join(a[1..]) + "/" + Join(b);
    }
  }

  // --- filepath.Clean ---

  /** Drops empty and `.` elements and lets `..` take back the element before it. */
  function Resolve(cs: seq<string>, rooted: bool, stack: seq<string>): seq<string>
    decreases |cs|
  {
    if cs == [] then stack
    else if cs[0] == "" || cs[0] == "." then Resolve(cs[1..], rooted, stack)
    else if cs[0] == ".." then
      if stack != [] && stack[|stack| - 1] != ".." then Resolve(cs[1..], rooted, stack[..|stack| - 1])
      else if rooted then Resolve(cs[1..], rooted, stack)
      else Resolve(cs[1..], rooted, stack + [".."])
    else Resolve(cs[1..], rooted, stack + [cs[0]])
  }

  predicate Rooted(p: string) {
    p != "" && p[0] == '/'
  }

  function Components(p: string): seq<string> {
    Resolve(Split(p), Rooted(p), [])
  }

  function Clean(p: string): string {
    var cs := Components(p);
    if Rooted(p) then "/" + Join(cs) else if cs == [] then "." else Join(cs)
  }

  /** What `Resolve` leaves: proper elements, and `..` only in front of a relative path. */
  ghost predicate CleanSeq(cs: seq<string>, rooted: bool) {
    && (forall i :: 0 <= i < |cs| ==> cs[i] != "" && cs[i] != "." && NoSlash(cs[i]))
    && (forall i, j :: 0 <= i < j < |cs| && cs[j] == ".." ==> cs[i] == "..")
    && (rooted ==> forall i :: 0 <= i < |cs| ==> cs[i] != "..")
  }

  lemma {:induction false} ResolveIsClean(cs: seq<string>, rooted: bool, stack: seq<string>)
    requires CleanSeq(stack, rooted) && forall i :: 0 <= i < |cs| ==> NoSlash(cs[i])
    ensures CleanSeq(Resolve(cs, rooted, stack), rooted)
    decreases |cs|
  {
    if cs != [] {
      var c := cs[0];
      if c == "" || c == "." {
        ResolveIsClean(cs[1..], rooted, stack);
      } else if c == ".." && stack != [] && stack[|stack| - 1] != ".." {
        ResolveIsClean(cs[1..], rooted, stack[..|stack| - 1]);
      } else if c == ".." && rooted {
        ResolveIsClean(cs[1..], rooted, stack);
      } else {
        ResolveIsClean(cs[1..], rooted, stack + [c]);
      }
    }
  }

  lemma {:induction false} ResolveKeepsClean(cs: seq<string>, rooted: bool, stack: seq<string>)
    requires CleanSeq(stack + cs, rooted)
    ensures Resolve(cs, rooted, stack) == stack + cs
    decreases |cs|
  {
    if cs == [] {
      assert stack + cs == stack;
    } else {
      assert (stack + cs)[|stack|] == cs[0];
      if stack != [] {
        assert (stack + cs)[|stack| - 1] == stack[|stack| - 1];
      }
      assert stack + [cs[0]] + cs[1..] == stack + cs;
      ResolveKeepsClean(cs[1..], rooted, stack + [cs[0]]);
    }
  }

  lemma ComponentsAreClean(p: string)
    ensures CleanSeq(Components(p), Rooted(p))
  {
    SplitHasNoSlash(p);
    ResolveIsClean(Split(p), Rooted(p), []);
  }

  lemma {:induction false} JoinStart(cs: seq<string>)
    requires cs != [] && cs[0] != ""
    ensures Join(cs) != "" && Join(cs)[0] == cs[0][0]
  {
  }

  /** A clean relative sequence is read back as itself. */
  lemma JoinComponents(cs: seq<string>)
    requires cs != [] && CleanSeq(cs, false)
    ensures !Rooted(Join(cs)) && Components(Join(cs)) == cs && Clean(Join(cs)) == Join(cs)
  {
    JoinStart(cs);
    assert cs[0][0] in cs[0];
    SplitJoin(cs);
    ResolveKeepsClean(cs, false, []);
    assert [] + cs == cs;
  }

  // --- Manifest paths ---

  function TrimPrefix(p: string, prefix: string): string {
    if prefix <= p then p[|prefix|..] else p
  }

  function NormalizePath(p: string): string {
    TrimPrefix(TrimPrefix(Clean(p), "/"), "./")
  }

  predicate ValidManifestPath(p: string) {
    && p != "" && !Rooted(p)
    && var c := TrimPrefix(Clean(p), "./");
       c != "" && c != "." && !Rooted(c) && c != ".." && !("../" <= c)
  }

  /** A path stays below the directory it is taken from. */
  ghost predicate Inside(p: string) {
    Components(p) != [] && Components(p)[0] != ".."
  }

  lemma FirstElement(cs: seq<string>)
    requires cs != [] && CleanSeq(cs, false)
    ensures !("./" <= Join(cs)) && Join(cs) != "."
    ensures Join(cs) == ".." || "../" <= Join(cs) <==> cs[0] == ".."
  {
    var p := Join(cs);
    SplitJoin(cs);
    if "../" <= p {
      assert p == ".." + "/" + p[3..];
      SplitConcat("..", p[3..]);
      SplitPiece("..");
      assert Split(p)[0] == "..";
    }
    if p == ".." {
      SplitPiece("..");
    }
    if p == "." {
      SplitPiece(".");
    }
  }

  /** The lexical test is exact: a relative path is accepted if and only if it stays inside. */
  lemma ValidPathIsInside(p: string)
    ensures ValidManifestPath(p) <==> !Rooted(p) && Inside(p)
    ensures ValidManifestPath(p) ==> Clean(p) == Join(Components(p))
  {
    ComponentsAreClean(p);
    if p != "" && !Rooted(p) && Components(p) != [] {
      FirstElement(Components(p));
      JoinComponents(Components(p));
    }
  }

  /** Normalizing gives the clean relative form, and that form is valid exactly for paths that stay inside. */
  lemma NormalizedPath(p: string)
    ensures ValidManifestPath(NormalizePath(p)) <==> Inside(p)
    ensures Inside(p) ==> NormalizePath(p) == Join(Components(p)) && Components(NormalizePath(p)) == Components(p)
    ensures Inside(p) ==> NormalizePath(NormalizePath(p)) == NormalizePath(p)
  {
    ComponentsAreClean(p);
    var cs := Components(p);
    if cs == [] {
      assert Clean(p) == if Rooted(p) then "/" else ".";
      ValidPathIsInside(".");
      assert Split(".") == ["."] by { SplitPiece("."); }
    } else {
      NormalizedForm(p);
      JoinComponents(cs);
      ValidPathIsInside(Join(cs));
      NormalizedForm(Join(cs));
    }
  }

  lemma NormalizedForm(p: string)
    requires Components(p) != []
    ensures NormalizePath(p) == Join(Components(p))
  {
    ComponentsAreClean(p);
    var cs := Components(p);
    FirstElement(cs);
    JoinComponents(cs);
    assert Rooted(p) ==> ("/" + Join(cs))[1..] == Join(cs);
  }

  // --- Materializing below a directory ---

  function SafeJoin(baseDir: string, rel: string): Option<string> {
    var cleanRel := Clean(rel);
    if Rooted(cleanRel) || cleanRel == ".." || "../" <= cleanRel then None
    else
      var base := Clean(baseDir);
      var joined := Clean(base + "/" + cleanRel);
      if joined != base && !(base + "/" <= joined) then None else Some(joined)
  }

  /** A valid path lands below the destination under its clean name, unless the destination is `.` or
      `/`, where every path is refused. */
  lemma SafeJoinIsBelow(baseDir: string, rel: string)
    requires ValidManifestPath(rel)
    ensures SafeJoin(baseDir, rel)
         == if Clean(baseDir) == "." || Clean(baseDir) == "/" then None else Some(Clean(baseDir) + "/" + Clean(rel))
  {
    ValidPathIsInside(rel);
    ComponentsAreClean(rel);
    ComponentsAreClean(baseDir);
    var r, b := Components(rel), Components(baseDir);
    FirstElement(r);
    JoinComponents(r);
    JoinedBelow(baseDir, rel);
    if b == [] {
      JoinStart(r);
      assert r[0][0] in r[0];
      if Rooted(baseDir) {
        assert ("/" + Join(r))[1] != '/';
      }
    } else {
      BaseIsNamed(baseDir);
    }
  }

  /** A base with elements is neither `.` nor `/`. */
  lemma BaseIsNamed(baseDir: string)
    requires Components(baseDir) != []
    ensures Clean(baseDir) != "." && Clean(baseDir) != "/"
  {
    ComponentsAreClean(baseDir);
    var b := Components(baseDir);
    JoinStart(b);
    if Rooted(baseDir) {
      assert |Clean(baseDir)| > 1;
    } else {
      FirstElement(b);
    }
  }

  lemma JoinedBelow(baseDir: string, rel: string)
    requires ValidManifestPath(rel)
    ensures var base := Clean(baseDir);
            Clean(base + "/" + Clean(rel)) ==
            if base == "/" then "/" + Clean(rel) else if base == "." then Clean(rel) else base + "/" + Clean(rel)
  {
    ValidPathIsInside(rel);
    ComponentsAreClean(rel);
    if Components(baseDir) == [] {
      JoinedBelowNothing(Rooted(baseDir), Components(rel));
    } else {
      BaseIsNamed(baseDir);
      ComponentsAreClean(baseDir);
      JoinedBelowNamed(baseDir, Components(rel));
    }
  }

  lemma JoinedBelowNamed(baseDir: string, r: seq<string>)
    requires Components(baseDir) != [] && r != [] && CleanSeq(r, true)
    ensures Clean(Clean(baseDir) + "/" + Join(r)) == Clean(baseDir) + "/" + Join(r)
  {
    ComponentsAreClean(baseDir);
    var b := Components(baseDir);
    SplitBase(baseDir);
    ComponentsBelow(Clean(baseDir), Rooted(baseDir), b, r, Clean(baseDir) + "/" + Join(r));
    JoinConcat(b, r);
    Regroups("/", Join(b), "/", Join(r));
  }

  lemma JoinedBelowNothing(rooted: bool, r: seq<string>)
    requires r != [] && CleanSeq(r, true)
    ensures Clean((if rooted then "/" else ".") + "/" + Join(r)) == if rooted then "/" + Join(r) else Join(r)
  {
    var base := if rooted then "/" else ".";
    SplitConcat(base, Join(r));
    SplitJoin(r);
    SplitPiece("");
    SplitPiece(".");
    SplitConcat("", "");
    assert "" + "/" + "" == "/";
    DropEmpties(Split(base), r, rooted);
    ResolveKeepsClean(r, rooted, []);
    assert [] + r == r;
  }

  /** The clean base is read back as its elements, after an empty one if it is rooted. */
  lemma SplitBase(baseDir: string)
    requires Components(baseDir) != []
    ensures Rooted(Clean(baseDir)) == Rooted(baseDir)
    ensures Split(Clean(baseDir)) == (if Rooted(baseDir) then [""] else []) + Components(baseDir)
  {
    ComponentsAreClean(baseDir);
    var b := Components(baseDir);
    JoinStart(b);
    assert b[0][0] in b[0];
    SplitJoin(b);
    if Rooted(baseDir) {
      SplitConcat("", Join(b));
      SplitPiece("");
      assert "" + "/" + Join(b) == Clean(baseDir);
    } else {
      assert [] + b == b;
    }
  }

  lemma CleanConcat(b: seq<string>, r: seq<string>, rooted: bool)
    requires CleanSeq(b, rooted) && CleanSeq(r, true)
    ensures CleanSeq(b + r, rooted)
  {
  }

  lemma ResolveBelow(es: seq<string>, cs: seq<string>, whole: seq<string>, rooted: bool)
    requires CleanSeq(cs, rooted) && (es == [] || es == [""]) && whole == es + cs
    ensures Resolve(whole, rooted, []) == cs
  {
    DropEmpties(es, cs, rooted);
    assert [] + cs == cs;
    ResolveKeepsClean(cs, rooted, []);
  }

  lemma Regroups<T>(x: seq<T>, y: seq<T>, z: seq<T>, w: seq<T>)
    ensures x + (y + z + w) == x + y + z + w
  {
  }

  lemma SplitBelow(base: string, es: seq<string>, b: seq<string>, r: seq<string>)
    requires r != [] && (forall i :: 0 <= i < |r| ==> NoSlash(r[i])) && Split(base) == es + b
    ensures Split(base + "/" + Join(r)) == es + (b + r)
  {
    SplitConcat(base, Join(r));
    SplitJoin(r);
    Associates(es, b, r);
  }

  lemma ComponentsBelow(base: string, rooted: bool, b: seq<string>, r: seq<string>, p: string)
    requires base != "" && CleanSeq(b, rooted) && r != [] && CleanSeq(r, true) && p == base + "/" + Join(r)
    requires Rooted(base) == rooted && Split(base) == (if rooted then [""] else []) + b
    ensures Rooted(p) == rooted && Components(p) == b + r
  {
    var es := if rooted then [""] else [];
    SplitBelow(base, es, b, r);
    CleanConcat(b, r, rooted);
    ResolveBelow(es, b + r, Split(p), rooted);
    assert p[0] == base[0];
  }

  lemma {:induction false} DropEmpties(es: seq<string>, cs: seq<string>, rooted: bool)
    requires forall i :: 0 <= i < |es| ==> es[i] == "" || es[i] == "."
    ensures Resolve(es + cs, rooted, []) == Resolve(cs, rooted, [])
    decreases |es|
  {
    if es == [] {
      assert es + cs == cs;
    } else {
      assert (es + cs)[1..] == es[1..] + cs;
      DropEmpties(es[1..], cs, rooted);
    }
  }
}
