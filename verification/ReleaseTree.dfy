/**
 Which files a release manifest covers (script/release-manifest.ts:50-129): the
 rule for one path, and the walk that skips whole directories.
 */
module ReleaseTree {

  import opened Text
  import opened Sequences

  type Bytes = seq<bv8>

  /**
   A file tree. A directory lists its entries in the order in which the walk
   visits them. A symbolic link holds what it leads to, as deep as any path at
   hand goes, or nothing.
   */
  datatype Node =
    | File(content: Bytes, executable: bool)
    | Dir(entries: seq<Named>)
    | Link(target: Option<Node>)
    | Other

  datatype Named = Named(name: string, node: Node)

  const EXCLUDE_ANY_DIRS := [".git", "node_modules", ".gradle", ".kotlin", ".idea", ".vscode", "__pycache__"]

  const EXCLUDE_ROOT_DIRS := [
    "dist", ".m5cet", ".claude", ".vite", ".memory", "coverage", "data",
    "admin-ui/public/vendor", "android/build", "android/app/build", "test-results", "playwright-report"]

  const EXCLUDE_FILE_GLOBS := [
    ".env*", "*.key", "*.pem", "*.p12", "*.pfx", "*.jks", "*.keystore",
    "*firebase-adminsdk*.json", "serviceAccount*.json",
    "*.db", "*.db-shm", "*.db-wal", "*.db-journal", "*.sqlite", "*.sqlite3",
    "*.log", ".DS_Store", "*~", ".*.swp", "*.bak", "local.properties", ".git"]

  const EXCLUDE_ROOT_FILES := ["release.json", "release.json.sig"]

  // ---------------------------------------------------------------- the rule for one path

  /** What `.` does not match in a JavaScript pattern. */
  predicate LineEnd(c: char) { c == '\n' || c == '\r' || c == '\U{2028}' || c == '\U{2029}' }

  /** A glob in which `*` stands for any characters on one line. */
  predicate MatchGlob(glob: string, s: string)
    decreases |glob| + |s|
  {
    if glob == "" then s == ""
    else if glob[0] == '*' then MatchGlob(glob[1..], s) || (s != "" && !LineEnd(s[0]) && MatchGlob(glob, s[1..]))
    else s != "" && glob[0] == s[0] && MatchGlob(glob[1..], s[1..])
  }

  function Last(parts: seq<string>): string
    requires parts != []
  {
    parts[|parts| - 1]
  }

  predicate IsExcludedDir(relDir: string, withDist: bool) {
    var parts := Split(relDir, '/');
    var base := Last(parts);
    || (base in EXCLUDE_ANY_DIRS && !(withDist && parts[0] == "dist" && base == "node_modules"))
    || (relDir in EXCLUDE_ROOT_DIRS && !(withDist && relDir == "dist"))
  }

  predicate InExcludedDir(parts: seq<string>, withDist: bool) {
    exists i | 1 <= i < |parts| :: IsExcludedDir(Join(parts[..i], "/"), withDist)
  }

  predicate MatchesGlob(base: string) {
    exists i | 0 <= i < |EXCLUDE_FILE_GLOBS| :: MatchGlob(EXCLUDE_FILE_GLOBS[i], base)
  }

  predicate IsExcluded(rel: string, withDist: bool) {
    var parts := Split(rel, '/');
    || (|parts| == 1 && Last(parts) in EXCLUDE_ROOT_FILES)
    || InExcludedDir(parts, withDist)
    || MatchesGlob(Last(parts))
  }

  function Covered(withDist: bool): string -> bool { rel => !IsExcluded(rel, withDist) }

  function Entered(withDist: bool): string -> bool { rel => !IsExcludedDir(rel, withDist) }

  // ---------------------------------------------------------------- the walk

  /** The files that the walk finds below a directory whose path, with its slash, is `prefix`. */
  function Walked(es: seq<Named>, prefix: string, acceptFile: string -> bool, acceptDir: string -> bool): seq<string>
    decreases es
  {
    if es == [] then []
    else
      var rel := prefix + es[0].name;
      (match es[0].node
       case Dir(entries) => if acceptDir(rel) then Walked(entries, rel + "/", acceptFile, acceptDir) else []
       case File(_, _) => if acceptFile(rel) then [rel] else []
       case _ => [])
      + Walked(es[1..], prefix, acceptFile, acceptDir)
  }

  /** The array that all calls of one walk push into. */
  class Out {
    var paths: seq<string>

    constructor ()
      ensures paths == []
    {
      paths := [];
    }
  }

  method Walk(es: seq<Named>, prefix: string, acceptFile: string -> bool, acceptDir: string -> bool, out: Out)
    modifies out
    ensures out.paths == old(out.paths) + Walked(es, prefix, acceptFile, acceptDir)
    decreases es
  {
    ghost var before := out.paths;
    var i := 0;
    assert es[0..] == es && before + Walked(es[0..], prefix, acceptFile, acceptDir) ==
           before + Walked(es, prefix, acceptFile, acceptDir);
    while i < |es|
      invariant 0 <= i <= |es|
      invariant out.paths + Walked(es[i..], prefix, acceptFile, acceptDir) ==
                before + Walked(es, prefix, acceptFile, acceptDir)
    {
      var rel := prefix + es[i].name;
      ghost var found := out.paths;
      ghost var rest := Walked(es[i + 1..], prefix, acceptFile, acceptDir);
      assert es[i..][1..] == es[i + 1..];
      match es[i].node {
        case Dir(entries) =>
          if acceptDir(rel) {
            Walk(entries, rel + "/", acceptFile, acceptDir, out);
            Associative(found, Walked(entries, rel + "/", acceptFile, acceptDir), rest);
          } else {
            assert [] + rest == rest;
          }
        case File(_, _) =>
          if acceptFile(rel) {
            out.paths := out.paths + [rel];
            Associative(found, [rel], rest);
          } else {
            assert [] + rest == rest;
          }
        case _ =>
          assert [] + rest == rest;
      }
      i := i + 1;
    }
  }

  /** Every file of the tree, in the order of the walk. */
  function AllFiles(es: seq<Named>, prefix: string): seq<string> { Walked(es, prefix, Any(), Any()) }

  function Any(): string -> bool { _ => true }

  predicate AllBelow(s: seq<string>, prefix: string) { forall i | 0 <= i < |s| :: prefix <= s[i] }

  lemma BelowAppend(a: seq<string>, b: seq<string>, longer: string, prefix: string)
    requires AllBelow(a, longer) && prefix <= longer && AllBelow(b, prefix)
    ensures AllBelow(a + b, prefix)
  {
    forall i | 0 <= i < |a| ensures prefix <= a[i] {
      assert longer[..|prefix|] == a[i][..|prefix|];
    }
  }

  /** Everything below a directory has its path, and a slash, in front. */
  lemma {:induction false} Below(es: seq<Named>, prefix: string)
    ensures AllBelow(AllFiles(es, prefix), prefix)
    decreases es
  {
    if es != [] {
      var rel, rest := prefix + es[0].name, AllFiles(es[1..], prefix);
      Below(es[1..], prefix);
      match es[0].node
      case Dir(entries) =>
        Below(entries, rel + "/");
        BelowAppend(AllFiles(entries, rel + "/"), rest, rel + "/", prefix);
      case File(_, _) => BelowAppend([rel], rest, rel, prefix);
      case _ => BelowAppend([], rest, prefix, prefix);
    }
  }

  lemma {:induction false} SplitAppend(a: string, b: string, c: char)
    ensures Split(a + [c] + b, c) == Split(a, c) + Split(b, c)
    decreases |a|
  {
    var i := Find(a, c);
    if i == |a| {
      FindAt(a, c, b);
      assert (a + [c] + b)[..|a|] == a && (a + [c] + b)[|a| + 1..] == b;
    } else {
      var rest := a[i + 1..];
      assert a + [c] + b == a[..i] + [c] + (rest + [c] + b);
      FindAt(a[..i], c, rest + [c] + b);
      assert (a + [c] + b)[i + 1..] == rest + [c] + b && (a + [c] + b)[..i] == a[..i];
      SplitAppend(rest, b, c);
      Associative([a[..i]], Split(rest, c), Split(b, c));
    }
  }

  /** The directories above a file are just the first parts of its path. */
  lemma PartsBelow(f: string, dir: string)
    requires dir + "/" <= f
    ensures |Split(dir, '/')| < |Split(f, '/')| && Join(Split(f, '/')[..|Split(dir, '/')|], "/") == dir
  {
    var more := f[|dir| + 1..];
    assert ['/'] == "/" && f == dir + ['/'] + more;
    SplitAppend(dir, more, '/');
    JoinSplit(dir, '/');
    assert (Split(dir, '/') + Split(more, '/'))[..|Split(dir, '/')|] == Split(dir, '/');
  }

  /** A file below an excluded directory is excluded. */
  lemma NotCovered(f: string, dir: string, withDist: bool)
    requires dir + "/" <= f && IsExcludedDir(dir, withDist)
    ensures IsExcluded(f, withDist)
  {
    PartsBelow(f, dir);
    InExcluded(Split(f, '/'), |Split(dir, '/')|, dir, withDist);
  }

  lemma InExcluded(parts: seq<string>, i: nat, dir: string, withDist: bool)
    requires 1 <= i < |parts| && Join(parts[..i], "/") == dir && IsExcludedDir(dir, withDist)
    ensures InExcludedDir(parts, withDist)
  {}

  lemma ExcludedBelow(all: seq<string>, dir: string, withDist: bool)
    requires IsExcludedDir(dir, withDist) && AllBelow(all, dir + "/")
    ensures Filter(all, Covered(withDist)) == []
  {
    forall i | 0 <= i < |all| ensures !Covered(withDist)(all[i]) {
      NotCovered(all[i], dir, withDist);
    }
    FilterNone(all, Covered(withDist));
  }

  /**
   Main result: skipping whole directories loses nothing and adds nothing. The
   walk finds just the files that the rule for one path covers, in the order of
   a walk that skips none.
   */
  lemma {:induction false} WalkIsFilter(es: seq<Named>, prefix: string, withDist: bool)
    ensures Walked(es, prefix, Covered(withDist), Entered(withDist)) == Filter(AllFiles(es, prefix), Covered(withDist))
    decreases es
  {
    if es != [] {
      var rel := prefix + es[0].name;
      WalkIsFilter(es[1..], prefix, withDist);
      var rest := AllFiles(es[1..], prefix);
      match es[0].node
      case Dir(entries) =>
        FilterAppend(AllFiles(entries, rel + "/"), rest, Covered(withDist));
        if IsExcludedDir(rel, withDist) {
          Below(entries, rel + "/");
          ExcludedBelow(AllFiles(entries, rel + "/"), rel, withDist);
        } else {
          WalkIsFilter(entries, rel + "/", withDist);
        }
      case File(_, _) => FilterAppend([rel], rest, Covered(withDist));
      case _ => FilterAppend([], rest, Covered(withDist));
    }
  }

  // ---------------------------------------------------------------- the globs

  predicate OneLine(s: string) { forall i | 0 <= i < |s| :: !LineEnd(s[i]) }

  lemma {:induction false} GlobLiteral(glob: string, s: string)
    requires '*' !in glob
    ensures MatchGlob(glob, s) <==> s == glob
  {
    if glob != "" {
      assert '*' !in glob[1..];
      assert glob == [glob[0]] + glob[1..];
      if s != "" {
        assert s == [s[0]] + s[1..];
        GlobLiteral(glob[1..], s[1..]);
      }
    }
  }

  /** A glob that begins with its one star matches the names with that ending and nothing but one line before it. */
  lemma {:induction false} GlobEnding(ending: string, s: string)
    requires '*' !in ending
    ensures MatchGlob("*" + ending, s) <==>
            |s| >= |ending| && s[|s| - |ending|..] == ending && OneLine(s[..|s| - |ending|])
    decreases |s|
  {
    var glob := "*" + ending;
    assert glob[0] == '*' && glob[1..] == ending;
    GlobLiteral(ending, s);
    if |s| > |ending| {
      var k := |s| - |ending|;
      GlobEnding(ending, s[1..]);
      assert s[1..][k - 1..] == s[k..] && s[..k] == [s[0]] + s[1..][..k - 1];
    } else if s != "" {
      GlobEnding(ending, s[1..]);
      assert |s| == |ending| ==> s[0..] == s && s[..0] == "";
    } else {
      assert s[0..] == s && s[..0] == "";
    }
  }

  /** A glob in which `*` stands for any characters whatever. */
  predicate AnyGlob(glob: string, s: string)
    decreases |glob| + |s|
  {
    if glob == "" then s == ""
    else if glob[0] == '*' then AnyGlob(glob[1..], s) || (s != "" && AnyGlob(glob, s[1..]))
    else s != "" && glob[0] == s[0] && AnyGlob(glob[1..], s[1..])
  }

  lemma OneLineFirst(s: string)
    requires s != ""
    ensures OneLine(s) <==> !LineEnd(s[0]) && OneLine(s[1..])
  {
    if OneLine(s[1..]) {
      assert forall i | 1 <= i < |s| :: s[i] == s[1..][i - 1];
    }
    if OneLine(s) {
      assert forall i | 0 <= i < |s[1..]| :: s[1..][i] == s[i + 1];
    }
  }

  /** Main result: a glob misses a name that its stars were meant for exactly when the name has a line end. */
  lemma {:induction false} GlobLines(glob: string, s: string)
    requires OneLine(glob)
    ensures MatchGlob(glob, s) <==> AnyGlob(glob, s) && OneLine(s)
    decreases |glob| + |s|
  {
    if glob != "" {
      OneLineFirst(glob);
      if glob[0] == '*' {
        GlobLines(glob[1..], s);
      }
      if s != "" {
        OneLineFirst(s);
        GlobLines(if glob[0] == '*' then glob else glob[1..], s[1..]);
      }
    }
  }

  lemma GlobsLines(globs: seq<string>, s: string)
    requires forall i | 0 <= i < |globs| :: OneLine(globs[i])
    ensures (exists i | 0 <= i < |globs| :: MatchGlob(globs[i], s)) <==>
            (exists i | 0 <= i < |globs| :: AnyGlob(globs[i], s)) && OneLine(s)
  {
    forall i | 0 <= i < |globs| ensures MatchGlob(globs[i], s) <==> AnyGlob(globs[i], s) && OneLine(s) {
      GlobLines(globs[i], s);
    }
  }

  /** The name has the shape of a file to leave out. */
  predicate LooksSecret(base: string) {
    exists i | 0 <= i < |EXCLUDE_FILE_GLOBS| :: AnyGlob(EXCLUDE_FILE_GLOBS[i], base)
  }

  lemma FirstGlobsOneLine(i: nat)
    requires i < 7
    ensures OneLine(EXCLUDE_FILE_GLOBS[i])
  {}

  lemma MiddleGlobsOneLine(i: nat)
    requires 7 <= i < 13
    ensures OneLine(EXCLUDE_FILE_GLOBS[i])
  {}

  lemma LastGlobsOneLine(i: nat)
    requires 13 <= i < |EXCLUDE_FILE_GLOBS|
    ensures OneLine(EXCLUDE_FILE_GLOBS[i])
  {}

  lemma RootFilesOneLine(s: string)
    requires s in EXCLUDE_ROOT_FILES
    ensures OneLine(s)
  {}

  lemma MatchesLooking(base: string)
    ensures MatchesGlob(base) <==> LooksSecret(base) && OneLine(base)
  {
    forall i | 0 <= i < |EXCLUDE_FILE_GLOBS| ensures OneLine(EXCLUDE_FILE_GLOBS[i]) {
      if i < 7 {
        FirstGlobsOneLine(i);
      } else if i < 13 {
        MiddleGlobsOneLine(i);
      } else {
        LastGlobsOneLine(i);
      }
    }
    GlobsLines(EXCLUDE_FILE_GLOBS, base);
  }

  /**
   Main result: a file whose name looks like one to leave out is covered all the
   same exactly when its name has a line end.
   */
  lemma SecretCovered(rel: string, withDist: bool)
    requires LooksSecret(Last(Split(rel, '/')))
    ensures !IsExcluded(rel, withDist) <==> !InExcludedDir(Split(rel, '/'), withDist) && !OneLine(Last(Split(rel, '/')))
  {
    var base := Last(Split(rel, '/'));
    MatchesLooking(base);
    if base in EXCLUDE_ROOT_FILES {
      RootFilesOneLine(base);
    }
  }

  /** The shape that `SecretCovered` speaks of, and two names of it: one is left out, the other is not. */
  lemma LineEndEscapes()
    ensures MatchGlob("*.pem", "a.pem") && LooksSecret("a.pem") && MatchesGlob("a.pem")
    ensures !MatchGlob("*.pem", "a\U{2028}.pem") && LooksSecret("a\U{2028}.pem") && !MatchesGlob("a\U{2028}.pem")
  {
    var good, bad := "a.pem", "a\U{2028}.pem";
    assert "*.pem"[1..] == ".pem" && good[1..] == ".pem" && bad[1..][1..] == ".pem";
    AnyGlobLiteral(".pem");
    assert AnyGlob("*.pem", ".pem") && AnyGlob("*.pem", good);
    assert AnyGlob("*.pem", bad[1..]) && AnyGlob("*.pem", bad);
    assert EXCLUDE_FILE_GLOBS[2] == "*.pem";
    assert LineEnd(bad[1]);
    GlobLines("*.pem", good);
    GlobLines("*.pem", bad);
    MatchesLooking(good);
    MatchesLooking(bad);
  }

  lemma {:induction false} AnyGlobLiteral(glob: string)
    requires '*' !in glob
    ensures AnyGlob(glob, glob)
  {
    if glob != "" {
      AnyGlobLiteral(glob[1..]);
    }
  }

  // ---------------------------------------------------------------- the name in a path

  /** The last part of a path is its end. */
  lemma {:induction false} LastIsEnd(s: string, c: char)
    ensures var l := Last(Split(s, c)); |l| <= |s| && s[|s| - |l|..] == l
    decreases |s|
  {
    var i := Find(s, c);
    if i < |s| {
      LastIsEnd(s[i + 1..], c);
    } else {
      assert s[0..] == s;
    }
  }
}
