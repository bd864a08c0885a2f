/**
 Release manifests (script/release-manifest.ts): the list of a tree's files with
 their sizes and digests, and the check of a tree against such a list.
 */
module ReleaseManifest {

  import opened Text
  import opened Sequences
  import opened ReleaseTree

  /** SHA-256 in hexadecimal, as a function on the bytes. */
  type Hash = Bytes -> string

  datatype FileEntry = FileEntry(path: string, size: int, sha256: string)

  // ---------------------------------------------------------------- listing

  function Insert(x: string, s: seq<string>): seq<string> {
    if s == [] then [x]
    else if x == s[0] then s
    else if Less(x, s[0]) then [x] + s
    else [s[0]] + Insert(x, s[1..])
  }

  /** `[...new Set(files)].sort(cmp)` */
  function SortedSet(files: seq<string>): seq<string> {
    if files == [] then [] else Insert(files[0], SortedSet(files[1..]))
  }

  predicate Ascending(s: seq<string>) { forall i | 0 < i < |s| :: Less(s[i - 1], s[i]) }

  lemma {:induction false} InsertIs(x: string, s: seq<string>)
    requires Ascending(s)
    ensures Ascending(Insert(x, s)) && forall y :: y in Insert(x, s) <==> y == x || y in s
    ensures Insert(x, s)[0] == x || (s != [] && Insert(x, s)[0] == s[0])
  {
    if s != [] && x != s[0] && !Less(x, s[0]) {
      LessTotal(x, s[0]);
      assert forall i | 0 < i < |s[1..]| :: s[1..][i - 1] == s[i] && s[1..][i] == s[i + 1];
      InsertIs(x, s[1..]);
      var rest := Insert(x, s[1..]);
      assert Less(s[0], rest[0]) by {
        if rest[0] != x {
          assert s[1] == s[1..][0];
        }
      }
      forall i | 0 < i < |[s[0]] + rest| ensures Less(([s[0]] + rest)[i - 1], ([s[0]] + rest)[i]) {
        if i > 1 {
          assert Less(rest[i - 2], rest[i - 1]);
        }
      }
      assert s == [s[0]] + s[1..];
    }
  }

  /** Just the same paths, each once, in strictly ascending order. */
  lemma {:induction false} SortedSetIs(files: seq<string>)
    ensures Ascending(SortedSet(files)) && forall y :: y in SortedSet(files) <==> y in files
  {
    if files != [] {
      SortedSetIs(files[1..]);
      InsertIs(files[0], SortedSet(files[1..]));
      assert files == [files[0]] + files[1..];
    }
  }

  /** The walk of a tree for a release. */
  function Present(es: seq<Named>, withDist: bool): seq<string> { Walked(es, "", Covered(withDist), Entered(withDist)) }

  /** `listReleaseFiles` where no work tree of git says what is tracked. */
  function ReleaseFiles(es: seq<Named>, withDist: bool): seq<string> { SortedSet(Present(es, withDist)) }

  /** Main result: a release lists just the files of the whole tree that the rule for one path covers, in order. */
  lemma ListedExactly(es: seq<Named>, withDist: bool)
    ensures Ascending(ReleaseFiles(es, withDist))
    ensures forall f :: f in ReleaseFiles(es, withDist) <==> f in AllFiles(es, "") && !IsExcluded(f, withDist)
  {
    WalkIsFilter(es, "", withDist);
    FilterIs(AllFiles(es, ""), Covered(withDist));
    SortedSetIs(Present(es, withDist));
  }

  // ---------------------------------------------------------------- looking a path up

  /** What is at a path; `Blocked` when something on the way is no directory. */
  datatype Found = At(node: Node) | Absent | Blocked

  function Child(es: seq<Named>, name: string): Option<Node> {
    if es == [] then None else if es[0].name == name then Some(es[0].node) else Child(es[1..], name)
  }

  /** What is entered by a path that goes on through a node; links are followed. */
  function Through(node: Node): Found
    ensures Through(node).At? ==> Through(node).node.Dir?
  {
    match node
    case Dir(_) => At(node)
    case Link(None) => Absent
    case Link(Some(target)) => Through(target)
    case _ => Blocked
  }

  /** What `lstat` finds at a path: links on the way are followed, one at its end is not. */
  function Find(es: seq<Named>, parts: seq<string>): Found
    requires parts != []
    decreases |parts|
  {
    match Child(es, parts[0])
    case None => Absent
    case Some(node) =>
      if |parts| == 1 then At(node)
      else
        match Through(node)
        case At(dir) => Find(dir.entries, parts[1..])
        case nowhere => nowhere
  }

  /** `join` leaves empty parts and single dots out of a path. */
  function Plain(parts: seq<string>): seq<string> {
    if parts == [] then []
    else (if parts[0] == "" || parts[0] == "." then [] else [parts[0]]) + Plain(parts[1..])
  }

  function Lookup(es: seq<Named>, rel: string): Found {
    var parts := Plain(Split(rel, '/'));
    if parts == [] then At(Dir(es)) else Find(es, parts)
  }

  predicate Control(c: char) { c < ' ' || c == '\U{007F}' }

  /** What `assertSafePath` lets through. */
  predicate SafePath(rel: string) {
    && rel != "" && rel[0] != '/' && ".." !in Split(rel, '/')
    && forall i | 0 <= i < |rel| :: rel[i] != '"' && rel[i] != '\\' && !Control(rel[i])
  }

  lemma {:induction false} PlainAppend(a: seq<string>, b: seq<string>)
    ensures Plain(a + b) == Plain(a) + Plain(b)
  {
    if a == [] {
      assert a + b == b;
    } else {
      assert (a + b)[1..] == a[1..] + b;
      PlainAppend(a[1..], b);
    }
  }

  /** Main result: single dots and doubled slashes in a path make no difference to what is found. */
  lemma SamePlace(es: seq<Named>, a: string, b: string)
    ensures Lookup(es, a + "/./" + b) == Lookup(es, a + "/" + b) == Lookup(es, a + "//" + b)
    ensures Lookup(es, "./" + b) == Lookup(es, b) && Lookup(es, a + "/") == Lookup(es, a)
  {
    InBetween(a, b);
    AtEnds(a, b);
    SameLookup(es, a + "/./" + b, a + "/" + b);
    SameLookup(es, a + "//" + b, a + "/" + b);
    SameLookup(es, "./" + b, b);
    SameLookup(es, a + "/", a);
  }

  lemma SameLookup(es: seq<Named>, x: string, y: string)
    requires Plain(Split(x, '/')) == Plain(Split(y, '/'))
    ensures Lookup(es, x) == Lookup(es, y)
  {}

  lemma InBetween(a: string, b: string)
    ensures Plain(Split(a + "/./" + b, '/')) == Plain(Split(a + "/" + b, '/')) == Plain(Split(a + "//" + b, '/'))
  {
    Slashes(a, b);
    Between(a, ".", b);
    Between(a, "", b);
    OneSlash(a, b);
  }

  lemma Slashes(a: string, b: string)
    ensures a + "/./" + b == a + ("/" + "." + "/") + b && a + "//" + b == a + ("/" + "" + "/") + b
  {}

  lemma OneSlash(a: string, b: string)
    ensures Plain(Split(a + "/" + b, '/')) == Plain(Split(a, '/')) + Plain(Split(b, '/'))
  {
    SplitAppend(a, b, '/');
    PlainAppend(Split(a, '/'), Split(b, '/'));
    assert "/" == ['/'];
  }

  lemma AtEnds(a: string, b: string)
    ensures Plain(Split("./" + b, '/')) == Plain(Split(b, '/')) && Plain(Split(a + "/", '/')) == Plain(Split(a, '/'))
  {
    DotOnly(".");
    DotOnly("");
    SplitAppend(".", b, '/');
    SplitAppend(a, "", '/');
    assert "." + ['/'] + b == "./" + b && a + ['/'] + "" == a + "/";
    PlainAppend(["."], Split(b, '/'));
    PlainAppend(Split(a, '/'), [""]);
    assert Plain(Split(a, '/')) + [] == Plain(Split(a, '/')) && [] + Plain(Split(b, '/')) == Plain(Split(b, '/'));
  }

  lemma DotOnly(dot: string)
    requires dot == "" || dot == "."
    ensures Split(dot, '/') == [dot] && Plain([dot]) == []
  {
    FindIs(dot, '/', |dot|);
    assert [dot][1..] == [] && Plain([dot][1..]) == [];
  }

  lemma Between(a: string, dot: string, b: string)
    requires dot == "" || dot == "."
    ensures Plain(Split(a + ("/" + dot + "/") + b, '/')) == Plain(Split(a, '/')) + Plain(Split(b, '/'))
  {
    var all := a + ['/'] + (dot + ['/'] + b);
    assert all == a + ("/" + dot + "/") + b;
    SplitAppend(a, dot + ['/'] + b, '/');
    SplitAppend(dot, b, '/');
    DotOnly(dot);
    PlainAppend(Split(a, '/'), [dot] + Split(b, '/'));
    PlainAppend([dot], Split(b, '/'));
    assert [] + Plain(Split(b, '/')) == Plain(Split(b, '/'));
  }

  /** Two dots at `k` that are a whole part of the path. */
  predicate UpAt(rel: string, k: nat) {
    && k + 2 <= |rel| && rel[k] == '.' && rel[k + 1] == '.'
    && (k == 0 || rel[k - 1] == '/') && (k + 2 == |rel| || rel[k + 2] == '/')
  }

  /** The path has a part that leads to the directory above. */
  ghost predicate GoesUp(rel: string) { exists k: nat :: UpAt(rel, k) }

  /**
   Main result: a path that can be written is not empty, begins with no slash,
   goes nowhere up, and has no quote, backslash or control character.
   */
  lemma SafePathIs(rel: string)
    ensures SafePath(rel) <==>
            && rel != "" && !("/" <= rel) && !GoesUp(rel)
            && forall i | 0 <= i < |rel| ::
                 rel[i] as int >= 0x20 && rel[i] as int != 0x7f && rel[i] as int != 0x22 && rel[i] as int != 0x5c
  {
    UpIsPart(rel);
    assert forall i | 0 <= i < |rel| ::
        rel[i] != '"' && rel[i] != '\\' && !Control(rel[i]) <==>
        rel[i] as int >= 0x20 && rel[i] as int != 0x7f && rel[i] as int != 0x22 && rel[i] as int != 0x5c;
  }

  lemma {:induction false} UpIsPart(rel: string)
    ensures GoesUp(rel) <==> ".." in Split(rel, '/')
    decreases |rel|
  {
    var i := Text.Find(rel, '/');
    if i == |rel| {
      NoSlashUp(rel);
    } else {
      var first, rest := rel[..i], rel[i + 1..];
      UpIsPart(rest);
      assert rel == first + ['/'] + rest;
      UpHereOrLater(rel, first, rest);
    }
  }

  lemma NoSlashUp(rel: string)
    requires '/' !in rel
    ensures GoesUp(rel) <==> rel == ".."
  {
    if rel == ".." {
      assert UpAt(rel, 0);
    }
    forall k: nat | UpAt(rel, k) ensures k == 0 && |rel| == 2 {
      assert forall i | 0 <= i < |rel| :: rel[i] != '/';
    }
  }

  lemma UpHereOrLater(rel: string, first: string, rest: string)
    requires '/' !in first && rel == first + ['/'] + rest
    ensures GoesUp(rel) <==> first == ".." || GoesUp(rest)
  {
    if first == ".." {
      assert UpAt(rel, 0);
    }
    if k: nat :| UpAt(rest, k) {
      assert rel[|first| + 1 + k] == rest[k] && rel[|first| + 2 + k] == rest[k + 1];
      assert k > 0 ==> rel[|first| + k] == rest[k - 1];
      assert k + 2 < |rest| ==> rel[|first| + 3 + k] == rest[k + 2];
      assert UpAt(rel, |first| + 1 + k);
    }
    if k: nat :| UpAt(rel, k) {
      UpWhere(rel, first, rest, k);
    }
  }

  lemma UpWhere(rel: string, first: string, rest: string, k: nat)
    requires '/' !in first && rel == first + ['/'] + rest && UpAt(rel, k)
    ensures first == ".." || GoesUp(rest)
  {
    var n := |first|;
    assert forall i | 0 <= i < n :: rel[i] == first[i] && first[i] in first;
    assert rel[n] == '/';
    if k < n {
      assert k == 0;
      assert n == 2;
    } else {
      var m := k - (n + 1);
      assert rest == rel[n + 1..];
      assert rest[m] == rel[k] && rest[m + 1] == rel[k + 1];
      assert UpAt(rest, m);
    }
  }

  /** Capital letters become the small ones; everything else stays. */
  lemma LowerIs(d: nat, c: char)
    requires d < 26
    ensures Lower('A' + d as char) == 'a' + d as char
    ensures c < 'A' || c > 'Z' ==> Lower(c) == c
  {}

  // ---------------------------------------------------------------- writing

  function EntryFor(sha: Hash, path: string, content: Bytes): FileEntry { FileEntry(path, |content|, sha(content)) }

  /** The entries of files; `None` when a path is unsafe or is no file. */
  function EntriesFor(sha: Hash, es: seq<Named>, files: seq<string>): Option<seq<FileEntry>> {
    if files == [] then Some([])
    else if !SafePath(files[0]) then None
    else
      match Lookup(es, files[0])
      case At(File(content, _)) =>
        (match EntriesFor(sha, es, files[1..])
         case None => None
         case Some(rest) => Some([EntryFor(sha, files[0], content)] + rest))
      case _ => None
  }

  // ---------------------------------------------------------------- checking

  datatype Signature = Valid | Invalid | Unsigned | NoKey

  datatype Report = Report(
    ok: bool, missing: seq<string>, modified: seq<string>, extra: seq<string>, extraExecutable: seq<string>)

  predicate Unchanged(sha: Hash, node: Node, f: FileEntry) {
    node.File? && |node.content| == f.size && sha(node.content) == f.sha256
  }

  function Lower(c: char): char { if 'A' <= c <= 'Z' then c - 'A' + 'a' else c }

  predicate EndsIn(s: string, endings: seq<string>) {
    exists i | 0 <= i < |endings| :: |s| >= |endings[i]| &&
      forall j | 0 <= j < |endings[i]| :: Lower(s[|s| - |endings[i]| + j]) == endings[i][j]
  }

  const NATIVE := [".node", ".so", ".dylib", ".dll", ".exe"]

  const SERVED_CODE := [".htm", ".html", ".xhtml", ".js", ".mjs", ".cjs", ".wasm", ".svg", ".xml"]

  predicate CanRun(es: seq<Named>, web: bool, rel: string) {
    if web then EndsIn(rel, SERVED_CODE)
    else EndsIn(rel, NATIVE) || match Lookup(es, rel) { case At(File(_, executable)) => executable case _ => false }
  }

  /** A manifest's own name in the tree and that of its signature. */
  function NotItself(manifestRel: string): string -> bool { rel => rel != manifestRel && rel != manifestRel + ".sig" }

  predicate ListsDist(files: seq<FileEntry>) { exists i | 0 <= i < |files| :: StartsWith(files[i].path, "dist/") }

  /** The files of the tree that the manifest should list. */
  function InTree(es: seq<Named>, files: seq<FileEntry>, web: bool, manifestRel: string): seq<string> {
    if web then Walked(es, "", NotItself(manifestRel), Any()) else Present(es, ListsDist(files))
  }

  /** What the check finds at a listed path. */
  datatype Verdict = AsListed | Gone | Changed | InTheWay

  function Judge(sha: Hash, es: seq<Named>, f: FileEntry): Verdict {
    match Lookup(es, f.path)
    case Absent => Gone
    case Blocked => InTheWay
    case At(node) => if Unchanged(sha, node, f) then AsListed else Changed
  }

  predicate Reachable(sha: Hash, es: seq<Named>, files: seq<FileEntry>) {
    forall i | 0 <= i < |files| :: Judge(sha, es, files[i]) != InTheWay
  }

  /** The listed paths with one verdict. */
  function Judged(sha: Hash, es: seq<Named>, files: seq<FileEntry>, v: Verdict): seq<string> {
    if files == [] then []
    else (if Judge(sha, es, files[0]) == v then [files[0].path] else []) + Judged(sha, es, files[1..], v)
  }

  function Unlisted(files: seq<FileEntry>): string -> bool {
    rel => forall i | 0 <= i < |files| :: files[i].path != rel
  }

  function RunnableOf(es: seq<Named>, web: bool): string -> bool { rel => CanRun(es, web, rel) }

  /** What `verifyTree` reports; `None` when the look at a listed path fails because a file is in the way. */
  function Verified(sha: Hash, es: seq<Named>, files: seq<FileEntry>, web: bool, manifestRel: string,
                    signature: Signature): Option<Report> {
    if !Reachable(sha, es, files) then None
    else
      var missing, modified := Judged(sha, es, files, Gone), Judged(sha, es, files, Changed);
      var extra := Filter(InTree(es, files, web, manifestRel), Unlisted(files));
      var runnable := Filter(extra, RunnableOf(es, web));
      var ok := missing == [] && modified == [] && runnable == [] && signature != Invalid;
      Some(Report(ok, missing, modified, extra, runnable))
  }

  method FilterPaths(s: seq<string>, p: string -> bool) returns (r: seq<string>)
    ensures r == Filter(s, p)
  {
    r := [];
    for i := 0 to |s|
      invariant r + Filter(s[i..], p) == Filter(s, p)
    {
      assert s[i..][1..] == s[i + 1..];
      Associative(r, if p(s[i]) then [s[i]] else [], Filter(s[i + 1..], p));
      if p(s[i]) {
        r := r + [s[i]];
      } else {
        assert r + [] == r;
      }
    }
  }

  lemma OneJudged(sha: Hash, es: seq<Named>, files: seq<FileEntry>, i: nat, v: Verdict, found: seq<string>)
    requires i < |files|
    ensures var here := if Judge(sha, es, files[i]) == v then found + [files[i].path] else found;
            found + Judged(sha, es, files[i..], v) == here + Judged(sha, es, files[i + 1..], v)
  {
    assert files[i..][1..] == files[i + 1..];
    var here := if Judge(sha, es, files[i]) == v then [files[i].path] else [];
    Associative(found, here, Judged(sha, es, files[i + 1..], v));
    assert found + [] == found;
  }

  lemma OneReached(sha: Hash, es: seq<Named>, files: seq<FileEntry>, i: nat)
    requires i < |files| && Reachable(sha, es, files[..i])
    ensures Reachable(sha, es, files[..i + 1]) <==> Judge(sha, es, files[i]) != InTheWay
    ensures (set f | f in files[..i + 1] :: f.path) == (set f | f in files[..i] :: f.path) + {files[i].path}
  {
    assert files[..i + 1] == files[..i] + [files[i]];
  }

  /** The first loop of `verifyTree`, over the files that the manifest lists. */
  method CheckListed(sha: Hash, es: seq<Named>, files: seq<FileEntry>)
    returns (blocked: bool, listed: set<string>, missing: seq<string>, modified: seq<string>)
    ensures blocked <==> !Reachable(sha, es, files)
    ensures !blocked ==> listed == (set f | f in files :: f.path)
    ensures !blocked ==> missing == Judged(sha, es, files, Gone) && modified == Judged(sha, es, files, Changed)
  {
    blocked, listed, missing, modified := false, {}, [], [];
    for i := 0 to |files|
      invariant !blocked && Reachable(sha, es, files[..i]) && listed == set f | f in files[..i] :: f.path
      invariant missing + Judged(sha, es, files[i..], Gone) == Judged(sha, es, files, Gone)
      invariant modified + Judged(sha, es, files[i..], Changed) == Judged(sha, es, files, Changed)
    {
      var f := files[i];
      OneJudged(sha, es, files, i, Gone, missing);
      OneJudged(sha, es, files, i, Changed, modified);
      OneReached(sha, es, files, i);
      listed := listed + {f.path};
      match Judge(sha, es, f) {
        case Gone => missing := missing + [f.path];
        case InTheWay => blocked := true; return;
        case Changed => modified := modified + [f.path];
        case AsListed =>
      }
    }
    assert files[..|files|] == files;
  }

  method VerifyTree(sha: Hash, es: seq<Named>, files: seq<FileEntry>, web: bool, manifestRel: string,
                    signature: Signature)
    returns (report: Option<Report>)
    ensures report == Verified(sha, es, files, web, manifestRel, signature)
  {
    var blocked, listed, missing, modified := CheckListed(sha, es, files);
    if blocked {
      return None;
    }
    var out := new Out();
    if web {
      Walk(es, "", NotItself(manifestRel), Any(), out);
    } else {
      var withDist := ListsDist(files);
      Walk(es, "", Covered(withDist), Entered(withDist), out);
    }
    assert [] + InTree(es, files, web, manifestRel) == InTree(es, files, web, manifestRel);
    var extra := FilterPaths(out.paths, rel => rel !in listed);
    SameFilter(out.paths, rel => rel !in listed, Unlisted(files));
    var runnable := FilterPaths(extra, RunnableOf(es, web));
    var ok := |missing| == 0 && |modified| == 0 && |runnable| == 0 && signature != Invalid;
    report := Some(Report(ok, missing, modified, extra, runnable));
  }

  lemma {:induction false} SameFilter(s: seq<string>, p: string -> bool, q: string -> bool)
    requires forall x :: p(x) == q(x)
    ensures Filter(s, p) == Filter(s, q)
  {
    if s != [] {
      SameFilter(s[1..], p, q);
    }
  }

  // ---------------------------------------------------------------- what an ok means

  lemma {:induction false} NoneJudged(sha: Hash, es: seq<Named>, files: seq<FileEntry>, v: Verdict)
    ensures Judged(sha, es, files, v) == [] <==> forall i | 0 <= i < |files| :: Judge(sha, es, files[i]) != v
  {
    if files != [] {
      NoneJudged(sha, es, files[1..], v);
      assert forall i | 1 <= i < |files| :: files[i] == files[1..][i - 1];
      assert forall i | 0 <= i < |files[1..]| :: files[1..][i] == files[i + 1];
    }
  }

  lemma {:induction false} NoneLeft(s: seq<string>, p: string -> bool)
    ensures Filter(s, p) == [] <==> forall x :: x in s ==> !p(x)
  {
    FilterIs(s, p);
    if Filter(s, p) != [] {
      assert Filter(s, p)[0] in Filter(s, p);
    }
  }

  /**
   Main result: a tree passes exactly when every listed file is there with its
   size and digest, no file that could run is there without being listed, and
   the signature is not a wrong one.
   */
  lemma PassesExactly(sha: Hash, es: seq<Named>, files: seq<FileEntry>, web: bool, manifestRel: string,
                      signature: Signature)
    ensures var r := Verified(sha, es, files, web, manifestRel, signature);
            r.Some? && r.value.ok <==>
            && signature != Invalid
            && (forall i | 0 <= i < |files| :: Judge(sha, es, files[i]) == AsListed)
            && forall rel ::
                 rel in InTree(es, files, web, manifestRel) && Unlisted(files)(rel) ==> !CanRun(es, web, rel)
  {
    NoneJudged(sha, es, files, Gone);
    NoneJudged(sha, es, files, Changed);
    var present := InTree(es, files, web, manifestRel);
    var extra := Filter(present, Unlisted(files));
    FilterIs(present, Unlisted(files));
    NoneLeft(extra, RunnableOf(es, web));
  }

  // ---------------------------------------------------------------- what the lists of a report hold

  predicate IsListed(files: seq<FileEntry>, path: string) { exists i | 0 <= i < |files| :: files[i].path == path }

  lemma {:induction false} JudgedAre(sha: Hash, es: seq<Named>, files: seq<FileEntry>, v: Verdict)
    ensures forall path :: path in Judged(sha, es, files, v) <==>
              exists i | 0 <= i < |files| :: files[i].path == path && Judge(sha, es, files[i]) == v
  {
    if files != [] {
      var rest := Judged(sha, es, files[1..], v);
      JudgedAre(sha, es, files[1..], v);
      forall path ensures path in Judged(sha, es, files, v) <==>
          exists i | 0 <= i < |files| :: files[i].path == path && Judge(sha, es, files[i]) == v
      {
        if path in rest {
          var i :| 0 <= i < |files[1..]| && files[1..][i].path == path && Judge(sha, es, files[1..][i]) == v;
          assert files[i + 1] == files[1..][i];
        }
        if i :| 0 <= i < |files| && files[i].path == path && Judge(sha, es, files[i]) == v {
          assert i > 0 ==> files[1..][i - 1] == files[i];
        }
      }
    }
  }

  /**
   Main result: whatever a report says, `missing` are the listed paths at which
   there is nothing, and `modified` those at which there is something else than
   a file of the listed size and digest.
   */
  lemma MissingAndModified(sha: Hash, es: seq<Named>, files: seq<FileEntry>, web: bool, manifestRel: string,
                           signature: Signature)
    requires Verified(sha, es, files, web, manifestRel, signature).Some?
    ensures var r := Verified(sha, es, files, web, manifestRel, signature).value;
            && (forall path :: path in r.missing <==>
                  exists i | 0 <= i < |files| :: files[i].path == path && Lookup(es, path).Absent?)
            && (forall path :: path in r.modified <==>
                  exists i | 0 <= i < |files| ::
                    && files[i].path == path && Lookup(es, path).At?
                    && (Lookup(es, path).node.File? ==>
                        |Lookup(es, path).node.content| != files[i].size
                        || sha(Lookup(es, path).node.content) != files[i].sha256))
  {
    JudgedAre(sha, es, files, Gone);
    JudgedAre(sha, es, files, Changed);
  }

  /** A walk that enters every directory finds just the files of the tree that pass. */
  lemma {:induction false} WalkAll(es: seq<Named>, prefix: string, accept: string -> bool)
    ensures Walked(es, prefix, accept, Any()) == Filter(AllFiles(es, prefix), accept)
    decreases es
  {
    if es != [] {
      var rel := prefix + es[0].name;
      var rest := AllFiles(es[1..], prefix);
      WalkAll(es[1..], prefix, accept);
      match es[0].node
      case Dir(entries) =>
        WalkAll(entries, rel + "/", accept);
        FilterAppend(AllFiles(entries, rel + "/"), rest, accept);
      case File(_, _) => FilterAppend([rel], rest, accept);
      case _ => FilterAppend([], rest, accept);
    }
  }

  /** The files that the check looks at: those the rule covers, or all but the manifest and its signature. */
  lemma TreeLookedAt(es: seq<Named>, files: seq<FileEntry>, web: bool, manifestRel: string)
    ensures forall path :: path in InTree(es, files, web, manifestRel) <==>
              && path in AllFiles(es, "")
              && if web then path != manifestRel && path != manifestRel + ".sig"
                 else !IsExcluded(path, exists i | 0 <= i < |files| :: "dist/" <= files[i].path)
  {
    WalkIsFilter(es, "", ListsDist(files));
    WalkAll(es, "", NotItself(manifestRel));
    FilterIs(AllFiles(es, ""), Covered(ListsDist(files)));
    FilterIs(AllFiles(es, ""), NotItself(manifestRel));
  }

  /** The path ends in one of these endings, in small or capital letters. */
  predicate HasEnding(path: string, endings: seq<string>) {
    exists e, k :: e in endings && k == |path| - |e| && k >= 0 && Small(path[k..]) == e
  }

  function Small(s: string): string { if s == "" then "" else [Lower(s[0])] + Small(s[1..]) }

  lemma {:induction false} SmallEach(s: string)
    ensures |Small(s)| == |s| && forall i | 0 <= i < |s| :: Small(s)[i] == Lower(s[i])
  {
    if s != "" {
      SmallEach(s[1..]);
    }
  }

  lemma EndingIs(path: string, endings: seq<string>)
    ensures EndsIn(path, endings) <==> HasEnding(path, endings)
  {
    if EndsIn(path, endings) {
      var i :| 0 <= i < |endings| && |path| >= |endings[i]| &&
        forall j | 0 <= j < |endings[i]| :: Lower(path[|path| - |endings[i]| + j]) == endings[i][j];
      var e, k := endings[i], |path| - |endings[i]|;
      SmallEach(path[k..]);
      assert Small(path[k..]) == e;
    }
    if HasEnding(path, endings) {
      var e, k :| e in endings && k == |path| - |e| && k >= 0 && Small(path[k..]) == e;
      var i :| 0 <= i < |endings| && endings[i] == e;
      SmallEach(path[k..]);
      assert forall j | 0 <= j < |e| :: Lower(path[k + j]) == e[j] by {
        assert forall j | 0 <= j < |e| :: path[k..][j] == path[k + j];
      }
    }
  }

  /**
   Main result: `extra` are the files of the tree that are not listed, and
   `extraExecutable` those of them that can run: served code of a web root;
   elsewhere a native library, or a file with an executable bit.
   */
  lemma ExtraAndExecutable(sha: Hash, es: seq<Named>, files: seq<FileEntry>, web: bool, manifestRel: string,
                           signature: Signature)
    requires Verified(sha, es, files, web, manifestRel, signature).Some?
    ensures var r := Verified(sha, es, files, web, manifestRel, signature).value;
            && (forall path :: path in r.extra <==>
                  && path in AllFiles(es, "") && !IsListed(files, path)
                  && if web then path != manifestRel && path != manifestRel + ".sig"
                     else !IsExcluded(path, exists i | 0 <= i < |files| :: "dist/" <= files[i].path))
            && (forall path :: path in r.extraExecutable <==>
                  && path in r.extra
                  && if web then HasEnding(path, SERVED_CODE)
                     else HasEnding(path, NATIVE) || exists content :: Lookup(es, path) == At(File(content, true)))
  {
    var present := InTree(es, files, web, manifestRel);
    TreeLookedAt(es, files, web, manifestRel);
    FilterIs(present, Unlisted(files));
    FilterIs(Filter(present, Unlisted(files)), RunnableOf(es, web));
    forall path ensures CanRun(es, web, path) <==>
        if web then HasEnding(path, SERVED_CODE)
        else HasEnding(path, NATIVE) || exists content :: Lookup(es, path) == At(File(content, true))
    {
      EndingIs(path, SERVED_CODE);
      EndingIs(path, NATIVE);
    }
  }

  /** A path is not in two of the lists of listed files at once. */
  lemma OneVerdict(sha: Hash, es: seq<Named>, files: seq<FileEntry>, web: bool, manifestRel: string,
                   signature: Signature, path: string)
    requires Verified(sha, es, files, web, manifestRel, signature).Some?
    ensures var r := Verified(sha, es, files, web, manifestRel, signature).value;
            !(path in r.missing && path in r.modified)
            && (path in r.extra ==> path !in r.missing && path !in r.modified)
  {
    MissingAndModified(sha, es, files, web, manifestRel, signature);
    ExtraAndExecutable(sha, es, files, web, manifestRel, signature);
  }

  /** As the digest tells different contents apart, a file that is as listed has the very content it was listed with. */
  lemma SameContent(sha: Hash, es: seq<Named>, path: string, content: Bytes)
    requires Injective(sha)
    ensures Judge(sha, es, EntryFor(sha, path, content)) == AsListed <==>
            Lookup(es, path).At? && Lookup(es, path).node.File? && Lookup(es, path).node.content == content
  {}

  // ---------------------------------------------------------------- files are found where the walk saw them

  predicate GoodName(name: string) { name != "" && name != "." && name != ".." && '/' !in name }

  /** The names in a directory are good and distinct, at every depth. */
  predicate Wf(es: seq<Named>)
    decreases es
  {
    es == [] ||
    (&& GoodName(es[0].name) && Child(es[1..], es[0].name).None? && Wf(es[1..])
     && match es[0].node { case Dir(entries) => Wf(entries) case _ => true })
  }

  predicate GoodParts(parts: seq<string>) { forall i | 0 <= i < |parts| :: parts[i] != "" && parts[i] != "." }

  lemma {:induction false} PlainGood(parts: seq<string>)
    requires GoodParts(parts)
    ensures Plain(parts) == parts
  {
    if parts != [] {
      PlainGood(parts[1..]);
    }
  }

  predicate FileAt(es: seq<Named>, path: string) {
    var parts := Split(path, '/');
    GoodParts(parts) && Find(es, parts).At? && Find(es, parts).node.File?
  }

  lemma FileLookup(es: seq<Named>, path: string)
    requires FileAt(es, path)
    ensures Lookup(es, path) == Find(es, Split(path, '/')) && Lookup(es, path).At? && Lookup(es, path).node.File?
  {
    PlainGood(Split(path, '/'));
  }

  lemma OnePart(name: string)
    requires GoodName(name)
    ensures Split(name, '/') == [name]
  {
    FindIs(name, '/', |name|);
  }

  /** A path of a directory's name and a path below it. */
  lemma PartsUnder(name: string, path: string)
    requires GoodName(name)
    ensures Split(name + "/" + path, '/') == [name] + Split(path, '/')
  {
    assert ['/'] == "/";
    OnePart(name);
    SplitAppend(name, path, '/');
  }

  lemma UnderFileAt(es: seq<Named>, entries: seq<Named>, path: string)
    requires es != [] && GoodName(es[0].name) && es[0].node == Dir(entries) && FileAt(entries, path)
    ensures FileAt(es, es[0].name + "/" + path)
  {
    PartsUnder(es[0].name, path);
    var parts := [es[0].name] + Split(path, '/');
    assert parts[1..] == Split(path, '/');
    assert forall i | 1 <= i < |parts| :: parts[i] == Split(path, '/')[i - 1];
  }

  lemma RestFileAt(es: seq<Named>, path: string)
    requires Wf(es) && es != [] && FileAt(es[1..], path)
    ensures FileAt(es, path)
  {}

  predicate AllFileAt(s: seq<string>, es: seq<Named>, prefix: string) {
    forall i | 0 <= i < |s| :: prefix <= s[i] && FileAt(es, s[i][|prefix|..])
  }

  lemma UnderAllFileAt(s: seq<string>, es: seq<Named>, prefix: string)
    requires Wf(es) && es != [] && es[0].node.Dir?
    requires AllFileAt(s, es[0].node.entries, prefix + es[0].name + "/")
    ensures AllFileAt(s, es, prefix)
  {
    forall i | 0 <= i < |s| ensures prefix <= s[i] && FileAt(es, s[i][|prefix|..]) {
      var longer := prefix + es[0].name + "/";
      var path := s[i][|longer|..];
      assert s[i] == prefix + (es[0].name + "/" + path);
      UnderFileAt(es, es[0].node.entries, path);
    }
  }

  lemma RestAllFileAt(s: seq<string>, es: seq<Named>, prefix: string)
    requires Wf(es) && es != [] && AllFileAt(s, es[1..], prefix)
    ensures AllFileAt(s, es, prefix)
  {
    forall i | 0 <= i < |s| ensures FileAt(es, s[i][|prefix|..]) {
      RestFileAt(es, s[i][|prefix|..]);
    }
  }

  lemma HereFileAt(es: seq<Named>, prefix: string)
    requires Wf(es) && es != [] && es[0].node.File?
    ensures AllFileAt([prefix + es[0].name], es, prefix)
  {
    OnePart(es[0].name);
    assert (prefix + es[0].name)[|prefix|..] == es[0].name;
  }

  lemma {:induction false} WalkedAreFiles(es: seq<Named>, prefix: string)
    requires Wf(es)
    ensures AllFileAt(AllFiles(es, prefix), es, prefix)
    decreases es
  {
    if es != [] {
      WalkedAreFiles(es[1..], prefix);
      RestAllFileAt(AllFiles(es[1..], prefix), es, prefix);
      match es[0].node
      case Dir(entries) =>
        WalkedAreFiles(entries, prefix + es[0].name + "/");
        UnderAllFileAt(AllFiles(entries, prefix + es[0].name + "/"), es, prefix);
      case File(_, _) => HereFileAt(es, prefix);
      case _ =>
    }
  }

  /** Every listed file is found, and is a file. */
  lemma ListedAreFiles(es: seq<Named>, withDist: bool, path: string)
    requires Wf(es) && path in Present(es, withDist)
    ensures FileAt(es, path)
  {
    WalkIsFilter(es, "", withDist);
    FilterIs(AllFiles(es, ""), Covered(withDist));
    WalkedAreFiles(es, "");
    var i :| 0 <= i < |AllFiles(es, "")| && AllFiles(es, "")[i] == path;
    assert path[|""|..] == path;
  }

  predicate Describes(sha: Hash, es: seq<Named>, path: string, f: FileEntry) {
    match Lookup(es, path) { case At(File(content, _)) => f == EntryFor(sha, path, content) case _ => false }
  }

  /**
   Main result: entries can be made for a release exactly when all its paths are
   safe, and each describes its file.
   */
  lemma {:induction false} EntriesExactly(sha: Hash, es: seq<Named>, files: seq<string>)
    requires forall i | 0 <= i < |files| :: FileAt(es, files[i])
    ensures EntriesFor(sha, es, files).Some? <==> forall i | 0 <= i < |files| :: SafePath(files[i])
    ensures EntriesFor(sha, es, files).Some? ==>
              var m := EntriesFor(sha, es, files).value;
              |m| == |files| && forall i | 0 <= i < |m| :: Describes(sha, es, files[i], m[i])
  {
    if files != [] {
      FileLookup(es, files[0]);
      forall i | 0 <= i < |files[1..]| ensures FileAt(es, files[1..][i]) {
        assert files[1..][i] == files[i + 1];
      }
      EntriesExactly(sha, es, files[1..]);
      assert forall i | 1 <= i < |files| :: files[i] == files[1..][i - 1];
    }
  }

  // ---------------------------------------------------------------- with a prebuilt dist or without

  lemma DistExcluded(f: string)
    requires StartsWith(f, "dist/")
    ensures IsExcluded(f, false)
  {
    assert "dist" + "/" == "dist/" && EXCLUDE_ROOT_DIRS[0] == "dist";
    NotCovered(f, "dist", false);
  }

  lemma NotInDist(parts: seq<string>, i: nat)
    requires 1 <= i < |parts| && parts[0] != "dist" && forall p | p in parts :: '/' !in p
    ensures IsExcludedDir(Join(parts[..i], "/"), true) == IsExcludedDir(Join(parts[..i], "/"), false)
  {
    assert ['/'] == "/";
    forall p | p in parts[..i] ensures p in parts {}
    SplitJoin(parts[..i], '/');
    FindIs("dist", '/', 4);
  }

  lemma FirstSlash(f: string)
    requires |Split(f, '/')| > 1 && Split(f, '/')[0] == "dist"
    ensures StartsWith(f, "dist/")
  {
    var i := Text.Find(f, '/');
    assert f[..i] == "dist" && f[..i + 1] == f[..i] + ['/'];
  }

  lemma OutsideDist(f: string)
    requires !StartsWith(f, "dist/")
    ensures IsExcluded(f, true) == IsExcluded(f, false)
  {
    var parts := Split(f, '/');
    JoinSplit(f, '/');
    if |parts| > 1 {
      if parts[0] == "dist" {
        FirstSlash(f);
      }
      forall i | 1 <= i < |parts|
        ensures IsExcludedDir(Join(parts[..i], "/"), true) == IsExcludedDir(Join(parts[..i], "/"), false)
      {
        NotInDist(parts, i);
      }
    }
  }

  lemma {:induction false} FilterAgrees(s: seq<string>, p: string -> bool, q: string -> bool)
    requires forall x :: x in s ==> p(x) == q(x)
    ensures Filter(s, p) == Filter(s, q)
  {
    if s != [] {
      assert s[0] in s;
      FilterAgrees(s[1..], p, q);
    }
  }

  predicate InDist(f: string) { StartsWith(f, "dist/") }

  lemma NoDistCovered(all: seq<string>)
    requires forall f :: f in all && InDist(f) ==> !Covered(true)(f)
    ensures Filter(all, Covered(true)) == Filter(all, Covered(false))
  {
    forall f | f in all ensures Covered(true)(f) == Covered(false)(f) {
      if InDist(f) {
        DistExcluded(f);
      } else {
        OutsideDist(f);
      }
    }
    FilterAgrees(all, Covered(true), Covered(false));
  }

  lemma NoDistWithout(all: seq<string>)
    ensures forall f :: f in Filter(all, Covered(false)) ==> !InDist(f)
  {
    FilterIs(all, Covered(false));
    forall f | f in Filter(all, Covered(false)) ensures !InDist(f) {
      if InDist(f) {
        DistExcluded(f);
      }
    }
  }

  /** Whether the list has a file of dist is enough to know how the tree was walked. */
  lemma DistInferred(es: seq<Named>, withDist: bool, inferred: bool)
    requires inferred <==> exists f :: f in Present(es, withDist) && InDist(f)
    ensures Present(es, inferred) == Present(es, withDist)
  {
    var all := AllFiles(es, "");
    WalkIsFilter(es, "", true);
    WalkIsFilter(es, "", false);
    FilterIs(all, Covered(true));
    if withDist {
      if !inferred {
        NoDistCovered(all);
      }
    } else {
      NoDistWithout(all);
    }
  }

  // ---------------------------------------------------------------- an unchanged tree

  predicate ManifestName(name: string) { name in EXCLUDE_ROOT_FILES }

  /** The tree without release.json and its signature. */
  function Without(es: seq<Named>): seq<Named> {
    if es == [] then [] else (if ManifestName(es[0].name) then [] else [es[0]]) + Without(es[1..])
  }

  /** Nothing called like the manifest is a directory. */
  predicate NoManifestDir(es: seq<Named>) {
    forall i | 0 <= i < |es| && ManifestName(es[i].name) :: !es[i].node.Dir?
  }

  lemma ManifestExcluded(name: string, withDist: bool)
    requires ManifestName(name)
    ensures IsExcluded(name, withDist)
  {
    assert '/' !in "release.json" && '/' !in "release.json.sig";
    FindIs(name, '/', |name|);
  }

  lemma {:induction false} WalkedWithout(es: seq<Named>, acceptFile: string -> bool, acceptDir: string -> bool)
    requires NoManifestDir(es) && forall name :: ManifestName(name) ==> !acceptFile(name)
    ensures Walked(es, "", acceptFile, acceptDir) == Walked(Without(es), "", acceptFile, acceptDir)
  {
    if es != [] {
      assert forall i | 0 <= i < |es[1..]| :: es[1..][i] == es[i + 1];
      WalkedWithout(es[1..], acceptFile, acceptDir);
      assert "" + es[0].name == es[0].name;
      var rest := Without(es[1..]);
      var found := Walked(rest, "", acceptFile, acceptDir);
      assert [] + rest == rest && [] + found == found;
      assert ([es[0]] + rest)[0] == es[0] && ([es[0]] + rest)[1..] == rest;
    }
  }

  lemma PresentWithout(es: seq<Named>, withDist: bool)
    requires NoManifestDir(es)
    ensures Present(es, withDist) == Present(Without(es), withDist)
  {
    forall name | ManifestName(name) ensures !Covered(withDist)(name) {
      ManifestExcluded(name, withDist);
    }
    WalkedWithout(es, Covered(withDist), Entered(withDist));
  }

  lemma {:induction false} ChildWithout(es: seq<Named>, name: string)
    ensures Child(Without(es), name) == if ManifestName(name) then None else Child(es, name)
  {
    if es != [] {
      ChildWithout(es[1..], name);
      var rest := Without(es[1..]);
      assert ([es[0]] + rest)[1..] == rest && [] + rest == rest;
    }
  }

  lemma {:induction false} WfWithout(es: seq<Named>)
    requires Wf(es)
    ensures Wf(Without(es))
  {
    if es != [] {
      WfWithout(es[1..]);
      ChildWithout(es[1..], es[0].name);
      var rest := Without(es[1..]);
      assert ([es[0]] + rest)[1..] == rest && [] + rest == rest;
    }
  }

  /** A file listed in one tree is found alike in another that differs only by its manifest. */
  lemma FoundAlike(a: seq<Named>, b: seq<Named>, withDist: bool, path: string)
    requires Wf(a) && NoManifestDir(a) && Without(a) == Without(b) && path in Present(a, withDist)
    ensures FileAt(a, path) && FileAt(b, path) && Lookup(a, path) == Lookup(b, path)
  {
    var parts := Split(path, '/');
    PresentWithout(a, withDist);
    WfWithout(a);
    ListedAreFiles(Without(a), withDist, path);
    ChildWithout(a, parts[0]);
    ChildWithout(b, parts[0]);
    PlainGood(parts);
  }

  lemma AllAsListed(sha: Hash, a: seq<Named>, b: seq<Named>, files: seq<string>, m: seq<FileEntry>, withDist: bool)
    requires Wf(a) && NoManifestDir(a) && Without(a) == Without(b)
    requires files == ReleaseFiles(a, withDist) && EntriesFor(sha, a, files) == Some(m)
    ensures |m| == |files| && forall i | 0 <= i < |m| :: m[i].path == files[i] && Judge(sha, b, m[i]) == AsListed
  {
    SortedSetIs(Present(a, withDist));
    forall i | 0 <= i < |files| ensures files[i] in Present(a, withDist) && FileAt(a, files[i]) {
      assert files[i] in files;
      FoundAlike(a, b, withDist, files[i]);
    }
    EntriesExactly(sha, a, files);
    forall i | 0 <= i < |m| ensures m[i].path == files[i] && Judge(sha, b, m[i]) == AsListed {
      FoundAlike(a, b, withDist, files[i]);
      assert Describes(sha, a, files[i], m[i]);
    }
  }

  lemma SameDist(files: seq<string>, m: seq<FileEntry>)
    requires |m| == |files| && forall i | 0 <= i < |m| :: m[i].path == files[i]
    ensures ListsDist(m) <==> exists f :: f in files && InDist(f)
  {
    if f :| f in files && InDist(f) {
      var i :| 0 <= i < |files| && files[i] == f;
      assert StartsWith(m[i].path, "dist/");
    }
    if ListsDist(m) {
      var i :| 0 <= i < |m| && StartsWith(m[i].path, "dist/");
      assert files[i] in files;
    }
  }

  lemma NoneUnlisted(files: seq<string>, m: seq<FileEntry>, present: seq<string>)
    requires |m| == |files| && forall i | 0 <= i < |m| :: m[i].path == files[i]
    requires forall f :: f in present ==> f in files
    ensures Filter(present, Unlisted(m)) == []
  {
    NoneLeft(present, Unlisted(m));
    forall f | f in present ensures !Unlisted(m)(f) {
      var i :| 0 <= i < |files| && files[i] == f;
      assert m[i].path == f;
    }
  }

  /**
   Main result: a tree whose files are as they were when its manifest was made
   passes, whether or not dist was covered and wherever release.json and its
   signature were added since: nothing is missing, modified or extra.
   */
  lemma UnchangedPasses(sha: Hash, a: seq<Named>, b: seq<Named>, withDist: bool, m: seq<FileEntry>,
                        manifestRel: string, signature: Signature)
    requires Wf(a) && NoManifestDir(a) && NoManifestDir(b) && Without(a) == Without(b)
    requires EntriesFor(sha, a, ReleaseFiles(a, withDist)) == Some(m)
    ensures Verified(sha, b, m, false, manifestRel, signature) == Some(Report(signature != Invalid, [], [], [], []))
  {
    var files := ReleaseFiles(a, withDist);
    AllAsListed(sha, a, b, files, m, withDist);
    NoneJudged(sha, b, m, Gone);
    NoneJudged(sha, b, m, Changed);
    SortedSetIs(Present(a, withDist));
    SameDist(files, m);
    DistInferred(a, withDist, ListsDist(m));
    PresentWithout(a, ListsDist(m));
    PresentWithout(b, ListsDist(m));
    NoneUnlisted(files, m, Present(b, ListsDist(m)));
  }

  /** Without dots and empty names a path has one reading, so its entry can be made when it is safe. */
  lemma ManifestMade(sha: Hash, es: seq<Named>, withDist: bool)
    requires Wf(es)
    ensures EntriesFor(sha, es, ReleaseFiles(es, withDist)).Some? <==>
            forall f :: f in ReleaseFiles(es, withDist) ==> SafePath(f)
  {
    var files := ReleaseFiles(es, withDist);
    ListedFileAt(es, withDist);
    EntriesExactly(sha, es, files);
    assert forall i | 0 <= i < |files| :: files[i] in files;
  }

  lemma ListedFileAt(es: seq<Named>, withDist: bool)
    requires Wf(es)
    ensures forall i | 0 <= i < |ReleaseFiles(es, withDist)| :: FileAt(es, ReleaseFiles(es, withDist)[i])
  {
    var files := ReleaseFiles(es, withDist);
    SortedSetIs(Present(es, withDist));
    forall i | 0 <= i < |files| ensures FileAt(es, files[i]) {
      assert files[i] in files;
      ListedAreFiles(es, withDist, files[i]);
    }
  }

  // ---------------------------------------------------------------- names that no glob catches

  function NameOf(path: string): string { Last(Split(path, '/')) }

  /** The two line ends that are no control characters. */
  predicate Separator(c: char) { c == '\U{2028}' || c == '\U{2029}' }

  predicate HasSeparator(s: string) { exists i | 0 <= i < |s| :: Separator(s[i]) }

  /** The name of a safe path has a line end exactly when it has a separator. */
  lemma SafeName(path: string)
    requires SafePath(path)
    ensures OneLine(NameOf(path)) <==> !HasSeparator(NameOf(path))
  {
    LastIsEnd(path, '/');
    var name := NameOf(path);
    forall i | 0 <= i < |name| ensures LineEnd(name[i]) <==> Separator(name[i]) {
      assert name[i] == path[|path| - |name| + i];
    }
  }

  /** A file that only its name could leave out. */
  predicate LeftOutByName(es: seq<Named>, withDist: bool, path: string) {
    path in AllFiles(es, "") && LooksSecret(NameOf(path)) && !InExcludedDir(Split(path, '/'), withDist)
  }

  /**
   Main result: of the files that only their names could leave out, a release lists
   just those with a line end there.
   */
  lemma SecretListed(es: seq<Named>, withDist: bool, path: string)
    requires LooksSecret(NameOf(path))
    ensures path in ReleaseFiles(es, withDist) <==> LeftOutByName(es, withDist, path) && !OneLine(NameOf(path))
  {
    ListedExactly(es, withDist);
    SecretCovered(path, withDist);
  }

  predicate InManifest(m: seq<FileEntry>, path: string) { exists i | 0 <= i < |m| :: m[i].path == path }

  /** A manifest that could be made has just the listed paths, all of them safe. */
  lemma MadeFrom(sha: Hash, es: seq<Named>, withDist: bool, m: seq<FileEntry>)
    requires Wf(es) && EntriesFor(sha, es, ReleaseFiles(es, withDist)) == Some(m)
    ensures forall path :: InManifest(m, path) <==> path in ReleaseFiles(es, withDist)
    ensures forall path :: InManifest(m, path) ==> SafePath(path)
  {
    var files := ReleaseFiles(es, withDist);
    ManifestMade(sha, es, withDist);
    ListedFileAt(es, withDist);
    EntriesExactly(sha, es, files);
    assert forall i | 0 <= i < |files| :: Describes(sha, es, files[i], m[i]) && m[i].path == files[i];
    forall path | path in files ensures InManifest(m, path) {
      var i :| 0 <= i < |files| && files[i] == path;
      assert m[i].path == path;
    }
  }

  /**
   Main result: a manifest holds a file that only its name could leave out
   exactly when that name has one of the line ends U+2028 and U+2029.
   */
  lemma SecretInManifest(sha: Hash, es: seq<Named>, withDist: bool, m: seq<FileEntry>, path: string)
    requires Wf(es) && EntriesFor(sha, es, ReleaseFiles(es, withDist)) == Some(m)
    requires LooksSecret(NameOf(path))
    ensures InManifest(m, path) <==> LeftOutByName(es, withDist, path) && HasSeparator(NameOf(path))
  {
    MadeFrom(sha, es, withDist, m);
    SecretListed(es, withDist, path);
    if InManifest(m, path) {
      SafeName(path);
    }
  }

  /** With one of the other two, line feed and carriage return, no manifest of the tree can be made at all. */
  lemma SecretRefused(sha: Hash, es: seq<Named>, withDist: bool, path: string)
    requires Wf(es) && LeftOutByName(es, withDist, path) && ('\n' in NameOf(path) || '\r' in NameOf(path))
    ensures EntriesFor(sha, es, ReleaseFiles(es, withDist)).None?
  {
    BrokenName(path);
    SecretListed(es, withDist, path);
    ManifestMade(sha, es, withDist);
  }

  lemma BrokenName(path: string)
    requires '\n' in NameOf(path) || '\r' in NameOf(path)
    ensures !OneLine(NameOf(path)) && !SafePath(path)
  {
    var name := NameOf(path);
    var i :| 0 <= i < |name| && (name[i] == '\n' || name[i] == '\r');
    LastIsEnd(path, '/');
    assert LineEnd(name[i]) && Control(path[|path| - |name| + i]);
  }

  /** A key file that gets into the manifest of its tree. */
  lemma KeyListed(sha: Hash, withDist: bool, key: Bytes)
    ensures var name := "a\U{2028}.pem";
            var es := [Named(name, File(key, false))];
            LooksSecret(name) && EntriesFor(sha, es, ReleaseFiles(es, withDist)) == Some([EntryFor(sha, name, key)])
  {
    var name := "a\U{2028}.pem";
    LineEndEscapes();
    assert LineEnd(name[1]);
    OneFile(sha, name, key, withDist);
  }

  /** A tree of one file with a name in two lines. */
  lemma OneFile(sha: Hash, name: string, key: Bytes, withDist: bool)
    requires GoodName(name) && SafePath(name) && LooksSecret(name) && !OneLine(name)
    ensures var es := [Named(name, File(key, false))];
            EntriesFor(sha, es, ReleaseFiles(es, withDist)) == Some([EntryFor(sha, name, key)])
  {
    OneListed(name, key, withDist);
    OneEntry(sha, name, key);
  }

  lemma OneListed(name: string, key: Bytes, withDist: bool)
    requires GoodName(name) && LooksSecret(name) && !OneLine(name)
    ensures ReleaseFiles([Named(name, File(key, false))], withDist) == [name]
  {
    var es := [Named(name, File(key, false))];
    OnePart(name);
    assert AllFiles(es[1..], "") == [] && "" + name == name;
    assert AllFiles(es, "") == [name];
    assert !InExcludedDir([name], withDist);
    SecretListed(es, withDist, name);
    OnlyName(es, withDist, name);
  }

  lemma OneEntry(sha: Hash, name: string, key: Bytes)
    requires GoodName(name) && SafePath(name)
    ensures EntriesFor(sha, [Named(name, File(key, false))], [name]) == Some([EntryFor(sha, name, key)])
  {
    var es := [Named(name, File(key, false))];
    OnePart(name);
    PlainGood([name]);
    assert Lookup(es, name) == At(File(key, false));
    var none: seq<string> := [name][1..];
    assert none == [] && EntriesFor(sha, es, none) == Some([]);
    assert [EntryFor(sha, name, key)] + [] == [EntryFor(sha, name, key)];
  }

  lemma OnlyName(es: seq<Named>, withDist: bool, name: string)
    requires AllFiles(es, "") == [name] && name in ReleaseFiles(es, withDist)
    ensures ReleaseFiles(es, withDist) == [name]
  {
    var files := ReleaseFiles(es, withDist);
    ListedExactly(es, withDist);
    forall i | 0 <= i < |files| ensures files[i] == name {
      assert files[i] in files;
    }
    if |files| > 1 {
      assert Less(files[0], files[1]);
      NotLess(name);
    }
  }

  lemma {:induction false} NotLess(s: string)
    ensures !Less(s, s)
  {
    if s != "" {
      NotLess(s[1..]);
    }
  }
}
