/**
 Which placeholders the templates accept, and what each stands for
 (admin-ui/public/android-expr.js, `parseFilters` and the branches of
 `parseTemplate`).

 The forms are given as texts put together from their pieces; `PlaceholderExactly`
 says that just these are accepted, each with the one meaning it has.
 */
module ExprSlots {
  import opened Text
  import opened ExprLexer
  import opened ExprParser
  import opened ExprPrinter
  import opened ExprTemplate

  predicate Blanks(s: string) { forall i | 0 <= i < |s| :: IsSpace(s[i]) }

  // ---------------------------------------------------------------- filters

  /** How an argument is written: in quotes of a kind it does not hold, or as a whole number. */
  predicate ArgAs(text: string, arg: string) {
    || (text == "'" + arg + "'" && '\'' !in arg)
    || (text == "\"" + arg + "\"" && '"' !in arg)
    || (text == arg && AllDigits(arg))
    || (text == arg && arg != "" && arg[0] == '-' && AllDigits(arg[1..]))
  }

  /** A name, and after a colon the argument; blanks at the ends and after the colon. */
  predicate FilterAs(raw: string, x: Filter, before: string, gap: string, arg: string, after: string) {
    && x.name in FILTERS && Blanks(before) && Blanks(gap) && Blanks(after)
    && raw == before + (x.name + (if x.arg.None? then "" else ":" + (gap + arg))) + after
    && (x.arg.Some? ==> ArgAs(arg, x.arg.value))
  }

  ghost predicate FilterWritten(raw: string, x: Filter) {
    exists before, gap, arg, after :: FilterAs(raw, x, before, gap, arg, after)
  }

  lemma {:induction false} StartCut(s: string) returns (before: string)
    ensures s == before + TrimStart(s) && Blanks(before)
  {
    if s != "" && IsSpace(s[0]) {
      before := StartCut(s[1..]);
      before := [s[0]] + before;
    } else {
      before := "";
    }
  }

  lemma {:induction false} EndCut(s: string) returns (after: string)
    ensures s == TrimEnd(s) + after && Blanks(after)
    decreases |s|
  {
    if s != "" && IsSpace(s[|s| - 1]) {
      var c := s[|s| - 1];
      after := EndCut(s[..|s| - 1]);
      assert s == s[..|s| - 1] + [c];
      after := after + [c];
    } else {
      after := "";
    }
  }

  lemma TrimCut(s: string) returns (before: string, after: string)
    ensures s == before + Trim(s) + after && Blanks(before) && Blanks(after)
  {
    before := StartCut(s);
    after := EndCut(TrimStart(s));
  }

  lemma ArgumentRead(text: string, arg: string)
    requires FilterArg(text) == Some(arg)
    ensures ArgAs(text, arg)
  {
    if Quoted(text, '\'') || Quoted(text, '"') {
      assert text == [text[0]] + arg + [text[|text| - 1]];
    }
  }

  lemma ArgumentTaken(text: string, arg: string)
    requires ArgAs(text, arg)
    ensures FilterArg(text) == Some(arg)
    ensures text != "" && !IsSpace(text[0]) && !IsSpace(text[|text| - 1])
  {
    if AllDigits(arg) && text == arg {
      assert text[0] in text && text[|text| - 1] in text;
    } else if text == arg && arg != "" && arg[0] == '-' {
      assert text[|text| - 1] == arg[1..][|arg| - 2];
      assert arg[1..][|arg| - 2] in arg[1..];
    } else {
      assert text[1..|text| - 1] == arg;
    }
  }

  lemma FilterRead(raw: string, x: Filter)
    requires ParseFilter(raw) == Ok(x)
    ensures FilterWritten(raw, x)
  {
    var before, after := TrimCut(raw);
    var s := Trim(raw);
    var name, rest := s[..LowerLen(s)], s[LowerLen(s)..];
    assert s == name + rest;
    NameRead(raw, name, rest, x);
    if x.arg.None? {
      assert FilterAs(raw, x, before, "", "", after);
    } else {
      var gap := StartCut(rest[1..]);
      var arg := TrimStart(rest[1..]);
      ArgumentRead(arg, x.arg.value);
      ColonFirst(rest, gap, arg);
      assert FilterAs(raw, x, before, gap, arg, after);
    }
  }

  lemma ColonFirst(rest: string, gap: string, arg: string)
    requires rest != "" && rest[0] == ':' && rest[1..] == gap + arg
    ensures rest == ":" + (gap + arg)
  {}

  lemma NameRead(raw: string, name: string, rest: string, x: Filter)
    requires ParseFilter(raw) == Ok(x)
    requires name == Trim(raw)[..LowerLen(Trim(raw))] && rest == Trim(raw)[LowerLen(Trim(raw))..]
    ensures x.name == name && name in FILTERS
    ensures if rest == "" then x.arg == None
            else rest[0] == ':' && x.arg.Some? && FilterArg(TrimStart(rest[1..])) == x.arg
  {}

  lemma NameTaken(name: string, tail: string)
    requires name in FILTERS && (tail == "" || tail[0] == ':')
    ensures var s := name + tail; LowerLen(s) == |name| && s[..|name|] == name && s[|name|..] == tail
    ensures !IsSpace((name + tail)[0]) && !IsSpace(name[|name| - 1])
  {
    FilterNames(name);
    LowerAll(name, tail);
  }

  lemma FilterTaken(raw: string, x: Filter, before: string, gap: string, arg: string, after: string)
    requires FilterAs(raw, x, before, gap, arg, after)
    ensures ParseFilter(raw) == Ok(x)
  {
    var tail := if x.arg.None? then "" else ":" + (gap + arg);
    var s := x.name + tail;
    NameTaken(x.name, tail);
    if x.arg.Some? {
      ArgumentTaken(arg, x.arg.value);
      assert s[|s| - 1] == arg[|arg| - 1];
      assert tail[1..] == gap + arg;
      TrimStartPadded(gap, arg);
    } else {
      assert s == x.name;
    }
    TrimPadded(before, s, after);
  }

  /** Main result about filters: a filter is read from just the texts that write it. */
  lemma FilterExactly(raw: string, x: Filter)
    ensures ParseFilter(raw) == Ok(x) <==> FilterWritten(raw, x)
  {
    if ParseFilter(raw) == Ok(x) {
      FilterRead(raw, x);
    }
    if FilterWritten(raw, x) {
      var before, gap, arg, after :| FilterAs(raw, x, before, gap, arg, after);
      FilterTaken(raw, x, before, gap, arg, after);
    }
  }

  ghost predicate AllWritten(raws: seq<string>, fs: seq<Filter>) {
    |raws| == |fs| && forall i | 0 <= i < |fs| :: FilterWritten(raws[i], fs[i])
  }

  lemma {:induction false} ListExactly(raws: seq<string>, fs: seq<Filter>)
    ensures ParseFilterList(raws) == Ok(fs) <==> AllWritten(raws, fs)
  {
    if raws != [] {
      if fs != [] {
        FilterExactly(raws[0], fs[0]);
        ListExactly(raws[1..], fs[1..]);
        assert fs == [fs[0]] + fs[1..];
        assert AllWritten(raws, fs) <==> FilterWritten(raws[0], fs[0]) && AllWritten(raws[1..], fs[1..]) by {
          AllSplit(raws, fs);
        }
      }
    }
  }

  lemma AllSplit(raws: seq<string>, fs: seq<Filter>)
    requires raws != [] && fs != []
    ensures AllWritten(raws, fs) <==> FilterWritten(raws[0], fs[0]) && AllWritten(raws[1..], fs[1..])
  {
    if FilterWritten(raws[0], fs[0]) && AllWritten(raws[1..], fs[1..]) {
      forall i | 0 <= i < |fs| ensures FilterWritten(raws[i], fs[i]) {
        assert i > 0 ==> raws[i] == raws[1..][i - 1] && fs[i] == fs[1..][i - 1];
      }
    }
    if AllWritten(raws, fs) {
      forall i | 0 <= i < |fs| - 1 ensures FilterWritten(raws[1..][i], fs[1..][i]) {
        assert FilterWritten(raws[i + 1], fs[i + 1]);
      }
    }
  }

  /** Every bar starts a filter; what comes before the first one is not looked at. */
  predicate ChainAs(chain: string, skipped: string, raws: seq<string>) {
    && chain == Join([skipped] + raws, "|") && '|' !in skipped
    && forall i | 0 <= i < |raws| :: '|' !in raws[i]
  }

  ghost predicate ChainWritten(chain: string, fs: seq<Filter>) {
    exists skipped, raws :: ChainAs(chain, skipped, raws) && AllWritten(raws, fs)
  }

  lemma ChainExactly(chain: string, fs: seq<Filter>)
    ensures ParseFilters(chain) == Ok(fs) <==> ChainWritten(chain, fs)
  {
    var parts := Split(chain, '|');
    assert "|" == ['|'];
    ListExactly(parts[1..], fs);
    JoinSplit(chain, '|');
    assert parts == [parts[0]] + parts[1..];
    assert forall i | 0 <= i < |parts| :: parts[i] in parts;
    assert ChainAs(chain, parts[0], parts[1..]);
    forall skipped, raws | ChainAs(chain, skipped, raws) ensures raws == parts[1..] {
      var all := [skipped] + raws;
      forall p | p in all ensures '|' !in p {
        var i :| 0 <= i < |all| && all[i] == p;
        assert i > 0 ==> p == raws[i - 1];
      }
      SplitJoin(all, '|');
    }
  }

  // ---------------------------------------------------------------- placeholders

  /** {_'key' | filters}, with either quote. */
  predicate KeyAs(body: string, key: string, q: char, chain: string) {
    (q == '\'' || q == '"') && q !in key && body == "_" + ([q] + key + [q]) + chain
  }

  /** {$path | filters} */
  predicate PathAs(body: string, e: Expr, blanks: string, chain: string) {
    && IsPathTree(e) && |TextOf(e)| <= MAX_SOURCE
    && Blanks(blanks) && (chain == "" || chain[0] == '|')
    && body == PathText(e) + blanks + chain
  }

  ghost predicate KeyWritten(body: string, e: Expr, fs: seq<Filter>) {
    e.Tr? && exists q, chain :: KeyAs(body, e.trKey, q, chain) && ChainWritten(chain, fs)
  }

  ghost predicate PathWritten(body: string, e: Expr, fs: seq<Filter>) {
    exists blanks, chain :: PathAs(body, e, blanks, chain) && ChainWritten(chain, fs)
  }

  /** {=expression}, which has no filters. */
  predicate SourceWritten(body: string, e: Expr, fs: seq<Filter>) {
    body != "" && body[0] == '=' && Parse(body[1..]) == Ok(e) && fs == []
  }

  lemma KeyExactly(body: string, key: string, chain: string, at: nat)
    ensures ParseBody(body, at) == Ok(Key(key, chain)) <==> exists q :: KeyAs(body, key, q, chain)
  {
    if ParseBody(body, at) == Ok(Key(key, chain)) {
      var q, close := body[1], 2 + Find(body[2..], body[1]);
      assert body[2..][..close - 2] == key;
      assert body == "_" + ([q] + key + [q]) + chain;
      assert KeyAs(body, key, q, chain);
    }
    forall q | KeyAs(body, key, q, chain) ensures ParseBody(body, at) == Ok(Key(key, chain)) {
      KeyRead(body, key, q, chain, at);
    }
  }

  lemma KeyRead(body: string, key: string, q: char, chain: string, at: nat)
    requires KeyAs(body, key, q, chain)
    ensures ParseBody(body, at) == Ok(Key(key, chain))
  {
    var after := body[2..];
    assert after == key + [q] + chain && body[1] == q;
    FindAt(key, q, chain);
    assert body[2..2 + |key|] == key && body[3 + |key|..] == chain;
  }

  /** The tree of a path's names and numbers. */
  lemma {:induction false} TreeOf(segs: seq<string>) returns (e: Expr)
    requires segs != [] && IsName(segs[0]) && forall i | 1 <= i < |segs| :: IsName(segs[i]) || AllDigits(segs[i])
    ensures IsPathTree(e) && Segments(e) == segs
    decreases |segs|
  {
    var k := |segs| - 1;
    if k == 0 {
      e := VarRef(segs[0]);
    } else {
      var obj := TreeOf(segs[..k]);
      assert segs == segs[..k] + [segs[k]];
      e := Expr.Get(obj, Lit(if IsName(segs[k]) then LStr(segs[k]) else LNum(segs[k])));
    }
  }

  lemma HeadRead(head: string) returns (e: Expr)
    requires IsPath(head)
    ensures IsPathTree(e) && PathText(e) == head && PathSource(head) == TextOf(e)
  {
    var segs := Split(head[1..], '.');
    e := TreeOf(segs);
    JoinSplit(head[1..], '.');
    assert "." == ['.'] && head == "$" + head[1..];
    PathLayout(e);
  }

  /** A path within the length limit has one tree. */
  lemma PathParsed(e: Expr)
    requires IsPathTree(e)
    ensures Parse(TextOf(e)) == if |TextOf(e)| <= MAX_SOURCE then Ok(e) else Err(TooLong)
  {
    PathLayout(e);
    PathWellFormed(e);
    if |TextOf(e)| <= MAX_SOURCE {
      RoundTrip(e);
    }
  }

  lemma PathRead(body: string, at: nat, e: Expr, fs: seq<Filter>)
    requires body != "" && body[0] == '$' && ParseSlot(body, at) == Ok(Slot(TreeNode(e), fs))
    ensures PathWritten(body, e, fs)
  {
    var bar := Find(body, '|');
    var front, chain := body[..bar], body[bar..];
    PathSlot(body, at, front, chain, e, fs);
    var after := HeadCut(front);
    var tree := HeadRead(Trim(front));
    PathParsed(tree);
    ChainExactly(chain, fs);
    PathPutTogether(body, front, chain, after, tree);
  }

  lemma PathPutTogether(body: string, front: string, chain: string, after: string, e: Expr)
    requires IsPathTree(e) && |TextOf(e)| <= MAX_SOURCE && Blanks(after) && (chain == "" || chain[0] == '|')
    requires front == PathText(e) + after && exists i | 0 <= i <= |body| :: front == body[..i] && chain == body[i..]
    ensures PathAs(body, e, after, chain)
  {
    assert body == front + chain;
  }

  lemma PathSlot(body: string, at: nat, front: string, chain: string, e: Expr, fs: seq<Filter>)
    requires body != "" && body[0] == '$' && ParseSlot(body, at) == Ok(Slot(TreeNode(e), fs))
    requires front == body[..Find(body, '|')] && chain == body[Find(body, '|')..]
    ensures IsPath(Trim(front)) && Parse(PathSource(Trim(front))) == Ok(e) && ParseFilters(chain) == Ok(fs)
    ensures front != "" && front[0] == '$' && (chain == "" || chain[0] == '|')
  {}

  lemma HeadCut(front: string) returns (after: string)
    requires front != "" && !IsSpace(front[0])
    ensures front == Trim(front) + after && Blanks(after)
  {
    after := EndCut(front);
  }

  lemma PathTakenWith(body: string, at: nat, e: Expr, fs: seq<Filter>, blanks: string, chain: string)
    requires PathAs(body, e, blanks, chain) && ChainWritten(chain, fs)
    ensures ParseSlot(body, at) == Ok(Slot(TreeNode(e), fs))
  {
    var head := PathText(e);
    PathShape(e);
    PathLayout(e);
    PathParsed(e);
    ChainExactly(chain, fs);
    PathBodyWith(body, at, head, blanks, chain);
    SlotMade(body, at, PathSource(head), chain, e, fs);
  }

  lemma PathBodyWith(body: string, at: nat, head: string, blanks: string, chain: string)
    requires IsPath(head) && '|' !in head && !IsSpace(head[|head| - 1]) && Blanks(blanks)
    requires body == head + blanks + chain && (chain == "" || chain[0] == '|')
    ensures ParseBody(body, at) == Ok(Source(PathSource(head), chain))
  {
    BarFound(body, head + blanks, chain);
    assert "" + head + blanks == head + blanks;
    TrimPadded("", head, blanks);
    assert body[0] == '$';
  }

  lemma SlotMade(body: string, at: nat, src: string, chain: string, e: Expr, fs: seq<Filter>)
    requires ParseBody(body, at) == Ok(Source(src, chain)) && Parse(src) == Ok(e) && ParseFilters(chain) == Ok(fs)
    ensures ParseSlot(body, at) == Ok(Slot(TreeNode(e), fs))
  {}

  lemma BarFound(body: string, front: string, chain: string)
    requires body == front + chain && '|' !in front && (chain == "" || chain[0] == '|')
    ensures Find(body, '|') == |front| && body[..|front|] == front && body[|front|..] == chain
  {
    assert body[..|front|] == front;
    FindIs(body, '|', |front|);
  }

  /**
   Main result: a placeholder is accepted exactly when it is a translation, a path
   or an expression written in one of these ways, and shows just that.
   */
  lemma PlaceholderExactly(body: string, at: nat, e: Expr, fs: seq<Filter>)
    ensures ParseSlot(body, at) == Ok(Slot(TreeNode(e), fs)) <==>
            KeyWritten(body, e, fs) || PathWritten(body, e, fs) || SourceWritten(body, e, fs)
  {
    if ParseSlot(body, at) == Ok(Slot(TreeNode(e), fs)) {
      match ParseBody(body, at)
      case Ok(Key(key, chain)) =>
        KeyExactly(body, key, chain, at);
        ChainExactly(chain, fs);
      case Ok(Source(src, chain)) =>
        if body[0] == '$' {
          PathRead(body, at, e, fs);
        } else {
          NoChain();
        }
    }
    if KeyWritten(body, e, fs) {
      var q, chain :| KeyAs(body, e.trKey, q, chain) && ChainWritten(chain, fs);
      KeyExactly(body, e.trKey, chain, at);
      ChainExactly(chain, fs);
    }
    if PathWritten(body, e, fs) {
      var blanks, chain :| PathAs(body, e, blanks, chain) && ChainWritten(chain, fs);
      PathTakenWith(body, at, e, fs, blanks, chain);
    }
    if SourceWritten(body, e, fs) {
      NoChain();
    }
  }

  lemma NoChain()
    ensures ParseFilters("") == Ok([])
  {}
}
