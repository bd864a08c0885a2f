/**
 The memo table that `parse` and `parseTemplate` share
 (admin-ui/public/android-expr.js).

 Trees are stored under their source, template parts under "t:" and the
 template. A source that itself starts with "t:" is never an expression, but
 the table answers it with a template's parts once that template was parsed.
 */
module ExprMemo {
  import opened Text
  import opened ExprLexer
  import opened ExprParser
  import opened ExprTemplate

  const MAX_ENTRIES := 2000

  /** A placeholder that holds a template's parts where a tree is meant. */
  predicate Mixed(parts: seq<Part>) {
    exists i | 0 <= i < |parts| :: parts[i].Slot? && parts[i].node.PartsNode?
  }

  /** Parts the table may hold for a template: its own, or mixed ones if it has none. */
  predicate Sane(src: string, parts: seq<Part>) {
    ParseTemplate(src) == Ok(parts) || (ParseTemplate(src).Err? && Mixed(parts))
  }

  predicate SaneEntry(key: string, n: Node) {
    if StartsWith(key, "t:") then n.PartsNode? && Sane(key[2..], n.parts)
    else n.TreeNode? && Parse(key) == Ok(n.e)
  }

  // ---------------------------------------------------------------- "t:..." is no expression

  lemma {:induction false} PrimaryFails(k: nat, t: seq<Token>, p: nat, d: nat)
    requires 1 <= k <= 7 && Stream(t) && p < |t| && UnaryOp(t[p].tok).None? && ParsePrimary(t, p, d).Bad?
    ensures ParseLevel(k, t, p, d).Bad?
    decreases 7 - k
  {
    if k < 7 {
      PrimaryFails(k + 1, t, p, d);
    } else {
      assert ParseUnary(t, p, d) == ParsePostfix(t, p, d);
    }
  }

  lemma ExprFails(t: seq<Token>)
    requires Stream(t) && t[0].tok == Id("t")
    ensures ParseAll(t).Err?
  {
    assert "t"[0] == 't' && "true"[0] == 't' && "false"[0] == 'f' && "null"[0] == 'n' && "_"[0] == '_';
    assert |"t"| == 1 && |"true"| == 4;
    assert ParsePrimary(t, 0, 1).Bad?;
    PrimaryFails(1, t, 0, 1);
    assert ParseTernary(t, 0, 1).Bad?;
  }

  lemma TemplateKeyLexes(rest: string)
    ensures var r := LexAll("t:" + rest, 0); r.Ok? ==> r.value != [] && r.value[0].tok == Id("t")
  {
    var s := "t:" + rest;
    assert s == "t" + (":" + rest);
    NameStops("t", ":" + rest);
    assert s[0] == 't' && s[..1] == "t";
    LexEmit(s, 0, Id("t"), 1, s[1..]);
  }

  lemma TemplateKeyFails(src: string)
    requires StartsWith(src, "t:")
    ensures Parse(src).Err?
  {
    assert src == "t:" + src[2..];
    TemplateKeyLexes(src[2..]);
    LexMakes(src, 0);
    var r := LexAll(src, 0);
    if r.Ok? {
      ExprFails(r.value);
    }
  }

  // ---------------------------------------------------------------- the table

  class Memo {
    var cache: map<string, Node>

    ghost predicate Valid()
      reads this
    {
      forall key | key in cache :: SaneEntry(key, cache[key])
    }

    constructor ()
      ensures Valid() && cache == map[]
    {
      cache := map[];
    }

    /** `parse`: it answers as the parser does, except for a stored "t:" key. */
    method ParseCached(src: string) returns (r: Result<Node, ExprError>)
      requires Valid()
      modifies this
      ensures Valid()
      ensures r != ParseNode(src) <==> src in old(cache) && StartsWith(src, "t:")
      ensures r != ParseNode(src) ==> r.Ok? && r.value.PartsNode? && ParseNode(src).Err?
      ensures src in old(cache) ==> r == Ok(old(cache)[src])
      ensures cache ==
              if src in old(cache) || r.Err? then old(cache)
              else (if |old(cache)| > MAX_ENTRIES then map[] else old(cache))[src := r.value]
    {
      if StartsWith(src, "t:") {
        TemplateKeyFails(src);
      }
      if src in cache {
        assert SaneEntry(src, cache[src]);
        return Ok(cache[src]);
      }
      var e := RunParse(src);
      if e.Err? {
        return Err(e.error);
      }
      if |cache| > MAX_ENTRIES {
        cache := map[];
      }
      cache := cache[src := TreeNode(e.value)];
      return Ok(TreeNode(e.value));
    }

    /** One placeholder. */
    method SlotCached(body: string, at: nat) returns (r: Result<Part, TemplateError>)
      requires Valid()
      modifies this
      ensures Valid()
      ensures r.Err? ==> ParseSlot(body, at).Err?
      ensures r.Ok? ==> r.value.Slot?
      ensures r.Ok? ==> if r.value.node.TreeNode? then ParseSlot(body, at) == r else ParseSlot(body, at).Err?
    {
      var inside := ParseBody(body, at);
      if inside.Err? {
        return Err(inside.error);
      }
      var node: Result<Node, ExprError>;
      if inside.value.Key? {
        node := Ok(TreeNode(Tr(inside.value.key)));
      } else {
        node := ParseCached(inside.value.src);
      }
      r := MakeSlot(node, inside.value.chain);
    }

    /**
     `parseTemplate`: a template that parses gives its parts, whatever the table
     holds; one that does not can only be answered with mixed parts.
     */
    method ParseTemplateCached(src: string) returns (r: Result<seq<Part>, TemplateError>)
      requires Valid()
      modifies this
      ensures Valid()
      ensures ParseTemplate(src).Ok? ==> r == ParseTemplate(src)
      ensures ParseTemplate(src).Err? && r.Ok? ==> Mixed(r.value)
      ensures r.Ok? ==> "t:" + src in cache && cache["t:" + src] == PartsNode(r.value)
    {
      var key := "t:" + src;
      assert StartsWith(key, "t:") && key[2..] == src;
      if key in cache {
        assert SaneEntry(key, cache[key]);
        return Ok(cache[key].parts);
      }
      r := Scan(src, ParseSlot, ParseTemplate(src));
      if r.Ok? {
        cache := cache[key := PartsNode(r.value)];
      }
    }

    /** The scanner's turn at a placeholder: the parts with it, and where it ends. */
    method Placeholder(src: string, i: nat, parts: seq<Part>, lit: string, ghost f: SlotReader,
                       ghost whole: Result<seq<Part>, TemplateError>)
      returns (r: Result<seq<Part>, TemplateError>, end: nat)
      requires Valid() && i < |src| && OpensSlot(src[i..]) && Foreseen(f, whole, parts, src[i..], i, lit)
      requires forall body: string, at: nat :: f(body, at) == ParseSlot(body, at)
      modifies this
      ensures Valid() && (r.Err? ==> whole.Err?)
      ensures r.Ok? ==> i < end < |src| && Foreseen(f, whole, r.value, src[end + 1..], end + 1, "")
    {
      ghost var s := src[i..];
      end := i + Find(src[i..], '}');
      if end == |src| {
        UnclosedTurn(f, whole, parts, s, i, lit);
        return Err(Unclosed(i)), end;
      }
      assert s[1..end - i] == src[i + 1..end] && s[end - i + 1..] == src[end + 1..];
      var body := Trim(src[i + 1..end]);
      var slot := SlotCached(body, i);
      assert f(body, i) == ParseSlot(body, i);
      SlotEnds(f, whole, parts, s, i, lit, end - i, body, slot);
      if slot.Err? {
        return Err(slot.error), end;
      }
      return Ok(parts + (LitPart(lit) + [slot.value])), end;
    }

    /** The scanner's loop, compared with what a reader `f` of placeholders makes of the whole. */
    method Scan(src: string, ghost f: SlotReader, ghost whole: Result<seq<Part>, TemplateError>)
      returns (r: Result<seq<Part>, TemplateError>)
      requires Valid() && whole == ScanTemplate(f, src, 0, "")
      requires forall body: string, at: nat :: f(body, at) == ParseSlot(body, at)
      modifies this
      ensures Valid()
      ensures r.Ok? ==> if Mixed(r.value) then whole.Err? else whole == r
      ensures r.Err? ==> whole.Err?
    {
      var parts: seq<Part> := [];
      var lit := "";
      var i := 0;
      ScanStarts(f, src, whole);
      while i < |src|
        invariant i <= |src| && Valid()
        invariant Foreseen(f, whole, parts, src[i..], i, lit)
      {
        ghost var s := src[i..];
        if i + 1 < |src| && src[i] == '{' && src[i + 1] == '{' {
          LitTurn(f, whole, parts, s, i, lit, 2, "{");
          assert s[2..] == src[i + 2..];
          lit, i := lit + "{", i + 2;
        } else if src[i] != '{' {
          LitTurn(f, whole, parts, s, i, lit, 1, [src[i]]);
          assert s[1..] == src[i + 1..];
          lit, i := lit + [src[i]], i + 1;
        } else {
          var more, end := Placeholder(src, i, parts, lit, f, whole);
          if more.Err? {
            return more;
          }
          parts, lit, i := more.value, "", end + 1;
        }
      }
      assert src[i..] == "";
      ScanEnds(f, whole, parts, i, lit);
      return Ok(parts + LitPart(lit));
    }
  }

  lemma MixedMore(a: seq<Part>, b: seq<Part>)
    ensures Mixed(a + b) <==> Mixed(a) || Mixed(b)
  {
    if Mixed(a) {
      var i :| 0 <= i < |a| && a[i].Slot? && a[i].node.PartsNode?;
      assert (a + b)[i] == a[i];
    }
    if Mixed(b) {
      var i :| 0 <= i < |b| && b[i].Slot? && b[i].node.PartsNode?;
      assert (a + b)[|a| + i] == b[i];
    }
  }

  /** The parts so far, and what the scanner makes of the rest, are the whole; unless there are mixed ones. */
  predicate Foreseen(f: SlotReader, whole: Result<seq<Part>, TemplateError>, parts: seq<Part>, s: string, at: nat,
                     lit: string) {
    if Mixed(parts) then whole.Err? else whole == Prepend(parts, ScanTemplate(f, s, at, lit))
  }

  lemma ScanStarts(f: SlotReader, src: string, whole: Result<seq<Part>, TemplateError>)
    requires whole == ScanTemplate(f, src, 0, "")
    ensures Foreseen(f, whole, [], src[0..], 0, "")
  {
    assert src[0..] == src;
    assert whole.Ok? ==> [] + whole.value == whole.value;
  }

  /** A turn that adds to the literal: of two braces, or of a character that is none. */
  lemma LitTurn(f: SlotReader, whole: Result<seq<Part>, TemplateError>, parts: seq<Part>, s: string, at: nat,
                lit: string, n: nat, add: string)
    requires s != "" && Foreseen(f, whole, parts, s, at, lit)
    requires if s[0] != '{' then n == 1 && add == [s[0]] else |s| > 1 && s[1] == '{' && n == 2 && add == "{"
    ensures Foreseen(f, whole, parts, s[n..], at + n, lit + add)
  {}

  /** A placeholder that is read with the table, where the parser reads `x`. */
  predicate SlotRead(x: Result<Part, TemplateError>, r: Result<Part, TemplateError>) {
    if r.Err? then x.Err? else r.value.Slot? && if r.value.node.TreeNode? then x == r else x.Err?
  }

  /** A placeholder's turn of the scanner keeps what the loop promises. */
  lemma SlotTurn(f: SlotReader, parts: seq<Part>, lit: string, slot: Part, s: string, at: nat, end: nat,
                 whole: Result<seq<Part>, TemplateError>)
    requires OpensSlot(s) && 0 < end == Find(s, '}') < |s| && Foreseen(f, whole, parts, s, at, lit)
    requires SlotRead(f(Trim(s[1..end]), at), Ok(slot))
    ensures Foreseen(f, whole, parts + (LitPart(lit) + [slot]), s[end + 1..], at + end + 1, "")
  {
    var add := LitPart(lit) + [slot];
    var rest := s[end + 1..];
    MixedMore(parts, add);
    assert add[|add| - 1] == slot;
    if slot.node.PartsNode? {
      assert Mixed(add);
      SlotFails(f, s, at, lit, end);
    } else {
      assert !Mixed(add);
      SlotStep(f, s, at, lit, end, slot, rest);
      PrependTwice(parts, add, ScanTemplate(f, rest, at + end + 1, ""));
    }
  }

  lemma UnclosedTurn(f: SlotReader, whole: Result<seq<Part>, TemplateError>, parts: seq<Part>, s: string, at: nat,
                     lit: string)
    requires OpensSlot(s) && Find(s, '}') == |s| && Foreseen(f, whole, parts, s, at, lit)
    ensures whole.Err?
  {}

  lemma SlotEnds(f: SlotReader, whole: Result<seq<Part>, TemplateError>, parts: seq<Part>, s: string, at: nat,
                 lit: string, end: nat, body: string, r: Result<Part, TemplateError>)
    requires OpensSlot(s) && 0 < end == Find(s, '}') < |s| && Foreseen(f, whole, parts, s, at, lit)
    requires body == Trim(s[1..end]) && SlotRead(f(body, at), r)
    ensures r.Err? ==> whole.Err?
    ensures r.Ok? ==> Foreseen(f, whole, parts + (LitPart(lit) + [r.value]), s[end + 1..], at + end + 1, "")
  {
    if r.Err? {
      SlotFails(f, s, at, lit, end);
    } else {
      SlotTurn(f, parts, lit, r.value, s, at, end, whole);
    }
  }

  lemma ScanEnds(f: SlotReader, whole: Result<seq<Part>, TemplateError>, parts: seq<Part>, at: nat, lit: string)
    requires Foreseen(f, whole, parts, "", at, lit)
    ensures if Mixed(parts + LitPart(lit)) then whole.Err? else whole == Ok(parts + LitPart(lit))
  {
    MixedMore(parts, LitPart(lit));
  }

  lemma SlotFails(f: SlotReader, s: string, at: nat, lit: string, end: nat)
    requires OpensSlot(s) && 0 < end == Find(s, '}') < |s| && f(Trim(s[1..end]), at).Err?
    ensures ScanTemplate(f, s, at, lit).Err?
  {}

  lemma PrependTwice(a: seq<Part>, b: seq<Part>, r: Result<seq<Part>, TemplateError>)
    ensures Prepend(a, Prepend(b, r)) == Prepend(a + b, r)
  {
    if r.Ok? {
      Associative(a, b, r.value);
    }
  }

  /** Main result: with a new table, parsing the template "x" makes the expression "t:x" parse, which has no parse. */
  method Confusion() returns (r: Result<Node, ExprError>)
    ensures r == Ok(PartsNode([Plain("x")])) && ParseNode("t:x").Err?
  {
    var memo := new Memo();
    PlainTemplate();
    var _ := memo.ParseTemplateCached("x");
    assert "t:" + "x" == "t:x";
    TemplateKeyFails("t:x");
    r := memo.ParseCached("t:x");
  }

  lemma PlainTemplate()
    ensures ParseTemplate("x") == Ok([Plain("x")])
  {
    NoBrace(ParseSlot, "x", 0, "");
    assert "" + "x" == "x";
  }
}
