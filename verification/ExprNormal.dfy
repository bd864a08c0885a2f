/**
 Every source that `parse` accepts has a printed form, made of no more tokens
 than the source, that `parse` accepts as the same tree
 (admin-ui/public/android-expr.js).
 */
module ExprNormal {
  import opened Text
  import opened ExprLexer
  import opened ExprParser
  import opened ExprPrinter

  /** The tokens the lexer makes: spelled ones, then the end token. */
  predicate Lexed(t: seq<Token>) {
    Stream(t) && forall i | 0 <= i < |t| - 1 :: WellSpelled(t[i].tok)
  }

  /** A parser read this tree for level k at depth d from at most `size` tokens. */
  predicate Sound(e: Expr, k: nat, size: int, d: nat)
    requires k <= 8
  {
    WellFormed(e) && Len(e, k) <= size && d + Nesting(e, k) <= MAX_DEPTH
  }

  lemma {:induction false} ExprSound(t: seq<Token>, p: nat, d: nat)
    requires Lexed(t) && p < |t|
    ensures var r := ParseExpr(t, p, d); r.Tree? ==> d < MAX_DEPTH && Sound(r.e, 0, r.next - p, d + 1)
    decreases |t| - p, 12
  {
    if d < MAX_DEPTH {
      TernarySound(t, p, d + 1);
    }
  }

  lemma SoundBelow(e: Expr, size: int, d: nat)
    requires Sound(e, 1, size, d)
    ensures Sound(e, 0, size, d)
  {}

  lemma IfSound(c: Expr, a: Expr, b: Expr, l: int, m: int, n: int, d: nat)
    requires Sound(c, 1, l, d) && Sound(a, 0, m, d + 1) && Sound(b, 0, n, d + 1)
    ensures Sound(If(c, a, b), 0, l + 1 + m + 1 + n, d)
  {}

  /** What was read, if a tree was, is sound. */
  predicate ReadSound(r: Parsed, k: nat, p: int, d: nat)
    requires k <= 8
  {
    match r case Tree(e, next) => Sound(e, k, next - p, d) case Bad(_) => true
  }

  lemma {:induction false} TernarySound(t: seq<Token>, p: nat, d: nat)
    requires Lexed(t) && p < |t| && d <= MAX_DEPTH
    ensures ReadSound(ParseTernary(t, p, d), 0, p, d)
    decreases |t| - p, 11
  {
    LevelSound(1, t, p, d);
    var c := ParseLevel(1, t, p, d);
    if c.Tree? {
      if t[c.next].tok == Op(Question) {
        ConditionalSound(t, p, d, c);
      } else {
        SoundBelow(c.e, c.next - p, d);
      }
    }
  }

  lemma {:induction false} ConditionalSound(t: seq<Token>, p: nat, d: nat, c: Parsed)
    requires Lexed(t) && p < |t| && d <= MAX_DEPTH && c == ParseLevel(1, t, p, d) && c.Tree? &&
             Sound(c.e, 1, c.next - p, d)
    requires t[c.next].tok == Op(Question)
    ensures ReadSound(ParseTernary(t, p, d), 0, p, d)
    decreases |t| - p, 10
  {
    ExprSound(t, c.next + 1, d);
    var a := ParseExpr(t, c.next + 1, d);
    if a.Tree? && t[a.next].tok == Op(Colon) {
      ExprSound(t, a.next + 1, d);
      var b := ParseExpr(t, a.next + 1, d);
      TernaryIs(t, p, d, c, a, b);
      if b.Tree? {
        IfSound(c.e, a.e, b.e, c.next - p, a.next - (c.next + 1), b.next - (a.next + 1), d);
      }
    }
  }

  lemma {:induction false} LevelSound(k: nat, t: seq<Token>, p: nat, d: nat)
    requires Lexed(t) && p < |t| && d <= MAX_DEPTH && 1 <= k <= 7
    ensures ReadSound(ParseLevel(k, t, p, d), k, p, d)
    decreases |t| - p, 10 - k
  {
    if k == 7 {
      UnarySound(t, p, d);
    } else {
      LevelSound(k + 1, t, p, d);
      var a := ParseLevel(k + 1, t, p, d);
      if a.Tree? {
        LoopSound(k, t, p, a.next, d, a.e);
      }
    }
  }

  lemma LoopGoesOn(k: nat, t: seq<Token>, p: nat, d: nat, a: Expr, i: Infix, b: Expr, q: nat)
    requires 1 <= k <= 6 && Stream(t) && p < |t| && InfixAt(k, t[p].tok) == Some(i)
    requires ParseLevel(k + 1, t, p + 1, d) == Tree(b, q)
    ensures LevelLoop(k, t, p, d, a) == LevelLoop(k, t, q, d, Make(i, a, b))
  {}

  lemma LoopEnds(k: nat, t: seq<Token>, p: nat, d: nat, a: Expr)
    requires 1 <= k <= 6 && Stream(t) && p < |t|
    requires InfixAt(k, t[p].tok).None? || ParseLevel(k + 1, t, p + 1, d).Bad?
    ensures LevelLoop(k, t, p, d, a).Tree? ==> LevelLoop(k, t, p, d, a) == Tree(a, p)
  {}

  lemma {:induction false} LoopSound(k: nat, t: seq<Token>, start: nat, p: nat, d: nat, a: Expr)
    requires Lexed(t) && p < |t| && d <= MAX_DEPTH && 1 <= k <= 6 && Sound(a, k, p - start, d)
    ensures ReadSound(LevelLoop(k, t, p, d, a), k, start, d)
    decreases |t| - p, 0
  {
    var i := InfixAt(k, t[p].tok);
    if i.Some? {
      LevelSound(k + 1, t, p + 1, d);
      var b := ParseLevel(k + 1, t, p + 1, d);
      if b.Tree? {
        JoinedSound(k, t, start, p, d, a, i.value, b.e, b.next);
      } else {
        LoopEnds(k, t, p, d, a);
      }
    } else {
      LoopEnds(k, t, p, d, a);
    }
  }

  lemma {:induction false} JoinedSound(k: nat, t: seq<Token>, start: nat, p: nat, d: nat, a: Expr, i: Infix, b: Expr,
                                       q: nat)
    requires Lexed(t) && p < |t| && d <= MAX_DEPTH && 1 <= k <= 6 && Sound(a, k, p - start, d) && p + 1 < q < |t|
    requires InfixAt(k, t[p].tok) == Some(i) && ParseLevel(k + 1, t, p + 1, d) == Tree(b, q) &&
             Sound(b, k + 1, q - (p + 1), d)
    ensures ReadSound(LevelLoop(k, t, p, d, a), k, start, d)
    decreases |t| - p, 0, 0
  {
    MakeLevel(k, t[p].tok, a, b);
    InfixSound(k, i, a, b, p - start, q - (p + 1), d);
    LoopSound(k, t, start, q, d, Make(i, a, b));
    LoopGoesOn(k, t, p, d, a, i, b, q);
  }

  lemma MakeLevel(k: nat, o: Tok, a: Expr, b: Expr)
    requires InfixAt(k, o).Some?
    ensures Level(Make(InfixAt(k, o).value, a, b)) == k <= 6
  {}

  /** Two operands joined by an operator of their level. */
  lemma InfixSound(k: nat, i: Infix, a: Expr, b: Expr, m: int, n: int, d: nat)
    requires 1 <= k <= 6 && Level(Make(i, a, b)) == k && Sound(a, k, m, d) && Sound(b, k + 1, n, d)
    ensures Sound(Make(i, a, b), k, m + 1 + n, d)
  {
    var e := Make(i, a, b);
    assert Apart(e) == Parts(i, a, b);
  }

  lemma {:induction false} UnarySound(t: seq<Token>, p: nat, d: nat)
    requires Lexed(t) && p < |t| && d <= MAX_DEPTH
    ensures ReadSound(ParseUnary(t, p, d), 7, p, d)
    decreases |t| - p, 2
  {
    if UnaryOp(t[p].tok).Some? {
      UnarySound(t, p + 1, d);
    } else {
      PostfixSound(t, p, d);
    }
  }

  lemma {:induction false} PostfixSound(t: seq<Token>, p: nat, d: nat)
    requires Lexed(t) && p < |t| && d <= MAX_DEPTH
    ensures ReadSound(ParsePostfix(t, p, d), 8, p, d)
    decreases |t| - p, 1
  {
    PrimarySound(t, p, d);
    var n := ParsePrimary(t, p, d);
    if n.Tree? {
      MembersSound(t, p, n.next, d, n.e);
    }
  }

  lemma DotSound(n: Expr, id: string, m: int, d: nat)
    requires Sound(n, 8, m, d) && IsName(id)
    ensures Sound(Get(n, Lit(LStr(id))), 8, m + 2, d)
  {}

  lemma IndexSound(n: Expr, key: Expr, m: int, k: int, d: nat)
    requires Sound(n, 8, m, d) && Sound(key, 0, k, d + 1)
    ensures Sound(Get(n, key), 8, m + 1 + k + 1, d)
  {
    assert k >= 1 by {
      assert Len(key, 0) >= 1;
    }
  }

  lemma DotGoesOn(t: seq<Token>, p: nat, d: nat, n: Expr, id: string)
    requires Stream(t) && p + 1 < |t| && t[p].tok == Op(Dot) && t[p + 1].tok == Id(id)
    ensures p + 2 < |t| && PostfixLoop(t, p, d, n) == PostfixLoop(t, p + 2, d, Get(n, Lit(LStr(id))))
  {}

  lemma IndexGoesOn(t: seq<Token>, p: nat, d: nat, n: Expr, key: Expr, q: nat)
    requires Stream(t) && p + 1 < |t| && t[p].tok == Op(LBrack) && ParseExpr(t, p + 1, d) == Tree(key, q) && q + 1 < |t|
    requires t[q].tok == Op(RBrack)
    ensures PostfixLoop(t, p, d, n) == PostfixLoop(t, q + 1, d, Get(n, key))
  {}

  lemma {:induction false} MembersSound(t: seq<Token>, start: nat, p: nat, d: nat, n: Expr)
    requires Lexed(t) && p < |t| && d <= MAX_DEPTH && Sound(n, 8, p - start, d)
    ensures ReadSound(PostfixLoop(t, p, d, n), 8, start, d)
    decreases |t| - p, 0
  {
    if t[p].tok == Op(Dot) {
      if t[p + 1].tok.Id? {
        var id := t[p + 1].tok.id;
        assert WellSpelled(t[p + 1].tok);
        DotSound(n, id, p - start, d);
        DotGoesOn(t, p, d, n, id);
        MembersSound(t, start, p + 2, d, Get(n, Lit(LStr(id))));
      }
    } else if t[p].tok == Op(LBrack) {
      BracketSound(t, start, p, d, n);
    }
  }

  lemma {:induction false} BracketSound(t: seq<Token>, start: nat, p: nat, d: nat, n: Expr)
    requires Lexed(t) && p < |t| && d <= MAX_DEPTH && Sound(n, 8, p - start, d) && t[p].tok == Op(LBrack)
    ensures ReadSound(PostfixLoop(t, p, d, n), 8, start, d)
    decreases |t| - p, 0, 0
  {
    ExprSound(t, p + 1, d);
    var key := ParseExpr(t, p + 1, d);
    if key.Tree? && t[key.next].tok == Op(RBrack) {
      IndexedSound(t, start, p, d, n, key.e, key.next);
    }
  }

  lemma {:induction false} IndexedSound(t: seq<Token>, start: nat, p: nat, d: nat, n: Expr, key: Expr, q: nat)
    requires Lexed(t) && p + 1 < q < |t| && d <= MAX_DEPTH && Sound(n, 8, p - start, d) && t[p].tok == Op(LBrack)
    requires ParseExpr(t, p + 1, d) == Tree(key, q) && t[q].tok == Op(RBrack) && Sound(key, 0, q - (p + 1), d + 1)
    ensures ReadSound(PostfixLoop(t, p, d, n), 8, start, d)
    decreases |t| - p, 0, 0, 0
  {
    IndexSound(n, key, p - start, q - (p + 1), d);
    IndexGoesOn(t, p, d, n, key, q);
    MembersSound(t, start, q + 1, d, Get(n, key));
  }

  lemma {:induction false} PrimarySound(t: seq<Token>, p: nat, d: nat)
    requires Lexed(t) && p < |t| && d <= MAX_DEPTH
    ensures ReadSound(ParsePrimary(t, p, d), 8, p, d)
    decreases |t| - p, 0
  {
    if t[p].tok == Op(LParen) {
      ExprSound(t, p + 1, d);
    } else if t[p].tok != End {
      assert WellSpelled(t[p].tok);
    }
  }

  /**
   Main result: whatever `parse` accepts is a well formed tree within the
   nesting limit; no accepted source has fewer tokens than its printed form;
   and that form, when not over the length limit, is accepted as the same tree.
   */
  lemma {:induction false} Normal(src: string)
    requires Parse(src).Ok?
    ensures var e := Parse(src).value;
            && WellFormed(e) && Accepted(e) == Ok(e)
            && |Print(e, 0)| <= |LexAll(src, 0).value| - 1
            && (|TextOf(e)| <= MAX_SOURCE ==> Parse(TextOf(e)) == Parse(src))
  {
    LexMakes(src, 0);
    var t := LexAll(src, 0).value;
    var e := Parse(src).value;
    ExprSound(t, 0, 0);
    LenPrint(e, 0);
    if |TextOf(e)| <= MAX_SOURCE {
      RoundTrip(e);
    }
  }
}
