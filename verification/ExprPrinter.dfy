/**
 A printer for the expression language, with only the parentheses that the
 precedence chain of `parse` needs, and its round trip through `lex` and
 `parse` (admin-ui/public/android-expr.js).
 */
module ExprPrinter {
  import opened Text
  import opened ExprLexer
  import opened ExprParser

  /** The precedence level a tree is parsed at. */
  function Level(e: Expr): (k: nat)
    ensures k <= 8
  {
    match e
    case If(_, _, _) => 0
    case Or(_, _) => 1
    case And(_, _) => 2
    case Bin(op, _, _) => OpLevel(op)
    case Un(_, _) => 7
    case _ => 8
  }

  function OpLevel(op: BinOp): (k: nat)
    ensures 3 <= k <= 6
  {
    match op
    case Equal => 3 case Differ => 3
    case Less => 4 case Greater => 4 case AtMost => 4 case AtLeast => 4
    case Add => 5 case Sub => 5
    case Mul => 6 case Div => 6 case Mod => 6
  }

  function OpSym(op: BinOp): Sym {
    match op
    case Equal => EqEq case Differ => NotEq
    case Less => Lt case Greater => Gt case AtMost => Le case AtLeast => Ge
    case Add => Plus case Sub => Minus
    case Mul => Star case Div => Slash case Mod => Percent
  }

  function UnSym(op: UnOp): Sym { match op case Not => Bang case Neg => Minus }

  function InfixSym(i: Infix): Sym { match i case Either => OrOr case Both => AndAnd case Binary(op) => OpSym(op) }

  /** A tree with an infix operator at its top, taken apart. */
  datatype Parts = Parts(i: Infix, l: Expr, r: Expr)

  function Apart(e: Expr): (x: Parts)
    requires 1 <= Level(e) <= 6
    ensures Make(x.i, x.l, x.r) == e && x.l < e && x.r < e
  {
    match e
    case Or(l, r) => Parts(Either, l, r)
    case And(l, r) => Parts(Both, l, r)
    case Bin(op, l, r) => Parts(Binary(op), l, r)
  }

  /** A member access that can be written with a point. */
  predicate Dotted(key: Expr) { key.Lit? && key.v.LStr? && IsName(key.v.s) }

  function LiteralTok(v: Literal): Tok {
    match v
    case LNum(text) => Num(text)
    case LStr(s) => Str(s)
    case LBool(b) => Id(if b then "true" else "false")
    case LNull => Id("null")
  }

  /** The tokens of a tree where level k is expected: in parentheses when its own level is lower. */
  function Print(e: Expr, k: nat): (ts: seq<Tok>)
    requires k <= 8
    decreases e, 1
  {
    if Level(e) < k then [Op(LParen)] + Bare(e) + [Op(RParen)] else Bare(e)
  }

  function Bare(e: Expr): seq<Tok>
    decreases e, 0
  {
    match e
    case Lit(v) => [LiteralTok(v)]
    case VarRef(name) => [Var(name)]
    case Tr(key) => [Id("_"), Op(LParen), Str(key), Op(RParen)]
    case Get(obj, key) =>
      if Dotted(key) then Print(obj, 8) + [Op(Dot), Id(key.v.s)]
      else Print(obj, 8) + [Op(LBrack)] + Print(key, 0) + [Op(RBrack)]
    case Un(op, a) => [Op(UnSym(op))] + Print(a, 7)
    case If(c, a, b) => Print(c, 1) + [Op(Question)] + Print(a, 0) + [Op(Colon)] + Print(b, 0)
    case _ =>
      var x := Apart(e);
      Print(x.l, Level(e)) + [Op(InfixSym(x.i))] + Print(x.r, Level(e) + 1)
  }

  function Max(a: nat, b: nat): nat { if a < b then b else a }

  /** How many more calls of `expr` the tokens need to be open at once. */
  function Nesting(e: Expr, k: nat): nat
    requires k <= 8
    decreases e, 1
  {
    if Level(e) < k then 1 + BareNesting(e) else BareNesting(e)
  }

  function BareNesting(e: Expr): nat
    decreases e, 0
  {
    match e
    case Lit(_) => 0
    case VarRef(_) => 0
    case Tr(_) => 0
    case Get(obj, key) => if Dotted(key) then Nesting(obj, 8) else Max(Nesting(obj, 8), 1 + Nesting(key, 0))
    case Un(_, a) => Nesting(a, 7)
    case If(c, a, b) => Max(Nesting(c, 1), 1 + Max(Nesting(a, 0), Nesting(b, 0)))
    case _ =>
      var x := Apart(e);
      Max(Nesting(x.l, Level(e)), Nesting(x.r, Level(e) + 1))
  }

  /** A tree whose names and numbers the source text can hold. */
  predicate WellFormed(e: Expr) {
    match e
    case Lit(v) => v.LNum? ==> IsNumber(v.text)
    case VarRef(name) => IsName(name)
    case Tr(_) => true
    case Get(obj, key) => WellFormed(obj) && WellFormed(key)
    case Un(_, a) => WellFormed(a)
    case Or(l, r) => WellFormed(l) && WellFormed(r)
    case And(l, r) => WellFormed(l) && WellFormed(r)
    case Bin(_, l, r) => WellFormed(l) && WellFormed(r)
    case If(c, a, b) => WellFormed(c) && WellFormed(a) && WellFormed(b)
  }

  // ---------------------------------------------------------------- parsing what was printed

  /** The stream holds these tokens from p on, and one more after them. */
  predicate At(t: seq<Token>, p: nat, ts: seq<Tok>)
    decreases |ts|
  {
    p + |ts| < |t| && (ts != [] ==> t[p].tok == ts[0] && At(t, p + 1, ts[1..]))
  }

  lemma {:induction false} AtParts(t: seq<Token>, p: nat, a: seq<Tok>, b: seq<Tok>)
    requires At(t, p, a + b)
    ensures At(t, p, a) && At(t, p + |a|, b)
    decreases |a|
  {
    if a == [] {
      assert a + b == b;
    } else {
      assert (a + b)[1..] == a[1..] + b;
      AtParts(t, p + 1, a[1..], b);
    }
  }

  lemma {:induction false} AtEach(t: seq<Token>, p: nat, ts: seq<Tok>)
    requires p + |ts| < |t| && forall i | 0 <= i < |ts| :: t[p + i].tok == ts[i]
    ensures At(t, p, ts)
    decreases |ts|
  {
    if ts != [] {
      assert t[p + 0].tok == ts[0];
      forall i | 0 <= i < |ts[1..]| ensures t[p + 1 + i].tok == ts[1..][i] {
        assert t[p + (i + 1)].tok == ts[i + 1];
      }
      AtEach(t, p + 1, ts[1..]);
    }
  }

  /** An operand, an operator and what comes after it. */
  lemma AtOperator(t: seq<Token>, p: nat, a: seq<Tok>, o: Sym, b: seq<Tok>)
    requires At(t, p, a + [Op(o)] + b)
    ensures p + |a| + 1 + |b| < |t|
    ensures At(t, p, a) && t[p + |a|].tok == Op(o) && At(t, p + |a| + 1, b)
  {
    AtParts(t, p, a + [Op(o)], b);
    AtParts(t, p, a, [Op(o)]);
  }

  /** How many tokens a printed tree has. */
  function Len(e: Expr, k: nat): (n: nat)
    requires k <= 8
    decreases e, 1
  {
    if Level(e) < k then BareLen(e) + 2 else BareLen(e)
  }

  function BareLen(e: Expr): nat
    decreases e, 0
  {
    match e
    case Lit(_) => 1
    case VarRef(_) => 1
    case Tr(_) => 4
    case Get(obj, key) => if Dotted(key) then Len(obj, 8) + 2 else Len(obj, 8) + 1 + Len(key, 0) + 1
    case Un(_, a) => 1 + Len(a, 7)
    case If(c, a, b) => Len(c, 1) + 1 + Len(a, 0) + 1 + Len(b, 0)
    case _ => Len(Apart(e).l, Level(e)) + 1 + Len(Apart(e).r, Level(e) + 1)
  }

  /** The stream holds the printed tree from p on, and one more token after it. */
  predicate Spans(e: Expr, k: nat, t: seq<Token>, p: nat)
    requires k <= 8
    decreases e, 1
  {
    && p + Len(e, k) < |t|
    && if Level(e) < k then
         t[p].tok == Op(LParen) && BareSpans(e, t, p + 1) && t[p + 1 + BareLen(e)].tok == Op(RParen)
       else BareSpans(e, t, p)
  }

  predicate BareSpans(e: Expr, t: seq<Token>, p: nat)
    decreases e, 0
  {
    && p + BareLen(e) < |t|
    && match e
       case Lit(v) => t[p].tok == LiteralTok(v)
       case VarRef(name) => t[p].tok == Var(name)
       case Tr(key) =>
         && t[p].tok == Id("_") && t[p + 1].tok == Op(LParen)
         && t[p + 2].tok == Str(key) && t[p + 3].tok == Op(RParen)
       case Get(obj, key) =>
         var q := p + Len(obj, 8);
         && Spans(obj, 8, t, p)
         && if Dotted(key) then t[q].tok == Op(Dot) && t[q + 1].tok == Id(key.v.s)
            else t[q].tok == Op(LBrack) && Spans(key, 0, t, q + 1) && t[q + 1 + Len(key, 0)].tok == Op(RBrack)
       case Un(op, a) => t[p].tok == Op(UnSym(op)) && Spans(a, 7, t, p + 1)
       case If(c, a, b) =>
         var q := p + Len(c, 1);
         var m := q + 1 + Len(a, 0);
         && Spans(c, 1, t, p) && t[q].tok == Op(Question)
         && Spans(a, 0, t, q + 1) && t[m].tok == Op(Colon)
         && Spans(b, 0, t, m + 1)
       case _ =>
         var x := Apart(e);
         var q := p + Len(x.l, Level(e));
         && Spans(x.l, Level(e), t, p)
         && t[q].tok == Op(InfixSym(x.i))
         && Spans(x.r, Level(e) + 1, t, q + 1)
  }

  lemma {:induction false} LenPrint(e: Expr, k: nat)
    requires k <= 8
    ensures |Print(e, k)| == Len(e, k)
    decreases e, 1
  {
    BareLenPrint(e);
  }

  lemma {:induction false} BareLenPrint(e: Expr)
    ensures |Bare(e)| == BareLen(e)
    decreases e, 0
  {
    match e
    case Get(obj, key) =>
      LenPrint(obj, 8);
      LenPrint(key, 0);
    case Un(_, a) => LenPrint(a, 7);
    case If(c, a, b) =>
      LenPrint(c, 1);
      LenPrint(a, 0);
      LenPrint(b, 0);
    case Lit(_) =>
    case VarRef(_) =>
    case Tr(_) =>
    case _ =>
      LenPrint(Apart(e).l, Level(e));
      LenPrint(Apart(e).r, Level(e) + 1);
  }

  lemma {:induction false} PrintSpans(e: Expr, k: nat, t: seq<Token>, p: nat)
    requires k <= 8 && At(t, p, Print(e, k))
    ensures |Print(e, k)| == Len(e, k) && Spans(e, k, t, p)
    decreases e, 1
  {
    if Level(e) < k {
      assert Print(e, k) == [] + [Op(LParen)] + (Bare(e) + [Op(RParen)]);
      AtOperator(t, p, [], LParen, Bare(e) + [Op(RParen)]);
      AtParts(t, p + 1, Bare(e), [Op(RParen)]);
      BarePrintSpans(e, t, p + 1);
    } else {
      BarePrintSpans(e, t, p);
    }
  }

  lemma {:induction false} BarePrintSpans(e: Expr, t: seq<Token>, p: nat)
    requires At(t, p, Bare(e))
    ensures |Bare(e)| == BareLen(e) && BareSpans(e, t, p)
    decreases e, 0
  {
    match e
    case Lit(_) =>
    case VarRef(_) =>
    case Tr(key) => AtParts(t, p, [Id("_"), Op(LParen)], [Str(key), Op(RParen)]);
    case Get(obj, key) => GetPrintSpans(e, t, p);
    case Un(op, a) =>
      AtParts(t, p, [Op(UnSym(op))], Print(a, 7));
      PrintSpans(a, 7, t, p + 1);
    case If(_, _, _) => IfPrintSpans(e, t, p);
    case _ => InfixPrintSpans(e, t, p);
  }

  /** The three parts of a conditional and its two operators. */
  lemma AtConditional(t: seq<Token>, p: nat, c: seq<Tok>, a: seq<Tok>, b: seq<Tok>, lc: nat, la: nat)
    requires At(t, p, c + [Op(Question)] + a + [Op(Colon)] + b) && lc == |c| && la == |a|
    ensures p + lc + 1 + la + 1 + |b| < |t| && At(t, p, c) && t[p + lc].tok == Op(Question)
    ensures At(t, p + lc + 1, a) && t[p + lc + 1 + la].tok == Op(Colon) && At(t, p + lc + 1 + la + 1, b)
  {
    AtOperator(t, p, c + [Op(Question)] + a, Colon, b);
    AtOperator(t, p, c, Question, a);
  }

  lemma IfOfParts(e: Expr, t: seq<Token>, p: nat)
    requires e.If? && p + Len(e.c, 1) + 1 + Len(e.thn, 0) + 1 + Len(e.els, 0) < |t|
    requires Spans(e.c, 1, t, p) && t[p + Len(e.c, 1)].tok == Op(Question)
    requires Spans(e.thn, 0, t, p + Len(e.c, 1) + 1) && t[p + Len(e.c, 1) + 1 + Len(e.thn, 0)].tok == Op(Colon)
    requires Spans(e.els, 0, t, p + Len(e.c, 1) + 1 + Len(e.thn, 0) + 1)
    ensures BareSpans(e, t, p)
  {}

  /** Where the parts of a printed conditional are. */
  lemma IfPrinted(e: Expr, t: seq<Token>, p: nat)
    requires e.If? && At(t, p, Bare(e))
    ensures |Bare(e)| == BareLen(e) && p + Len(e.c, 1) + 1 + Len(e.thn, 0) + 1 + Len(e.els, 0) < |t|
    ensures At(t, p, Print(e.c, 1)) && t[p + Len(e.c, 1)].tok == Op(Question)
    ensures At(t, p + Len(e.c, 1) + 1, Print(e.thn, 0))
    ensures t[p + Len(e.c, 1) + 1 + Len(e.thn, 0)].tok == Op(Colon)
    ensures At(t, p + Len(e.c, 1) + 1 + Len(e.thn, 0) + 1, Print(e.els, 0))
  {
    LenPrint(e.c, 1);
    LenPrint(e.thn, 0);
    LenPrint(e.els, 0);
    AtConditional(t, p, Print(e.c, 1), Print(e.thn, 0), Print(e.els, 0), Len(e.c, 1), Len(e.thn, 0));
  }

  lemma {:induction false} IfPrintSpans(e: Expr, t: seq<Token>, p: nat)
    requires e.If? && At(t, p, Bare(e))
    ensures |Bare(e)| == BareLen(e) && BareSpans(e, t, p)
    decreases e, 0, 0
  {
    IfPrinted(e, t, p);
    IfPartsSpan(e, t, p);
  }

  lemma {:induction false} IfPartsSpan(e: Expr, t: seq<Token>, p: nat)
    requires e.If? && p + Len(e.c, 1) + 1 + Len(e.thn, 0) + 1 + Len(e.els, 0) < |t|
    requires At(t, p, Print(e.c, 1)) && t[p + Len(e.c, 1)].tok == Op(Question)
    requires At(t, p + Len(e.c, 1) + 1, Print(e.thn, 0))
    requires t[p + Len(e.c, 1) + 1 + Len(e.thn, 0)].tok == Op(Colon)
    requires At(t, p + Len(e.c, 1) + 1 + Len(e.thn, 0) + 1, Print(e.els, 0))
    ensures BareSpans(e, t, p)
    decreases e, 0, 0, 0
  {
    PrintSpans(e.c, 1, t, p);
    PrintSpans(e.thn, 0, t, p + Len(e.c, 1) + 1);
    PrintSpans(e.els, 0, t, p + Len(e.c, 1) + 1 + Len(e.thn, 0) + 1);
    IfOfParts(e, t, p);
  }

  lemma {:induction false} InfixPrintSpans(e: Expr, t: seq<Token>, p: nat)
    requires 1 <= Level(e) <= 6 && At(t, p, Bare(e))
    ensures |Bare(e)| == BareLen(e) && BareSpans(e, t, p)
    decreases e, 0, 0
  {
    var x := Apart(e);
    var i := InfixPrinted(e, t, p);
    PrintSpans(x.l, Level(e), t, p);
    PrintSpans(x.r, Level(e) + 1, t, i + 1);
  }

  /** Where the parts of a printed infix operation are. */
  lemma InfixPrinted(e: Expr, t: seq<Token>, p: nat) returns (i: nat)
    requires 1 <= Level(e) <= 6 && At(t, p, Bare(e))
    ensures var x := Apart(e);
            && i == p + Len(x.l, Level(e)) && i + 1 + Len(x.r, Level(e) + 1) < |t|
            && At(t, p, Print(x.l, Level(e))) && t[i].tok == Op(InfixSym(x.i)) && At(t, i + 1, Print(x.r, Level(e) + 1))
    ensures |Bare(e)| == BareLen(e)
  {
    var x := Apart(e);
    LenPrint(x.l, Level(e));
    LenPrint(x.r, Level(e) + 1);
    AtOperator(t, p, Print(x.l, Level(e)), InfixSym(x.i), Print(x.r, Level(e) + 1));
    i := p + Len(x.l, Level(e));
  }

  lemma {:induction false} GetPrintSpans(e: Expr, t: seq<Token>, p: nat)
    requires e.Get? && At(t, p, Bare(e))
    ensures |Bare(e)| == BareLen(e) && BareSpans(e, t, p)
    decreases e, 0, 0
  {
    var obj := Print(e.obj, 8);
    if Dotted(e.key) {
      assert Bare(e) == obj + [Op(Dot)] + [Id(e.key.v.s)];
      AtOperator(t, p, obj, Dot, [Id(e.key.v.s)]);
      PrintSpans(e.obj, 8, t, p);
    } else {
      IndexPrintSpans(e, t, p);
    }
  }

  lemma AtBrackets(t: seq<Token>, p: nat, obj: seq<Tok>, key: seq<Tok>, lo: nat, lk: nat)
    requires At(t, p, obj + [Op(LBrack)] + key + [Op(RBrack)]) && lo == |obj| && lk == |key|
    ensures p + lo + 1 + lk + 1 < |t| && At(t, p, obj) && t[p + lo].tok == Op(LBrack)
    ensures At(t, p + lo + 1, key) && t[p + lo + 1 + lk].tok == Op(RBrack)
  {
    AtParts(t, p, obj + [Op(LBrack)] + key, [Op(RBrack)]);
    AtOperator(t, p, obj, LBrack, key);
  }

  lemma IndexOfParts(e: Expr, t: seq<Token>, p: nat)
    requires e.Get? && !Dotted(e.key) && p + Len(e.obj, 8) + 1 + Len(e.key, 0) + 1 < |t|
    requires Spans(e.obj, 8, t, p) && t[p + Len(e.obj, 8)].tok == Op(LBrack)
    requires Spans(e.key, 0, t, p + Len(e.obj, 8) + 1) && t[p + Len(e.obj, 8) + 1 + Len(e.key, 0)].tok == Op(RBrack)
    ensures BareSpans(e, t, p)
  {}

  lemma {:induction false} IndexPrintSpans(e: Expr, t: seq<Token>, p: nat)
    requires e.Get? && !Dotted(e.key) && At(t, p, Bare(e))
    ensures |Bare(e)| == BareLen(e) && BareSpans(e, t, p)
    decreases e, 0, 0, 0
  {
    LenPrint(e.obj, 8);
    LenPrint(e.key, 0);
    AtBrackets(t, p, Print(e.obj, 8), Print(e.key, 0), Len(e.obj, 8), Len(e.key, 0));
    PrintSpans(e.obj, 8, t, p);
    PrintSpans(e.key, 0, t, p + Len(e.obj, 8) + 1);
    IndexOfParts(e, t, p);
  }

  /** After an operand: no member access, and no infix operator above level k. */
  predicate Ends(t: Tok, k: nat) { t != Op(Dot) && t != Op(LBrack) && (t.Op? ==> SymLevel(t.sym) <= k) }

  /** The tree, if the nesting limit allows it. */
  function Fits(e: Expr, next: nat, d: nat, deep: nat): Parsed {
    if d + deep <= MAX_DEPTH then Tree(e, next) else Bad(TooDeep)
  }

  /** The operator loop of level k with this operand read, if the nesting limit allows it. */
  function Looped(k: nat, t: seq<Token>, p: nat, d: nat, a: Expr, deep: nat): Parsed
    requires 1 <= k <= 6 && Stream(t) && p < |t|
  {
    if d + deep <= MAX_DEPTH then LevelLoop(k, t, p, d, a) else Bad(TooDeep)
  }

  /** Orders the lemmas below when they speak of one tree. */
  function Rank(e: Expr, k: nat): nat
    requires k <= 8
  {
    if Level(e) < k then 38 - k else Level(e) - k
  }

  /** The printed tree lies between p and q. */
  predicate Ready(e: Expr, k: nat, t: seq<Token>, p: nat, q: nat, d: nat)
    requires k <= 8
  {
    d <= MAX_DEPTH && Stream(t) && Spans(e, k, t, p) && q == p + Len(e, k)
  }

  lemma {:induction false} ExprBack(e: Expr, t: seq<Token>, p: nat, q: nat, d: nat)
    requires Ready(e, 0, t, p, q, d) && Ends(t[q].tok, 0) && t[q].tok != Op(Question)
    ensures ParseExpr(t, p, d) == Fits(e, q, d, 1 + Nesting(e, 0))
    decreases e, 40
  {
    if d + 1 <= MAX_DEPTH {
      TernaryBack(e, t, p, q, d + 1);
    }
  }

  lemma {:induction false} TernaryBack(e: Expr, t: seq<Token>, p: nat, q: nat, d: nat)
    requires Ready(e, 0, t, p, q, d) && Ends(t[q].tok, 0) && t[q].tok != Op(Question)
    ensures ParseTernary(t, p, d) == Fits(e, q, d, Nesting(e, 0))
    decreases e, 2 * Rank(e, 0) + 1
  {
    if e.If? {
      IfBack(e, t, p, q, d);
    } else {
      LevelBack(1, e, t, p, q, d);
      OperandStep(t, p, d, e, q, Nesting(e, 0));
    }
  }

  lemma {:induction false} IfBack(e: Expr, t: seq<Token>, p: nat, q: nat, d: nat)
    requires e.If? && Ready(e, 0, t, p, q, d) && Ends(t[q].tok, 0) && t[q].tok != Op(Question)
    ensures ParseTernary(t, p, d) == Fits(e, q, d, Nesting(e, 0))
    decreases e, 0
  {
    var i, j := IfSpans(e, t, p);
    var dc, da, db := Nesting(e.c, 1), Nesting(e.thn, 0), Nesting(e.els, 0);
    LevelBack(1, e.c, t, p, i, d);
    BranchesBack(e, t, i, j, q, d, da, db);
    var rc, ra, rb := ParseLevel(1, t, p, d), ParseExpr(t, i + 1, d), ParseExpr(t, j + 1, d);
    TernaryStep(t, p, d, e, i, j, q, dc, da, db, rc, ra, rb);
  }

  lemma {:induction false} BranchesBack(e: Expr, t: seq<Token>, i: nat, j: nat, q: nat, d: nat, da: nat, db: nat)
    requires e.If?
    requires Ready(e.thn, 0, t, i + 1, j, d) && t[j].tok == Op(Colon)
    requires Ready(e.els, 0, t, j + 1, q, d) && Ends(t[q].tok, 0) && t[q].tok != Op(Question)
    requires da == Nesting(e.thn, 0) && db == Nesting(e.els, 0)
    ensures ParseExpr(t, i + 1, d) == Fits(e.thn, j, d, 1 + da)
    ensures ParseExpr(t, j + 1, d) == Fits(e.els, q, d, 1 + db)
    decreases e, 0, 0
  {
    ExprBack(e.thn, t, i + 1, j, d);
    ExprBack(e.els, t, j + 1, q, d);
  }

  /** Where the operators of a printed conditional are. */
  lemma IfSpans(e: Expr, t: seq<Token>, p: nat) returns (i: nat, j: nat)
    requires e.If? && Spans(e, 0, t, p)
    ensures i == p + Len(e.c, 1) && j == i + 1 + Len(e.thn, 0) && p + Len(e, 0) == j + 1 + Len(e.els, 0)
    ensures Spans(e.c, 1, t, p) && t[i].tok == Op(Question)
    ensures Spans(e.thn, 0, t, i + 1) && t[j].tok == Op(Colon) && Spans(e.els, 0, t, j + 1)
    ensures Nesting(e, 0) == Max(Nesting(e.c, 1), 1 + Max(Nesting(e.thn, 0), Nesting(e.els, 0)))
  {
    assert BareSpans(e, t, p);
    i := p + Len(e.c, 1);
    j := i + 1 + Len(e.thn, 0);
  }

  /** What `ternary` makes of what its parts make: the first failure, or the whole. */
  lemma TernaryIs(t: seq<Token>, p: nat, d: nat, rc: Parsed, ra: Parsed, rb: Parsed)
    requires Stream(t) && p < |t| && rc == ParseLevel(1, t, p, d)
    requires rc.Tree? ==> t[rc.next].tok == Op(Question) && ra == ParseExpr(t, rc.next + 1, d)
    requires rc.Tree? && ra.Tree? ==> t[ra.next].tok == Op(Colon) && rb == ParseExpr(t, ra.next + 1, d)
    ensures ParseTernary(t, p, d) ==
            if rc.Bad? then rc else if ra.Bad? then ra else if rb.Bad? then rb else Tree(If(rc.e, ra.e, rb.e), rb.next)
  {}

  lemma TernaryStep(t: seq<Token>, p: nat, d: nat, e: Expr, i: nat, j: nat, q: nat, dc: nat, da: nat, db: nat,
                    rc: Parsed, ra: Parsed, rb: Parsed)
    requires e.If? && Stream(t) && p < |t| && i + 1 < |t| && j + 1 < |t|
    requires rc == ParseLevel(1, t, p, d) && ra == ParseExpr(t, i + 1, d) && rb == ParseExpr(t, j + 1, d)
    requires rc == Fits(e.c, i, d, dc) && ra == Fits(e.thn, j, d, 1 + da) && rb == Fits(e.els, q, d, 1 + db)
    requires t[i].tok == Op(Question) && t[j].tok == Op(Colon)
    ensures ParseTernary(t, p, d) == Fits(e, q, d, Max(dc, 1 + Max(da, db)))
  {
    NextOf(e.c, i, d, dc, rc);
    NextOf(e.thn, j, d, 1 + da, ra);
    TernaryIs(t, p, d, rc, ra, rb);
    IfFits(e, i, j, q, d, dc, da, db, rc, ra, rb);
  }

  lemma NextOf(e: Expr, next: nat, d: nat, deep: nat, r: Parsed)
    requires r == Fits(e, next, d, deep)
    ensures r.Tree? ==> r.next == next
  {}

  lemma IfFits(e: Expr, i: nat, j: nat, q: nat, d: nat, dc: nat, da: nat, db: nat, rc: Parsed, ra: Parsed, rb: Parsed)
    requires e.If? && rc == Fits(e.c, i, d, dc) && ra == Fits(e.thn, j, d, 1 + da) && rb == Fits(e.els, q, d, 1 + db)
    ensures Fits(e, q, d, Max(dc, 1 + Max(da, db))) ==
            if rc.Bad? then rc else if ra.Bad? then ra else if rb.Bad? then rb else Tree(If(rc.e, ra.e, rb.e), rb.next)
  {}

  lemma OperandStep(t: seq<Token>, p: nat, d: nat, e: Expr, q: nat, deep: nat)
    requires Stream(t) && p < |t| && q < |t| && t[q].tok != Op(Question)
    requires ParseLevel(1, t, p, d) == Fits(e, q, d, deep)
    ensures ParseTernary(t, p, d) == Fits(e, q, d, deep)
  {}

  /** At level j, when no operator of that level or a higher one follows. */
  lemma {:induction false} LevelBack(j: nat, e: Expr, t: seq<Token>, p: nat, q: nat, d: nat)
    requires 1 <= j <= 7 && Ready(e, j, t, p, q, d) && Ends(t[q].tok, j - 1)
    ensures ParseLevel(j, t, p, d) == Fits(e, q, d, Nesting(e, j))
    decreases e, 2 * Rank(e, j) + 2
  {
    if j == 7 {
      UnaryBack(e, t, p, q, d);
    } else {
      LoopBack(j, e, t, p, q, d);
    }
  }

  /** At level k the operator loop goes on from the whole printed tree. */
  lemma {:induction false} LoopBack(k: nat, e: Expr, t: seq<Token>, p: nat, q: nat, d: nat)
    requires 1 <= k <= 6 && Ready(e, k, t, p, q, d) && Ends(t[q].tok, k)
    ensures ParseLevel(k, t, p, d) == Looped(k, t, q, d, e, Nesting(e, k))
    decreases e, 2 * Rank(e, k) + 1
  {
    if Level(e) == k {
      InfixBack(k, e, t, p, q, d);
    } else {
      LevelBack(k + 1, e, t, p, q, d);
      LevelStep(k, t, p, d, e, q, Nesting(e, k));
    }
  }

  lemma {:induction false} InfixBack(k: nat, e: Expr, t: seq<Token>, p: nat, q: nat, d: nat)
    requires 1 <= k <= 6 && Level(e) == k && Ready(e, k, t, p, q, d) && Ends(t[q].tok, k)
    ensures ParseLevel(k, t, p, d) == Looped(k, t, q, d, e, Nesting(e, k))
    decreases e, 0
  {
    var x := Apart(e);
    var i := InfixSpans(k, e, t, p);
    var dl, dr := Nesting(x.l, k), Nesting(x.r, k + 1);
    LoopBack(k, x.l, t, p, i, d);
    LevelBack(k + 1, x.r, t, i + 1, q, d);
    InfixStep(k, t, d, x, i, q, dl, dr);
  }

  /** Where the operator of a printed infix operation is. */
  lemma InfixSpans(k: nat, e: Expr, t: seq<Token>, p: nat) returns (i: nat)
    requires 1 <= k <= 6 && Level(e) == k && Spans(e, k, t, p)
    ensures var x := Apart(e);
            && Spans(x.l, k, t, p) && i == p + Len(x.l, k)
            && t[i].tok == Op(InfixSym(x.i)) && InfixAt(k, t[i].tok) == Some(x.i) && Ends(t[i].tok, k)
            && Spans(x.r, k + 1, t, i + 1) && p + Len(e, k) == i + 1 + Len(x.r, k + 1)
            && Nesting(e, k) == Max(Nesting(x.l, k), Nesting(x.r, k + 1))
  {
    assert BareSpans(e, t, p);
    InfixKind(k, e);
    i := p + Len(Apart(e).l, k);
  }

  /** The operator of an infix operation belongs to its level. */
  lemma InfixKind(k: nat, e: Expr)
    requires 1 <= k <= 6 && Level(e) == k
    ensures var o := Op(InfixSym(Apart(e).i)); InfixAt(k, o) == Some(Apart(e).i) && Ends(o, k)
  {}

  lemma LevelStep(k: nat, t: seq<Token>, p: nat, d: nat, e: Expr, q: nat, deep: nat)
    requires 1 <= k <= 6 && Stream(t) && p < |t| && q < |t|
    requires ParseLevel(k + 1, t, p, d) == Fits(e, q, d, deep)
    ensures ParseLevel(k, t, p, d) == Looped(k, t, q, d, e, deep)
  {}

  /** One turn of the operator loop. */
  lemma InfixStep(k: nat, t: seq<Token>, d: nat, x: Parts, i: nat, q: nat, dl: nat, dr: nat)
    requires 1 <= k <= 6 && Stream(t) && i + 1 < |t| && q < |t|
    requires t[i].tok == Op(InfixSym(x.i)) && InfixAt(k, t[i].tok) == Some(x.i)
    requires ParseLevel(k + 1, t, i + 1, d) == Fits(x.r, q, d, dr)
    ensures Looped(k, t, i, d, x.l, dl) == Looped(k, t, q, d, Make(x.i, x.l, x.r), Max(dl, dr))
  {}

  lemma {:induction false} UnaryBack(e: Expr, t: seq<Token>, p: nat, q: nat, d: nat)
    requires Ready(e, 7, t, p, q, d) && Ends(t[q].tok, 6)
    ensures ParseUnary(t, p, d) == Fits(e, q, d, Nesting(e, 7))
    decreases e, 2 * Rank(e, 7) + 1
  {
    if e.Un? {
      assert BareSpans(e, t, p);
      UnaryBack(e.a, t, p + 1, q, d);
    } else {
      FirstIsNoSign(e, t, p);
      PostfixBack(e, t, p, q, d);
    }
  }

  lemma {:induction false} FirstIsNoSign(e: Expr, t: seq<Token>, p: nat)
    requires Spans(e, 8, t, p)
    ensures UnaryOp(t[p].tok).None?
  {
    if e.Get? {
      assert BareSpans(e, t, p);
      FirstIsNoSign(e.obj, t, p);
    }
  }

  /** The member loop at p with this operand read, if the nesting limit allows it. */
  function Postfixed(t: seq<Token>, p: nat, d: nat, n: Expr, deep: nat): Parsed
    requires Stream(t) && p < |t|
  {
    if d + deep <= MAX_DEPTH then PostfixLoop(t, p, d, n) else Bad(TooDeep)
  }

  /** At level 8 the member loop goes on from the whole printed tree. */
  lemma {:induction false} PostfixBack(e: Expr, t: seq<Token>, p: nat, q: nat, d: nat)
    requires Ready(e, 8, t, p, q, d)
    ensures ParsePostfix(t, p, d) == Postfixed(t, q, d, e, Nesting(e, 8))
    decreases e, 2 * Rank(e, 8) + 1
  {
    if Level(e) < 8 {
      ParenBack(e, t, p, q, d);
    } else if e.Get? {
      var i := GetSpans(e, t, p);
      if Dotted(e.key) {
        PostfixBack(e.obj, t, p, i, d);
        DotStep(t, d, e, i, Nesting(e.obj, 8));
      } else {
        IndexBack(e, t, p, i, q - 1, d);
      }
    } else {
      LeafBack(e, t, p, d);
    }
  }

  lemma {:induction false} ParenBack(e: Expr, t: seq<Token>, p: nat, q: nat, d: nat)
    requires Level(e) < 8 && Ready(e, 8, t, p, q, d)
    ensures ParsePostfix(t, p, d) == Postfixed(t, q, d, e, Nesting(e, 8))
    decreases e, 50
  {
    ParenSpans(e, t, p, q, d);
    ExprBack(e, t, p + 1, q - 1, d);
    ParenStep(t, p, d, e, q - 1, Nesting(e, 0));
  }

  /** A printed tree in parentheses, without them. */
  lemma ParenSpans(e: Expr, t: seq<Token>, p: nat, q: nat, d: nat)
    requires Level(e) < 8 && Ready(e, 8, t, p, q, d)
    ensures q > p + 1 && Ready(e, 0, t, p + 1, q - 1, d) && Nesting(e, 8) == 1 + Nesting(e, 0)
    ensures t[p].tok == Op(LParen) && t[q - 1].tok == Op(RParen)
  {
    assert BareSpans(e, t, p + 1);
  }

  lemma {:induction false} IndexBack(e: Expr, t: seq<Token>, p: nat, i: nat, j: nat, d: nat)
    requires e.Get? && Ready(e.obj, 8, t, p, i, d) && t[i].tok == Op(LBrack)
    requires Ready(e.key, 0, t, i + 1, j, d) && t[j].tok == Op(RBrack) && j + 1 < |t|
    ensures ParsePostfix(t, p, d) == Postfixed(t, j + 1, d, e, Max(Nesting(e.obj, 8), 1 + Nesting(e.key, 0)))
    decreases e, 0
  {
    var deep, inner := Nesting(e.obj, 8), Nesting(e.key, 0);
    IndexPartsBack(e, t, p, i, j, d, deep, inner);
    IndexStep(t, d, e, i, j, deep, inner);
  }

  lemma {:induction false} IndexPartsBack(e: Expr, t: seq<Token>, p: nat, i: nat, j: nat, d: nat, deep: nat, inner: nat)
    requires e.Get? && Ready(e.obj, 8, t, p, i, d)
    requires Ready(e.key, 0, t, i + 1, j, d) && t[j].tok == Op(RBrack)
    requires deep == Nesting(e.obj, 8) && inner == Nesting(e.key, 0)
    ensures ParsePostfix(t, p, d) == Postfixed(t, i, d, e.obj, deep)
    ensures ParseExpr(t, i + 1, d) == Fits(e.key, j, d, 1 + inner)
    decreases e, 0, 0
  {
    assert Ends(Op(RBrack), 0);
    ExprBack(e.key, t, i + 1, j, d);
    PostfixBack(e.obj, t, p, i, d);
  }

  /** Where the parts of a printed member access are. */
  lemma GetSpans(e: Expr, t: seq<Token>, p: nat) returns (i: nat)
    requires e.Get? && Spans(e, 8, t, p)
    ensures Spans(e.obj, 8, t, p) && i == p + Len(e.obj, 8) && i + 1 < |t|
    ensures if Dotted(e.key) then
              && t[i].tok == Op(Dot) && t[i + 1].tok == Id(e.key.v.s)
              && p + Len(e, 8) == i + 2 && Nesting(e, 8) == Nesting(e.obj, 8)
            else
              var j := i + 1 + Len(e.key, 0);
              && t[i].tok == Op(LBrack) && Spans(e.key, 0, t, i + 1) && t[j].tok == Op(RBrack)
              && p + Len(e, 8) == j + 1 && Nesting(e, 8) == Max(Nesting(e.obj, 8), 1 + Nesting(e.key, 0))
  {
    assert BareSpans(e, t, p);
    i := p + Len(e.obj, 8);
  }

  lemma ParenStep(t: seq<Token>, p: nat, d: nat, e: Expr, q: nat, deep: nat)
    requires Stream(t) && p + 1 < |t| && q + 1 < |t| && t[p].tok == Op(LParen) && t[q].tok == Op(RParen)
    requires ParseExpr(t, p + 1, d) == Fits(e, q, d, 1 + deep)
    ensures ParsePostfix(t, p, d) == Postfixed(t, q + 1, d, e, 1 + deep)
  {}

  lemma DotStep(t: seq<Token>, d: nat, e: Expr, i: nat, deep: nat)
    requires e.Get? && Dotted(e.key) && Stream(t) && i + 2 < |t|
    requires t[i].tok == Op(Dot) && t[i + 1].tok == Id(e.key.v.s)
    ensures Postfixed(t, i, d, e.obj, deep) == Postfixed(t, i + 2, d, e, deep)
  {}

  lemma IndexStep(t: seq<Token>, d: nat, e: Expr, i: nat, j: nat, deep: nat, inner: nat)
    requires e.Get? && Stream(t) && i + 1 < |t| && j + 1 < |t|
    requires t[i].tok == Op(LBrack) && t[j].tok == Op(RBrack)
    requires ParseExpr(t, i + 1, d) == Fits(e.key, j, d, 1 + inner)
    ensures Postfixed(t, i, d, e.obj, deep) == Postfixed(t, j + 1, d, e, Max(deep, 1 + inner))
  {}

  lemma {:induction false} LeafBack(e: Expr, t: seq<Token>, p: nat, d: nat)
    requires Level(e) == 8 && !e.Get? && Stream(t) && BareSpans(e, t, p)
    ensures ParsePrimary(t, p, d) == Tree(e, p + BareLen(e))
  {
    assert "true"[0] == 't' && "false"[0] == 'f' && "null"[0] == 'n' && "_"[0] == '_';
  }

  // ---------------------------------------------------------------- the printed text

  predicate StartsOperand(ts: seq<Tok>) {
    ts != [] && (ts[0].Op? ==> ts[0].sym == LParen || ts[0].sym == Bang || ts[0].sym == Minus)
  }

  predicate EndsOperand(ts: seq<Tok>) {
    ts != [] && (ts[|ts| - 1].Op? ==> ts[|ts| - 1].sym == RParen || ts[|ts| - 1].sym == RBrack)
  }

  /** Tokens that can be written one right after the other. */
  predicate Tight(ts: seq<Tok>) {
    && (forall i | 0 <= i < |ts| - 1 :: !Glue(ts[i], ts[i + 1]))
    && (forall t | t in ts :: WellSpelled(t))
  }

  lemma TightJoin(a: seq<Tok>, b: seq<Tok>)
    requires Tight(a) && Tight(b) && a != [] && b != [] && !Glue(a[|a| - 1], b[0])
    ensures Tight(a + b) && (a + b)[0] == a[0] && (a + b)[|a + b| - 1] == b[|b| - 1]
  {
    var ts := a + b;
    forall i | 0 <= i < |ts| - 1 ensures !Glue(ts[i], ts[i + 1]) {
      if i + 1 < |a| {
        assert ts[i] == a[i] && ts[i + 1] == a[i + 1];
      } else if i >= |a| {
        assert ts[i] == b[i - |a|] && ts[i + 1] == b[i + 1 - |a|];
      }
    }
  }

  /** An operand and an operator, then another operand. */
  lemma TightInfix(a: seq<Tok>, o: Sym, b: seq<Tok>)
    requires Tight(a) && Tight(b) && StartsOperand(a) && EndsOperand(a) && StartsOperand(b) && EndsOperand(b)
    requires o != Dot
    ensures Tight(a + [Op(o)] + b) && StartsOperand(a + [Op(o)] + b) && EndsOperand(a + [Op(o)] + b)
  {
    TightJoin(a, [Op(o)]);
    TightJoin(a + [Op(o)], b);
  }

  lemma {:induction false} PrintTight(e: Expr, k: nat)
    requires WellFormed(e) && k <= 8
    ensures Tight(Print(e, k)) && StartsOperand(Print(e, k)) && EndsOperand(Print(e, k))
    decreases e, 1
  {
    BareTight(e);
    if Level(e) < k {
      TightJoin([Op(LParen)], Bare(e));
      TightJoin([Op(LParen)] + Bare(e), [Op(RParen)]);
    }
  }

  lemma {:induction false} BareTight(e: Expr)
    requires WellFormed(e)
    ensures Tight(Bare(e)) && StartsOperand(Bare(e)) && EndsOperand(Bare(e))
    decreases e, 0
  {
    match e
    case Get(_, _) => GetTight(e);
    case Un(op, a) =>
      PrintTight(a, 7);
      TightJoin([Op(UnSym(op))], Print(a, 7));
    case If(c, a, b) =>
      PrintTight(c, 1);
      PrintTight(a, 0);
      PrintTight(b, 0);
      TightInfix(Print(c, 1), Question, Print(a, 0));
      TightInfix(Print(c, 1) + [Op(Question)] + Print(a, 0), Colon, Print(b, 0));
    case Lit(_) =>
    case VarRef(_) =>
    case Tr(_) =>
    case _ => InfixTight(e);
  }

  lemma {:induction false} GetTight(e: Expr)
    requires e.Get? && WellFormed(e)
    ensures Tight(Bare(e)) && StartsOperand(Bare(e)) && EndsOperand(Bare(e))
    decreases e, 0, 0
  {
    var obj := Print(e.obj, 8);
    PrintTight(e.obj, 8);
    if Dotted(e.key) {
      TightJoin(obj, [Op(Dot), Id(e.key.v.s)]);
    } else {
      PrintTight(e.key, 0);
      TightInfix(obj, LBrack, Print(e.key, 0));
      TightJoin(obj + [Op(LBrack)] + Print(e.key, 0), [Op(RBrack)]);
    }
  }

  lemma {:induction false} InfixTight(e: Expr)
    requires 1 <= Level(e) <= 6 && WellFormed(e)
    ensures Tight(Bare(e)) && StartsOperand(Bare(e)) && EndsOperand(Bare(e))
    decreases e, 0, 0
  {
    var x := Apart(e);
    PrintTight(x.l, Level(e));
    PrintTight(x.r, Level(e) + 1);
    TightInfix(Print(x.l, Level(e)), InfixSym(x.i), Print(x.r, Level(e) + 1));
  }

  function NoGaps(n: nat): seq<string> { seq(n, _ => "") }

  /** A tree as text, with no white space at all. */
  function TextOf(e: Expr): string {
    Layout(Print(e, 0), NoGaps(|Print(e, 0)|))
  }

  // ---------------------------------------------------------------- main results

  /** The tree, if the nesting limit allows it: what `parse` returns. */
  function Accepted(e: Expr): Result<Expr, ExprError> {
    if 1 + Nesting(e, 0) <= MAX_DEPTH then Ok(e) else Err(TooDeep)
  }

  lemma {:induction false} TokensBack(e: Expr, t: seq<Token>)
    requires Toks(t) == Print(e, 0) + [End]
    ensures Stream(t) && ParseAll(t) == Accepted(e)
  {
    TokensAt(t, Print(e, 0));
    PrintSpans(e, 0, t, 0);
    ExprBack(e, t, 0, Len(e, 0), 0);
  }

  lemma TokensAt(t: seq<Token>, ts: seq<Tok>)
    requires Toks(t) == ts + [End]
    ensures Stream(t) && At(t, 0, ts) && t[|ts|].tok == End
  {
    var all := Toks(t);
    assert |all| == |t| && forall i | 0 <= i < |t| :: all[i] == t[i].tok;
    forall i | 0 <= i < |ts| ensures t[0 + i].tok == ts[i] {
      assert all[i] == ts[i];
    }
    AtEach(t, 0, ts);
    assert all[|ts|] == End;
  }

  /**
   Any layout of a printed tree, within the length limit, parses to that very
   tree, exactly when the nesting limit allows it.
   */
  lemma {:induction false} RoundTripLayout(e: Expr, lead: string, gaps: seq<string>)
    requires WellFormed(e) && Blank(lead) && Separated(Print(e, 0), gaps)
    requires |lead + Layout(Print(e, 0), gaps)| <= MAX_SOURCE
    ensures Parse(lead + Layout(Print(e, 0), gaps)) == Accepted(e)
  {
    var ts := Print(e, 0);
    LexLayout(ts, gaps, lead, 0);
    ParseLexed(lead + Layout(ts, gaps), ts, e);
  }

  lemma ParseLexed(src: string, ts: seq<Tok>, e: Expr)
    requires |src| <= MAX_SOURCE && ts == Print(e, 0) && LexesTo(LexAll(src, 0), ts)
    ensures Parse(src) == Accepted(e)
  {
    TokensBack(e, LexAll(src, 0).value);
  }

  /** The compact text of a tree parses to that tree. */
  lemma {:induction false} RoundTrip(e: Expr)
    requires WellFormed(e) && |TextOf(e)| <= MAX_SOURCE
    ensures Parse(TextOf(e)) == Accepted(e)
  {
    PrintTight(e, 0);
    var gaps := NoGaps(|Print(e, 0)|);
    assert "" + Layout(Print(e, 0), gaps) == TextOf(e);
    RoundTripLayout(e, "", gaps);
  }
}
