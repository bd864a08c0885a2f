/**
 The precedence parser of the Android screens' expression language
 (admin-ui/public/android-expr.js, `parse`).

 The functions say what each of the nested parsers of `parse` makes of a token
 list, a cursor and a nesting depth; the class runs them the way the source
 does, with one cursor and one depth counter, and is proved to agree.

 Precedence levels: 0 the conditional, 1 ||, 2 &&, 3 equality, 4 comparison,
 5 sums, 6 products, 7 unary operators, 8 member access.
 */
module ExprParser {
  import opened Text
  import opened ExprLexer

  const MAX_SOURCE := 400
  const MAX_DEPTH := 40

  datatype Literal = LNum(text: string) | LStr(s: string) | LBool(b: bool) | LNull

  datatype UnOp = Not | Neg

  datatype BinOp = Equal | Differ | Less | Greater | AtMost | AtLeast | Add | Sub | Mul | Div | Mod

  datatype Expr =
    | Lit(v: Literal)
    | VarRef(name: string)
    | Tr(trKey: string)
    | Get(obj: Expr, key: Expr)
    | Un(unOp: UnOp, a: Expr)
    | And(l: Expr, r: Expr)
    | Or(l: Expr, r: Expr)
    | Bin(binOp: BinOp, l: Expr, r: Expr)
    | If(c: Expr, thn: Expr, els: Expr)

  /** What an infix operator token joins its operands to. */
  datatype Infix = Either | Both | Binary(op: BinOp)

  datatype Parsed = Tree(e: Expr, next: nat) | Bad(error: ExprError)

  /** The level of an infix operator; 0 for the other symbols. */
  function SymLevel(o: Sym): nat {
    match o
    case OrOr => 1
    case AndAnd => 2
    case EqEq => 3 case EqEqEq => 3 case NotEq => 3 case NotEqEq => 3
    case Lt => 4 case Gt => 4 case Le => 4 case Ge => 4
    case Plus => 5 case Minus => 5
    case Star => 6 case Slash => 6 case Percent => 6
    case _ => 0
  }

  function SymInfix(o: Sym): Infix
    requires SymLevel(o) > 0
  {
    match o
    case OrOr => Either
    case AndAnd => Both
    case EqEq => Binary(Equal) case EqEqEq => Binary(Equal)
    case NotEq => Binary(Differ) case NotEqEq => Binary(Differ)
    case Lt => Binary(Less) case Gt => Binary(Greater) case Le => Binary(AtMost) case Ge => Binary(AtLeast)
    case Plus => Binary(Add) case Minus => Binary(Sub)
    case Star => Binary(Mul) case Slash => Binary(Div) case Percent => Binary(Mod)
  }

  /** The infix operators of a level. */
  function InfixAt(k: nat, t: Tok): Option<Infix> {
    if t.Op? && k > 0 && SymLevel(t.sym) == k then Some(SymInfix(t.sym)) else None
  }

  function Make(i: Infix, a: Expr, b: Expr): Expr {
    match i case Either => Or(a, b) case Both => And(a, b) case Binary(op) => Bin(op, a, b)
  }

  function UnaryOp(t: Tok): Option<UnOp> {
    if t == Op(Bang) then Some(Not) else if t == Op(Minus) then Some(Neg) else None
  }

  /** A token list as the lexer makes it: it ends with the end token. */
  predicate Stream(t: seq<Token>) { |t| > 0 && t[|t| - 1].tok == End }

  // ---------------------------------------------------------------- what each parser returns

  function ParseExpr(t: seq<Token>, p: nat, d: nat): (r: Parsed)
    requires Stream(t) && p < |t|
    ensures r.Tree? ==> p < r.next < |t|
    decreases |t| - p, 12
  {
    if d + 1 > MAX_DEPTH then Bad(TooDeep) else ParseTernary(t, p, d + 1)
  }

  function ParseTernary(t: seq<Token>, p: nat, d: nat): (r: Parsed)
    requires Stream(t) && p < |t|
    ensures r.Tree? ==> p < r.next < |t|
    decreases |t| - p, 11
  {
    match ParseLevel(1, t, p, d)
    case Bad(e) => Bad(e)
    case Tree(c, q) =>
      if t[q].tok != Op(Question) then Tree(c, q)
      else
        match ParseExpr(t, q + 1, d)
        case Bad(e) => Bad(e)
        case Tree(a, m) =>
          if t[m].tok != Op(Colon) then Bad(Expected(Colon, t[m].at))
          else
            match ParseExpr(t, m + 1, d)
            case Bad(e) => Bad(e)
            case Tree(b, n) => Tree(If(c, a, b), n)
  }

  /** The parsers `or`, `and`, `eq`, `rel`, `add` and `mul` (levels 1 to 6), then `unary` (7). */
  function ParseLevel(k: nat, t: seq<Token>, p: nat, d: nat): (r: Parsed)
    requires 1 <= k <= 7 && Stream(t) && p < |t|
    ensures r.Tree? ==> p < r.next < |t|
    decreases |t| - p, 10 - k
  {
    if k == 7 then ParseUnary(t, p, d)
    else
      match ParseLevel(k + 1, t, p, d)
      case Bad(e) => Bad(e)
      case Tree(a, q) => LevelLoop(k, t, q, d, a)
  }

  function LevelLoop(k: nat, t: seq<Token>, p: nat, d: nat, a: Expr): (r: Parsed)
    requires 1 <= k <= 6 && Stream(t) && p < |t|
    ensures r.Tree? ==> p <= r.next < |t|
    decreases |t| - p, 0
  {
    match InfixAt(k, t[p].tok)
    case None => Tree(a, p)
    case Some(i) =>
      match ParseLevel(k + 1, t, p + 1, d)
      case Bad(e) => Bad(e)
      case Tree(b, q) => LevelLoop(k, t, q, d, Make(i, a, b))
  }

  function ParseUnary(t: seq<Token>, p: nat, d: nat): (r: Parsed)
    requires Stream(t) && p < |t|
    ensures r.Tree? ==> p < r.next < |t|
    decreases |t| - p, 2
  {
    match UnaryOp(t[p].tok)
    case None => ParsePostfix(t, p, d)
    case Some(op) =>
      match ParseUnary(t, p + 1, d)
      case Bad(e) => Bad(e)
      case Tree(a, q) => Tree(Un(op, a), q)
  }

  function ParsePostfix(t: seq<Token>, p: nat, d: nat): (r: Parsed)
    requires Stream(t) && p < |t|
    ensures r.Tree? ==> p < r.next < |t|
    decreases |t| - p, 1
  {
    match ParsePrimary(t, p, d)
    case Bad(e) => Bad(e)
    case Tree(n, q) => PostfixLoop(t, q, d, n)
  }

  function PostfixLoop(t: seq<Token>, p: nat, d: nat, n: Expr): (r: Parsed)
    requires Stream(t) && p < |t|
    ensures r.Tree? ==> p <= r.next < |t|
    decreases |t| - p, 0
  {
    if t[p].tok == Op(Dot) then
      var id := t[p + 1];
      if !id.tok.Id? then Bad(NameExpected(id.at))
      else PostfixLoop(t, p + 2, d, Get(n, Lit(LStr(id.tok.id))))
    else if t[p].tok == Op(LBrack) then
      match ParseExpr(t, p + 1, d)
      case Bad(e) => Bad(e)
      case Tree(key, q) =>
        if t[q].tok != Op(RBrack) then Bad(Expected(RBrack, t[q].at))
        else PostfixLoop(t, q + 1, d, Get(n, key))
    else Tree(n, p)
  }

  function ParsePrimary(t: seq<Token>, p: nat, d: nat): (r: Parsed)
    requires Stream(t) && p < |t|
    ensures r.Tree? ==> p < r.next < |t|
    decreases |t| - p, 0
  {
    match t[p].tok
    case Num(text) => Tree(Lit(LNum(text)), p + 1)
    case Str(s) => Tree(Lit(LStr(s)), p + 1)
    case Var(name) => Tree(VarRef(name), p + 1)
    case Id(id) =>
      if id == "true" then Tree(Lit(LBool(true)), p + 1)
      else if id == "false" then Tree(Lit(LBool(false)), p + 1)
      else if id == "null" then Tree(Lit(LNull), p + 1)
      else if id == "_" && t[p + 1].tok == Op(LParen) then ParseTranslation(t, p + 2)
      else Bad(UnknownName(id, t[p].at))
    case Op(o) =>
      if o == LParen then
        match ParseExpr(t, p + 1, d)
        case Bad(e) => Bad(e)
        case Tree(n, q) => if t[q].tok == Op(RParen) then Tree(n, q + 1) else Bad(Expected(RParen, t[q].at))
      else Bad(Unexpected(t[p].tok, t[p].at))
    case End => Bad(UnexpectedEnd)
  }

  /** After `_(`: a quoted key and the closing parenthesis. */
  function ParseTranslation(t: seq<Token>, p: nat): (r: Parsed)
    requires Stream(t) && p < |t|
    ensures r.Tree? ==> p < r.next < |t|
  {
    if !t[p].tok.Str? then Bad(KeyExpected(t[p].at))
    else if t[p + 1].tok != Op(RParen) then Bad(Expected(RParen, t[p + 1].at))
    else Tree(Tr(t[p].tok.s), p + 2)
  }

  /** The whole parse of a token list: an expression and then the end. */
  function ParseAll(t: seq<Token>): Result<Expr, ExprError>
    requires Stream(t)
  {
    match ParseExpr(t, 0, 0)
    case Bad(e) => Err(e)
    case Tree(e, p) => if t[p].tok == End then Ok(e) else Err(Unexpected(t[p].tok, t[p].at))
  }

  /** `parse` without its memo table. */
  function Parse(src: string): Result<Expr, ExprError> {
    if |src| > MAX_SOURCE then Err(TooLong)
    else
      LexMakes(src, 0);
      match LexAll(src, 0)
      case Err(e) => Err(e)
      case Ok(t) => ParseAll(t)
  }

  // ---------------------------------------------------------------- the cursor

  /** The nested functions of `parse` share a cursor and a depth counter. */
  class Cursor {
    const t: seq<Token>
    var p: nat
    var depth: nat

    ghost predicate Valid()
      reads this
    {
      Stream(t) && p < |t|
    }

    constructor (tokens: seq<Token>)
      requires Stream(tokens)
      ensures Valid() && t == tokens && p == 0 && depth == 0
    {
      t, p, depth := tokens, 0, 0;
    }

    /** A result and the cursor after it are what a parser returns. */
    ghost predicate Reached(r: Result<Expr, ExprError>, was: Parsed, d: nat)
      reads this
    {
      match was
      case Bad(e) => r == Err(e)
      case Tree(e, q) => r == Ok(e) && Valid() && p == q && depth == d
    }

    method Expression() returns (r: Result<Expr, ExprError>)
      requires Valid()
      modifies this
      ensures Reached(r, ParseExpr(t, old(p), old(depth)), old(depth))
      decreases |t| - p, 12
    {
      depth := depth + 1;
      if depth > MAX_DEPTH {
        return Err(TooDeep);
      }
      r := Conditional();
      if r.Ok? {
        depth := depth - 1;
      }
    }

    method Conditional() returns (r: Result<Expr, ExprError>)
      requires Valid()
      modifies this
      ensures Reached(r, ParseTernary(t, old(p), old(depth)), old(depth))
      decreases |t| - p, 11
    {
      var c := Infixes(1);
      if c.Err? || t[p].tok != Op(Question) {
        return c;
      }
      p := p + 1;
      var a := Expression();
      if a.Err? {
        return a;
      }
      if t[p].tok != Op(Colon) {
        return Err(Expected(Colon, t[p].at));
      }
      p := p + 1;
      var b := Expression();
      if b.Err? {
        return b;
      }
      return Ok(If(c.value, a.value, b.value));
    }

    method Infixes(k: nat) returns (r: Result<Expr, ExprError>)
      requires Valid() && 1 <= k <= 7
      modifies this
      ensures Reached(r, ParseLevel(k, t, old(p), old(depth)), old(depth))
      decreases |t| - p, 10 - k
    {
      if k == 7 {
        r := Unary();
        return;
      }
      ghost var all := ParseLevel(k, t, p, depth);
      r := Infixes(k + 1);
      while r.Ok? && InfixAt(k, t[p].tok).Some?
        invariant r.Ok? ==>
            Valid() && depth == old(depth) && old(p) < p && all == LevelLoop(k, t, p, depth, r.value)
        invariant r.Err? ==> all == Bad(r.error)
        decreases r.Ok?, |t| - p
      {
        var i, a := InfixAt(k, t[p].tok).value, r.value;
        p := p + 1;
        var b := Infixes(k + 1);
        r := if b.Err? then b else Ok(Make(i, a, b.value));
      }
    }

    method Unary() returns (r: Result<Expr, ExprError>)
      requires Valid()
      modifies this
      ensures Reached(r, ParseUnary(t, old(p), old(depth)), old(depth))
      decreases |t| - p, 2
    {
      var op := UnaryOp(t[p].tok);
      if op.None? {
        r := Postfix();
        return;
      }
      p := p + 1;
      var a := Unary();
      if a.Err? {
        return a;
      }
      return Ok(Un(op.value, a.value));
    }

    method Postfix() returns (r: Result<Expr, ExprError>)
      requires Valid()
      modifies this
      ensures Reached(r, ParsePostfix(t, old(p), old(depth)), old(depth))
      decreases |t| - p, 1
    {
      ghost var all := ParsePostfix(t, p, depth);
      r := Primary();
      while r.Ok? && (t[p].tok == Op(Dot) || t[p].tok == Op(LBrack))
        invariant r.Ok? ==>
            Valid() && depth == old(depth) && old(p) < p && all == PostfixLoop(t, p, depth, r.value)
        invariant r.Err? ==> all == Bad(r.error)
        decreases r.Ok?, |t| - p
      {
        var n := r.value;
        if t[p].tok == Op(Dot) {
          p := p + 1;
          var id := t[p];
          if !id.tok.Id? {
            r := Err(NameExpected(id.at));
          } else {
            p := p + 1;
            r := Ok(Get(n, Lit(LStr(id.tok.id))));
          }
        } else {
          p := p + 1;
          var key := Expression();
          if key.Err? {
            r := key;
          } else if t[p].tok != Op(RBrack) {
            r := Err(Expected(RBrack, t[p].at));
          } else {
            p := p + 1;
            r := Ok(Get(n, key.value));
          }
        }
      }
    }

    method Primary() returns (r: Result<Expr, ExprError>)
      requires Valid()
      modifies this
      ensures Reached(r, ParsePrimary(t, old(p), old(depth)), old(depth))
      decreases |t| - p, 0
    {
      var k := t[p];
      match k.tok {
        case Num(text) =>
          p := p + 1;
          return Ok(Lit(LNum(text)));
        case Str(s) =>
          p := p + 1;
          return Ok(Lit(LStr(s)));
        case Var(name) =>
          p := p + 1;
          return Ok(VarRef(name));
        case Id(id) =>
          p := p + 1;
          if id == "true" {
            return Ok(Lit(LBool(true)));
          } else if id == "false" {
            return Ok(Lit(LBool(false)));
          } else if id == "null" {
            return Ok(Lit(LNull));
          } else if id == "_" && t[p].tok == Op(LParen) {
            p := p + 1;
            r := Translation();
          } else {
            return Err(UnknownName(id, k.at));
          }
        case Op(o) =>
          if o != LParen {
            return Err(Unexpected(k.tok, k.at));
          }
          p := p + 1;
          r := Expression();
          if r.Ok? {
            if t[p].tok != Op(RParen) {
              return Err(Expected(RParen, t[p].at));
            }
            p := p + 1;
          }
        case End =>
          return Err(UnexpectedEnd);
      }
    }

    method Translation() returns (r: Result<Expr, ExprError>)
      requires Valid()
      modifies this
      ensures Reached(r, ParseTranslation(t, old(p)), old(depth))
    {
      var key := t[p];
      if !key.tok.Str? {
        return Err(KeyExpected(key.at));
      }
      p := p + 1;
      if t[p].tok != Op(RParen) {
        return Err(Expected(RParen, t[p].at));
      }
      p := p + 1;
      return Ok(Tr(key.tok.s));
    }
  }

  /** `parse` as the source runs it, without the memo table. */
  method RunParse(src: string) returns (r: Result<Expr, ExprError>)
    ensures r == Parse(src)
  {
    if |src| > MAX_SOURCE {
      return Err(TooLong);
    }
    var t := Lex(src);
    if t.Err? {
      return Err(t.error);
    }
    LexMakes(src, 0);
    var cursor := new Cursor(t.value);
    r := cursor.Expression();
    if r.Ok? && cursor.t[cursor.p].tok != End {
      return Err(Unexpected(cursor.t[cursor.p].tok, cursor.t[cursor.p].at));
    }
  }
}
