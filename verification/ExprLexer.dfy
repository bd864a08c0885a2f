/**
 The lexer of the Android screens' expression language
 (admin-ui/public/android-expr.js, `lex`), and the spelling of tokens.

 `Scan` is one turn of the lexer's loop on the text that is left; `LexAll` is
 the whole loop. `Layout` spells a token list with any white space between the
 tokens, and `LexLayout` says that the lexer reads back exactly those tokens.
 */
module ExprLexer {
  import opened Text

  /** The operator tokens. */
  datatype Sym =
    | Bang | Plus | Minus | Star | Slash | Percent | Lt | Gt | Question | Colon
    | LParen | RParen | Dot | LBrack | RBrack | Comma
    | EqEq | NotEq | Le | Ge | AndAnd | OrOr | EqEqEq | NotEqEq

  /** A token's kind and value. A number keeps its text: `Number` is not modelled. */
  datatype Tok = Num(text: string) | Str(s: string) | Var(name: string) | Id(id: string) | Op(sym: Sym) | End

  datatype Token = Token(tok: Tok, at: nat)

  datatype ExprError =
    | TooLong
    | UnterminatedString(at: nat)
    | BadVariable(at: nat)
    | BadCharacter(c: char, at: nat)
    | Expected(sym: Sym, at: nat)
    | NameExpected(at: nat)
    | KeyExpected(at: nat)
    | UnknownName(name: string, at: nat)
    | UnexpectedEnd
    | Unexpected(tok: Tok, at: nat)
    | TooDeep

  // ---------------------------------------------------------------- character classes

  predicate IsBlank(c: char) { c == ' ' || c == '\t' || c == '\n' || c == '\r' }

  predicate IsNameStart(c: char) { IsAlpha(c) || c == '_' }

  predicate IsNameChar(c: char) { IsNameStart(c) || IsDigit(c) }

  predicate Blank(s: string) { forall c | c in s :: IsBlank(c) }

  predicate IsName(s: string) { s != "" && IsNameStart(s[0]) && forall c | c in s :: IsNameChar(c) }

  // ---------------------------------------------------------------- one turn of the loop

  /** How many digits the text starts with. */
  function DigitsLen(s: string): (n: nat)
    ensures n <= |s|
    ensures n < |s| ==> !IsDigit(s[n])
  {
    if s != "" && IsDigit(s[0]) then 1 + DigitsLen(s[1..]) else 0
  }

  /** How many name characters the text starts with. */
  function NameLen(s: string): (n: nat)
    ensures n <= |s|
  {
    if s != "" && IsNameChar(s[0]) then 1 + NameLen(s[1..]) else 0
  }

  /** A number starts with a digit, or with a point before a digit. */
  predicate StartsNumber(s: string) {
    s != "" && (IsDigit(s[0]) || (s[0] == '.' && |s| > 1 && IsDigit(s[1])))
  }

  predicate HasFraction(s: string) {
    var d := DigitsLen(s);
    d + 1 < |s| && s[d] == '.' && IsDigit(s[d + 1])
  }

  /** The end of the digits and of the fraction; a point counts only before a digit. */
  function MantissaLen(s: string): (n: nat)
    ensures n <= |s|
  {
    var d := DigitsLen(s);
    if HasFraction(s) then d + 1 + DigitsLen(s[d + 1..]) else d
  }

  /** Where the exponent's digits would start, after the mantissa of length m. */
  function ExponentStart(s: string, m: nat): nat
    requires m < |s|
  {
    if m + 1 < |s| && (s[m + 1] == '+' || s[m + 1] == '-') then m + 2 else m + 1
  }

  /** The end of an exponent after the mantissa of length m: m itself when there is none. */
  function ExponentEnd(s: string, m: nat): (n: nat)
    requires m <= |s|
    ensures m <= n <= |s|
  {
    if m < |s| && (s[m] == 'e' || s[m] == 'E') then
      var k := ExponentStart(s, m);
      if k < |s| && IsDigit(s[k]) then k + DigitsLen(s[k..]) else m
    else m
  }

  /** What the pattern [0-9]*\.?[0-9]+(?:[eE][+-]?[0-9]+)? matches at the start. */
  function NumberLen(s: string): (n: nat)
    requires StartsNumber(s)
    ensures 1 <= n <= |s|
  {
    ExponentEnd(s, MantissaLen(s))
  }

  /** The characters of a quoted string from here to its closing quote, and where that quote is. */
  function StringBody(s: string, q: char): (r: Option<(string, nat)>)
    ensures r.Some? ==> r.value.1 < |s| && s[r.value.1] == q
    decreases |s|
  {
    if s == "" then None
    else if s[0] == q then Some(("", 0))
    else
      var skip := if s[0] == '\\' && |s| > 1 then 1 else 0;
      match StringBody(s[skip + 1..], q)
      case None => None
      case Some((t, j)) => Some(([s[skip]] + t, skip + 1 + j))
  }

  function LongSym(s: string): (r: Option<(Sym, nat)>)
    ensures r.Some? ==> 1 < r.value.1 <= |s|
  {
    var c1 := if |s| > 1 then s[1] else ' ';
    var c2 := if |s| > 2 then s[2] else ' ';
    if s == "" then None
    else if s[0] == '=' && c1 == '=' then Some(if c2 == '=' then (EqEqEq, 3) else (EqEq, 2))
    else if s[0] == '!' && c1 == '=' then Some(if c2 == '=' then (NotEqEq, 3) else (NotEq, 2))
    else if s[0] == '<' && c1 == '=' then Some((Le, 2))
    else if s[0] == '>' && c1 == '=' then Some((Ge, 2))
    else if s[0] == '&' && c1 == '&' then Some((AndAnd, 2))
    else if s[0] == '|' && c1 == '|' then Some((OrOr, 2))
    else None
  }

  function ShortSym(c: char): Option<Sym> {
    match c
    case '!' => Some(Bang) case '+' => Some(Plus) case '-' => Some(Minus) case '*' => Some(Star)
    case '/' => Some(Slash) case '%' => Some(Percent) case '<' => Some(Lt) case '>' => Some(Gt)
    case '?' => Some(Question) case ':' => Some(Colon) case '(' => Some(LParen) case ')' => Some(RParen)
    case '.' => Some(Dot) case '[' => Some(LBrack) case ']' => Some(RBrack) case ',' => Some(Comma)
    case _ => None
  }

  /** One turn of the loop: skip a blank, emit a token that takes n characters, or stop. */
  datatype Scanned = Skip | Emit(tok: Tok, n: nat) | Fail(error: ExprError)

  function Scan(s: string, at: nat): (r: Scanned)
    requires s != ""
    ensures r.Emit? ==> 1 <= r.n <= |s|
  {
    var c := s[0];
    if IsBlank(c) then Skip
    else if StartsNumber(s) then
      Emit(Num(s[..NumberLen(s)]), NumberLen(s))
    else if c == '\'' || c == '"' then
      match StringBody(s[1..], c)
      case None => Fail(UnterminatedString(at))
      case Some((t, j)) => Emit(Str(t), j + 2)
    else if c == '$' then
      if |s| > 1 && IsNameStart(s[1]) then
        var n := NameLen(s[1..]);
        Emit(Var(s[1..][..n]), n + 1)
      else Fail(BadVariable(at))
    else if IsNameStart(c) then
      var n := NameLen(s);
      Emit(Id(s[..n]), n)
    else
      match LongSym(s)
      case Some((o, n)) => Emit(Op(o), n)
      case None =>
        match ShortSym(c)
        case Some(o) => Emit(Op(o), 1)
        case None => Fail(BadCharacter(c, at))
  }

  /** The loop, on the text that is left; `at` is the offset in the whole source. */
  function LexAll(s: string, at: nat): (r: Result<seq<Token>, ExprError>)
    decreases |s|
  {
    if s == "" then Ok([Token(End, at)])
    else
      match Scan(s, at)
      case Skip => LexAll(s[1..], at + 1)
      case Fail(e) => Err(e)
      case Emit(tok, n) =>
        Before([Token(tok, at)], LexAll(s[n..], at + n))
  }

  /** Tokens read so far, put before what the rest of the text gives. */
  function Before(out: seq<Token>, r: Result<seq<Token>, ExprError>): Result<seq<Token>, ExprError> {
    match r case Ok(ts) => Ok(out + ts) case Err(e) => Err(e)
  }

  /** The tokens read before i, and what the text from i on gives. */
  function Left(out: seq<Token>, src: string, i: nat): Result<seq<Token>, ExprError>
    requires i <= |src|
  {
    Before(out, LexAll(src[i..], i))
  }

  lemma SkipTurn(out: seq<Token>, src: string, i: nat)
    requires i < |src| && Scan(src[i..], i).Skip?
    ensures Left(out, src, i) == Left(out, src, i + 1)
  {
    assert src[i..][1..] == src[i + 1..];
  }

  lemma FailTurn(out: seq<Token>, src: string, i: nat, e: ExprError)
    requires i < |src| && Scan(src[i..], i) == Fail(e)
    ensures Left(out, src, i) == Err(e)
  {}

  /** One turn of the loop moves a token from the text to the list. */
  lemma EmitTurn(out: seq<Token>, src: string, i: nat, tok: Tok, n: nat)
    requires i < |src| && Scan(src[i..], i) == Emit(tok, n)
    ensures Left(out, src, i) == Left(out + [Token(tok, i)], src, i + n)
  {
    var more := LexAll(src[i + n..], i + n);
    assert src[i..][n..] == src[i + n..];
    LexEmit(src[i..], i, tok, n, src[i + n..]);
    if more.Ok? {
      Associative(out, [Token(tok, i)], more.value);
    }
  }

  lemma TurnsStart(src: string)
    ensures Left([], src, 0) == LexAll(src, 0)
  {
    var all := LexAll(src, 0);
    assert src[0..] == src;
    assert all.Ok? ==> [] + all.value == all.value;
  }

  /** The lexer's loop itself: a cursor and a growing token list. */
  method Lex(src: string) returns (r: Result<seq<Token>, ExprError>)
    ensures r == LexAll(src, 0)
  {
    var out: seq<Token> := [];
    var i := 0;
    ghost var all := Left(out, src, 0);
    while i < |src|
      invariant i <= |src| && all == Left(out, src, i)
      decreases |src| - i
    {
      var step := Scan(src[i..], i);
      if step.Fail? {
        FailTurn(out, src, i, step.error);
        TurnsStart(src);
        return Err(step.error);
      }
      if step.Emit? {
        EmitTurn(out, src, i, step.tok, step.n);
        out := out + [Token(step.tok, i)];
        i := i + step.n;
      } else {
        SkipTurn(out, src, i);
        i := i + 1;
      }
    }
    TurnsStart(src);
    TurnsEnd(out, src);
    return Ok(out + [Token(End, |src|)]);
  }

  lemma TurnsEnd(out: seq<Token>, src: string)
    ensures Left(out, src, |src|) == Ok(out + [Token(End, |src|)])
  {
    assert src[|src|..] == "";
  }

  /** Tokens the source can hold, and the end token after them. */
  predicate Made(r: Result<seq<Token>, ExprError>) {
    r.Ok? ==>
      && |r.value| > 0 && r.value[|r.value| - 1].tok == End
      && forall i | 0 <= i < |r.value| - 1 :: WellSpelled(r.value[i].tok)
  }

  lemma OneMoreMade(t: Token, r: Result<seq<Token>, ExprError>)
    requires WellSpelled(t.tok) && Made(r)
    ensures Made(Before([t], r))
  {}

  /** The lexer only makes tokens the source can hold, and ends them with the end token. */
  lemma {:induction false} LexMakes(s: string, at: nat)
    ensures Made(LexAll(s, at))
    decreases |s|
  {
    if s != "" {
      match Scan(s, at)
      case Skip => LexMakes(s[1..], at + 1);
      case Fail(e) =>
      case Emit(tok, n) =>
        ScanMakes(s, at);
        LexMakes(s[n..], at + n);
        OneMoreMade(Token(tok, at), LexAll(s[n..], at + n));
        LexEmit(s, at, tok, n, s[n..]);
    }
  }

  lemma ScanMakes(s: string, at: nat)
    requires s != "" && Scan(s, at).Emit?
    ensures WellSpelled(Scan(s, at).tok)
  {
    if StartsNumber(s) {
      NumberPrefix(s);
    } else {
      NamePrefix(s);
      NamePrefix(s[1..]);
    }
  }

  lemma {:induction false} NamePrefix(s: string)
    ensures forall c | c in s[..NameLen(s)] :: IsNameChar(c)
  {
    if s != "" && IsNameChar(s[0]) {
      NamePrefix(s[1..]);
      assert s[..NameLen(s)] == [s[0]] + s[1..][..NameLen(s[1..])];
    }
  }

  // ---------------------------------------------------------------- spelling

  /** The characters of an operator. */
  function SymText(o: Sym): (s: string)
    ensures s != ""
  {
    match o
    case Bang => "!" case Plus => "+" case Minus => "-" case Star => "*" case Slash => "/" case Percent => "%"
    case Lt => "<" case Gt => ">" case Question => "?" case Colon => ":" case LParen => "(" case RParen => ")"
    case Dot => "." case LBrack => "[" case RBrack => "]" case Comma => ","
    case EqEq => "==" case NotEq => "!=" case Le => "<=" case Ge => ">=" case AndAnd => "&&" case OrOr => "||"
    case EqEqEq => "===" case NotEqEq => "!=="
  }

  /** A string's characters with the quote and the backslash escaped. */
  function Escaped(s: string): string {
    if s == "" then ""
    else (if s[0] == '\'' || s[0] == '\\' then ['\\', s[0]] else [s[0]]) + Escaped(s[1..])
  }

  function Spell(t: Tok): string {
    match t
    case Num(text) => text
    case Str(s) => "'" + Escaped(s) + "'"
    case Var(name) => "$" + name
    case Id(id) => id
    case Op(o) => SymText(o)
    case End => ""
  }

  /** A token the source text can hold. */
  predicate WellSpelled(t: Tok) {
    match t
    case Num(text) => IsNumber(text)
    case Var(name) => IsName(name)
    case Id(id) => IsName(id)
    case End => false
    case _ => true
  }

  predicate IsNumber(text: string) { StartsNumber(text) && NumberLen(text) == |text| }

  predicate StartsWithEq(o: Sym) { o == EqEq || o == EqEqEq }

  /** Two tokens that must not touch: together they would read as something else. */
  predicate Glue(a: Tok, b: Tok) {
    match a
    case Num(_) => b.Num? || b.Id?
    case Var(_) => b.Num? || b.Id?
    case Id(_) => b.Num? || b.Id?
    case Op(o) =>
      || (o == Dot && b.Num?)
      || ((o == Bang || o == Lt || o == Gt || o == EqEq || o == NotEq) && b.Op? && StartsWithEq(b.sym))
    case _ => false
  }

  /** The tokens with a gap of white space after each one. */
  function Layout(toks: seq<Tok>, gaps: seq<string>): string
    requires |gaps| == |toks|
  {
    if toks == [] then "" else Spell(toks[0]) + gaps[0] + Layout(toks[1..], gaps[1..])
  }

  /** Gaps are blank, and there is one wherever two tokens would run together. */
  predicate Separated(toks: seq<Tok>, gaps: seq<string>) {
    && |gaps| == |toks|
    && (forall t | t in toks :: WellSpelled(t))
    && (forall g | g in gaps :: Blank(g))
    && (forall i | 0 <= i < |toks| - 1 :: Glue(toks[i], toks[i + 1]) ==> gaps[i] != "")
  }

  function Toks(ts: seq<Token>): seq<Tok> { seq(|ts|, i requires 0 <= i < |ts| => ts[i].tok) }

  /** The lexer's result is this token list and the end token. */
  predicate LexesTo(r: Result<seq<Token>, ExprError>, toks: seq<Tok>) {
    r.Ok? && Toks(r.value) == toks + [End]
  }

  lemma LexesToMore(t: Token, r: Result<seq<Token>, ExprError>, toks: seq<Tok>)
    requires LexesTo(r, toks)
    ensures LexesTo(Before([t], r), [t.tok] + toks)
  {
    assert Toks([t] + r.value) == [t.tok] + Toks(r.value);
    assert [t.tok] + (toks + [End]) == ([t.tok] + toks) + [End];
  }

  /** A token at the front, when what follows stops it and lexes well. */
  lemma LexFront(t: Tok, after: string, at: nat, toks: seq<Tok>)
    requires WellSpelled(t) && Stops(t, after) && LexesTo(LexAll(after, at + |Spell(t)|), toks)
    ensures LexesTo(LexAll(Spell(t) + after, at), [t] + toks)
  {
    LexToken(t, after, at);
    LexesToMore(Token(t, at), LexAll(after, at + |Spell(t)|), toks);
  }

  /** Main result: any layout of a token list lexes to that list and the end token. */
  lemma {:induction false} LexLayout(toks: seq<Tok>, gaps: seq<string>, lead: string, at: nat)
    requires Separated(toks, gaps) && Blank(lead)
    ensures LexesTo(LexAll(lead + Layout(toks, gaps), at), toks)
    decreases |toks|, |lead|
  {
    if lead != "" {
      assert lead[0] in lead;
      LexLayout(toks, gaps, lead[1..], at + 1);
      LexBlank(lead, Layout(toks, gaps), at);
    } else if toks == [] {
      assert lead + Layout(toks, gaps) == "";
    } else {
      var t, rest := toks[0], Layout(toks[1..], gaps[1..]);
      Associative(Spell(t), gaps[0], rest);
      assert lead + Layout(toks, gaps) == Layout(toks, gaps);
      TailStops(toks, gaps);
      SeparatedRest(toks, gaps);
      LexLayout(toks[1..], gaps[1..], gaps[0], at + |Spell(t)|);
      LexFront(t, gaps[0] + rest, at, toks[1..]);
      assert toks == [t] + toks[1..];
    }
  }

  lemma SeparatedRest(toks: seq<Tok>, gaps: seq<string>)
    requires Separated(toks, gaps) && toks != []
    ensures Separated(toks[1..], gaps[1..]) && WellSpelled(toks[0]) && Blank(gaps[0])
  {
    assert toks[0] in toks && gaps[0] in gaps;
  }

  lemma LexBlank(lead: string, rest: string, at: nat)
    requires lead != "" && IsBlank(lead[0])
    ensures LexAll(lead + rest, at) == LexAll(lead[1..] + rest, at + 1)
  {
    assert (lead + rest)[1..] == lead[1..] + rest;
  }

  /** The lexer takes a spelled token off the front. */
  lemma {:induction false} LexToken(t: Tok, rest: string, at: nat)
    requires WellSpelled(t) && Stops(t, rest)
    ensures LexAll(Spell(t) + rest, at) == Before([Token(t, at)], LexAll(rest, at + |Spell(t)|))
  {
    ScanToken(t, rest, at);
    FirstCharacter(t);
    assert (Spell(t) + rest)[|Spell(t)|..] == rest;
    LexEmit(Spell(t) + rest, at, t, |Spell(t)|, rest);
  }

  lemma LexEmit(s: string, at: nat, t: Tok, n: nat, rest: string)
    requires s != "" && Scan(s, at) == Emit(t, n) && s[n..] == rest
    ensures LexAll(s, at) == Before([Token(t, at)], LexAll(rest, at + n))
  {}

  /** What may follow a token so that the lexer ends the token there. */
  predicate Stops(t: Tok, rest: string) {
    rest == "" ||
    match t
    case Num(_) => !IsNameChar(rest[0]) && (rest[0] == '.' ==> |rest| == 1 || !IsDigit(rest[1]))
    case Var(_) => !IsNameChar(rest[0])
    case Id(_) => !IsNameChar(rest[0])
    case Op(o) =>
      && (o == Dot ==> !IsDigit(rest[0]))
      && (o == Bang || o == Lt || o == Gt || o == EqEq || o == NotEq ==> rest[0] != '=')
    case _ => true
  }

  lemma BlankStops(t: Tok, gap: string, rest: string)
    requires gap != "" && Blank(gap)
    ensures Stops(t, gap + rest)
  {
    assert gap[0] in gap && (gap + rest)[0] == gap[0];
  }

  /** Two tokens that may touch: the first stops where the second begins. */
  lemma TouchStops(a: Tok, b: Tok, next: string)
    requires WellSpelled(a) && WellSpelled(b) && !Glue(a, b) && (b == Op(Dot) ==> Stops(b, next))
    ensures Stops(a, Spell(b) + next)
  {
    var rest := Spell(b) + next;
    FirstCharacter(b);
    assert rest[0] == Spell(b)[0];
    if b == Op(Dot) && next != "" {
      assert rest[1] == next[0];
    }
  }

  /** In a separated layout every token is stopped by what follows it. */
  lemma {:induction false} TailStops(toks: seq<Tok>, gaps: seq<string>)
    requires Separated(toks, gaps) && toks != []
    ensures Stops(toks[0], gaps[0] + Layout(toks[1..], gaps[1..]))
  {
    var rest := Layout(toks[1..], gaps[1..]);
    if gaps[0] != "" {
      assert gaps[0] in gaps;
      BlankStops(toks[0], gaps[0], rest);
    } else if |toks| > 1 {
      assert gaps[0] + rest == rest;
      TailStops(toks[1..], gaps[1..]);
      TouchStops(toks[0], toks[1], gaps[1] + Layout(toks[1..][1..], gaps[1..][1..]));
      Associative(Spell(toks[1]), gaps[1], Layout(toks[1..][1..], gaps[1..][1..]));
    } else {
      assert gaps[0] + rest == "";
    }
  }

  /** The first character of a spelled token tells its kind. */
  lemma FirstCharacter(t: Tok)
    requires WellSpelled(t)
    ensures Spell(t) != ""
    ensures var c := Spell(t)[0];
            && (IsNameChar(c) ==> t.Num? || t.Id?)
            && (c == '.' ==> t.Num? || t == Op(Dot))
            && (c == '=' ==> t.Op? && StartsWithEq(t.sym))
  {}

  /** A spelled token is scanned back whole. */
  lemma {:induction false} ScanToken(t: Tok, rest: string, at: nat)
    requires WellSpelled(t) && Stops(t, rest)
    ensures Scan(Spell(t) + rest, at) == Emit(t, |Spell(t)|)
  {
    var s := Spell(t) + rest;
    match t
    case Num(text) => NumberBack(text, rest, at);
    case Str(x) => StrBack(x, rest, at);
    case Var(name) => VarBack(name, rest, at);
    case Id(id) => IdBack(id, rest, at);
    case Op(o) => SymBack(o, rest, at);
  }

  lemma NumberBack(text: string, rest: string, at: nat)
    requires IsNumber(text) && Stops(Num(text), rest)
    ensures Scan(text + rest, at) == Emit(Num(text), |text|)
  {
    NumberStops(text, rest);
    assert (text + rest)[0] == text[0] && (text + rest)[..|text|] == text;
  }

  lemma StrBack(x: string, rest: string, at: nat)
    ensures Scan(Spell(Str(x)) + rest, at) == Emit(Str(x), |Spell(Str(x))|)
  {
    StringBack(x, rest);
    QuotedScan(Escaped(x), x, rest, at);
  }

  lemma QuotedScan(body: string, x: string, rest: string, at: nat)
    requires StringBody(body + "'" + rest, '\'') == Some((x, |body|))
    ensures Scan("'" + body + "'" + rest, at) == Emit(Str(x), |body| + 2)
  {
    var s := "'" + body + "'" + rest;
    assert s[0] == '\'' && s[1..] == body + "'" + rest;
  }

  lemma VarBack(name: string, rest: string, at: nat)
    requires IsName(name) && Stops(Var(name), rest)
    ensures Scan(Spell(Var(name)) + rest, at) == Emit(Var(name), |name| + 1)
  {
    var s := Spell(Var(name)) + rest;
    NameStops(name, rest);
    assert s[0] == '$' && s[1] == name[0];
    assert s[1..] == name + rest;
    assert s[1..][..|name|] == name;
  }

  lemma IdBack(id: string, rest: string, at: nat)
    requires IsName(id) && Stops(Id(id), rest)
    ensures Scan(id + rest, at) == Emit(Id(id), |id|)
  {
    NameStops(id, rest);
    assert (id + rest)[0] == id[0] && (id + rest)[..|id|] == id;
  }

  lemma SymBack(o: Sym, rest: string, at: nat)
    requires Stops(Op(o), rest)
    ensures Scan(SymText(o) + rest, at) == Emit(Op(o), |SymText(o)|)
  {
    var s := SymText(o) + rest;
    assert rest != "" ==> s[|SymText(o)|] == rest[0];
    if |SymText(o)| == 1 {
      ShortBack(o, s, at);
    } else {
      LongBack(o, s, at);
    }
  }

  lemma ShortBack(o: Sym, s: string, at: nat)
    requires |SymText(o)| == 1 && s != "" && s[0] == SymText(o)[0]
    requires |s| > 1 ==> (o == Dot ==> !IsDigit(s[1]))
    requires |s| > 1 ==> (o == Bang || o == Lt || o == Gt ==> s[1] != '=')
    ensures Scan(s, at) == Emit(Op(o), 1)
  {
    assert ShortSym(s[0]) == Some(o);
    assert LongSym(s) == None;
  }

  lemma LongBack(o: Sym, s: string, at: nat)
    requires 1 < |SymText(o)| <= |s| && s[0] == SymText(o)[0] && s[1] == SymText(o)[1]
    requires |SymText(o)| > 2 ==> s[2] == SymText(o)[2]
    requires |s| > 2 ==> (o == EqEq || o == NotEq ==> s[2] != '=')
    ensures Scan(s, at) == Emit(Op(o), |SymText(o)|)
  {
    assert LongSym(s) == Some((o, |SymText(o)|));
  }

  lemma {:induction false} NameStops(name: string, rest: string)
    requires forall c | c in name :: IsNameChar(c)
    requires rest == "" || !IsNameChar(rest[0])
    ensures NameLen(name + rest) == |name|
  {
    if name == "" {
      assert name + rest == rest;
    } else {
      assert (name + rest)[1..] == name[1..] + rest;
      NameStops(name[1..], rest);
    }
  }

  lemma {:induction false} DigitsStop(s: string, rest: string)
    requires rest == "" || !IsDigit(rest[0]) || DigitsLen(s) < |s|
    ensures DigitsLen(s + rest) == DigitsLen(s)
  {
    if s == "" {
      assert s + rest == rest;
    } else {
      assert (s + rest)[1..] == s[1..] + rest;
      if IsDigit(s[0]) {
        DigitsStop(s[1..], rest);
      }
    }
  }

  /** Two characters at a place of a text, with more text after it. */
  lemma SameAt(text: string, rest: string, d: nat)
    ensures d < |text| ==> (text + rest)[d] == text[d]
    ensures d + 1 < |text| ==> (text + rest)[d + 1] == text[d + 1]
    ensures d == |text| && rest != "" ==> (text + rest)[d] == rest[0]
    ensures d == |text| && |rest| > 1 ==> (text + rest)[d + 1] == rest[1]
  {}

  lemma DigitsStopAs(f: string, rest: string, g: string)
    requires g == f + rest && (rest == "" || !IsDigit(rest[0]) || DigitsLen(f) < |f|)
    ensures DigitsLen(g) == DigitsLen(f)
  {
    DigitsStop(f, rest);
  }

  lemma MantissaIs(u: string, d: nat, g: string)
    requires DigitsLen(u) == d && d + 1 < |u| && u[d] == '.' && IsDigit(u[d + 1]) && g == u[d + 1..]
    ensures MantissaLen(u) == d + 1 + DigitsLen(g)
  {}

  lemma SameMantissa(text: string, s: string, d: nat, f: string, g: string)
    requires d == DigitsLen(text) == DigitsLen(s) && HasFraction(text) && |s| >= |text|
    requires s[d] == text[d] && s[d + 1] == text[d + 1] && f == text[d + 1..] && g == s[d + 1..]
    requires DigitsLen(g) == DigitsLen(f)
    ensures MantissaLen(s) == MantissaLen(text)
  {
    MantissaIs(text, d, f);
    MantissaIs(s, d, g);
  }

  lemma SliceAppend(a: string, b: string, k: nat)
    requires k <= |a|
    ensures (a + b)[k..] == a[k..] + b
  {}

  lemma {:induction false} MantissaStops(text: string, rest: string)
    requires IsNumber(text) && Stops(Num(text), rest)
    ensures MantissaLen(text + rest) == MantissaLen(text)
  {
    var d := DigitsLen(text);
    DigitsStop(text, rest);
    SameAt(text, rest, d);
    if HasFraction(text) {
      SliceAppend(text, rest, d + 1);
      DigitsStopAs(text[d + 1..], rest, (text + rest)[d + 1..]);
      SameMantissa(text, text + rest, d, text[d + 1..], (text + rest)[d + 1..]);
    }
  }

  lemma {:induction false} ExponentStops(text: string, rest: string, m: nat)
    requires m <= |text| && ExponentEnd(text, m) == |text|
    requires rest == "" || !IsNameChar(rest[0])
    ensures ExponentEnd(text + rest, m) == |text|
  {
    var s := text + rest;
    if m < |text| {
      var k := ExponentStart(text, m);
      assert k < |text| && s[m] == text[m] && s[m + 1] == text[m + 1] && s[k] == text[k];
      assert s[k..] == text[k..] + rest;
      DigitsStop(text[k..], rest);
    } else {
      assert rest != "" ==> s[m] == rest[0];
    }
  }

  lemma {:induction false} NumberStops(text: string, rest: string)
    requires IsNumber(text) && Stops(Num(text), rest)
    ensures StartsNumber(text + rest) && NumberLen(text + rest) == |text|
  {
    assert (text + rest)[0] == text[0] && (|text| > 1 ==> (text + rest)[1] == text[1]);
    MantissaStops(text, rest);
    ExponentStops(text, rest, MantissaLen(text));
  }

  lemma DigitsPrefixAs(f: string, n: nat, g: string)
    requires DigitsLen(f) <= n <= |f| && g == f[..n]
    ensures DigitsLen(g) == DigitsLen(f)
  {
    DigitsPrefix(f, n);
  }

  lemma FractionPrefix(s: string, n: nat, d: nat)
    requires d == DigitsLen(s) && HasFraction(s) && MantissaLen(s) <= n <= |s|
    ensures MantissaLen(s[..n]) == MantissaLen(s)
  {
    var f := s[d + 1..];
    MantissaIs(s, d, f);
    assert f[0] == s[d + 1];
    FirstDigit(f);
    FractionIn(s, n, d, s[..n], f, s[..n][d + 1..]);
  }

  lemma FirstDigit(f: string)
    requires f != "" && IsDigit(f[0])
    ensures DigitsLen(f) > 0
  {}

  /** The part of a text that holds its whole fraction has the same fraction. */
  lemma FractionIn(s: string, n: nat, d: nat, u: string, f: string, g: string)
    requires d == DigitsLen(s) && HasFraction(s) && d + 1 + DigitsLen(f) <= n <= |s| && DigitsLen(f) > 0
    requires u == s[..n] && f == s[d + 1..] && g == u[d + 1..]
    ensures MantissaLen(u) == d + 1 + DigitsLen(f)
  {
    DigitsPrefixAs(s, n, u);
    assert g == f[..n - (d + 1)];
    DigitsPrefixAs(f, n - (d + 1), g);
    assert u[d] == s[d] && u[d + 1] == s[d + 1];
    MantissaIs(u, d, g);
  }

  lemma {:induction false} MantissaPrefix(s: string, n: nat)
    requires MantissaLen(s) <= n <= |s|
    requires n == MantissaLen(s) || (s[MantissaLen(s)] == 'e' || s[MantissaLen(s)] == 'E')
    ensures MantissaLen(s[..n]) == MantissaLen(s)
  {
    var d := DigitsLen(s);
    if HasFraction(s) {
      FractionPrefix(s, n, d);
    } else {
      DigitsPrefix(s, n);
    }
  }

  lemma {:induction false} ExponentPrefix(s: string, m: nat)
    requires m <= |s|
    ensures ExponentEnd(s[..ExponentEnd(s, m)], m) == ExponentEnd(s, m)
  {
    var n := ExponentEnd(s, m);
    var text := s[..n];
    if m < n {
      var k := ExponentStart(s, m);
      assert k < n && text[m] == s[m] && text[m + 1] == s[m + 1] && text[k] == s[k];
      DigitsPrefix(s[k..], n - k);
      assert s[k..][..n - k] == text[k..];
    }
  }

  /** A number read from a text is a number by itself. */
  lemma {:induction false} NumberPrefix(s: string)
    requires StartsNumber(s)
    ensures IsNumber(s[..NumberLen(s)])
  {
    var n := NumberLen(s);
    MantissaPrefix(s, n);
    assert !IsDigit(s[0]) ==> HasFraction(s);
    assert StartsNumber(s[..n]);
    ExponentPrefix(s, MantissaLen(s));
  }

  lemma {:induction false} DigitsPrefix(s: string, n: nat)
    requires DigitsLen(s) <= n <= |s|
    ensures DigitsLen(s[..n]) == DigitsLen(s)
  {
    if s != "" && IsDigit(s[0]) {
      assert s[..n][1..] == s[1..][..n - 1];
      DigitsPrefix(s[1..], n - 1);
    }
  }

  lemma EscapeStep(c: char, tail: string, x: string, n: nat)
    requires (c == '\'' || c == '\\') && StringBody(tail, '\'') == Some((x, n))
    ensures StringBody(['\\', c] + tail, '\'') == Some(([c] + x, n + 2))
  {
    assert (['\\', c] + tail)[2..] == tail;
  }

  lemma CharStep(c: char, tail: string, x: string, n: nat)
    requires c != '\'' && c != '\\' && StringBody(tail, '\'') == Some((x, n))
    ensures StringBody([c] + tail, '\'') == Some(([c] + x, n + 1))
  {
    assert ([c] + tail)[1..] == tail;
  }

  lemma QuotedParts(first: string, more: string, rest: string)
    ensures first + more + "'" + rest == first + (more + "'" + rest)
  {}

  lemma EscapedStep(x: string, tail: string, n: nat)
    requires x != "" && StringBody(tail, '\'') == Some((x[1..], n))
    ensures StringBody((if x[0] == '\'' || x[0] == '\\' then ['\\', x[0]] else [x[0]]) + tail, '\'') ==
            Some((x, n + if x[0] == '\'' || x[0] == '\\' then 2 else 1))
  {
    assert [x[0]] + x[1..] == x;
    if x[0] == '\'' || x[0] == '\\' {
      EscapeStep(x[0], tail, x[1..], n);
    } else {
      CharStep(x[0], tail, x[1..], n);
    }
  }

  lemma {:induction false} StringBack(x: string, rest: string)
    ensures StringBody(Escaped(x) + "'" + rest, '\'') == Some((x, |Escaped(x)|))
  {
    if x == "" {
      assert Escaped(x) + "'" + rest == "'" + rest;
    } else {
      var first := if x[0] == '\'' || x[0] == '\\' then ['\\', x[0]] else [x[0]];
      var more := Escaped(x[1..]);
      StringBack(x[1..], rest);
      EscapedStep(x, more + "'" + rest, |more|);
      QuotedParts(first, more, rest);
    }
  }

  // ---------------------------------------------------------------- numerals

  /** The parts of a number: its digits, a fraction, an exponent with its letter and sign. */
  datatype Numeral = Numeral(whole: string, fraction: Option<string>, exponent: Option<Exponent>)

  datatype Exponent = Exponent(e: char, sign: string, digits: string)

  predicate Digits(s: string) { forall c | c in s :: IsDigit(c) }

  predicate GoodExponent(x: Exponent) {
    && (x.e == 'e' || x.e == 'E')
    && (x.sign == "" || x.sign == "+" || x.sign == "-")
    && x.digits != "" && Digits(x.digits)
  }

  predicate GoodNumeral(n: Numeral) {
    && Digits(n.whole)
    && (n.fraction.Some? ==> n.fraction.value != "" && Digits(n.fraction.value))
    && (n.whole == "" ==> n.fraction.Some?)
    && (n.exponent.Some? ==> GoodExponent(n.exponent.value))
  }

  function FractionText(f: Option<string>): string { if f.Some? then "." + f.value else "" }

  function ExponentText(x: Option<Exponent>): string {
    if x.Some? then [x.value.e] + x.value.sign + x.value.digits else ""
  }

  function NumeralText(n: Numeral): string { n.whole + FractionText(n.fraction) + ExponentText(n.exponent) }

  lemma {:induction false} DigitsTaken(s: string, w: string, r: string)
    requires Digits(w) && s == w + r
    ensures DigitsLen(s) >= |w|
    ensures r == "" || !IsDigit(r[0]) ==> DigitsLen(s) == |w|
    decreases |w|
  {
    if w == "" {
      assert s == r;
    } else {
      assert s[1..] == w[1..] + r;
      DigitsTaken(s[1..], w[1..], r);
    }
  }

  lemma MantissaTaken(s: string, w: string, f: Option<string>, r: string)
    requires Digits(w) && (f.Some? ==> f.value != "" && Digits(f.value)) && s == w + FractionText(f) + r
    ensures MantissaLen(s) >= |w + FractionText(f)|
    ensures r != "" && (r[0] == 'e' || r[0] == 'E') ==> MantissaLen(s) == |w + FractionText(f)|
  {
    if f.Some? {
      assert s == w + ("." + (f.value + r));
      FractionTaken(s, w, f.value, f.value + r, r);
    } else {
      assert s == w + r;
      DigitsTaken(s, w, r);
    }
  }

  lemma FractionTaken(s: string, w: string, f: string, g: string, r: string)
    requires Digits(w) && f != "" && Digits(f) && g == f + r && s == w + ("." + g)
    ensures MantissaLen(s) >= |w| + 1 + |f|
    ensures r == "" || !IsDigit(r[0]) ==> MantissaLen(s) == |w| + 1 + |f|
  {
    DigitsTaken(s, w, "." + g);
    assert s[|w| + 1..] == g;
    assert g[0] == f[0] && f[0] in f;
    DigitsTaken(g, f, r);
  }

  lemma ExponentTaken(s: string, head: string, x: Exponent, r: string)
    requires GoodExponent(x) && s == head + ExponentText(Some(x)) + r
    ensures ExponentEnd(s, |head|) >= |head + ExponentText(Some(x))|
  {
    var m, k := |head|, |head| + 1 + |x.sign|;
    var tail := x.digits + r;
    assert s == head + ([x.e] + x.sign) + tail;
    assert s[k..] == tail;
    assert s[k] == x.digits[0] && x.digits[0] in x.digits;
    DigitsTaken(s[k..], x.digits, r);
    SignTaken(s, head, x.e, x.sign, tail);
  }

  lemma SignTaken(s: string, head: string, e: char, sign: string, tail: string)
    requires s == head + ([e] + sign) + tail && tail != "" && IsDigit(tail[0])
    requires sign == "" || sign == "+" || sign == "-"
    ensures s[|head|] == e && ExponentStart(s, |head|) == |head| + 1 + |sign|
  {
    assert s[|head| + 1] == if sign == "" then tail[0] else sign[0];
  }

  /** A text that begins with a numeral begins with a number at least as long. */
  lemma NumeralTaken(s: string, n: Numeral, r: string)
    requires GoodNumeral(n) && s == NumeralText(n) + r
    ensures StartsNumber(s) && NumberLen(s) >= |NumeralText(n)|
  {
    var head, tail := n.whole + FractionText(n.fraction), ExponentText(n.exponent);
    assert s == n.whole + FractionText(n.fraction) + (tail + r);
    assert n.whole != "" ==> s[0] == n.whole[0] && n.whole[0] in n.whole;
    assert n.whole == "" ==> s[0] == '.' && s[1] == n.fraction.value[0] && n.fraction.value[0] in n.fraction.value;
    MantissaTaken(s, n.whole, n.fraction, tail + r);
    if n.exponent.Some? {
      assert (tail + r)[0] == n.exponent.value.e;
      ExponentTaken(s, head, n.exponent.value, r);
    }
  }

  lemma {:induction false} DigitsRun(s: string)
    ensures Digits(s[..DigitsLen(s)])
  {
    if s != "" && IsDigit(s[0]) {
      DigitsRun(s[1..]);
      assert s[..DigitsLen(s)] == [s[0]] + s[1..][..DigitsLen(s[1..])];
    }
  }

  lemma FractionRead(s: string, d: nat, m: nat) returns (f: Option<string>)
    requires d == DigitsLen(s) && m == MantissaLen(s)
    ensures d <= m <= |s| && s[d..m] == FractionText(f)
    ensures f.Some? ==> f.value != "" && Digits(f.value)
    ensures HasFraction(s) ==> f.Some?
  {
    f := None;
    if HasFraction(s) {
      f := PointRead(s, d, DigitsLen(s[d + 1..]), s[d + 1..]);
    }
  }

  lemma PointRead(s: string, d: nat, k: nat, more: string) returns (f: Option<string>)
    requires d + 1 < |s| && s[d] == '.' && more == s[d + 1..] && IsDigit(more[0]) && k == DigitsLen(more)
    ensures s[d..d + 1 + k] == FractionText(f)
    ensures f.Some? && f.value != "" && Digits(f.value)
  {
    DigitsRun(more);
    f := Some(more[..k]);
    assert s[d..d + 1 + k] == "." + more[..k];
  }

  lemma ExponentRead(s: string, m: nat) returns (x: Option<Exponent>)
    requires m <= |s|
    ensures s[m..ExponentEnd(s, m)] == ExponentText(x)
    ensures x.Some? ==> GoodExponent(x.value)
  {
    x := None;
    if ExponentEnd(s, m) != m {
      var k := ExponentStart(s, m);
      DigitsRun(s[k..]);
      x := Some(Exponent(s[m], s[m + 1..k], s[k..][..DigitsLen(s[k..])]));
    }
  }

  lemma NumeralRead(s: string) returns (n: Numeral)
    requires StartsNumber(s)
    ensures GoodNumeral(n) && NumeralText(n) == s[..NumberLen(s)]
  {
    var d, m := DigitsLen(s), MantissaLen(s);
    DigitsRun(s);
    var f := FractionRead(s, d, m);
    var x := ExponentRead(s, m);
    n := Numeral(s[..d], f, x);
    Cut(s, d, m);
    Cut(s, m, ExponentEnd(s, m));
  }

  lemma Cut(s: string, m: nat, n: nat)
    requires m <= n <= |s|
    ensures s[..n] == s[..m] + s[m..n]
  {}

  /**
   Main result about numbers: at a digit, or at a point before a digit, the lexer
   takes the longest numeral the text begins with.
   */
  lemma LongestNumeral(s: string)
    requires StartsNumber(s)
    ensures exists n :: GoodNumeral(n) && NumeralText(n) == s[..NumberLen(s)]
    ensures forall n | GoodNumeral(n) && NumeralText(n) <= s :: |NumeralText(n)| <= NumberLen(s)
  {
    var n := NumeralRead(s);
    assert GoodNumeral(n);
    forall n | GoodNumeral(n) && NumeralText(n) <= s ensures |NumeralText(n)| <= NumberLen(s) {
      NumeralTaken(s, n, s[|NumeralText(n)|..]);
    }
  }

  /** The texts that can be number tokens are the numerals. */
  lemma NumeralExactly(text: string)
    ensures IsNumber(text) <==> exists n :: GoodNumeral(n) && NumeralText(n) == text
  {
    if IsNumber(text) {
      var n := NumeralRead(text);
      assert GoodNumeral(n) && NumeralText(n) == text;
    }
    forall n | GoodNumeral(n) && NumeralText(n) == text ensures IsNumber(text) {
      NumeralTaken(text, n, "");
    }
  }
}
