/**
 What expressions and templates mean in a scope (admin-ui/public/android-expr.js,
 `evalNode`, `member`, `toText`, `applyFilter`, `render`). JavaScript's numbers
 and the formats of dates and sizes stay abstract.
 */
module ExprEval {
  import opened Text
  import opened ExprParser
  import opened ExprTemplate

  datatype Value<N> =
    | Undefined | Null
    | Bool(b: bool) | Number(n: N) | Str(s: string)
    | List(items: seq<Value<N>>) | Object(fields: map<string, Value<N>>)

  /** Where a number points in a list or text: past it, at a place, or between two places. */
  datatype Place = Out | At(k: nat) | Between

  /** JavaScript's numbers, as far as expressions use them, and its other conversions. */
  datatype Js<!N> = Js(
    literal: string -> N, length: nat -> N, zero: N, one: N, coerce: Value<N> -> N,
    isZero: N -> bool, isNaN: N -> bool, same: (N, N) -> bool, less: (N, N) -> bool, atMost: (N, N) -> bool,
    add: (N, N) -> N, sub: (N, N) -> N, mul: (N, N) -> N, div: (N, N) -> N, mod: (N, N) -> N, neg: N -> N,
    place: (N, nat) -> Place, text: N -> string, identical: (Value<N>, Value<N>) -> bool,
    upper: string -> string, lower: string -> string, cut: (string, Option<string>) -> string,
    format: (string, Value<N>) -> string)

  /** A place lies within the length. */
  ghost predicate Places<N(!new)>(js: Js<N>) {
    forall n: N, len: nat :: js.place(n, len).At? ==> js.place(n, len).k < len
  }

  type Scope<N> = map<string, Value<N>>

  predicate Truthy<N>(js: Js<N>, v: Value<N>) {
    match v
    case Undefined => false
    case Null => false
    case Bool(b) => b
    case Number(n) => !js.isZero(n) && !js.isNaN(n)
    case Str(s) => s != ""
    case _ => true
  }

  function ToNumber<N>(js: Js<N>, v: Value<N>): N {
    match v
    case Number(n) => n
    case Bool(b) => if b then js.one else js.zero
    case Null => js.zero
    case Undefined => js.zero
    case _ => js.coerce(v)
  }

  function Defined<N>(v: Value<N>): Value<N> { if v.Undefined? then Null else v }

  function Same<N>(js: Js<N>, a: Value<N>, b: Value<N>): bool {
    match (Defined(a), Defined(b))
    case (Null, Null) => true
    case (Bool(x), Bool(y)) => x == y
    case (Number(x), Number(y)) => js.same(x, y)
    case (Str(x), Str(y)) => x == y
    case (List(_), List(_)) => js.identical(a, b)
    case (Object(_), Object(_)) => js.identical(a, b)
    case _ => false
  }

  /** The number that a key is, as a number or in digits. */
  function IndexOf<N>(js: Js<N>, key: Value<N>): Option<N> {
    match key
    case Number(n) => Some(n)
    case Str(s) => if AllDigits(s) then Some(js.literal(s)) else None
    case _ => None
  }

  /** A member by name: a length, or a field of the object itself. */
  function Named<N>(js: Js<N>, obj: Value<N>, key: Value<N>): Value<N> {
    if !key.Str? then Null
    else if key.s == "length" && obj.List? then Number(js.length(|obj.items|))
    else if key.s == "length" && obj.Str? then Number(js.length(|obj.s|))
    else if obj.Object? && key.s in obj.fields then Defined(obj.fields[key.s])
    else Null
  }

  function Member<N(!new)>(js: Js<N>, obj: Value<N>, key: Value<N>): Value<N>
    requires Places(js)
  {
    if obj.Null? || obj.Undefined? then Null
    else
      match IndexOf(js, key)
      case None => Named(js, obj, key)
      case Some(n) =>
        if obj.List? then
          match js.place(n, |obj.items|) { case At(k) => Defined(obj.items[k]) case _ => Null }
        else if obj.Str? then
          match js.place(n, |obj.s|) { case At(k) => Str([obj.s[k]]) case Between => Undefined case Out => Null }
        else Named(js, obj, key)
  }

  function ToText<N>(js: Js<N>, v: Value<N>): string {
    match v
    case Undefined => ""
    case Null => ""
    case Number(n) => js.text(n)
    case Bool(b) => if b then "true" else "false"
    case Str(s) => s
    case List(items) => Join(seq(|items|, i requires 0 <= i < |items| => ToText(js, items[i])), ", ")
    case Object(_) => ""
  }

  function LiteralValue<N>(js: Js<N>, v: Literal): Value<N> {
    match v
    case LNum(text) => Number(js.literal(text))
    case LStr(s) => Str(s)
    case LBool(b) => Bool(b)
    case LNull => Null
  }

  function Look<N>(scope: Scope<N>, name: string): Value<N> { if name in scope then Defined(scope[name]) else Null }

  function Compared<N>(js: Js<N>, op: BinOp, a: Value<N>, b: Value<N>): bool {
    if a.Str? && b.Str? then
      match op
      case Less => Text.Less(a.s, b.s)
      case Greater => Text.Less(b.s, a.s)
      case AtMost => !Text.Less(b.s, a.s)
      case _ => !Text.Less(a.s, b.s)
    else
      var x, y := ToNumber(js, a), ToNumber(js, b);
      match op
      case Less => js.less(x, y)
      case Greater => js.less(y, x)
      case AtMost => js.atMost(x, y)
      case _ => js.atMost(y, x)
  }

  function Binary<N>(js: Js<N>, op: BinOp, a: Value<N>, b: Value<N>): Value<N> {
    var x, y := ToNumber(js, a), ToNumber(js, b);
    match op
    case Equal => Bool(Same(js, a, b))
    case Differ => Bool(!Same(js, a, b))
    case Add => if a.Str? || b.Str? then Str(ToText(js, a) + ToText(js, b)) else Number(js.add(x, y))
    case Sub => Number(js.sub(x, y))
    case Mul => Number(js.mul(x, y))
    case Div => if js.isZero(y) then Null else Number(js.div(x, y))
    case Mod => if js.isZero(y) then Null else Number(js.mod(x, y))
    case _ => Bool(Compared(js, op, a, b))
  }

  function Eval<N(!new)>(js: Js<N>, e: Expr, scope: Scope<N>, tr: string -> string): Value<N>
    requires Places(js)
  {
    match e
    case Lit(v) => LiteralValue(js, v)
    case VarRef(name) => Look(scope, name)
    case Get(obj, key) => Member(js, Eval(js, obj, scope, tr), Eval(js, key, scope, tr))
    case Tr(key) => Str(tr(key))
    case Un(op, a) =>
      var v := Eval(js, a, scope, tr);
      if op == Not then Bool(!Truthy(js, v)) else Number(js.neg(ToNumber(js, v)))
    case And(l, r) =>
      var v := Eval(js, l, scope, tr);
      if Truthy(js, v) then Eval(js, r, scope, tr) else v
    case Or(l, r) =>
      var v := Eval(js, l, scope, tr);
      if Truthy(js, v) then v else Eval(js, r, scope, tr)
    case If(c, t, f) => if Truthy(js, Eval(js, c, scope, tr)) then Eval(js, t, scope, tr) else Eval(js, f, scope, tr)
    case Bin(op, l, r) => Binary(js, op, Eval(js, l, scope, tr), Eval(js, r, scope, tr))
  }

  // ---------------------------------------------------------------- filters

  function Filtered<N>(js: Js<N>, v: Value<N>, f: Filter): Value<N> {
    if f.name == "upper" then Str(js.upper(ToText(js, v)))
    else if f.name == "lower" then Str(js.lower(ToText(js, v)))
    else if f.name == "trim" then Str(Trim(ToText(js, v)))
    else if f.name == "truncate" then Str(js.cut(ToText(js, v), f.arg))
    else if f.name == "default" then if Truthy(js, v) then v else Str(if f.arg.Some? then f.arg.value else "")
    else if f.name == "count" then
      Number(js.length(match v { case List(items) => |items| case Str(s) => |s| case _ => 0 }))
    else Str(js.format(f.name, v))
  }

  function FilteredAll<N>(js: Js<N>, v: Value<N>, fs: seq<Filter>): Value<N>
    decreases |fs|
  {
    if fs == [] then v else FilteredAll(js, Filtered(js, v, fs[0]), fs[1..])
  }

  /** A node that is no tree has no case of its own and is null. */
  function NodeValue<N(!new)>(js: Js<N>, n: Node, scope: Scope<N>, tr: string -> string): Value<N>
    requires Places(js)
  {
    match n case TreeNode(e) => Eval(js, e, scope, tr) case PartsNode(_) => Null
  }

  /** What a placeholder shows in a scope. */
  function Show<N(!new)>(js: Js<N>, scope: Scope<N>, tr: string -> string): (Node, seq<Filter>) -> string
    requires Places(js)
  {
    (n: Node, fs: seq<Filter>) => ToText(js, FilteredAll(js, NodeValue(js, n, scope, tr), fs))
  }

  // ---------------------------------------------------------------- rendering in a scope

  /** Main result: in every scope, two templates that parse render one after the other as each renders alone. */
  lemma RenderAppendIn<N(!new)>(js: Js<N>, a: string, b: string, scope: Scope<N>, tr: string -> string)
    requires Places(js) && ParseTemplate(a).Ok? && ParseTemplate(b).Ok?
    ensures var show := Show(js, scope, tr);
            && Render(a + b, show).Ok? && Render(a, show).Ok? && Render(b, show).Ok?
            && Render(a + b, show).value == Render(a, show).value + Render(b, show).value
  {
    RenderAppend(a, b, Show(js, scope, tr));
  }

  // ---------------------------------------------------------------- what a value depends on

  /** Two scopes and two translations say the same of everything that an expression names. */
  ghost predicate AgreeOn<N>(e: Expr, s: Scope<N>, t: Scope<N>, trS: string -> string, trT: string -> string) {
    match e
    case Lit(_) => true
    case VarRef(name) => Look(s, name) == Look(t, name)
    case Tr(key) => trS(key) == trT(key)
    case Get(obj, key) => AgreeOn(obj, s, t, trS, trT) && AgreeOn(key, s, t, trS, trT)
    case Un(_, a) => AgreeOn(a, s, t, trS, trT)
    case And(l, r) => AgreeOn(l, s, t, trS, trT) && AgreeOn(r, s, t, trS, trT)
    case Or(l, r) => AgreeOn(l, s, t, trS, trT) && AgreeOn(r, s, t, trS, trT)
    case Bin(_, l, r) => AgreeOn(l, s, t, trS, trT) && AgreeOn(r, s, t, trS, trT)
    case If(c, x, y) => AgreeOn(c, s, t, trS, trT) && AgreeOn(x, s, t, trS, trT) && AgreeOn(y, s, t, trS, trT)
  }

  /** Main result: an expression's value depends on the names and keys written in it, and on nothing else. */
  lemma {:induction false} EvalRelevant<N(!new)>(js: Js<N>, e: Expr, s: Scope<N>, t: Scope<N>, trS: string -> string,
                                          trT: string -> string)
    requires Places(js) && AgreeOn(e, s, t, trS, trT)
    ensures Eval(js, e, s, trS) == Eval(js, e, t, trT)
  {
    match e
    case Lit(_) =>
    case VarRef(_) =>
    case Tr(_) =>
    case Get(obj, key) =>
      EvalRelevant(js, obj, s, t, trS, trT);
      EvalRelevant(js, key, s, t, trS, trT);
    case Un(_, a) => EvalRelevant(js, a, s, t, trS, trT);
    case And(l, r) =>
      EvalRelevant(js, l, s, t, trS, trT);
      EvalRelevant(js, r, s, t, trS, trT);
    case Or(l, r) =>
      EvalRelevant(js, l, s, t, trS, trT);
      EvalRelevant(js, r, s, t, trS, trT);
    case Bin(_, l, r) =>
      EvalRelevant(js, l, s, t, trS, trT);
      EvalRelevant(js, r, s, t, trS, trT);
    case If(c, x, y) =>
      EvalRelevant(js, c, s, t, trS, trT);
      EvalRelevant(js, x, s, t, trS, trT);
      EvalRelevant(js, y, s, t, trS, trT);
  }

  // ---------------------------------------------------------------- values are defined

  /** The part of an expression whose value the expression returns, through `&&`, `||` and `?:`. */
  function Source<N(!new)>(js: Js<N>, e: Expr, scope: Scope<N>, tr: string -> string): Expr
    requires Places(js)
  {
    match e
    case And(l, r) => Source(js, if Truthy(js, Eval(js, l, scope, tr)) then r else l, scope, tr)
    case Or(l, r) => Source(js, if Truthy(js, Eval(js, l, scope, tr)) then l else r, scope, tr)
    case If(c, x, y) => Source(js, if Truthy(js, Eval(js, c, scope, tr)) then x else y, scope, tr)
    case _ => e
  }

  /** A key points between two characters of a text. */
  predicate PointsBetween<N>(js: Js<N>, obj: Value<N>, key: Value<N>) {
    obj.Str? && IndexOf(js, key).Some? && js.place(IndexOf(js, key).value, |obj.s|) == Between
  }

  /**
   Main result: an expression's value is undefined exactly when what it returns
   is the character of a text at a place between two characters.
   */
  lemma {:induction false} DefinedExactly<N(!new)>(js: Js<N>, e: Expr, scope: Scope<N>, tr: string -> string)
    requires Places(js)
    ensures Eval(js, e, scope, tr) == Eval(js, Source(js, e, scope, tr), scope, tr)
    ensures var from := Source(js, e, scope, tr);
            Eval(js, e, scope, tr).Undefined? <==>
            from.Get? && PointsBetween(js, Eval(js, from.obj, scope, tr), Eval(js, from.key, scope, tr))
  {
    match e
    case And(l, r) => DefinedExactly(js, if Truthy(js, Eval(js, l, scope, tr)) then r else l, scope, tr);
    case Or(l, r) => DefinedExactly(js, if Truthy(js, Eval(js, l, scope, tr)) then l else r, scope, tr);
    case If(c, x, y) => DefinedExactly(js, if Truthy(js, Eval(js, c, scope, tr)) then x else y, scope, tr);
    case _ =>
  }

  /**
   An expression whose value, from its text alone, is never undefined: it returns
   no member but one named by a word. The left side of `||` returns only when it is truthy.
   */
  predicate Solid(e: Expr) {
    match e
    case Get(_, key) => key.Lit? && key.v.LStr? && !AllDigits(key.v.s)
    case And(l, r) => Solid(l) && Solid(r)
    case Or(_, r) => Solid(r)
    case If(_, x, y) => Solid(x) && Solid(y)
    case _ => true
  }

  lemma {:induction false} SolidDefined<N(!new)>(js: Js<N>, e: Expr, scope: Scope<N>, tr: string -> string)
    requires Places(js) && Solid(e)
    ensures !Eval(js, e, scope, tr).Undefined?
  {
    match e
    case And(l, r) =>
      SolidDefined(js, l, scope, tr);
      SolidDefined(js, r, scope, tr);
    case Or(_, r) => SolidDefined(js, r, scope, tr);
    case If(_, x, y) =>
      SolidDefined(js, x, scope, tr);
      SolidDefined(js, y, scope, tr);
    case _ =>
  }

  /** An expression that takes one variable as an index into another. */
  const INDEXED := Expr.Get(VarRef("text"), VarRef("at"))

  /** It is undefined for just the indices that point between two characters. */
  lemma BetweenUndefined<N(!new)>(js: Js<N>, n: N, text: string, tr: string -> string)
    requires Places(js)
    ensures Eval(js, INDEXED, map["text" := Str(text), "at" := Number(n)], tr).Undefined? <==>
            js.place(n, |text|) == Between
  {}
}
