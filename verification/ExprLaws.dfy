/**
 What the operators of expressions mean (admin-ui/public/android-expr.js:96-150),
 told without the evaluator's own tables: texts joined and compared, numbers as
 in mathematics, choices by the list of falsy values, and paths as steps
 through a value.
 */
module ExprLaws {
  import opened Text
  import opened ExprParser
  import opened ExprTemplate
  import opened ExprEval
  import ExprLexer
  import ExprPrinter

  // ---------------------------------------------------------------- joining texts

  /** The operands of a sum from left to right, however it is bracketed. */
  function Summands(e: Expr): (es: seq<Expr>)
    ensures es != []
  {
    match e
    case Bin(Add, l, r) => Summands(l) + Summands(r)
    case _ => [e]
  }

  /** The texts that expressions evaluate to. */
  function TextsOf<N(!new)>(js: Js<N>, es: seq<Expr>, scope: Scope<N>, tr: string -> string): seq<string>
    requires Places(js)
  {
    seq(|es|, i requires 0 <= i < |es| => ToText(js, Eval(js, es[i], scope, tr)))
  }

  ghost predicate AllTexts<N(!new)>(js: Js<N>, es: seq<Expr>, scope: Scope<N>, tr: string -> string)
    requires Places(js)
  {
    forall i | 0 <= i < |es| :: Eval(js, es[i], scope, tr).Str?
  }

  /** Main result: a sum of texts, of any length and in any brackets, is those texts in the order of the source. */
  lemma {:induction false} TextsJoined<N(!new)>(js: Js<N>, e: Expr, scope: Scope<N>, tr: string -> string)
    requires Places(js) && AllTexts(js, Summands(e), scope, tr)
    ensures Eval(js, e, scope, tr) == Str(Concat(TextsOf(js, Summands(e), scope, tr)))
  {
    if e.Bin? && e.binOp == Add {
      var a, b := Summands(e.l), Summands(e.r);
      PartsAreTexts(js, a, b, scope, tr);
      TextsJoined(js, e.l, scope, tr);
      TextsJoined(js, e.r, scope, tr);
      ConcatAppend(TextsOf(js, a, scope, tr), TextsOf(js, b, scope, tr));
    } else {
      assert Summands(e)[0] == e;
      ConcatOne(Eval(js, e, scope, tr).s);
      assert TextsOf(js, [e], scope, tr) == [Eval(js, e, scope, tr).s];
    }
  }

  lemma PartsAreTexts<N(!new)>(js: Js<N>, a: seq<Expr>, b: seq<Expr>, scope: Scope<N>, tr: string -> string)
    requires Places(js) && AllTexts(js, a + b, scope, tr)
    ensures AllTexts(js, a, scope, tr) && AllTexts(js, b, scope, tr)
    ensures TextsOf(js, a + b, scope, tr) == TextsOf(js, a, scope, tr) + TextsOf(js, b, scope, tr)
  {
    assert forall i | 0 <= i < |a| :: a[i] == (a + b)[i];
    assert forall i | 0 <= i < |b| :: b[i] == (a + b)[|a| + i];
  }

  lemma ConcatOne(s: string)
    ensures Concat([s]) == s
  {
    assert [s][1..] == [] && s + "" == s;
  }

  /** A sum from the left, of a first operand and more. */
  function Chain(first: Expr, more: seq<Expr>): Expr
    decreases |more|
  {
    if more == [] then first else Bin(Add, Chain(first, more[..|more| - 1]), more[|more| - 1])
  }

  /** Main result: a text to which anything is added, any number of times, is that text and the texts of all that. */
  lemma {:induction false} TextGrows<N(!new)>(js: Js<N>, first: Expr, more: seq<Expr>, scope: Scope<N>,
                                       tr: string -> string)
    requires Places(js) && Eval(js, first, scope, tr).Str?
    ensures Eval(js, Chain(first, more), scope, tr) ==
            Str(Eval(js, first, scope, tr).s + Concat(TextsOf(js, more, scope, tr)))
    decreases |more|
  {
    if more == [] {
      assert TextsOf(js, more, scope, tr) == [] && Concat([]) == "";
    } else {
      var front, x := more[..|more| - 1], more[|more| - 1];
      var a, t := Eval(js, first, scope, tr).s, ToText(js, Eval(js, x, scope, tr));
      TextGrows(js, first, front, scope, tr);
      TextAdded(js, Chain(first, front), x, scope, tr);
      assert TextsOf(js, more, scope, tr) == TextsOf(js, front, scope, tr) + [t];
      ConcatAppend(TextsOf(js, front, scope, tr), [t]);
      ConcatOne(t);
      Associative(a, Concat(TextsOf(js, front, scope, tr)), t);
    }
  }

  lemma TextAdded<N(!new)>(js: Js<N>, l: Expr, x: Expr, scope: Scope<N>, tr: string -> string)
    requires Places(js) && Eval(js, l, scope, tr).Str?
    ensures Eval(js, Bin(Add, l, x), scope, tr) == Str(Eval(js, l, scope, tr).s + ToText(js, Eval(js, x, scope, tr)))
  {}

  // ---------------------------------------------------------------- comparing texts

  /** One text comes before another: at the first place where they differ it has ended, or has the smaller character. */
  ghost predicate Precedes(a: string, b: string) {
    exists k: nat :: DiffersAt(a, b, k) && (k == |a| || a[k] < b[k])
  }

  /** The texts agree up to `k`, where the second goes on and the first ends or goes on differently. */
  predicate DiffersAt(a: string, b: string, k: nat) {
    k <= |a| && k < |b| && a[..k] == b[..k] && (k < |a| ==> a[k] != b[k])
  }

  lemma {:induction false} LessIsPrecedes(a: string, b: string)
    ensures Text.Less(a, b) <==> Precedes(a, b)
  {
    if a != "" && b != "" && a[0] == b[0] {
      LessIsPrecedes(a[1..], b[1..]);
      if k: nat :| DiffersAt(a, b, k) && (k == |a| || a[k] < b[k]) {
        assert k > 0;
        assert a[1..][..k - 1] == a[..k][1..] && b[1..][..k - 1] == b[..k][1..];
        assert DiffersAt(a[1..], b[1..], k - 1);
      }
      if k: nat :| DiffersAt(a[1..], b[1..], k) && (k == |a[1..]| || a[1..][k] < b[1..][k]) {
        assert a[..k + 1] == [a[0]] + a[1..][..k] && b[..k + 1] == [b[0]] + b[1..][..k];
        assert DiffersAt(a, b, k + 1);
      }
    } else {
      if b != "" && (a == "" || a[0] < b[0]) {
        assert DiffersAt(a, b, 0);
      }
      forall k: nat | DiffersAt(a, b, k) ensures k == 0 {
        FirstAgrees(a, b, k);
      }
    }
  }

  lemma FirstAgrees(a: string, b: string, k: nat)
    requires k <= |a| && k <= |b| && a[..k] == b[..k]
    ensures k > 0 ==> a[0] == b[0]
  {
    assert k > 0 ==> a[0] == a[..k][0] && b[0] == b[..k][0];
  }

  /** The comparison of two expressions is true. */
  predicate Holds<N(!new)>(js: Js<N>, op: BinOp, l: Expr, r: Expr, scope: Scope<N>, tr: string -> string)
    requires Places(js)
  {
    Eval(js, Bin(op, l, r), scope, tr) == Bool(true)
  }

  /**
   Main result: between two texts the operators are the order of their first
   difference; exactly one of <, == and > holds, and <=, >= and != are the
   opposites of >, < and ==.
   */
  lemma TextsCompared<N(!new)>(js: Js<N>, l: Expr, r: Expr, scope: Scope<N>, tr: string -> string)
    requires Places(js) && Eval(js, l, scope, tr).Str? && Eval(js, r, scope, tr).Str?
    ensures var a, b := Eval(js, l, scope, tr).s, Eval(js, r, scope, tr).s;
            && (Holds(js, Less, l, r, scope, tr) <==> Precedes(a, b))
            && (Holds(js, Greater, l, r, scope, tr) <==> Precedes(b, a))
            && (Holds(js, Equal, l, r, scope, tr) <==> a == b)
            && (Holds(js, AtMost, l, r, scope, tr) <==> !Holds(js, Greater, l, r, scope, tr))
            && (Holds(js, AtLeast, l, r, scope, tr) <==> !Holds(js, Less, l, r, scope, tr))
            && (Holds(js, Differ, l, r, scope, tr) <==> !Holds(js, Equal, l, r, scope, tr))
    ensures var lt, eq, gt := Holds(js, Less, l, r, scope, tr), Holds(js, Equal, l, r, scope, tr),
                              Holds(js, Greater, l, r, scope, tr);
            (lt || eq || gt) && !(lt && eq) && !(lt && gt) && !(eq && gt)
  {
    var a, b := Eval(js, l, scope, tr), Eval(js, r, scope, tr);
    LessIsPrecedes(a.s, b.s);
    LessIsPrecedes(b.s, a.s);
    LessTotal(a.s, b.s);
    CompareTexts(js, l, r, a.s, b.s, scope, tr);
  }

  lemma CompareTexts<N(!new)>(js: Js<N>, l: Expr, r: Expr, a: string, b: string, scope: Scope<N>,
                              tr: string -> string)
    requires Places(js) && Eval(js, l, scope, tr) == Str(a) && Eval(js, r, scope, tr) == Str(b)
    ensures Holds(js, Less, l, r, scope, tr) <==> Text.Less(a, b)
    ensures Holds(js, Greater, l, r, scope, tr) <==> Text.Less(b, a)
    ensures Holds(js, AtMost, l, r, scope, tr) <==> !Text.Less(b, a)
    ensures Holds(js, AtLeast, l, r, scope, tr) <==> !Text.Less(a, b)
    ensures Holds(js, Equal, l, r, scope, tr) <==> a == b
    ensures Holds(js, Differ, l, r, scope, tr) <==> a != b
  {
    TextOperators(js, a, b);
  }

  lemma TextOperators<N>(js: Js<N>, a: string, b: string)
    ensures ExprEval.Binary(js, Less, Str(a), Str(b)) == Bool(Text.Less(a, b))
    ensures ExprEval.Binary(js, Greater, Str(a), Str(b)) == Bool(Text.Less(b, a))
    ensures ExprEval.Binary(js, AtMost, Str(a), Str(b)) == Bool(!Text.Less(b, a))
    ensures ExprEval.Binary(js, AtLeast, Str(a), Str(b)) == Bool(!Text.Less(a, b))
    ensures ExprEval.Binary(js, Equal, Str(a), Str(b)) == Bool(a == b)
    ensures ExprEval.Binary(js, Differ, Str(a), Str(b)) == Bool(a != b)
  {}

  // ---------------------------------------------------------------- numbers

  function Times(q: int, y: real): real { q as real * y }

  /** The remainder that has the dividend's sign and is smaller than the divisor. */
  ghost predicate IsRemainder(x: real, y: real, r: real) {
    && (exists q: int :: x == Times(q, y) + r)
    && (if y > 0.0 then -y < r < y else y < r < -y)
    && (x >= 0.0 ==> r >= 0.0) && (x <= 0.0 ==> r <= 0.0)
  }

  /** Numbers that are the real numbers, so that nothing is rounded. */
  ghost predicate Exact(js: Js<real>) {
    && js.zero == 0.0 && js.one == 1.0
    && (forall x: real :: js.isZero(x) <==> x == 0.0) && (forall x: real :: !js.isNaN(x))
    && (forall x: real, y: real :: js.same(x, y) <==> x == y)
    && (forall x: real, y: real :: js.less(x, y) <==> x < y)
    && (forall x: real, y: real :: js.atMost(x, y) <==> x <= y)
    && (forall x: real, y: real :: js.add(x, y) == x + y) && (forall x: real, y: real :: js.sub(x, y) == x - y)
    && (forall x: real, y: real :: js.mul(x, y) == x * y) && (forall x: real :: js.neg(x) == -x)
    && (forall x: real, y: real :: y != 0.0 ==> js.div(x, y) == x / y)
    && (forall x: real, y: real :: y != 0.0 ==> IsRemainder(x, y, js.mod(x, y)))
  }

  /** What a computation comes to: a number, a truth value, or nothing after a division by zero. */
  datatype Quantity = Amount(x: real) | Truth(b: bool) | Nothing

  /** What a quantity is worth in a computation: a truth value one or zero, nothing zero. */
  function Worth(q: Quantity): real {
    match q
    case Amount(x) => x
    case Truth(b) => if b then 1.0 else 0.0
    case Nothing => 0.0
  }

  predicate IsNumeric(e: Expr) {
    match e
    case Lit(LNum(_)) => true
    case Un(Neg, a) => IsNumeric(a)
    case Bin(_, l, r) => IsNumeric(l) && IsNumeric(r)
    case _ => false
  }

  /** What an expression of numbers means, by the laws of arithmetic. */
  ghost predicate Means(number: string -> real, e: Expr, q: Quantity)
    requires IsNumeric(e)
  {
    match e
    case Lit(LNum(text)) => q == Amount(number(text))
    case Un(Neg, a) => exists v: Quantity :: Means(number, a, v) && q.Amount? && q.x + Worth(v) == 0.0
    case Bin(op, l, r) => exists v: Quantity, w: Quantity ::
        Means(number, l, v) && Means(number, r, w) && Combines(op, v, w, q)
  }

  ghost predicate Combines(op: BinOp, v: Quantity, w: Quantity, q: Quantity) {
    var x, y := Worth(v), Worth(w);
    match op
    case Add => q == Amount(x + y)
    case Sub => q.Amount? && q.x + y == x
    case Mul => q == Amount(x * y)
    case Div => if y == 0.0 then q == Nothing else q.Amount? && q.x * y == x
    case Mod => if y == 0.0 then q == Nothing else q.Amount? && IsRemainder(x, y, q.x)
    case Equal => q == Truth(v == w)
    case Differ => q == Truth(v != w)
    case Less => q == Truth(x < y)
    case Greater => q == Truth(x > y)
    case AtMost => q == Truth(!(x > y))
    case AtLeast => q == Truth(!(x < y))
  }

  function ValueOf(q: Quantity): Value<real> {
    match q
    case Amount(x) => Number(x)
    case Truth(b) => Bool(b)
    case Nothing => Null
  }

  /** Main result: an expression of numbers evaluates to what it means in mathematics, null where it divides by zero. */
  lemma {:induction false} NumbersEvaluate(js: Js<real>, e: Expr, scope: Scope<real>, tr: string -> string)
    returns (q: Quantity)
    requires Places(js) && Exact(js) && IsNumeric(e)
    ensures Means(js.literal, e, q) && Eval(js, e, scope, tr) == ValueOf(q)
  {
    match e
    case Lit(LNum(text)) => q := Amount(js.literal(text));
    case Un(Neg, a) =>
      var v := NumbersEvaluate(js, a, scope, tr);
      q := Amount(-Worth(v));
    case Bin(op, l, r) =>
      var v := NumbersEvaluate(js, l, scope, tr);
      var w := NumbersEvaluate(js, r, scope, tr);
      q := Combined(js, op, v, w);
      assert Combines(op, v, w, q);
  }

  lemma Combined(js: Js<real>, op: BinOp, v: Quantity, w: Quantity) returns (q: Quantity)
    requires Exact(js)
    ensures Combines(op, v, w, q) && ExprEval.Binary(js, op, ValueOf(v), ValueOf(w)) == ValueOf(q)
  {
    match op
    case Add => q := Computed(js, op, v, w);
    case Sub => q := Computed(js, op, v, w);
    case Mul => q := Computed(js, op, v, w);
    case Div => q := Divided(js, op, v, w);
    case Mod => q := Divided(js, op, v, w);
    case Equal => q := Matched(js, op, v, w);
    case Differ => q := Matched(js, op, v, w);
    case _ => q := Ordered(js, op, v, w);
  }

  lemma WorthIs(js: Js<real>, v: Quantity)
    requires Exact(js)
    ensures ToNumber(js, ValueOf(v)) == Worth(v) && !ValueOf(v).Str?
  {}

  lemma Computed(js: Js<real>, op: BinOp, v: Quantity, w: Quantity) returns (q: Quantity)
    requires Exact(js) && (op == Add || op == Sub || op == Mul)
    ensures Combines(op, v, w, q) && ExprEval.Binary(js, op, ValueOf(v), ValueOf(w)) == ValueOf(q)
  {
    var x, y := Worth(v), Worth(w);
    WorthIs(js, v);
    WorthIs(js, w);
    ComputedBy(js, op, ValueOf(v), ValueOf(w));
    q := Amount(if op == Add then js.add(x, y) else if op == Sub then js.sub(x, y) else js.mul(x, y));
  }

  lemma ComputedBy(js: Js<real>, op: BinOp, a: Value<real>, b: Value<real>)
    requires (op == Add || op == Sub || op == Mul) && !a.Str? && !b.Str?
    ensures var x, y := ToNumber(js, a), ToNumber(js, b);
            ExprEval.Binary(js, op, a, b) ==
            Number(if op == Add then js.add(x, y) else if op == Sub then js.sub(x, y) else js.mul(x, y))
  {}

  lemma Divided(js: Js<real>, op: BinOp, v: Quantity, w: Quantity) returns (q: Quantity)
    requires Exact(js) && (op == Div || op == Mod)
    ensures Combines(op, v, w, q) && ExprEval.Binary(js, op, ValueOf(v), ValueOf(w)) == ValueOf(q)
  {
    var x, y := Worth(v), Worth(w);
    WorthIs(js, v);
    WorthIs(js, w);
    q := if y == 0.0 then Nothing else Amount(if op == Div then x / y else js.mod(x, y));
  }

  lemma Matched(js: Js<real>, op: BinOp, v: Quantity, w: Quantity) returns (q: Quantity)
    requires Exact(js) && (op == Equal || op == Differ)
    ensures Combines(op, v, w, q) && ExprEval.Binary(js, op, ValueOf(v), ValueOf(w)) == ValueOf(q)
  {
    q := Truth(if op == Equal then v == w else v != w);
  }

  lemma Ordered(js: Js<real>, op: BinOp, v: Quantity, w: Quantity) returns (q: Quantity)
    requires Exact(js) && (op == Less || op == Greater || op == AtMost || op == AtLeast)
    ensures Combines(op, v, w, q) && ExprEval.Binary(js, op, ValueOf(v), ValueOf(w)) == ValueOf(q)
  {
    var x, y := Worth(v), Worth(w);
    WorthIs(js, v);
    WorthIs(js, w);
    q := Truth(if op == Less then x < y else if op == Greater then x > y else if op == AtMost then x <= y else x >= y);
  }

  /** A remainder is determined by what it promises. */
  lemma OneRemainder(x: real, y: real, r: real, s: real)
    requires y != 0.0 && IsRemainder(x, y, r) && IsRemainder(x, y, s)
    ensures r == s
  {
    var p: int :| x == Times(p, y) + r;
    var q: int :| x == Times(q, y) + s;
    var d := (p - q) as real;
    assert d == p as real - q as real && s - r == d * y;
    if p > q {
      assert d >= 1.0;
      Apart(d, y, s - r);
    } else if p < q {
      assert -d >= 1.0;
      Apart(-d, y, r - s);
    }
  }

  /** Two numbers on one side of zero that are less than |y| apart from it do not differ by a multiple of y. */
  lemma Apart(d: real, y: real, diff: real)
    requires d >= 1.0 && y != 0.0 && diff == d * y
    ensures if y > 0.0 then diff >= y else diff <= y
  {}

  /** An expression of numbers means one thing only. */
  lemma {:induction false} OneMeaning(number: string -> real, e: Expr, p: Quantity, q: Quantity)
    requires IsNumeric(e) && Means(number, e, p) && Means(number, e, q)
    ensures p == q
  {
    match e
    case Lit(LNum(_)) =>
    case Un(Neg, a) =>
      var v: Quantity :| Means(number, a, v) && p.Amount? && p.x + Worth(v) == 0.0;
      var u: Quantity :| Means(number, a, u) && q.Amount? && q.x + Worth(u) == 0.0;
      OneMeaning(number, a, v, u);
    case Bin(op, l, r) =>
      var v: Quantity, w: Quantity :| Means(number, l, v) && Means(number, r, w) && Combines(op, v, w, p);
      var t: Quantity, u: Quantity :| Means(number, l, t) && Means(number, r, u) && Combines(op, t, u, q);
      OneMeaning(number, l, v, t);
      OneMeaning(number, r, w, u);
      OneResult(op, v, w, p, q);
  }

  lemma OneResult(op: BinOp, v: Quantity, w: Quantity, p: Quantity, q: Quantity)
    requires Combines(op, v, w, p) && Combines(op, v, w, q)
    ensures p == q
  {
    var x, y := Worth(v), Worth(w);
    if y != 0.0 && op == Mod {
      OneRemainder(x, y, p.x, q.x);
    }
    if y != 0.0 && op == Div {
      OneQuotient(p.x, q.x, y);
    }
  }

  lemma OneQuotient(a: real, b: real, y: real)
    requires y != 0.0 && a * y == b * y
    ensures a == b
  {
    assert (a - b) * y == 0.0;
  }

  // ---------------------------------------------------------------- choices

  /** The falsy values, one by one. */
  ghost predicate Falsy<N>(js: Js<N>, v: Value<N>) {
    || v == Undefined || v == Null || v == Bool(false) || v == Str("")
    || (v.Number? && (js.isZero(v.n) || js.isNaN(v.n)))
  }

  /** Main result: choices, logical operators and `!` go by the falsy values. */
  lemma ChoicesByFalsy<N(!new)>(js: Js<N>, c: Expr, x: Expr, y: Expr, scope: Scope<N>, tr: string -> string)
    requires Places(js)
    ensures var falsy := Falsy(js, Eval(js, c, scope, tr));
            && Eval(js, If(c, x, y), scope, tr) == Eval(js, if falsy then y else x, scope, tr)
            && Eval(js, And(c, x), scope, tr) == Eval(js, if falsy then c else x, scope, tr)
            && Eval(js, Or(c, x), scope, tr) == Eval(js, if falsy then x else c, scope, tr)
            && Eval(js, Un(Not, c), scope, tr) == Bool(falsy)
  {}

  // ---------------------------------------------------------------- paths

  /** A step of a path: to a field by its name, or to a place by its number. */
  datatype Seg = Field(name: string) | Item(digits: string)

  /** The tree that a path parses to. */
  function PathTree(root: string, segs: seq<Seg>): Expr
    decreases |segs|
  {
    if segs == [] then VarRef(root)
    else
      var key := match segs[|segs| - 1] { case Field(name) => LStr(name) case Item(digits) => LNum(digits) };
      Expr.Get(PathTree(root, segs[..|segs| - 1]), Lit(key))
  }

  /** A step leads from one value to another: to a field of its own, an item, a character, or its length. */
  ghost predicate Leads<N>(js: Js<N>, a: Value<N>, seg: Seg, b: Value<N>) {
    match (a, seg)
    case (Object(fields), Field(name)) => name in fields && fields[name] == b
    case (List(items), Field(name)) => name == "length" && b == Number(js.length(|items|))
    case (Str(s), Field(name)) => name == "length" && b == Number(js.length(|s|))
    case (List(items), Item(digits)) =>
      (exists k | 0 <= k < |items| :: js.place(js.literal(digits), |items|) == At(k) && items[k] == b)
    case (Str(s), Item(digits)) =>
      (exists k | 0 <= k < |s| :: js.place(js.literal(digits), |s|) == At(k) && Str([s[k]]) == b)
    case _ => false
  }

  /** The steps lead through these values. */
  ghost predicate Trail<N>(js: Js<N>, segs: seq<Seg>, vs: seq<Value<N>>) {
    |vs| == |segs| + 1 && forall i | 0 <= i < |segs| :: Leads(js, vs[i], segs[i], vs[i + 1])
  }

  predicate GoodSegs(segs: seq<Seg>) {
    forall i | 0 <= i < |segs| :: segs[i].Field? ==> !AllDigits(segs[i].name)
  }

  /** Main result: a path evaluates to the value to which its steps lead from the variable's value. */
  lemma {:induction false} PathFollowed<N(!new)>(js: Js<N>, root: string, segs: seq<Seg>, vs: seq<Value<N>>,
                                                scope: Scope<N>, tr: string -> string)
    requires Places(js) && GoodSegs(segs) && Trail(js, segs, vs) && root in scope && scope[root] == vs[0]
    ensures Eval(js, PathTree(root, segs), scope, tr) == Defined(vs[|segs|])
    decreases |segs|
  {
    if segs != [] {
      var k := |segs| - 1;
      var front, us := segs[..k], vs[..k + 1];
      forall i | 0 <= i < k ensures Leads(js, us[i], front[i], us[i + 1]) {
        assert Leads(js, vs[i], segs[i], vs[i + 1]);
      }
      PathFollowed(js, root, front, us, scope, tr);
      OneStep(js, vs[k], segs[k], vs[k + 1]);
      assert Leads(js, vs[k], segs[k], vs[k + 1]);
    }
  }

  function KeyOf<N>(js: Js<N>, seg: Seg): Value<N> {
    match seg case Field(name) => Str(name) case Item(digits) => Number(js.literal(digits))
  }

  lemma OneStep<N(!new)>(js: Js<N>, a: Value<N>, seg: Seg, b: Value<N>)
    requires Places(js) && Leads(js, a, seg, b) && (seg.Field? ==> !AllDigits(seg.name))
    ensures Member(js, a, KeyOf(js, seg)) == Defined(b) && !a.Undefined?
  {}

  /** Main result: where no step leads on, and the number does not point between two places, the value is null. */
  lemma NoStep<N(!new)>(js: Js<N>, a: Value<N>, seg: Seg)
    requires Places(js) && (seg.Field? ==> !AllDigits(seg.name))
    requires forall b: Value<N> :: !Leads(js, a, seg, b)
    ensures Member(js, a, KeyOf(js, seg)) == if PointsBetween(js, a, KeyOf(js, seg)) then Undefined else Null
  {
    match (a, seg)
    case (Object(fields), Field(name)) => assert name in fields ==> Leads(js, a, seg, fields[name]);
    case (List(items), Field(name)) => assert name == "length" ==> Leads(js, a, seg, Number(js.length(|items|)));
    case (Str(s), Field(name)) => assert name == "length" ==> Leads(js, a, seg, Number(js.length(|s|)));
    case (List(items), Item(digits)) =>
      var p := js.place(js.literal(digits), |items|);
      assert p.At? ==> Leads(js, a, seg, items[p.k]);
    case (Str(s), Item(digits)) =>
      var p := js.place(js.literal(digits), |s|);
      assert p.At? ==> Leads(js, a, seg, Str([s[p.k]]));
    case _ =>
  }

  // ---------------------------------------------------------------- texts of values, and filters

  /** The text of a truth value, read as an expression, is that truth value. */
  lemma TruthText<N>(js: Js<N>, b: bool)
    ensures Parse(ToText(js, Bool(b))) == Ok(Lit(LBool(b)))
  {
    var e := Lit(LBool(b));
    var word := if b then "true" else "false";
    assert ExprPrinter.Print(e, 0) == [ExprLexer.Id(word)];
    OneToken(ExprLexer.Id(word));
    assert ExprPrinter.TextOf(e) == word;
    assert ExprPrinter.Nesting(e, 0) == 0 && ExprPrinter.WellFormed(e) && |word| <= 5;
    ExprPrinter.RoundTrip(e);
    assert ToText(js, Bool(b)) == word;
  }

  /** The text of a list is the texts of its items, with a comma and a blank between. */
  lemma ListText<N>(js: Js<N>, a: seq<Value<N>>, b: seq<Value<N>>)
    requires a != [] && b != []
    ensures ToText(js, List(a + b)) == ToText(js, List(a)) + ", " + ToText(js, List(b))
    ensures ToText(js, List([a[0]])) == ToText(js, a[0]) && ToText(js, List([])) == ""
  {
    var ta := seq(|a|, i requires 0 <= i < |a| => ToText(js, a[i]));
    var tb := seq(|b|, i requires 0 <= i < |b| => ToText(js, b[i]));
    var t := seq(|a + b|, i requires 0 <= i < |a + b| => ToText(js, (a + b)[i]));
    assert t == ta + tb;
    JoinParts(ta, tb, ", ");
  }

  lemma {:induction false} JoinParts(a: seq<string>, b: seq<string>, sep: string)
    requires a != [] && b != []
    ensures Join(a + b, sep) == Join(a, sep) + sep + Join(b, sep)
  {
    if |a| == 1 {
      assert (a + b)[1..] == b;
    } else {
      assert (a + b)[1..] == a[1..] + b;
      JoinParts(a[1..], b, sep);
      Associative(a[0] + sep, Join(a[1..], sep) + sep, Join(b, sep));
      Associative(a[0] + sep, Join(a[1..], sep), sep);
    }
  }

  /** Filters work one after the other, in the order of the source. */
  lemma {:induction false} FiltersInTurn<N>(js: Js<N>, v: Value<N>, fs: seq<Filter>, gs: seq<Filter>)
    ensures FilteredAll(js, v, fs + gs) == FilteredAll(js, FilteredAll(js, v, fs), gs)
    decreases |fs|
  {
    if fs == [] {
      assert fs + gs == gs;
    } else {
      assert (fs + gs)[1..] == fs[1..] + gs;
      FiltersInTurn(js, Filtered(js, v, fs[0]), fs[1..], gs);
    }
  }

  /** `default` shows its argument for just the falsy values. */
  lemma DefaultShows<N(!new)>(js: Js<N>, v: Value<N>, other: string)
    ensures ToText(js, Filtered(js, v, Filter("default", Some(other)))) == if Falsy(js, v) then other else ToText(js, v)
    ensures ToText(js, Filtered(js, v, Filter("default", None))) == if Falsy(js, v) then "" else ToText(js, v)
  {}

  /** `count` is the number of items or characters, and zero for whatever has none. */
  lemma CountCounts<N>(js: Js<N>, items: seq<Value<N>>, s: string, b: bool)
    ensures Filtered(js, List(items), Filter("count", None)) == Number(js.length(|items|))
    ensures Filtered(js, Str(s), Filter("count", None)) == Number(js.length(|s|))
    ensures Filtered(js, Bool(b), Filter("count", None)) == Number(js.length(0))
  {}

  /** `trim` cuts blanks, and only blanks, at both ends. */
  lemma TrimCuts<N>(js: Js<N>, before: string, s: string, after: string)
    requires Trimmed(s) && (forall c | c in before + after :: IsSpace(c))
    ensures Filtered(js, Str(before + s + after), Filter("trim", None)) == Str(s)
  {
    TrimPadded(before, s, after);
  }
}
