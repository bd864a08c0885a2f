/**
 The template language around the expressions: literal text with placeholders
 {$path | filters}, {_'key' | filters} and {=expression}
 (admin-ui/public/android-expr.js, `parseFilters`, `parseTemplate`, `render`).
 */
module ExprTemplate {
  import opened Text
  import opened ExprLexer
  import opened ExprParser
  import opened ExprPrinter

  datatype Filter = Filter(name: string, arg: Option<string>)

  /**
   What a part shows. `parse` makes trees only; the memo table can hand out a
   template's parts where a tree is meant (see ExprMemo).
   */
  datatype Node = TreeNode(e: Expr) | PartsNode(parts: seq<Part>)

  datatype Part = Plain(text: string) | Slot(node: Node, filters: seq<Filter>)

  datatype TemplateError =
    | Unclosed(at: nat)
    | UnclosedTranslation(at: nat)
    | BadPlaceholder(body: string)
    | UnknownFilter(raw: string)
    | BadExpression(error: ExprError)

  const FILTERS := {"upper", "lower", "trim", "truncate", "default", "count", "date", "time", "datetime", "size"}

  // ---------------------------------------------------------------- filters

  function LowerLen(s: string): (n: nat)
    ensures n <= |s|
  {
    if s != "" && IsLower(s[0]) then 1 + LowerLen(s[1..]) else 0
  }

  predicate AllDigits(s: string) { s != "" && forall c | c in s :: IsDigit(c) }

  /** A text between two quotes q, with none inside. */
  predicate Quoted(s: string, q: char) {
    |s| >= 2 && s[0] == q && s[|s| - 1] == q && q !in s[1..|s| - 1]
  }

  /** An argument: '...', "..." or a whole number. */
  function FilterArg(s: string): Option<string> {
    if Quoted(s, '\'') || Quoted(s, '"') then Some(s[1..|s| - 1])
    else if AllDigits(s) || (s != "" && s[0] == '-' && AllDigits(s[1..])) then Some(s)
    else None
  }

  /** One filter: a name, and an argument after a colon. */
  function ParseFilter(raw: string): Result<Filter, TemplateError> {
    var s := Trim(raw);
    var n := LowerLen(s);
    var name, rest := s[..n], s[n..];
    if name !in FILTERS then Err(UnknownFilter(s))
    else if rest == "" then Ok(Filter(name, None))
    else if rest[0] == ':' && FilterArg(TrimStart(rest[1..])).Some? then
      Ok(Filter(name, FilterArg(TrimStart(rest[1..]))))
    else Err(UnknownFilter(s))
  }

  function ParseFilterList(raws: seq<string>): Result<seq<Filter>, TemplateError> {
    if raws == [] then Ok([])
    else
      match ParseFilter(raws[0])
      case Err(e) => Err(e)
      case Ok(f) =>
        match ParseFilterList(raws[1..])
        case Err(e) => Err(e)
        case Ok(fs) => Ok([f] + fs)
  }

  function ParseFilters(chain: string): Result<seq<Filter>, TemplateError> {
    ParseFilterList(Split(chain, '|')[1..])
  }

  // ---------------------------------------------------------------- placeholders

  /** $name.name.0.name: names, and array positions, after a first name. */
  predicate IsPath(head: string) {
    && head != "" && head[0] == '$'
    && var segs := Split(head[1..], '.');
       && IsName(segs[0])
       && forall i | 1 <= i < |segs| :: IsName(segs[i]) || AllDigits(segs[i])
  }

  /** The path with .0 written as [0]. */
  function Indexed(segs: seq<string>): string {
    if segs == [] then ""
    else (if AllDigits(segs[0]) then "[" + segs[0] + "]" else "." + segs[0]) + Indexed(segs[1..])
  }

  function PathSource(head: string): string
    requires IsPath(head)
  {
    var segs := Split(head[1..], '.');
    "$" + segs[0] + Indexed(segs[1..])
  }

  /** What a placeholder needs parsed: a key as it is, or an expression's source. */
  datatype Inside = Key(key: string, chain: string) | Source(src: string, chain: string)

  /** A placeholder's trimmed body, taken apart. */
  function ParseBody(body: string, at: nat): Result<Inside, TemplateError> {
    if |body| >= 2 && body[0] == '_' && (body[1] == '\'' || body[1] == '"') then
      var close := 2 + Find(body[2..], body[1]);
      if close == |body| then Err(UnclosedTranslation(at))
      else Ok(Key(body[2..close], body[close + 1..]))
    else if StartsWith(body, "=") then Ok(Source(body[1..], ""))
    else if StartsWith(body, "$") then
      var bar := Find(body, '|');
      var head := Trim(body[..bar]);
      if IsPath(head) then Ok(Source(PathSource(head), body[bar..])) else Err(BadPlaceholder(body))
    else Err(BadPlaceholder(body))
  }

  /** A part from its expression, when that parsed, and its filters, when those did. */
  function MakeSlot(node: Result<Node, ExprError>, chain: string): Result<Part, TemplateError> {
    match node
    case Err(e) => Err(BadExpression(e))
    case Ok(n) =>
      match ParseFilters(chain)
      case Err(e) => Err(e)
      case Ok(fs) => Ok(Slot(n, fs))
  }

  /** `parse`, as a node. */
  function ParseNode(src: string): Result<Node, ExprError> {
    match Parse(src) case Ok(e) => Ok(TreeNode(e)) case Err(e) => Err(e)
  }

  function ParseSlot(body: string, at: nat): Result<Part, TemplateError> {
    match ParseBody(body, at)
    case Err(e) => Err(e)
    case Ok(Key(key, chain)) => MakeSlot(Ok(TreeNode(Tr(key))), chain)
    case Ok(Source(src, chain)) => MakeSlot(ParseNode(src), chain)
  }

  // ---------------------------------------------------------------- the scanner

  function LitPart(lit: string): seq<Part> { if lit == "" then [] else [Plain(lit)] }

  function Prepend(parts: seq<Part>, r: Result<seq<Part>, TemplateError>): Result<seq<Part>, TemplateError> {
    match r case Ok(rest) => Ok(parts + rest) case Err(e) => Err(e)
  }

  /** What reads a placeholder's trimmed body at an offset. */
  type SlotReader = (string, nat) -> Result<Part, TemplateError>

  /** The scanner's loop on the text that is left, with the literal collected so far. */
  function ScanTemplate(f: SlotReader, s: string, at: nat, lit: string): Result<seq<Part>, TemplateError>
    decreases |s|
  {
    if s == "" then Ok(LitPart(lit))
    else if s[0] != '{' then ScanTemplate(f, s[1..], at + 1, lit + [s[0]])
    else if |s| > 1 && s[1] == '{' then ScanTemplate(f, s[2..], at + 2, lit + "{")
    else
      var end := Find(s, '}');
      if end == |s| then Err(Unclosed(at))
      else
        match f(Trim(s[1..end]), at)
        case Err(e) => Err(e)
        case Ok(slot) => Prepend(LitPart(lit) + [slot], ScanTemplate(f, s[end + 1..], at + end + 1, ""))
  }

  /** `parseTemplate` without the memo table. */
  function ParseTemplate(src: string): Result<seq<Part>, TemplateError> { ScanTemplate(ParseSlot, src, 0, "") }

  /** The parts one after the other; `show` evaluates a node and applies its filters. */
  function ShowAll(parts: seq<Part>, show: (Node, seq<Filter>) -> string): string {
    if parts == [] then "" else ShowPart(parts[0], show) + ShowAll(parts[1..], show)
  }

  function ShowPart(part: Part, show: (Node, seq<Filter>) -> string): string {
    match part case Plain(t) => t case Slot(n, fs) => show(n, fs)
  }

  /** `render`: a text without a brace is returned as it is. */
  function Render(src: string, show: (Node, seq<Filter>) -> string): Result<string, TemplateError> {
    if '{' !in src then Ok(src)
    else
      match ParseTemplate(src)
      case Ok(parts) => Ok(ShowAll(parts, show))
      case Err(e) => Err(e)
  }

  // ---------------------------------------------------------------- rendering is a homomorphism

  lemma {:induction false} ShowAppend(a: seq<Part>, b: seq<Part>, show: (Node, seq<Filter>) -> string)
    ensures ShowAll(a + b, show) == ShowAll(a, show) + ShowAll(b, show)
  {
    if a == [] {
      assert a + b == b;
    } else {
      assert (a + b)[1..] == a[1..] + b;
      ShowAppend(a[1..], b, show);
    }
  }

  lemma ShowLit(lit: string, show: (Node, seq<Filter>) -> string)
    ensures ShowAll(LitPart(lit), show) == lit
  {
    if lit != "" {
      assert LitPart(lit)[1..] == [];
    }
  }

  /** The rendering of a scan that succeeded. */
  function Shown(r: Result<seq<Part>, TemplateError>, show: (Node, seq<Filter>) -> string): string
    requires r.Ok?
  {
    ShowAll(r.value, show)
  }

  lemma ShownSlot(lit: string, slot: Part, r: Result<seq<Part>, TemplateError>, show: (Node, seq<Filter>) -> string)
    requires r.Ok?
    ensures Shown(Prepend(LitPart(lit) + [slot], r), show) == lit + ShowPart(slot, show) + Shown(r, show)
  {
    ShowAppend(LitPart(lit) + [slot], r.value, show);
    ShowAppend(LitPart(lit), [slot], show);
    ShowLit(lit, show);
    assert [slot][1..] == [] && ShowAll([slot], show) == ShowPart(slot, show) + "";
  }

  /** Offsets only matter to a reader's errors. */
  ghost predicate Steady(f: SlotReader) {
    forall body: string, at: nat, at': nat :: f(body, at).Ok? ==> f(body, at') == f(body, at)
  }

  /** A literal that was collected before is shown in front; offsets only matter to errors. */
  lemma {:induction false} LitFirst(f: SlotReader, s: string, at: nat, at': nat, l: string, lit: string,
                                    show: (Node, seq<Filter>) -> string)
    requires Steady(f) && ScanTemplate(f, s, at, lit).Ok?
    ensures ScanTemplate(f, s, at', l + lit).Ok?
    ensures Shown(ScanTemplate(f, s, at', l + lit), show) == l + Shown(ScanTemplate(f, s, at, lit), show)
    decreases |s|
  {
    if s == "" {
      ShowLit(l + lit, show);
      ShowLit(lit, show);
    } else if s[0] != '{' {
      assert (l + lit) + [s[0]] == l + (lit + [s[0]]);
      LitFirst(f, s[1..], at + 1, at' + 1, l, lit + [s[0]], show);
    } else if |s| > 1 && s[1] == '{' {
      assert (l + lit) + "{" == l + (lit + "{");
      LitFirst(f, s[2..], at + 2, at' + 2, l, lit + "{", show);
    } else {
      LitFirstSlot(f, s, at, at', l, lit, show);
    }
  }

  lemma SlotStep(f: SlotReader, s: string, at: nat, lit: string, end: nat, slot: Part, rest: string)
    requires |s| > 1 && s[0] == '{' && s[1] != '{' && 1 <= end == Find(s, '}') < |s| && rest == s[end + 1..]
    requires f(Trim(s[1..end]), at) == Ok(slot)
    ensures ScanTemplate(f, s, at, lit) == Prepend(LitPart(lit) + [slot], ScanTemplate(f, rest, at + end + 1, ""))
  {}

  /** What a scan that succeeds makes of a placeholder at its start. */
  lemma SlotOpens(f: SlotReader, s: string, at: nat, lit: string) returns (end: nat, slot: Part, rest: string)
    requires ScanTemplate(f, s, at, lit).Ok? && OpensSlot(s)
    ensures |s| > 1 && s[1] != '{' && 1 <= end == Find(s, '}') < |s| && rest == s[end + 1..]
    ensures f(Trim(s[1..end]), at) == Ok(slot) && ScanTemplate(f, rest, at + end + 1, "").Ok?
    ensures ScanTemplate(f, s, at, lit) == Prepend(LitPart(lit) + [slot], ScanTemplate(f, rest, at + end + 1, ""))
  {
    end := Find(s, '}');
    slot, rest := f(Trim(s[1..end]), at).value, s[end + 1..];
  }

  lemma {:induction false} LitFirstSlot(f: SlotReader, s: string, at: nat, at': nat, l: string, lit: string,
                                        show: (Node, seq<Filter>) -> string)
    requires Steady(f) && ScanTemplate(f, s, at, lit).Ok? && OpensSlot(s)
    ensures ScanTemplate(f, s, at', l + lit).Ok?
    ensures Shown(ScanTemplate(f, s, at', l + lit), show) == l + Shown(ScanTemplate(f, s, at, lit), show)
    decreases |s|, 0
  {
    var end, slot, rest := SlotOpens(f, s, at, lit);
    assert "" + "" == "";
    LitFirst(f, rest, at + end + 1, at' + end + 1, "", "", show);
    SlotStep(f, s, at', l + lit, end, slot, rest);
    var x, y := ScanTemplate(f, rest, at + end + 1, ""), ScanTemplate(f, rest, at' + end + 1, "");
    ShownSlot(lit, slot, x, show);
    ShownSlot(l + lit, slot, y, show);
    LitInFront(l, lit, ShowPart(slot, show), Shown(x, show));
  }

  lemma LitInFront(l: string, lit: string, x: string, y: string)
    ensures (l + lit) + x + ("" + y) == l + (lit + x + y)
  {}

  /** The text starts with a brace that is not doubled. */
  predicate OpensSlot(s: string) { s != "" && s[0] == '{' && !(|s| > 1 && s[1] == '{') }

  lemma {:induction false} ScanAppend(f: SlotReader, a: string, b: string, at: nat, at': nat, lit: string,
                                      show: (Node, seq<Filter>) -> string)
    requires Steady(f) && ScanTemplate(f, a, at, lit).Ok? && ScanTemplate(f, b, at', "").Ok?
    ensures ScanTemplate(f, a + b, at, lit).Ok?
    ensures Shown(ScanTemplate(f, a + b, at, lit), show) ==
            Shown(ScanTemplate(f, a, at, lit), show) + Shown(ScanTemplate(f, b, at', ""), show)
    decreases |a|
  {
    if a == "" {
      assert a + b == b;
      ShowLit(lit, show);
      LitFirst(f, b, at', at, lit, "", show);
      assert lit + "" == lit;
    } else if a[0] != '{' {
      assert (a + b)[1..] == a[1..] + b;
      ScanAppend(f, a[1..], b, at + 1, at', lit + [a[0]], show);
    } else if |a| > 1 && a[1] == '{' {
      assert (a + b)[2..] == a[2..] + b;
      ScanAppend(f, a[2..], b, at + 2, at', lit + "{", show);
    } else {
      SlotAppend(f, a, b, at, at', lit, show);
    }
  }

  lemma {:induction false} SlotAppend(f: SlotReader, a: string, b: string, at: nat, at': nat, lit: string,
                                      show: (Node, seq<Filter>) -> string)
    requires Steady(f) && ScanTemplate(f, a, at, lit).Ok? && ScanTemplate(f, b, at', "").Ok?
    requires OpensSlot(a)
    ensures ScanTemplate(f, a + b, at, lit).Ok?
    ensures Shown(ScanTemplate(f, a + b, at, lit), show) ==
            Shown(ScanTemplate(f, a, at, lit), show) + Shown(ScanTemplate(f, b, at', ""), show)
    decreases |a|, 0
  {
    var end, slot, rest := SlotOpens(f, a, at, lit);
    FindInFront(a, b, '}');
    BodyInFront(a, b, end);
    ScanAppend(f, rest, b, at + end + 1, at', "", show);
    var x, y := ScanTemplate(f, rest + b, at + end + 1, ""), ScanTemplate(f, rest, at + end + 1, "");
    SlotStep(f, a + b, at, lit, end, slot, rest + b);
    ShownSlot(lit, slot, x, show);
    ShownSlot(lit, slot, y, show);
    Associative(lit + ShowPart(slot, show), Shown(y, show), Shown(ScanTemplate(f, b, at', ""), show));
  }

  lemma BodyInFront(a: string, b: string, end: nat)
    requires 1 <= end < |a|
    ensures (a + b)[1..end] == a[1..end] && (a + b)[end + 1..] == a[end + 1..] + b
    ensures (a + b)[0] == a[0] && (a + b)[1] == a[1]
  {}

  lemma FindInFront(a: string, b: string, c: char)
    requires Find(a, c) < |a|
    ensures Find(a + b, c) == Find(a, c)
  {
    assert (a + b)[..Find(a, c)] == a[..Find(a, c)];
    FindIs(a + b, c, Find(a, c));
  }

  lemma {:induction false} NoBrace(f: SlotReader, s: string, at: nat, lit: string)
    requires '{' !in s
    ensures ScanTemplate(f, s, at, lit) == Ok(LitPart(lit + s))
    decreases |s|
  {
    if s == "" {
      assert lit + s == lit;
    } else {
      NoBrace(f, s[1..], at + 1, lit + [s[0]]);
      assert (lit + [s[0]]) + s[1..] == lit + s;
    }
  }

  lemma RenderIsShown(src: string, show: (Node, seq<Filter>) -> string)
    requires ParseTemplate(src).Ok?
    ensures Render(src, show) == Ok(Shown(ParseTemplate(src), show))
  {
    if '{' !in src {
      NoBrace(ParseSlot, src, 0, "");
      assert "" + src == src;
      ShowLit(src, show);
    }
  }

  /** Main result: two templates that parse render, joined, as their renderings joined. */
  lemma {:induction false} RenderAppend(a: string, b: string, show: (Node, seq<Filter>) -> string)
    requires ParseTemplate(a).Ok? && ParseTemplate(b).Ok?
    ensures Render(a, show).Ok? && Render(b, show).Ok?
    ensures Render(a + b, show) == Ok(Render(a, show).value + Render(b, show).value)
  {
    ScanAppend(ParseSlot, a, b, 0, 0, "", show);
    RenderIsShown(a, show);
    RenderIsShown(b, show);
    RenderIsShown(a + b, show);
  }

  // ---------------------------------------------------------------- printing a template

  /** A text as a literal: every opening brace doubled. */
  function Doubled(s: string): string {
    if s == "" then "" else (if s[0] == '{' then "{{" else [s[0]]) + Doubled(s[1..])
  }

  lemma {:induction false} DoubledScan(f: SlotReader, s: string, rest: string, at: nat, lit: string)
    ensures ScanTemplate(f, Doubled(s) + rest, at, lit) == ScanTemplate(f, rest, at + |Doubled(s)|, lit + s)
    decreases |s|
  {
    var t := Doubled(s) + rest;
    if s == "" {
      assert t == rest && lit + s == lit;
    } else {
      if s[0] == '{' {
        assert t[2..] == Doubled(s[1..]) + rest;
      } else {
        assert t[1..] == Doubled(s[1..]) + rest;
      }
      DoubledScan(f, s[1..], rest, at + (if s[0] == '{' then 2 else 1), lit + [s[0]]);
      assert (lit + [s[0]]) + s[1..] == lit + s;
    }
  }

  /** Main result: a text with every opening brace doubled renders as that text. */
  lemma {:induction false} RenderDoubled(s: string, show: (Node, seq<Filter>) -> string)
    ensures Render(Doubled(s), show) == Ok(s)
  {
    DoubledScan(ParseSlot, s, "", 0, "");
    assert Doubled(s) + "" == Doubled(s) && "" + s == s;
    RenderIsShown(Doubled(s), show);
    ShowLit(s, show);
  }

  /** A tree that {=...} can hold: `}` ends a placeholder even inside a quoted string. */
  predicate Holdable(e: Expr) {
    && WellFormed(e) && 1 + Nesting(e, 0) <= MAX_DEPTH
    && |TextOf(e)| <= MAX_SOURCE && '}' !in TextOf(e)
  }

  /** A quote that a text does not hold, the single one first. */
  function QuoteFor(s: string): char { if '\'' in s then '"' else '\'' }

  function InQuotes(s: string): string { [QuoteFor(s)] + s + [QuoteFor(s)] }

  /** A text that can stand between quotes in a placeholder. */
  predicate Quotable(s: string) { '}' !in s && ('\'' !in s || '"' !in s) }

  /** A filter that can be written: `|` ends it even inside quotes. */
  predicate PrintableFilter(x: Filter) {
    x.name in FILTERS && (x.arg.Some? ==> Quotable(x.arg.value) && '|' !in x.arg.value)
  }

  predicate PrintableFilters(fs: seq<Filter>) { fs == [] || (PrintableFilter(fs[0]) && PrintableFilters(fs[1..])) }

  function FilterText(x: Filter): string { x.name + FilterTail(x) }

  function FilterTail(x: Filter): string { match x.arg case None => "" case Some(arg) => ":" + InQuotes(arg) }

  function FilterTexts(fs: seq<Filter>): seq<string> {
    if fs == [] then [] else [FilterText(fs[0])] + FilterTexts(fs[1..])
  }

  /** Each filter after a bar. */
  function ChainText(fs: seq<Filter>): string { Join([""] + FilterTexts(fs), "|") }

  /** A variable, its members and its places: what {$...} can name. */
  predicate IsPathTree(e: Expr) {
    match e
    case VarRef(name) => IsName(name)
    case Get(obj, Lit(LStr(name))) => IsName(name) && IsPathTree(obj)
    case Get(obj, Lit(LNum(digits))) => AllDigits(digits) && IsPathTree(obj)
    case _ => false
  }

  /** The names and numbers of a path. */
  function Segments(e: Expr): (segs: seq<string>)
    requires IsPathTree(e)
    ensures segs != [] && IsName(segs[0])
    ensures forall i | 1 <= i < |segs| :: IsName(segs[i]) || AllDigits(segs[i])
  {
    match e
    case VarRef(name) => [name]
    case Get(obj, Lit(LStr(name))) => Segments(obj) + [name]
    case Get(obj, Lit(LNum(digits))) => Segments(obj) + [digits]
  }

  function PathText(e: Expr): string
    requires IsPathTree(e)
  {
    "$" + Join(Segments(e), ".")
  }

  /** What stands between the braces: only translations and paths can have filters. */
  function BodyText(e: Expr, fs: seq<Filter>): string {
    if fs == [] then "=" + TextOf(e)
    else if e.Tr? then "_" + InQuotes(e.trKey) + ChainText(fs)
    else if IsPathTree(e) then PathText(e) + ChainText(fs)
    else ""
  }

  predicate PrintableSlot(e: Expr, fs: seq<Filter>) {
    && PrintableFilters(fs)
    && if fs == [] then Holdable(e)
       else if e.Tr? then Quotable(e.trKey)
       else IsPathTree(e) && |TextOf(e)| <= MAX_SOURCE
  }

  predicate PrintablePart(x: Part) {
    match x
    case Plain(t) => t != ""
    case Slot(n, fs) => n.TreeNode? && PrintableSlot(n.e, fs)
  }

  /** Literals are not empty and do not touch. */
  predicate Spaced(parts: seq<Part>) {
    parts == [] ||
    (&& (parts[0].Plain? ==> parts[0].text != "" && (|parts| > 1 ==> parts[1].Slot?))
     && Spaced(parts[1..]))
  }

  /** Parts in the form the scanner makes them. */
  predicate Printable(parts: seq<Part>) { Spaced(parts) && forall i | 0 <= i < |parts| :: PrintablePart(parts[i]) }

  /** What writes a placeholder. */
  type SlotWriter = (Node, seq<Filter>) -> string

  function PartText(w: SlotWriter, x: Part): string { match x case Plain(t) => Doubled(t) case Slot(n, fs) => w(n, fs) }

  function TextBy(w: SlotWriter, parts: seq<Part>): string {
    if parts == [] then "" else PartText(w, parts[0]) + TextBy(w, parts[1..])
  }

  function BraceText(n: Node, fs: seq<Filter>): string {
    if n.TreeNode? then "{" + BodyText(n.e, fs) + "}" else ""
  }

  function TemplateText(parts: seq<Part>): string { TextBy(BraceText, parts) }

  lemma {:induction false} LastNotBlank(toks: seq<Tok>)
    requires toks != [] && forall t | t in toks :: WellSpelled(t)
    ensures var s := Layout(toks, NoGaps(|toks|)); s != "" && !IsSpace(s[|s| - 1])
  {
    var t, gaps := toks[0], NoGaps(|toks|);
    LastCharacter(t);
    var rest := Layout(toks[1..], gaps[1..]);
    assert gaps[1..] == NoGaps(|toks| - 1);
    assert Layout(toks, gaps) == Spell(t) + "" + rest;
    if |toks| == 1 {
      assert rest == "";
    } else {
      LastNotBlank(toks[1..]);
    }
  }

  lemma LastCharacter(t: Tok)
    requires WellSpelled(t)
    ensures Spell(t) != "" && !IsSpace(Spell(t)[|Spell(t)| - 1])
  {
    FirstCharacter(t);
    var s := Spell(t);
    match t
    case Num(text) => NumberLast(text);
    case Var(name) => assert s[|s| - 1] == name[|name| - 1] && name[|name| - 1] in name;
    case Id(id) => assert id[|id| - 1] in id;
    case _ =>
  }

  lemma {:induction false} NumberLast(text: string)
    requires IsNumber(text)
    ensures IsDigit(text[|text| - 1])
  {
    var m := MantissaLen(text);
    if m < |text| {
      DigitsLast(text[ExponentStart(text, m)..]);
    } else {
      DigitsLast(text);
      if HasFraction(text) {
        DigitsLast(text[DigitsLen(text) + 1..]);
      }
    }
  }

  lemma {:induction false} DigitsLast(s: string)
    ensures var n := DigitsLen(s); n > 0 ==> IsDigit(s[n - 1])
  {
    if s != "" && IsDigit(s[0]) {
      DigitsLast(s[1..]);
    }
  }

  /** A placeholder {=text} parses to the tree it was printed from. */
  lemma {:induction false} HoldableBack(e: Expr, at: nat)
    requires Holdable(e)
    ensures ParseSlot(Trim("=" + TextOf(e)), at) == Ok(Slot(TreeNode(e), []))
  {
    PrintTight(e, 0);
    LastNotBlank(Print(e, 0));
    var body := "=" + TextOf(e);
    TrimmedStays(body);
    assert body[1..] == TextOf(e);
    RoundTrip(e);
    assert Split("", '|') == [""];
  }

  lemma HeldText(f: SlotReader, body: string, rest: string, at: nat, lit: string, slot: Part)
    requires '}' !in body && body != "" && body[0] != '{' && f(Trim(body), at) == Ok(slot)
    ensures ScanTemplate(f, ("{" + body + "}") + rest, at, lit) ==
            Prepend(LitPart(lit) + [slot], ScanTemplate(f, rest, at + |"{" + body + "}"|, ""))
  {
    var a := "{" + body;
    var s := ("{" + body + "}") + rest;
    assert s == a + ['}'] + rest;
    FindAt(a, '}', rest);
    assert s[1..|a|] == body && s[|a| + 1..] == rest && s[1] == body[0];
    SlotStep(f, s, at, lit, |a|, slot, rest);
  }

  // ---------------------------------------------------------------- filters read back

  lemma FilterNames(name: string)
    requires name in FILTERS
    ensures name != "" && forall i | 0 <= i < |name| :: IsLower(name[i])
  {}

  lemma {:induction false} LowerAll(name: string, tail: string)
    requires (forall i | 0 <= i < |name| :: IsLower(name[i])) && (tail == "" || tail[0] == ':')
    ensures LowerLen(name + tail) == |name|
  {
    if name == "" {
      assert name + tail == tail;
    } else {
      assert (name + tail)[1..] == name[1..] + tail;
      LowerAll(name[1..], tail);
    }
  }

  lemma ArgumentBack(arg: string)
    requires Quotable(arg)
    ensures FilterArg(TrimStart(InQuotes(arg))) == Some(arg)
  {
    var s := InQuotes(arg);
    assert s[1..|s| - 1] == arg && s[0] == QuoteFor(arg) == s[|s| - 1];
    assert TrimStart(s) == s;
  }

  /** No character of a filter's text is a blank at its end, a bar or a closing brace. */
  lemma FilterShape(x: Filter)
    requires PrintableFilter(x)
    ensures var s := FilterText(x); s != "" && IsLower(s[0]) && !IsSpace(s[|s| - 1]) && '|' !in s && '}' !in s
  {
    FilterNames(x.name);
    TailShape(x);
    var s, tail := FilterText(x), FilterTail(x);
    forall i | 0 <= i < |s| ensures s[i] != '|' && s[i] != '}' {
      assert s[i] == if i < |x.name| then x.name[i] else tail[i - |x.name|];
    }
    assert s[|s| - 1] == if tail == "" then x.name[|x.name| - 1] else tail[|tail| - 1];
  }

  lemma TailShape(x: Filter)
    requires PrintableFilter(x)
    ensures var s := FilterTail(x);
            '|' !in s && '}' !in s && (s != "" ==> s[0] == ':' && !IsSpace(s[|s| - 1]))
  {
    if x.arg.Some? {
      var q := QuoteFor(x.arg.value);
      assert FilterTail(x) == ":" + [q] + x.arg.value + [q];
    }
  }

  lemma FilterBack(x: Filter)
    requires PrintableFilter(x)
    ensures ParseFilter(FilterText(x)) == Ok(x)
  {
    var s, tail := FilterText(x), FilterTail(x);
    FilterShape(x);
    TrimmedStays(s);
    FilterNames(x.name);
    TailShape(x);
    LowerAll(x.name, tail);
    assert s[..|x.name|] == x.name && s[|x.name|..] == tail;
    if x.arg.Some? {
      ArgumentBack(x.arg.value);
      assert tail[1..] == InQuotes(x.arg.value);
    }
  }

  lemma {:induction false} FiltersBack(fs: seq<Filter>)
    requires PrintableFilters(fs)
    ensures ParseFilterList(FilterTexts(fs)) == Ok(fs)
  {
    if fs != [] {
      FilterBack(fs[0]);
      FiltersBack(fs[1..]);
      FilterFirst(FilterText(fs[0]), FilterTexts(fs[1..]), fs[0], fs[1..]);
      assert fs == [fs[0]] + fs[1..];
    }
  }

  lemma FilterFirst(raw: string, raws: seq<string>, x: Filter, more: seq<Filter>)
    requires ParseFilter(raw) == Ok(x) && ParseFilterList(raws) == Ok(more)
    ensures ParseFilterList([raw] + raws) == Ok([x] + more)
  {
    assert ([raw] + raws)[1..] == raws;
  }

  lemma {:induction false} NoBarInside(fs: seq<Filter>)
    requires PrintableFilters(fs)
    ensures forall i | 0 <= i < |FilterTexts(fs)| :: '|' !in FilterTexts(fs)[i]
  {
    if fs != [] {
      FilterShape(fs[0]);
      NoBarInside(fs[1..]);
    }
  }

  lemma ChainBack(fs: seq<Filter>)
    requires PrintableFilters(fs)
    ensures ParseFilters(ChainText(fs)) == Ok(fs)
  {
    FiltersBack(fs);
    NoBarInside(fs);
    var texts := FilterTexts(fs);
    var parts := [""] + texts;
    assert parts[1..] == texts && "|" == ['|'];
    forall p | p in parts ensures '|' !in p {
      var i :| 0 <= i < |parts| && parts[i] == p;
      assert i > 0 ==> p == texts[i - 1];
    }
    SplitJoin(parts, '|');
  }

  /** A chain of filters begins with its bar, ends in no blank, and has no closing brace. */
  lemma {:induction false} ChainShape(fs: seq<Filter>)
    requires fs != [] && PrintableFilters(fs)
    ensures var s := ChainText(fs); s != "" && s[0] == '|' && !IsSpace(s[|s| - 1]) && '}' !in s
    decreases |fs|
  {
    FilterShape(fs[0]);
    ChainFirst(fs);
    if |fs| > 1 {
      ChainShape(fs[1..]);
    }
  }

  lemma ChainFirst(fs: seq<Filter>)
    requires fs != []
    ensures ChainText(fs) == "|" + FilterText(fs[0]) + ChainText(fs[1..])
  {
    var texts, more := FilterTexts(fs), FilterTexts(fs[1..]);
    assert ([""] + texts)[1..] == texts && texts == [FilterText(fs[0])] + more;
    assert texts[1..] == more && ([""] + more)[1..] == more;
    assert Join([""] + texts, "|") == "" + "|" + Join(texts, "|");
    if more == [] {
      assert [""] + more == [""] && |texts| == 1;
    } else {
      assert Join([""] + more, "|") == "" + "|" + Join(more, "|");
      assert Join(texts, "|") == FilterText(fs[0]) + "|" + Join(more, "|");
    }
  }

  // ---------------------------------------------------------------- the three kinds of placeholders

  /** {_'key' | filters} */
  lemma KeyBack(key: string, fs: seq<Filter>, at: nat)
    requires Quotable(key) && fs != [] && PrintableFilters(fs)
    ensures var body := "_" + InQuotes(key) + ChainText(fs);
            '}' !in body && ParseSlot(Trim(body), at) == Ok(Slot(TreeNode(Tr(key)), fs))
  {
    ChainShape(fs);
    ChainBack(fs);
    KeyBody(key, QuoteFor(key), ChainText(fs), at);
  }

  lemma KeyBody(key: string, q: char, chain: string, at: nat)
    requires q !in key && (q == '\'' || q == '"') && '}' !in key
    requires chain != "" && !IsSpace(chain[|chain| - 1]) && '}' !in chain
    ensures var body := "_" + ([q] + key + [q]) + chain;
            '}' !in body && Trim(body) == body && ParseBody(body, at) == Ok(Key(key, chain))
  {
    var body := "_" + ([q] + key + [q]) + chain;
    assert body[0] == '_' && body[|body| - 1] == chain[|chain| - 1];
    TrimmedStays(body);
    KeyTaken(body, key, q, chain, at);
  }

  lemma KeyTaken(body: string, key: string, q: char, chain: string, at: nat)
    requires q !in key && (q == '\'' || q == '"') && chain != ""
    requires body == "_" + ([q] + key + [q]) + chain
    ensures ParseBody(body, at) == Ok(Key(key, chain))
  {
    var after := body[2..];
    assert after == key + [q] + chain && body[1] == q;
    FindAt(key, q, chain);
    assert body[2..2 + |key|] == key && body[3 + |key|..] == chain;
  }

  lemma {:induction false} DigitsAll(s: string)
    requires forall c | c in s :: IsDigit(c)
    ensures DigitsLen(s) == |s|
  {
    if s != "" {
      DigitsAll(s[1..]);
    }
  }

  lemma DigitsAreNumber(s: string)
    requires AllDigits(s)
    ensures IsNumber(s)
  {
    assert s[0] in s;
    DigitsAll(s);
  }

  lemma {:induction false} LayoutAppend(a: seq<Tok>, b: seq<Tok>)
    ensures Layout(a + b, NoGaps(|a + b|)) == Layout(a, NoGaps(|a|)) + Layout(b, NoGaps(|b|))
  {
    if a == [] {
      assert a + b == b;
    } else {
      assert (a + b)[1..] == a[1..] + b;
      assert NoGaps(|a + b|)[1..] == NoGaps(|a + b| - 1) && NoGaps(|a|)[1..] == NoGaps(|a| - 1);
      LayoutAppend(a[1..], b);
    }
  }

  lemma {:induction false} IndexedMore(segs: seq<string>, x: string)
    ensures Indexed(segs + [x]) == Indexed(segs) + Indexed([x])
  {
    if segs == [] {
      assert segs + [x] == [x];
    } else {
      assert (segs + [x])[1..] == segs[1..] + [x];
      IndexedMore(segs[1..], x);
    }
  }

  lemma NameNoDigits(name: string)
    requires IsName(name)
    ensures !AllDigits(name)
  {
    assert name[0] in name;
  }

  /** What `PathSource` makes of segments. */
  function SourceOf(segs: seq<string>): string
    requires segs != []
  {
    "$" + segs[0] + Indexed(segs[1..])
  }

  /** The source that {$...} makes of a path is the text of its tree. */
  lemma {:induction false} PathLayout(e: Expr)
    requires IsPathTree(e)
    ensures TextOf(e) == SourceOf(Segments(e)) && Nesting(e, 0) <= 1
  {
    match e
    case VarRef(name) =>
      VarLayout(name);
      assert Segments(e) == [name];
    case Get(obj, Lit(LStr(name))) =>
      PathLayout(obj);
      DotPath(obj, name, Segments(obj));
    case Get(obj, Lit(LNum(digits))) =>
      PathLayout(obj);
      IndexPath(obj, digits, Segments(obj));
  }

  lemma DotPath(obj: Expr, name: string, segs: seq<string>)
    requires IsPathTree(obj) && IsName(name) && segs == Segments(obj)
    requires TextOf(obj) == SourceOf(segs)
    ensures var e := Expr.Get(obj, Lit(LStr(name)));
            TextOf(e) == SourceOf(segs + [name]) && Nesting(e, 0) == Nesting(obj, 0)
  {
    DotLayout(obj, name);
    SegmentAdded(segs, name);
    NameNoDigits(name);
  }

  lemma IndexPath(obj: Expr, digits: string, segs: seq<string>)
    requires IsPathTree(obj) && AllDigits(digits) && segs == Segments(obj)
    requires TextOf(obj) == SourceOf(segs)
    ensures var e := Expr.Get(obj, Lit(LNum(digits)));
            TextOf(e) == SourceOf(segs + [digits]) && Nesting(e, 0) == Max(Nesting(obj, 0), 1)
  {
    IndexLayout(obj, digits);
    SegmentAdded(segs, digits);
  }

  lemma VarLayout(name: string)
    ensures TextOf(VarRef(name)) == SourceOf([name])
  {
    OneToken(Var(name));
    var e := VarRef(name);
    assert Level(e) == 8 && Bare(e) == [Var(name)] && Print(e, 0) == Bare(e);
    assert [name][1..] == [] && "$" + name + "" == "$" + name;
  }

  lemma {:induction false} PathWellFormed(e: Expr)
    requires IsPathTree(e)
    ensures WellFormed(e)
  {
    match e
    case VarRef(name) =>
    case Get(obj, Lit(LStr(name))) => PathWellFormed(obj);
    case Get(obj, Lit(LNum(digits))) =>
      PathWellFormed(obj);
      DigitsAreNumber(digits);
  }

  lemma PathLevel(e: Expr)
    requires IsPathTree(e)
    ensures Level(e) == 8 && Print(e, 0) == Print(e, 8) == Bare(e) && Nesting(e, 0) == Nesting(e, 8)
  {}

  lemma DotLayout(obj: Expr, name: string)
    requires IsPathTree(obj) && IsName(name)
    ensures var e := Expr.Get(obj, Lit(LStr(name)));
            TextOf(e) == TextOf(obj) + "." + name && Nesting(e, 0) == Nesting(obj, 0)
  {
    PathLevel(obj);
    PathLevel(Expr.Get(obj, Lit(LStr(name))));
    LayoutAppend(Bare(obj), [Op(Dot), Id(name)]);
    TwoTokens(Op(Dot), Id(name));
  }

  lemma IndexLayout(obj: Expr, digits: string)
    requires IsPathTree(obj) && AllDigits(digits)
    ensures var e := Expr.Get(obj, Lit(LNum(digits)));
            TextOf(e) == TextOf(obj) + "[" + digits + "]" && Nesting(e, 0) == Max(Nesting(obj, 0), 1)
  {
    var e := Expr.Get(obj, Lit(LNum(digits)));
    PathLevel(obj);
    PathLevel(e);
    assert Print(e.key, 0) == [Num(digits)] && Nesting(e.key, 0) == 0;
    BracketLayout(Bare(obj), Num(digits));
  }

  lemma BracketLayout(obj: seq<Tok>, place: Tok)
    ensures var all := obj + [Op(LBrack)] + [place] + [Op(RBrack)];
            Layout(all, NoGaps(|all|)) == Layout(obj, NoGaps(|obj|)) + "[" + Spell(place) + "]"
  {
    LayoutAppend(obj, [Op(LBrack)]);
    LayoutAppend(obj + [Op(LBrack)], [place]);
    LayoutAppend(obj + [Op(LBrack)] + [place], [Op(RBrack)]);
    OneToken(Op(LBrack));
    OneToken(place);
    OneToken(Op(RBrack));
  }

  lemma OneToken(a: Tok)
    ensures Layout([a], NoGaps(1)) == Spell(a)
  {
    assert Layout([a][1..], NoGaps(1)[1..]) == "";
  }

  lemma TwoTokens(a: Tok, b: Tok)
    ensures Layout([a, b], NoGaps(2)) == Spell(a) + Spell(b)
  {
    LayoutAppend([a], [b]);
    OneToken(a);
    OneToken(b);
  }

  lemma SegmentAdded(segs: seq<string>, x: string)
    requires segs != []
    ensures SourceOf(segs + [x]) == SourceOf(segs) + if AllDigits(x) then "[" + x + "]" else "." + x
  {
    assert (segs + [x])[1..] == segs[1..] + [x];
    IndexedMore(segs[1..], x);
    assert [x][1..] == [];
  }

  /** A path's text splits into its segments, and has no character that ends it. */
  lemma PathShape(e: Expr)
    requires IsPathTree(e)
    ensures IsPath(PathText(e)) && PathSource(PathText(e)) == SourceOf(Segments(e))
    ensures '|' !in PathText(e) && '}' !in PathText(e) && !IsSpace(PathText(e)[|PathText(e)| - 1])
  {
    var segs := Segments(e);
    SegmentsBack(segs);
    JoinedNames(segs);
    DollarText(Join(segs, "."));
  }

  lemma DollarText(s: string)
    requires s != "" && IsNameChar(s[|s| - 1]) && forall c | c in s :: IsNameChar(c) || c == '.'
    ensures var t := "$" + s; t[1..] == s && '|' !in t && '}' !in t && !IsSpace(t[|t| - 1])
  {}

  lemma NoPoint(seg: string)
    requires IsName(seg) || AllDigits(seg)
    ensures '.' !in seg
  {}

  lemma SegmentsBack(segs: seq<string>)
    requires segs != [] && forall i | 0 <= i < |segs| :: IsName(segs[i]) || AllDigits(segs[i])
    ensures Split(Join(segs, "."), '.') == segs
  {
    forall p | p in segs ensures '.' !in p {
      var i :| 0 <= i < |segs| && segs[i] == p;
      NoPoint(p);
    }
    SplitJoin(segs, '.');
    assert "." == ['.'];
  }

  lemma {:induction false} JoinedNames(segs: seq<string>)
    requires segs != [] && forall i | 0 <= i < |segs| :: IsName(segs[i]) || AllDigits(segs[i])
    ensures var s := Join(segs, ".");
            s != "" && IsNameChar(s[|s| - 1]) && forall c | c in s :: IsNameChar(c) || c == '.'
  {
    assert segs[0][|segs[0]| - 1] in segs[0];
    if |segs| > 1 {
      assert forall i | 0 <= i < |segs[1..]| :: segs[1..][i] == segs[i + 1];
      JoinedNames(segs[1..]);
    }
  }

  /** {$path | filters} */
  lemma PathBack(e: Expr, fs: seq<Filter>, at: nat)
    requires IsPathTree(e) && |TextOf(e)| <= MAX_SOURCE
    requires fs != [] && PrintableFilters(fs)
    ensures var body := PathText(e) + ChainText(fs);
            '}' !in body && ParseSlot(Trim(body), at) == Ok(Slot(TreeNode(e), fs))
  {
    var head, chain := PathText(e), ChainText(fs);
    ChainShape(fs);
    ChainBack(fs);
    PathShape(e);
    PathBody(head, chain, at);
    PathLayout(e);
    PathWellFormed(e);
    RoundTrip(e);
  }

  /** A path and a chain of filters are told apart by the first bar. */
  lemma PathBody(head: string, chain: string, at: nat)
    requires IsPath(head) && '|' !in head && !IsSpace(head[|head| - 1])
    requires chain != "" && chain[0] == '|' && !IsSpace(chain[|chain| - 1])
    ensures Trim(head + chain) == head + chain && ParseBody(head + chain, at) == Ok(Source(PathSource(head), chain))
  {
    var body := head + chain;
    assert body[0] == '$' && body[|body| - 1] == chain[|chain| - 1];
    TrimmedStays(body);
    PathTaken(body, head, chain, at);
  }

  lemma PathTaken(body: string, head: string, chain: string, at: nat)
    requires IsPath(head) && '|' !in head && !IsSpace(head[|head| - 1])
    requires chain != "" && chain[0] == '|' && body == head + chain
    ensures ParseBody(body, at) == Ok(Source(PathSource(head), chain))
  {
    assert body == head + ['|'] + chain[1..];
    FindAt(head, '|', chain[1..]);
    assert body[..|head|] == head && body[|head|..] == chain && body[0] == '$';
    TrimmedStays(head);
  }

  /** A text that is read as one placeholder, whatever comes before and after it. */
  ghost predicate ReadAs(f: SlotReader, s: string, x: Part) {
    forall rest: string, at: nat, lit: string ::
      ScanTemplate(f, s + rest, at, lit) == Prepend(LitPart(lit) + [x], ScanTemplate(f, rest, at + |s|, ""))
  }

  ghost predicate ReadBack(f: SlotReader, w: SlotWriter, x: Part) { x.Slot? ==> ReadAs(f, w(x.node, x.filters), x) }

  ghost predicate AllReadBack(f: SlotReader, w: SlotWriter, parts: seq<Part>) {
    parts == [] || (ReadBack(f, w, parts[0]) && AllReadBack(f, w, parts[1..]))
  }

  /** A literal that was collected before, if any, and then parts that do not begin with another. */
  lemma {:induction false} TemplateBack(f: SlotReader, w: SlotWriter, parts: seq<Part>, at: nat, lit: string)
    requires Spaced(parts) && AllReadBack(f, w, parts)
    requires lit == "" || parts == [] || parts[0].Slot?
    ensures ScanTemplate(f, TextBy(w, parts), at, lit) == Ok(LitPart(lit) + parts)
    decreases |parts|
  {
    if parts == [] {
      assert LitPart(lit) + [] == LitPart(lit);
    } else {
      var more, rest := parts[1..], TextBy(w, parts[1..]);
      assert parts == [parts[0]] + more;
      match parts[0]
      case Slot(n, fs) =>
        TemplateBack(f, w, more, at + |w(n, fs)|, "");
        SlotJoin(f, w, parts[0], more, rest, at, lit);
      case Plain(t) =>
        TemplateBack(f, w, more, at + |Doubled(t)|, t);
        PlainJoin(f, t, more, rest, at);
    }
  }

  lemma SlotJoin(f: SlotReader, w: SlotWriter, x: Part, more: seq<Part>, rest: string, at: nat, lit: string)
    requires x.Slot? && ReadBack(f, w, x)
    requires ScanTemplate(f, rest, at + |w(x.node, x.filters)|, "") == Ok(LitPart("") + more)
    ensures ScanTemplate(f, w(x.node, x.filters) + rest, at, lit) == Ok(LitPart(lit) + ([x] + more))
  {
    assert LitPart("") + more == more;
    Associative(LitPart(lit), [x], more);
  }

  lemma PlainJoin(f: SlotReader, t: string, more: seq<Part>, rest: string, at: nat)
    requires t != "" && ScanTemplate(f, rest, at + |Doubled(t)|, t) == Ok(LitPart(t) + more)
    ensures ScanTemplate(f, Doubled(t) + rest, at, "") == Ok(LitPart("") + ([Plain(t)] + more))
  {
    DoubledScan(f, t, rest, at, "");
    assert "" + t == t;
    assert LitPart("") + ([Plain(t)] + more) == [Plain(t)] + more;
  }

  lemma HeldBack(f: SlotReader, body: string, x: Part)
    requires '}' !in body && body != "" && body[0] != '{' && forall at: nat :: f(Trim(body), at) == Ok(x)
    ensures ReadAs(f, "{" + body + "}", x)
  {
    forall rest: string, at: nat, lit: string
      ensures ScanTemplate(f, ("{" + body + "}") + rest, at, lit) ==
              Prepend(LitPart(lit) + [x], ScanTemplate(f, rest, at + |"{" + body + "}"|, ""))
    {
      HeldText(f, body, rest, at, lit, x);
    }
  }

  lemma BodyBack(e: Expr, fs: seq<Filter>, at: nat)
    requires PrintableSlot(e, fs)
    ensures var body := BodyText(e, fs);
            && '}' !in body && body != "" && body[0] != '{'
            && ParseSlot(Trim(body), at) == Ok(Slot(TreeNode(e), fs))
  {
    if fs == [] {
      HoldableBack(e, at);
    } else if e.Tr? {
      KeyBack(e.trKey, fs, at);
    } else {
      PathBack(e, fs, at);
    }
  }

  lemma BraceBack(x: Part)
    requires PrintablePart(x)
    ensures ReadBack(ParseSlot, BraceText, x)
  {
    if x.Slot? {
      forall at: nat ensures ParseSlot(Trim(BodyText(x.node.e, x.filters)), at) == Ok(x) {
        BodyBack(x.node.e, x.filters, at);
      }
      BodyBack(x.node.e, x.filters, 0);
      HeldBack(ParseSlot, BodyText(x.node.e, x.filters), x);
    }
  }

  lemma {:induction false} BracesBack(parts: seq<Part>)
    requires forall i | 0 <= i < |parts| :: PrintablePart(parts[i])
    ensures AllReadBack(ParseSlot, BraceText, parts)
  {
    if parts != [] {
      BraceBack(parts[0]);
      assert forall i | 0 <= i < |parts[1..]| :: parts[1..][i] == parts[i + 1];
      BracesBack(parts[1..]);
    }
  }

  /** Main result: a printed template parses to the parts it was printed from. */
  lemma {:induction false} TemplateRoundTrip(parts: seq<Part>)
    requires Printable(parts)
    ensures ParseTemplate(TemplateText(parts)) == Ok(parts)
  {
    BracesBack(parts);
    TemplateBack(ParseSlot, BraceText, parts, 0, "");
    assert LitPart("") + parts == parts;
  }
}
