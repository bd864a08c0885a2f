/**
 The group that a client address counts in for per-address limits
 (server/address-group.ts): `ipv6Words` and `addressGroup`.

 A `Spelling` is one way to write the eight words of an IPv6 address that
 section 2.2 of RFC 4291 allows: hexadecimal groups with leading zeros, one
 "::" for a run of zeros, and a dotted tail for the last two words. Every
 spelling of an address is read as exactly its words.
 `net.isIPv4` and `net.isIPv6` are parameters.
 */
module AddressGroup {
  import opened Text

  // ---------------------------------------------------------------- numbers in text

  predicate IsHexDigit(c: char) { IsDigit(c) || 'a' <= c <= 'f' }

  function HexDigit(c: char): (d: nat)
    requires IsHexDigit(c)
    ensures d < 16
  {
    if IsDigit(c) then (c - '0') as nat else 10 + (c - 'a') as nat
  }

  predicate AllHex(s: string) { forall i | 0 <= i < |s| :: IsHexDigit(s[i]) }

  /** `parseInt(s, 16)` */
  function HexValue(s: string): nat
    requires AllHex(s)
  {
    if s == "" then 0 else 16 * HexValue(s[..|s| - 1]) + HexDigit(s[|s| - 1])
  }

  /** What /^[0-9a-f]{1,4}$/ matches. */
  predicate HexGroup(s: string) { 1 <= |s| <= 4 && AllHex(s) }

  /** The greatest value of n hexadecimal digits. */
  function Most(n: nat): nat { if n == 0 then 0 else 16 * Most(n - 1) + 15 }

  lemma {:induction false} HexMost(s: string)
    requires AllHex(s)
    ensures HexValue(s) <= Most(|s|)
    ensures HexValue(s) == Most(|s|) <==> forall i | 0 <= i < |s| :: s[i] == 'f'
  {
    if s != "" {
      var a := s[..|s| - 1];
      HexMost(a);
      assert forall i | 0 <= i < |a| :: a[i] == s[i];
      assert HexDigit(s[|s| - 1]) == 15 <==> s[|s| - 1] == 'f';
    }
  }

  lemma HexBound(s: string)
    requires HexGroup(s)
    ensures HexValue(s) <= 0xffff
  {
    HexMost(s);
    assert Most(3) == 0xfff && Most(4) == 0xffff;
  }

  function HexChar(d: nat): (c: char)
    requires d < 16
    ensures IsHexDigit(c) && HexDigit(c) == d
  {
    if d < 10 then '0' + d as char else 'a' + (d - 10) as char
  }

  /** `n.toString(16)` */
  function HexText(n: nat): (s: string)
    ensures s != "" && AllHex(s) && HexValue(s) == n
  {
    if n < 16 then [HexChar(n)]
    else
      var front := HexText(n / 16);
      var s := front + [HexChar(n % 16)];
      assert s[..|s| - 1] == front;
      s
  }

  lemma HexTextShort(n: nat)
    requires n <= 0xffff
    ensures HexGroup(HexText(n))
  {
    assert n / 16 <= 0xfff && n / 16 / 16 <= 0xff && n / 16 / 16 / 16 <= 0xf;
    assert |HexText(n / 16 / 16 / 16)| == 1;
    assert |HexText(n / 16 / 16)| <= 2;
    assert |HexText(n / 16)| <= 3;
  }

  predicate AllDecimal(s: string) { forall i | 0 <= i < |s| :: IsDigit(s[i]) }

  function DecValue(s: string): nat
    requires AllDecimal(s)
  {
    if s == "" then 0 else 10 * DecValue(s[..|s| - 1]) + (s[|s| - 1] - '0') as nat
  }

  /** What \d{1,3} matches. */
  predicate Octet(s: string) { 1 <= |s| <= 3 && AllDecimal(s) }

  // ---------------------------------------------------------------- the dotted tail

  /** Four groups of one to three digits with points between. */
  predicate IsQuad(s: string) {
    var p := Split(s, '.');
    |p| == 4 && Octet(p[0]) && Octet(p[1]) && Octet(p[2]) && Octet(p[3])
  }

  /** The longest end of the text that is a quad: what the pattern with $ finds first. */
  function QuadTail(s: string): (r: Option<string>)
    ensures r.Some? ==> IsQuad(r.value) && |r.value| <= |s| && s[|s| - |r.value|..] == r.value
  {
    if IsQuad(s) then Some(s) else if s == "" then None else QuadTail(s[1..])
  }

  function QuadValues(s: string): seq<nat>
    requires IsQuad(s)
    ensures |QuadValues(s)| == 4
  {
    var p := Split(s, '.');
    [DecValue(p[0]), DecValue(p[1]), DecValue(p[2]), DecValue(p[3])]
  }

  /** Four octets as two 16-bit words. */
  function QuadWords(s: string): seq<nat>
    requires IsQuad(s)
    ensures |QuadWords(s)| == 2
  {
    var v := QuadValues(s);
    [v[0] * 256 + v[1], v[2] * 256 + v[3]]
  }

  predicate QuadInRange(s: string)
    requires IsQuad(s)
  {
    forall i | 0 <= i < 4 :: QuadValues(s)[i] <= 255
  }

  // ---------------------------------------------------------------- ipv6Words

  /** One ":" at the end goes, "::" stays. */
  function WithoutColon(s: string): string {
    var n := |s|;
    if n > 0 && s[n - 1] == ':' && !(n > 1 && s[n - 2] == ':') then s[..n - 1] else s
  }

  /** `split("::")` */
  function SplitDouble(s: string): (parts: seq<string>)
    ensures |parts| >= 1
    decreases |s|
  {
    var i := FindDouble(s, ':');
    if i == |s| then [s] else [s[..i]] + SplitDouble(s[i + 2..])
  }

  /** The groups of one half; None for a group that is not a number. */
  function GroupsOf(part: string): seq<Option<nat>> {
    if part == "" then [] else Numbers(Split(part, ':'))
  }

  function Numbers(groups: seq<string>): (ns: seq<Option<nat>>)
    ensures |ns| == |groups|
  {
    if groups == [] then []
    else [if HexGroup(groups[0]) then Some(HexValue(groups[0])) else None] + Numbers(groups[1..])
  }

  function Somes(ns: seq<nat>): seq<Option<nat>> { seq(|ns|, i requires 0 <= i < |ns| => Some(ns[i])) }

  function Zeros(n: nat): seq<nat> { seq(n, _ => 0) }

  /** `all.every(...)`: the words, if every one is a 16-bit number. */
  function AllWords(all: seq<Option<nat>>): (r: Option<seq<nat>>)
    ensures r.Some? ==> |r.value| == |all|
  {
    if all == [] then Some([])
    else if all[0].None? || all[0].value > 0xffff then None
    else
      match AllWords(all[1..])
      case None => None
      case Some(rest) => Some([all[0].value] + rest)
  }

  /** The words from the two halves and the tail. */
  function Assemble(halves: seq<string>, tail: seq<nat>): (r: Option<seq<nat>>)
    requires |halves| >= 1
    ensures r.Some? ==> |r.value| == 8
  {
    if |halves| > 2 then None
    else
      var head := GroupsOf(halves[0]);
      var rest := if |halves| == 2 then GroupsOf(halves[1]) else [];
      var fill := 8 - |tail| - |head| - |rest|;
      if fill < 0 || (|halves| == 1 && fill != 0) then None
      else AllWords(head + Somes(Zeros(fill)) + rest + Somes(tail))
  }

  function Ipv6Words(address: string): (r: Option<seq<nat>>)
    ensures r.Some? ==> |r.value| == 8
  {
    match QuadTail(address)
    case None => Assemble(SplitDouble(address), [])
    case Some(q) =>
      if !QuadInRange(q) then None
      else Assemble(SplitDouble(WithoutColon(address[..|address| - |q|])), QuadWords(q))
  }

  // ---------------------------------------------------------------- spellings

  /** Groups, at most one "::" after the first ones, and at most one dotted tail (four octets). */
  datatype Spelling = Spelling(head: seq<string>, zeros: bool, rest: seq<string>, quad: seq<string>)

  predicate Groups(gs: seq<string>) { forall i | 0 <= i < |gs| :: HexGroup(gs[i]) }

  predicate GoodQuad(q: seq<string>) {
    |q| == 4 && forall i | 0 <= i < 4 :: Octet(q[i]) && DecValue(q[i]) <= 255
  }

  /** How many words are written. */
  function Written(sp: Spelling): nat { |sp.head| + |sp.rest| + if sp.quad == [] then 0 else 2 }

  /** Eight words are written, or fewer and the zeros are marked. */
  predicate Valid(sp: Spelling) {
    && Groups(sp.head) && Groups(sp.rest)
    && (sp.quad != [] ==> GoodQuad(sp.quad))
    && if sp.zeros then Written(sp) <= 7 else Written(sp) == 8 && sp.rest == []
  }

  function QuadText(sp: Spelling): string { Join(sp.quad, ".") }

  /** The groups, and the mark for the zeros. */
  function Front(sp: Spelling): string {
    Join(sp.head, ":") + (if sp.zeros then "::" + Join(sp.rest, ":") else "")
  }

  /** What stands before the dotted tail, with the colon that a group before it needs. */
  function BeforeTail(sp: Spelling): string { Front(sp) + if sp.zeros && sp.rest == [] then "" else ":" }

  function TextOf(sp: Spelling): string {
    if sp.quad == [] then Front(sp) else BeforeTail(sp) + QuadText(sp)
  }

  function Values(gs: seq<string>): seq<nat>
    requires Groups(gs)
  {
    seq(|gs|, i requires 0 <= i < |gs| => HexValue(gs[i]))
  }

  /** The words of the dotted tail. */
  function TailWords(sp: Spelling): seq<nat>
    requires Valid(sp)
  {
    if sp.quad == [] then []
    else [DecValue(sp.quad[0]) * 256 + DecValue(sp.quad[1]), DecValue(sp.quad[2]) * 256 + DecValue(sp.quad[3])]
  }

  /** The address that a spelling means. */
  function Meaning(sp: Spelling): (ws: seq<nat>)
    requires Valid(sp)
    ensures |ws| == 8
  {
    Values(sp.head) + Zeros(8 - Written(sp)) + Values(sp.rest) + TailWords(sp)
  }

  // ---------------------------------------------------------------- reading a spelling

  lemma NoColonInGroups(gs: seq<string>)
    requires Groups(gs)
    ensures FullParts(gs, ':')
  {}

  lemma {:induction false} NumbersBack(gs: seq<string>)
    requires Groups(gs)
    ensures Numbers(gs) == Somes(Values(gs))
  {
    if gs != [] {
      NumbersBack(gs[1..]);
      assert Values(gs) == [HexValue(gs[0])] + Values(gs[1..]);
      assert Somes(Values(gs)) == [Some(HexValue(gs[0]))] + Somes(Values(gs[1..]));
    }
  }

  lemma GroupsBack(gs: seq<string>)
    requires Groups(gs)
    ensures GroupsOf(Join(gs, ":")) == Somes(Values(gs))
  {
    NoColonInGroups(gs);
    JoinNoDouble(gs, ':');
    if gs != [] {
      SplitJoin(gs, ':');
    }
    NumbersBack(gs);
  }

  lemma FrontSplits(sp: Spelling)
    requires Groups(sp.head) && Groups(sp.rest)
    ensures SplitDouble(Front(sp)) ==
            if sp.zeros then [Join(sp.head, ":"), Join(sp.rest, ":")] else [Join(sp.head, ":")]
  {
    NoColonInGroups(sp.head);
    NoColonInGroups(sp.rest);
    JoinNoDouble(sp.head, ':');
    JoinNoDouble(sp.rest, ':');
    assert ":" == [':'];
    var h, r := Join(sp.head, ":"), Join(sp.rest, ":");
    if sp.zeros {
      assert Front(sp) == h + [':', ':'] + r;
      OneDouble(h, r, Front(sp));
    } else {
      assert Front(sp) == h;
    }
  }

  lemma OneDouble(h: string, r: string, s: string)
    requires FindDouble(h, ':') == |h| && FindDouble(r, ':') == |r| && (h != "" ==> h[|h| - 1] != ':')
    requires s == h + [':', ':'] + r
    ensures SplitDouble(s) == [h, r]
  {
    DoubleAfter(h, ':', r);
    assert s[..|h|] == h && s[|h| + 2..] == r;
  }

  lemma {:induction false} AllWordsBack(ns: seq<nat>)
    requires forall i | 0 <= i < |ns| :: ns[i] <= 0xffff
    ensures AllWords(Somes(ns)) == Some(ns)
  {
    if ns != [] {
      AllWordsBack(ns[1..]);
      assert Somes(ns)[1..] == Somes(ns[1..]);
      assert [ns[0]] + ns[1..] == ns;
    }
  }

  lemma MeaningBound(sp: Spelling)
    requires Valid(sp)
    ensures forall i | 0 <= i < 8 :: Meaning(sp)[i] <= 0xffff
  {
    forall i | 0 <= i < |sp.head| ensures HexValue(sp.head[i]) <= 0xffff {
      HexBound(sp.head[i]);
    }
    forall i | 0 <= i < |sp.rest| ensures HexValue(sp.rest[i]) <= 0xffff {
      HexBound(sp.rest[i]);
    }
  }

  lemma SomesParts(h: seq<nat>, z: seq<nat>, r: seq<nat>, t: seq<nat>)
    ensures Somes(h + z + r + t) == Somes(h) + Somes(z) + Somes(r) + Somes(t)
  {
    SomesJoin(h, z);
    SomesJoin(h + z, r);
    SomesJoin(h + z + r, t);
  }

  lemma AssembleHalves(halves: seq<string>, h: seq<nat>, r: seq<nat>, t: seq<nat>, ws: seq<nat>)
    requires 1 <= |halves| <= 2 && GroupsOf(halves[0]) == Somes(h)
    requires if |halves| == 2 then GroupsOf(halves[1]) == Somes(r) else r == [] && |h| + |t| == 8
    requires |h| + |r| + |t| <= 8 && ws == h + Zeros(8 - |t| - |h| - |r|) + r + t
    requires forall i | 0 <= i < |ws| :: ws[i] <= 0xffff
    ensures Assemble(halves, t) == Some(ws)
  {
    AllWordsBack(ws);
    SomesParts(h, Zeros(8 - |t| - |h| - |r|), r, t);
    assert Somes([]) == [];
  }

  lemma AssembleBack(sp: Spelling)
    requires Valid(sp)
    ensures Assemble(SplitDouble(Front(sp)), TailWords(sp)) == Some(Meaning(sp))
  {
    FrontSplits(sp);
    GroupsBack(sp.head);
    GroupsBack(sp.rest);
    MeaningBound(sp);
    AssembleHalves(SplitDouble(Front(sp)), Values(sp.head), Values(sp.rest), TailWords(sp), Meaning(sp));
  }

  lemma SomesJoin(a: seq<nat>, b: seq<nat>)
    ensures Somes(a + b) == Somes(a) + Somes(b)
  {}

  lemma {:induction false} NoQuad(s: string)
    requires '.' !in s
    ensures QuadTail(s) == None
  {
    FindIs(s, '.', |s|);
    if s != "" {
      NoQuad(s[1..]);
    }
  }

  lemma QuadBack(q: seq<string>)
    requires GoodQuad(q)
    ensures Split(Join(q, "."), '.') == q && IsQuad(Join(q, ".")) && QuadInRange(Join(q, "."))
    ensures QuadWords(Join(q, ".")) ==
            [DecValue(q[0]) * 256 + DecValue(q[1]), DecValue(q[2]) * 256 + DecValue(q[3])]
  {
    SplitJoin(q, '.');
  }

  /** The piece before the first dot starts with the front. */
  lemma FirstPiece(front: string, q: string)
    requires IsQuad(q) && front != "" && '.' !in front
    ensures Split(front + q, '.')[0] == front + Split(q, '.')[0]
  {
    var p := Split(q, '.');
    JoinSplit(q, '.');
    var rest := Join(p[1..], ".");
    assert q == p[0] + ['.'] + rest;
    assert front + q == (front + p[0]) + ['.'] + rest;
    assert p[0] in p;
    FindAt(front + p[0], '.', rest);
    assert ((front + p[0]) + ['.'] + rest)[..|front + p[0]|] == front + p[0];
  }

  lemma NotAQuad(front: string, q: string)
    requires IsQuad(q) && front != "" && front[|front| - 1] == ':' && '.' !in front
    ensures !IsQuad(front + q)
  {
    FirstPiece(front, q);
    var first := front + Split(q, '.')[0];
    assert first[|front| - 1] == ':';
    assert !Octet(first);
  }

  /** A colon before the tail keeps any longer end from being a quad. */
  lemma {:induction false} QuadAfter(front: string, q: string)
    requires IsQuad(q) && (front == "" || front[|front| - 1] == ':') && '.' !in front
    ensures QuadTail(front + q) == Some(q)
  {
    if front == "" {
      assert front + q == q;
    } else {
      NotAQuad(front, q);
      assert (front + q)[1..] == front[1..] + q;
      QuadAfter(front[1..], q);
    }
  }

  lemma {:induction false} JoinChars(parts: seq<string>, c: char, x: char)
    requires x != c && forall i | 0 <= i < |parts| :: x !in parts[i]
    ensures x !in Join(parts, [c])
  {
    if |parts| > 1 {
      JoinChars(parts[1..], c, x);
    }
  }

  lemma FrontHasNo(sp: Spelling, x: char)
    requires Groups(sp.head) && Groups(sp.rest) && !IsHexDigit(x) && x != ':'
    ensures x !in Front(sp)
  {
    JoinChars(sp.head, ':', x);
    JoinChars(sp.rest, ':', x);
  }

  /** What stands before the tail, with its colon, loses just that colon. */
  lemma FrontBack(sp: Spelling)
    requires Valid(sp) && sp.quad != []
    ensures var f := BeforeTail(sp);
            WithoutColon(f) == Front(sp) && f != "" && f[|f| - 1] == ':'
  {
    NoColonInGroups(sp.head);
    NoColonInGroups(sp.rest);
    JoinNoDouble(sp.head, ':');
    JoinNoDouble(sp.rest, ':');
    var h, r := Join(sp.head, ":"), Join(sp.rest, ":");
    if sp.zeros && sp.rest == [] {
      assert Front(sp) == h + "::" && Front(sp) + "" == Front(sp);
    } else {
      var f := Front(sp) + ":";
      if sp.zeros {
        assert Front(sp)[|Front(sp)| - 1] == r[|r| - 1];
      } else {
        assert Front(sp) == h;
      }
      assert f[|f| - 2] == Front(sp)[|Front(sp)| - 1];
      assert f[..|f| - 1] == Front(sp);
    }
  }

  lemma ReadTail(f: string, q: string, front: string, ws: seq<nat>)
    requires IsQuad(q) && QuadInRange(q) && f != "" && f[|f| - 1] == ':' && '.' !in f
    requires front == WithoutColon(f) && ws == QuadWords(q)
    ensures Ipv6Words(f + q) == Assemble(SplitDouble(front), ws)
  {
    QuadAfter(f, q);
    assert (f + q)[..|f + q| - |q|] == f;
  }

  /** Main result: every spelling is read as exactly the eight words it means. */
  lemma SpellingRead(sp: Spelling)
    requires Valid(sp)
    ensures Ipv6Words(TextOf(sp)) == Some(Meaning(sp))
  {
    AssembleBack(sp);
    if sp.quad == [] {
      FrontHasNo(sp, '.');
      NoQuad(Front(sp));
    } else {
      TailedRead(sp);
    }
  }

  lemma TailedRead(sp: Spelling)
    requires Valid(sp) && sp.quad != []
    ensures Ipv6Words(TextOf(sp)) == Assemble(SplitDouble(Front(sp)), TailWords(sp))
  {
    var f := BeforeTail(sp);
    assert '.' !in f by {
      FrontHasNo(sp, '.');
    }
    FrontBack(sp);
    QuadBack(sp.quad);
    ReadTail(f, QuadText(sp), Front(sp), TailWords(sp));
  }

  // ---------------------------------------------------------------- addressGroup

  /** The predicates of node:net. */
  datatype Net = Net(isIPv4: string -> bool, isIPv6: string -> bool)

  /** `toLowerCase` on ASCII letters. */
  function Lower(s: string): string {
    seq(|s|, i requires 0 <= i < |s| => if 'A' <= s[i] <= 'Z' then 'a' + (s[i] - 'A') else s[i])
  }

  function Before(s: string, c: char): string { s[..Find(s, c)] }

  function WithoutBrackets(a: string): string {
    if |a| > 1 && a[0] == '[' && a[|a| - 1] == ']' then a[1..|a| - 1] else a
  }

  /** The address without white space, capitals, brackets and zone. */
  function Plain(ip: string): string { Before(WithoutBrackets(Lower(Trim(ip))), '%') }

  predicate ZeroGroup(s: string) { |s| <= 4 && forall i | 0 <= i < |s| :: s[i] == '0' }

  /** What (?:0{0,4}:)*:? matches: groups of at most four zeros, each with its colon. */
  predicate ZeroPrefix(s: string) {
    var p := Split(s, ':');
    p[|p| - 1] == "" && forall i | 0 <= i < |p| :: ZeroGroup(p[i])
  }

  /** What the pattern wants before the quad: zeros, then ffff and a colon. */
  predicate MappedFront(f: string) { |f| >= 5 && f[|f| - 5..] == "ffff:" && ZeroPrefix(f[..|f| - 5]) }

  /** The dotted tail of an IPv4-mapped address: zeros, then ffff:, then the quad. */
  function MappedQuad(a: string): Option<string> {
    match QuadTail(a)
    case None => None
    case Some(q) =>
      var f := a[..|a| - |q|];
      if MappedFront(f) then Some(q) else None
  }

  function Prefix(ws: seq<nat>): string
    requires |ws| >= 4
  {
    Join([HexText(ws[0]), HexText(ws[1]), HexText(ws[2]), HexText(ws[3])], ":") + "::"
  }

  function Short(a: string): string { if |a| > 64 then a[..64] else a }

  function AddressGroup(net: Net, ip: string): string {
    if Trim(ip) == "" then ""
    else
      var a := Plain(ip);
      var mapped := MappedQuad(a);
      if mapped.Some? && net.isIPv4(mapped.value) then mapped.value
      else if net.isIPv4(a) then a
      else if !net.isIPv6(a) then Short(a)
      else
        match Ipv6Words(a)
        case None => Short(a)
        case Some(ws) => Prefix(ws) + "/64"
  }

  predicate SameAddressGroup(net: Net, a: string, b: string) {
    AddressGroup(net, a) != "" && AddressGroup(net, a) == AddressGroup(net, b)
  }

  // ---------------------------------------------------------------- groups of spellings

  /** An IPv4-mapped address: ::ffff:0:0/96. */
  predicate IsMapped(ws: seq<nat>)
    requires |ws| == 8
  {
    (forall i | 0 <= i < 5 :: ws[i] == 0) && ws[5] == 0xffff
  }

  lemma {:induction false} ZeroValue(s: string)
    requires AllHex(s)
    ensures HexValue(s) == 0 <==> forall i | 0 <= i < |s| :: s[i] == '0'
  {
    if s != "" {
      ZeroValue(s[..|s| - 1]);
      assert forall i | 0 <= i < |s| - 1 :: s[..|s| - 1][i] == s[i];
    }
  }

  lemma FullValue(s: string)
    requires HexGroup(s)
    ensures HexValue(s) == 0xffff <==> s == "ffff"
  {
    HexMost(s);
    assert Most(3) == 0xfff && Most(4) == 0xffff;
    if |s| == 4 && forall i | 0 <= i < |s| :: s[i] == 'f' {
      assert s == "ffff";
    }
  }

  /** The pieces between the colons before a dotted tail. */
  function Pieces(sp: Spelling): seq<string> {
    if !sp.zeros then sp.head + [""]
    else (if sp.head == [] then [""] else sp.head) + [""] + (if sp.rest == [] then [""] else sp.rest + [""])
  }

  lemma {:induction false} JoinAppend(a: seq<string>, b: seq<string>, sep: string)
    requires a != [] && b != []
    ensures Join(a + b, sep) == Join(a, sep) + sep + Join(b, sep)
  {
    if |a| == 1 {
      assert (a + b)[1..] == b;
    } else {
      assert (a + b)[1..] == a[1..] + b;
      JoinAppend(a[1..], b, sep);
      Associative(a[0] + sep, Join(a[1..], sep) + sep, Join(b, sep));
      Associative(a[0] + sep, Join(a[1..], sep), sep);
    }
  }

  lemma PiecesJoined(sp: Spelling)
    requires Valid(sp) && sp.quad != []
    ensures Join(Pieces(sp), ":") == BeforeTail(sp)
  {
    if !sp.zeros {
      JoinAppend(sp.head, [""], ":");
    } else {
      var h := if sp.head == [] then [""] else sp.head;
      assert Join(h, ":") == Join(sp.head, ":");
      if sp.rest == [] {
        PiecesEndZero(sp, h);
      } else {
        PiecesHoldZero(sp, h);
      }
    }
  }

  lemma PiecesEndZero(sp: Spelling, h: seq<string>)
    requires sp.zeros && sp.rest == [] && h == (if sp.head == [] then [""] else sp.head)
    requires Join(h, ":") == Join(sp.head, ":")
    ensures Join(Pieces(sp), ":") == BeforeTail(sp)
  {
    assert Pieces(sp) == h + [""] + [""];
    ZerosLast(h);
  }

  lemma PiecesHoldZero(sp: Spelling, h: seq<string>)
    requires sp.zeros && sp.rest != [] && h == (if sp.head == [] then [""] else sp.head)
    requires Join(h, ":") == Join(sp.head, ":")
    ensures Join(Pieces(sp), ":") == BeforeTail(sp)
  {
    assert Pieces(sp) == h + [""] + (sp.rest + [""]);
    ZerosJoined(h, sp.rest);
  }

  lemma ZerosLast(h: seq<string>)
    requires h != []
    ensures Join(h + [""] + [""], ":") == Join(h, ":") + "::"
  {
    JoinAppend(h + [""], [""], ":");
    JoinAppend(h, [""], ":");
    var a := Join(h, ":");
    assert ":" + ":" == "::" && a + ":" + "" == a + ":";
    Tack(a, ":", ":", "::");
  }

  lemma ZerosJoined(h: seq<string>, rest: seq<string>)
    requires h != [] && rest != []
    ensures Join(h + [""] + (rest + [""]), ":") == Join(h, ":") + "::" + Join(rest, ":") + ":"
  {
    JoinAppend(h + [""], rest + [""], ":");
    JoinAppend(h, [""], ":");
    JoinAppend(rest, [""], ":");
    var a, b := Join(h, ":"), Join(rest, ":");
    assert a + ":" + "" == a + ":" && b + ":" + "" == b + ":" && ":" + ":" == "::";
    Tack(a, ":", ":", "::");
    Associative(a + "::", b, ":");
  }

  lemma PiecesHaveNoColon(sp: Spelling)
    requires Valid(sp)
    ensures forall i | 0 <= i < |Pieces(sp)| :: ':' !in Pieces(sp)[i]
  {}

  /** The pieces say that zeros come first, and then ffff. */
  predicate MappedPieces(ps: seq<string>) {
    && |ps| >= 2 && ps[|ps| - 2] == "ffff"
    && forall i | 0 <= i < |ps| - 2 :: ZeroGroup(ps[i])
  }

  lemma Tack(a: string, b: string, c: string, bc: string)
    requires b + c == bc
    ensures a + b + c == a + bc
  {
    Associative(a, b, c);
  }

  lemma FrontToPieces(ps: seq<string>, front: string)
    requires |ps| >= 2 && forall i | 0 <= i < |ps| :: ':' !in ps[i]
    requires Join(ps, ":") == front + "ffff:" && ZeroPrefix(front)
    ensures MappedPieces(ps)
  {
    var all := ZerosOf(front);
    PiecesOfFront(ps, front, all);
  }

  lemma ZerosOf(front: string) returns (all: seq<string>)
    requires ZeroPrefix(front)
    ensures Join(all, ":") == front && all != [] && all[|all| - 1] == ""
    ensures forall z | z in all :: ':' !in z
    ensures forall i | 0 <= i < |all| :: ZeroGroup(all[i])
  {
    all := Split(front, ':');
    JoinSplit(front, ':');
    assert [':'] == ":";
  }

  lemma PiecesOfFront(ps: seq<string>, front: string, all: seq<string>)
    requires |ps| >= 2 && forall i | 0 <= i < |ps| :: ':' !in ps[i]
    requires Join(ps, ":") == front + "ffff:" && Join(all, ":") == front
    requires all != [] && all[|all| - 1] == ""
    requires forall z | z in all :: ':' !in z
    requires forall i | 0 <= i < |all| :: ZeroGroup(all[i])
    ensures MappedPieces(ps)
  {
    var zs := all[..|all| - 1];
    assert all == zs + [""];
    FfffAfter(zs, front);
    FfffSplit(zs, all);
    SamePieces(ps, zs + ["ffff", ""]);
    FfffMapped(zs, ps);
  }

  lemma FfffAfter(zs: seq<string>, front: string)
    requires Join(zs + [""], ":") == front
    ensures Join(zs + ["ffff", ""], ":") == front + "ffff:"
  {
    JoinTwo(zs, "ffff");
    assert "ffff" + ":" == "ffff:";
    Tack(front, "ffff", ":", "ffff:");
  }

  lemma FfffSplit(zs: seq<string>, all: seq<string>)
    requires all == zs + [""] && forall z | z in all :: ':' !in z
    ensures Split(Join(zs + ["ffff", ""], ":"), ':') == zs + ["ffff", ""]
  {
    var qs := zs + ["ffff", ""];
    assert [':'] == ":";
    forall i | 0 <= i < |qs| ensures ':' !in qs[i] {
      if i < |zs| {
        assert qs[i] == all[i];
      }
    }
    SplitJoin(qs, ':');
  }

  lemma FfffMapped(zs: seq<string>, ps: seq<string>)
    requires ps == zs + ["ffff", ""] && forall i | 0 <= i < |zs| :: ZeroGroup(zs[i])
    ensures MappedPieces(ps)
  {}

  lemma SamePieces(ps: seq<string>, qs: seq<string>)
    requires ps != [] && forall i | 0 <= i < |ps| :: ':' !in ps[i]
    requires Split(Join(qs, ":"), ':') == qs && Join(ps, ":") == Join(qs, ":")
    ensures ps == qs
  {
    SplitJoin(ps, ':');
  }

  lemma PiecesToFront(ps: seq<string>, zs: seq<string>)
    requires MappedPieces(ps) && ps[|ps| - 1] == "" && zs == ps[..|ps| - 2]
    ensures Join(ps, ":") == Join(zs + [""], ":") + "ffff:" && ZeroPrefix(Join(zs + [""], ":"))
  {
    assert ps == zs + ["ffff", ""];
    JoinTwo(zs, "ffff");
    var front := Join(zs + [""], ":");
    assert front + "ffff" + ":" == front + "ffff:";
    ZeroTexts(zs);
  }

  lemma ZeroTexts(zs: seq<string>)
    requires forall i | 0 <= i < |zs| :: ZeroGroup(zs[i])
    ensures ZeroPrefix(Join(zs + [""], ":"))
  {
    var ps := zs + [""];
    forall p | p in ps ensures ':' !in p {
      assert p in zs || p == "";
    }
    SplitJoin(ps, ':');
    assert ":" == [':'];
    SplitZeros(Join(ps, ":"), ps);
  }

  lemma SplitZeros(s: string, ps: seq<string>)
    requires Split(s, ':') == ps && ps[|ps| - 1] == "" && forall i | 0 <= i < |ps| :: ZeroGroup(ps[i])
    ensures ZeroPrefix(s)
  {}

  /** The pattern before the quad, on the pieces. */
  lemma FrontMapped(ps: seq<string>, f: string)
    requires |ps| >= 2 && ps[|ps| - 1] == "" && forall i | 0 <= i < |ps| :: ':' !in ps[i]
    requires f == Join(ps, ":")
    ensures MappedFront(f) <==> MappedPieces(ps)
  {
    if MappedFront(f) {
      assert f == f[..|f| - 5] + "ffff:";
      FrontToPieces(ps, f[..|f| - 5]);
    }
    if MappedPieces(ps) {
      var front := Join(ps[..|ps| - 2] + [""], ":");
      PiecesToFront(ps, ps[..|ps| - 2]);
      assert f[..|f| - 5] == front && f[|f| - 5..] == "ffff:";
    }
  }

  /** A last piece before the final colon. */
  lemma JoinTwo(zs: seq<string>, x: string)
    ensures Join(zs + [x, ""], ":") == Join(zs + [""], ":") + x + ":"
  {
    if zs == [] {
      assert zs + [x, ""] == [x, ""] && zs + [""] == [""];
      assert [x, ""][1..] == [""];
    } else {
      JoinAppend(zs, [x, ""], ":");
      JoinAppend(zs, [""], ":");
      assert [x, ""][1..] == [""];
    }
  }

  lemma GroupZero(s: string)
    requires HexGroup(s)
    ensures ZeroGroup(s) <==> HexValue(s) == 0
  {
    ZeroValue(s);
  }

  /** The pieces are those of a mapped address exactly when the meaning is one. */
  lemma PiecesMapped(sp: Spelling)
    requires Valid(sp) && sp.quad != []
    ensures MappedPieces(Pieces(sp)) <==> IsMapped(Meaning(sp))
  {
    if !sp.zeros {
      HeadMapped(Pieces(sp), Meaning(sp), sp.head);
    } else if sp.rest == [] {
      assert Meaning(sp)[5] == 0;
      assert Pieces(sp)[|Pieces(sp)| - 2] == "";
    } else {
      RestAt(sp);
      RestMapped(Pieces(sp), Meaning(sp), sp.head, sp.rest);
    }
  }

  lemma HeadMapped(ps: seq<string>, ws: seq<nat>, head: seq<string>)
    requires |ws| == 8 && Groups(head) && |head| == 6 && ps == head + [""]
    requires forall i | 0 <= i < 6 :: ws[i] == HexValue(head[i])
    ensures MappedPieces(ps) <==> IsMapped(ws)
  {
    FullValue(head[5]);
    AllZeroGroups(head[..5]);
    assert forall i | 0 <= i < 5 :: ps[i] == head[i] && head[..5][i] == head[i];
    assert AllZero(head[..5]) <==> forall i | 0 <= i < 5 :: ws[i] == 0;
    assert (forall i | 0 <= i < 5 :: ZeroGroup(head[..5][i])) <==> forall i | 0 <= i < 5 :: ZeroGroup(ps[i]);
  }

  /** Where the groups around the zeros are, among the pieces and among the words. */
  predicate Laid(ps: seq<string>, ws: seq<nat>, head: seq<string>, rest: seq<string>) {
    var h, r := |head|, |rest|;
    var lead := if h == 0 then 1 else h;
    && |ws| == 8 && Groups(head) && Groups(rest) && rest != [] && h + r <= 5
    && |ps| == lead + 1 + r + 1 && ps[lead] == "" && (h == 0 ==> ps[0] == "")
    && (forall i | 0 <= i < h :: ps[i] == head[i] && ws[i] == HexValue(head[i]))
    && (forall i | 0 <= i < r :: ps[lead + 1 + i] == rest[i])
    && (forall i | 0 <= i < r :: ws[6 - r + i] == HexValue(rest[i]))
    && (forall i | h <= i < 6 - r :: ws[i] == 0)
  }

  lemma RestAt(sp: Spelling)
    requires Valid(sp) && sp.quad != [] && sp.zeros && sp.rest != []
    ensures Laid(Pieces(sp), Meaning(sp), sp.head, sp.rest)
  {
    var first := if sp.head == [] then [""] else sp.head;
    FourJoined(first, [""], sp.rest, [""], Pieces(sp));
    FourJoined(Values(sp.head), Zeros(8 - Written(sp)), Values(sp.rest), TailWords(sp), Meaning(sp));
    LaidOut(Pieces(sp), Meaning(sp), sp.head, sp.rest, first, Zeros(8 - Written(sp)));
  }

  /** Where the items of four lists are in the one that joins them. */
  lemma FourJoined<T>(a: seq<T>, b: seq<T>, c: seq<T>, d: seq<T>, all: seq<T>)
    requires all == a + b + c + d || all == a + b + (c + d)
    ensures |all| == |a| + |b| + |c| + |d|
    ensures forall i | 0 <= i < |a| :: all[i] == a[i]
    ensures forall i | 0 <= i < |b| :: all[|a| + i] == b[i]
    ensures forall i | 0 <= i < |c| :: all[|a| + |b| + i] == c[i]
  {}

  lemma LaidOut(ps: seq<string>, ws: seq<nat>, head: seq<string>, rest: seq<string>, first: seq<string>,
                zeros: seq<nat>)
    requires Groups(head) && Groups(rest) && rest != [] && |head| + |rest| <= 5 && |ws| == 8
    requires first == (if head == [] then [""] else head) && |ps| == |first| + 1 + |rest| + 1
    requires forall i | 0 <= i < |first| :: ps[i] == first[i]
    requires ps[|first| + 0] == ""
    requires forall i | 0 <= i < |rest| :: ps[|first| + 1 + i] == rest[i]
    requires forall i | 0 <= i < |head| :: ws[i] == HexValue(head[i])
    requires |zeros| == 6 - |head| - |rest| && forall i | 0 <= i < |zeros| :: zeros[i] == 0
    requires forall i | 0 <= i < |zeros| :: ws[|head| + i] == zeros[i]
    requires forall i | 0 <= i < |rest| :: ws[6 - |rest| + i] == HexValue(rest[i])
    ensures Laid(ps, ws, head, rest)
  {
    forall i | |head| <= i < 6 - |rest| ensures ws[i] == 0 {
      assert zeros[i - |head|] == 0;
    }
  }

  lemma RestMapped(ps: seq<string>, ws: seq<nat>, head: seq<string>, rest: seq<string>)
    requires Laid(ps, ws, head, rest)
    ensures MappedPieces(ps) <==> IsMapped(ws)
  {
    RestPieces(ps, head, rest, if head == [] then 1 else |head|);
    RestWords(ws, head, rest);
  }

  /** Every group written before the tail is zero, but for the last one. */
  predicate ZeroGroups(head: seq<string>, rest: seq<string>)
    requires rest != []
  {
    && (forall i | 0 <= i < |head| :: ZeroGroup(head[i]))
    && (forall i | 0 <= i < |rest| - 1 :: ZeroGroup(rest[i]))
    && rest[|rest| - 1] == "ffff"
  }

  lemma RestPieces(ps: seq<string>, head: seq<string>, rest: seq<string>, lead: nat)
    requires rest != [] && lead == (if head == [] then 1 else |head|) && |ps| == lead + 1 + |rest| + 1
    requires ps[lead] == "" && (head == [] ==> ps[0] == "")
    requires forall i | 0 <= i < |head| :: ps[i] == head[i]
    requires forall i | 0 <= i < |rest| :: ps[lead + 1 + i] == rest[i]
    ensures MappedPieces(ps) <==> ZeroGroups(head, rest)
  {
    var r := |rest|;
    assert ps[lead + 1 + (r - 1)] == rest[r - 1];
    if MappedPieces(ps) {
      forall i | 0 <= i < r - 1 ensures ZeroGroup(rest[i]) {
        assert ZeroGroup(ps[lead + 1 + i]);
      }
      forall i | 0 <= i < |head| ensures ZeroGroup(head[i]) {
        assert ZeroGroup(ps[i]);
      }
    }
    if ZeroGroups(head, rest) {
      forall i | 0 <= i < |ps| - 2 ensures ZeroGroup(ps[i]) {
        if i > lead {
          assert ps[lead + 1 + (i - lead - 1)] == rest[i - lead - 1];
        }
      }
    }
  }

  predicate AllZero(gs: seq<string>)
    requires Groups(gs)
  {
    forall i | 0 <= i < |gs| :: HexValue(gs[i]) == 0
  }

  lemma AllZeroGroups(gs: seq<string>)
    requires Groups(gs)
    ensures AllZero(gs) <==> forall i | 0 <= i < |gs| :: ZeroGroup(gs[i])
  {
    forall i | 0 <= i < |gs| ensures ZeroGroup(gs[i]) <==> HexValue(gs[i]) == 0 {
      GroupZero(gs[i]);
    }
  }

  lemma RestWords(ws: seq<nat>, head: seq<string>, rest: seq<string>)
    requires |ws| == 8 && Groups(head) && Groups(rest) && rest != [] && |head| + |rest| <= 5
    requires forall i | 0 <= i < |head| :: ws[i] == HexValue(head[i])
    requires forall i | 0 <= i < |rest| :: ws[6 - |rest| + i] == HexValue(rest[i])
    requires forall i | |head| <= i < 6 - |rest| :: ws[i] == 0
    ensures IsMapped(ws) <==> ZeroGroups(head, rest)
  {
    var r := |rest|;
    assert ws[6 - r + (r - 1)] == HexValue(rest[r - 1]);
    FullValue(rest[r - 1]);
    ZeroWords(ws, head, rest);
    AllZeroGroups(head);
    AllZeroGroups(rest[..r - 1]);
  }

  /** The first five words are zero exactly when the groups that fill them are. */
  lemma ZeroWords(ws: seq<nat>, head: seq<string>, rest: seq<string>)
    requires |ws| == 8 && Groups(head) && Groups(rest) && rest != [] && |head| + |rest| <= 5
    requires forall i | 0 <= i < |head| :: ws[i] == HexValue(head[i])
    requires forall i | 0 <= i < |rest| :: ws[6 - |rest| + i] == HexValue(rest[i])
    requires forall i | |head| <= i < 6 - |rest| :: ws[i] == 0
    ensures (forall i | 0 <= i < 5 :: ws[i] == 0) <==> AllZero(head) && AllZero(rest[..|rest| - 1])
  {
    var r := |rest|;
    var front := rest[..r - 1];
    if AllZero(head) && AllZero(front) {
      forall i | 0 <= i < 5 ensures ws[i] == 0 {
        if i >= 6 - r {
          assert ws[6 - r + (i - (6 - r))] == HexValue(front[i - (6 - r)]);
        }
      }
    }
    if forall i | 0 <= i < 5 :: ws[i] == 0 {
      forall i | 0 <= i < r - 1 ensures HexValue(front[i]) == 0 {
        assert ws[6 - r + i] == HexValue(rest[i]);
      }
    }
  }

  /** The pattern finds the quad of exactly the spellings that mean a mapped address and are written with one. */
  lemma MappedOf(sp: Spelling)
    requires Valid(sp)
    ensures MappedQuad(TextOf(sp)) ==
            if sp.quad != [] && IsMapped(Meaning(sp)) then Some(QuadText(sp)) else None
  {
    FrontHasNo(sp, '.');
    if sp.quad == [] {
      NoQuad(Front(sp));
    } else {
      FrontBack(sp);
      QuadBack(sp.quad);
      MappedTail(BeforeTail(sp), QuadText(sp));
      BeforeMapped(sp);
    }
  }

  /** What stands before the dotted tail is as the pattern wants it exactly when the address is a mapped one. */
  lemma BeforeMapped(sp: Spelling)
    requires Valid(sp) && sp.quad != []
    ensures MappedFront(BeforeTail(sp)) <==> IsMapped(Meaning(sp))
  {
    PiecesJoined(sp);
    PiecesHaveNoColon(sp);
    FrontMapped(Pieces(sp), BeforeTail(sp));
    PiecesMapped(sp);
  }

  lemma MappedTail(f: string, q: string)
    requires IsQuad(q) && f != "" && f[|f| - 1] == ':' && '.' !in f
    ensures MappedQuad(f + q) == if MappedFront(f) then Some(q) else None
  {
    QuadAfter(f, q);
    assert (f + q)[..|f + q| - |q|] == f;
  }

  predicate AddressChar(c: char) { IsHexDigit(c) || c == ':' || c == '.' }

  lemma {:induction false} JoinAddress(parts: seq<string>, c: char)
    requires AddressChar(c) && forall i | 0 <= i < |parts| :: forall x | x in parts[i] :: AddressChar(x)
    ensures forall x | x in Join(parts, [c]) :: AddressChar(x)
  {
    if |parts| > 1 {
      JoinAddress(parts[1..], c);
    }
  }

  lemma TextChars(sp: Spelling)
    requires Valid(sp)
    ensures TextOf(sp) != "" && forall x | x in TextOf(sp) :: AddressChar(x)
  {
    JoinAddress(sp.head, ':');
    JoinAddress(sp.rest, ':');
    JoinAddress(sp.quad, '.');
    NoColonInGroups(sp.head);
    JoinNoDouble(sp.head, ':');
  }

  lemma PlainIs(a: string)
    requires a != "" && forall x | x in a :: AddressChar(x)
    ensures Trim(a) == a && Plain(a) == a
  {
    assert a[0] in a && a[|a| - 1] in a;
    TrimmedStays(a);
    assert Lower(a) == a by {
      forall i | 0 <= i < |a| ensures Lower(a)[i] == a[i] {
        assert a[i] in a;
      }
    }
    assert !AddressChar('%') && a[..|a|] == a;
    FindIs(a, '%', |a|);
  }

  /** How node:net judges a spelling. */
  predicate Judged(net: Net, sp: Spelling) { net.isIPv6(TextOf(sp)) && !net.isIPv4(TextOf(sp)) }

  /** The IPv4 address that a spelling of a mapped address names, if it is written with a dotted tail. */
  function NamedIPv4(net: Net, sp: Spelling): Option<string>
    requires Valid(sp)
  {
    if sp.quad != [] && IsMapped(Meaning(sp)) && net.isIPv4(QuadText(sp)) then Some(QuadText(sp)) else None
  }

  /** Main result: the group of a spelling is its IPv4 address or the /64 of its words. */
  lemma GroupOf(net: Net, sp: Spelling)
    requires Valid(sp) && Judged(net, sp)
    ensures AddressGroup(net, TextOf(sp)) ==
            match NamedIPv4(net, sp) { case Some(q) => q case None => Prefix(Meaning(sp)) + "/64" }
  {
    TextChars(sp);
    PlainIs(TextOf(sp));
    MappedOf(sp);
    SpellingRead(sp);
    GroupOfText(net, TextOf(sp), NamedIPv4(net, sp), Meaning(sp));
  }

  lemma GroupOfText(net: Net, a: string, named: Option<string>, ws: seq<nat>)
    requires Trim(a) == Plain(a) == a != "" && net.isIPv6(a) && !net.isIPv4(a) && |ws| == 8
    requires Ipv6Words(a) == Some(ws)
    requires named == if MappedQuad(a).Some? && net.isIPv4(MappedQuad(a).value) then MappedQuad(a) else None
    ensures AddressGroup(net, a) == match named { case Some(q) => q case None => Prefix(ws) + "/64" }
  {}

  /** The group's text is itself read as the address's first four words and zeros. */
  lemma PrefixRead(ws: seq<nat>)
    requires |ws| >= 4 && ws[0] <= 0xffff && ws[1] <= 0xffff && ws[2] <= 0xffff && ws[3] <= 0xffff
    ensures Ipv6Words(Prefix(ws)) == Some([ws[0], ws[1], ws[2], ws[3], 0, 0, 0, 0])
  {
    HexTextShort(ws[0]);
    HexTextShort(ws[1]);
    HexTextShort(ws[2]);
    HexTextShort(ws[3]);
    FourRead([HexText(ws[0]), HexText(ws[1]), HexText(ws[2]), HexText(ws[3])]);
  }

  /** Four groups and the mark for the zeros. */
  lemma FourRead(head: seq<string>)
    requires Groups(head) && |head| == 4
    ensures Ipv6Words(Join(head, ":") + "::") ==
            Some([HexValue(head[0]), HexValue(head[1]), HexValue(head[2]), HexValue(head[3]), 0, 0, 0, 0])
  {
    var sp := Spelling(head, true, [], []);
    FourMeaning(sp);
    SpellingRead(sp);
  }

  lemma FourMeaning(sp: Spelling)
    requires sp == Spelling(sp.head, true, [], []) && Groups(sp.head) && |sp.head| == 4
    ensures Valid(sp) && TextOf(sp) == Join(sp.head, ":") + "::"
    ensures Meaning(sp) ==
            [HexValue(sp.head[0]), HexValue(sp.head[1]), HexValue(sp.head[2]), HexValue(sp.head[3]), 0, 0, 0, 0]
  {
    assert Zeros(4) == [0, 0, 0, 0] && Values([]) == [];
  }

  /** Main result: two spellings that name no IPv4 address count as one exactly when their first four words agree. */
  lemma SameGroup(net: Net, a: Spelling, b: Spelling)
    requires Valid(a) && Valid(b) && Judged(net, a) && Judged(net, b)
    requires NamedIPv4(net, a).None? && NamedIPv4(net, b).None?
    ensures SameAddressGroup(net, TextOf(a), TextOf(b)) <==> Meaning(a)[..4] == Meaning(b)[..4]
  {
    GroupOf(net, a);
    GroupOf(net, b);
    MeaningBound(a);
    MeaningBound(b);
    PrefixAgrees(Meaning(a), Meaning(b));
  }

  predicate SameFour(x: seq<nat>, y: seq<nat>)
    requires |x| >= 4 && |y| >= 4
  {
    x[0] == y[0] && x[1] == y[1] && x[2] == y[2] && x[3] == y[3]
  }

  lemma FirstFour(x: seq<nat>, y: seq<nat>)
    requires |x| == |y| == 8
    ensures SameFour(x, y) <==> x[..4] == y[..4]
  {
    assert x[..4] == [x[0], x[1], x[2], x[3]];
    assert y[..4] == [y[0], y[1], y[2], y[3]];
  }

  lemma SameEnd(x: string, y: string, end: string)
    requires x + end == y + end
    ensures x == y
  {
    assert |x| == |y| && x == (x + end)[..|x|] && y == (y + end)[..|y|];
  }

  lemma PrefixFour(x: seq<nat>, y: seq<nat>)
    requires |x| == |y| == 8 && forall i | 0 <= i < 8 :: x[i] <= 0xffff && y[i] <= 0xffff
    requires Prefix(x) == Prefix(y)
    ensures SameFour(x, y)
  {
    PrefixRead(x);
    PrefixRead(y);
  }

  lemma PrefixAgrees(x: seq<nat>, y: seq<nat>)
    requires |x| == |y| == 8 && forall i | 0 <= i < 8 :: x[i] <= 0xffff && y[i] <= 0xffff
    ensures Prefix(x) + "/64" == Prefix(y) + "/64" <==> x[..4] == y[..4]
  {
    FirstFour(x, y);
    if Prefix(x) + "/64" == Prefix(y) + "/64" {
      SameEnd(Prefix(x), Prefix(y), "/64");
      PrefixFour(x, y);
    }
  }

  /** ::ffff:198.51.100.7 */
  const DOTTED := Spelling([], true, ["ffff"], ["198", "51", "100", "7"])

  /** ::ffff:c633:6407 */
  const HEX := Spelling([], true, ["ffff", "c633", "6407"], [])

  lemma Dec3(a: char, b: char, c: char)
    requires IsDigit(a) && IsDigit(b) && IsDigit(c)
    ensures DecValue([a, b, c]) == 100 * ((a - '0') as nat) + 10 * ((b - '0') as nat) + (c - '0') as nat
    ensures DecValue([a, b]) == 10 * ((a - '0') as nat) + (b - '0') as nat
    ensures DecValue([a]) == (a - '0') as nat
  {
    assert [a][..0] == [] && DecValue([a]) == (a - '0') as nat;
    assert [a, b][..1] == [a] && DecValue([a, b]) == 10 * DecValue([a]) + (b - '0') as nat;
    assert [a, b, c][..2] == [a, b];
  }

  lemma Hex4(a: char, b: char, c: char, d: char)
    requires IsHexDigit(a) && IsHexDigit(b) && IsHexDigit(c) && IsHexDigit(d)
    ensures HexValue([a, b, c, d]) == 4096 * HexDigit(a) + 256 * HexDigit(b) + 16 * HexDigit(c) + HexDigit(d)
  {
    assert [a][..0] == [] && HexValue([a]) == HexDigit(a);
    assert [a, b][..1] == [a] && HexValue([a, b]) == 16 * HexDigit(a) + HexDigit(b);
    assert [a, b, c][..2] == [a, b] && HexValue([a, b, c]) == 256 * HexDigit(a) + 16 * HexDigit(b) + HexDigit(c);
    assert [a, b, c, d][..3] == [a, b, c];
  }

  lemma ExampleValues()
    ensures DecValue("198") == 198 && DecValue("51") == 51 && DecValue("100") == 100 && DecValue("7") == 7
    ensures HexValue("ffff") == 0xffff && HexValue("c633") == 0xc633 && HexValue("6407") == 0x6407
  {
    Dec3('1', '9', '8');
    Dec3('5', '1', '0');
    Dec3('1', '0', '0');
    Dec3('7', '0', '0');
    Hex4('f', 'f', 'f', 'f');
    Hex4('c', '6', '3', '3');
    Hex4('6', '4', '0', '7');
  }

  /**
   The header says that an IPv4-mapped address counts as its IPv4 address. The
   code does so for the dotted form only: this address has two groups.
   */
  lemma MappedInHexadecimal(net: Net)
    requires Judged(net, DOTTED) && Judged(net, HEX) && net.isIPv4("198.51.100.7")
    ensures Valid(DOTTED) && Valid(HEX) && Meaning(DOTTED) == Meaning(HEX)
    ensures AddressGroup(net, TextOf(DOTTED)) == "198.51.100.7"
    ensures AddressGroup(net, TextOf(HEX)) == "0:0:0:0::/64"
  {
    DottedExample();
    HexExample();
    GroupNamed(net, DOTTED, "198.51.100.7");
    HexGroupUnnamed(net);
  }

  lemma HexGroupUnnamed(net: Net)
    requires Judged(net, HEX)
    ensures AddressGroup(net, TextOf(HEX)) == "0:0:0:0::/64"
  {
    HexExample();
    ZeroPrefixText(Prefix(Meaning(HEX)));
    GroupUnnamed(net, HEX, Prefix(Meaning(HEX)));
  }

  lemma ZeroPrefixText(p: string)
    requires p == "0:0:0:0::"
    ensures p + "/64" == "0:0:0:0::/64"
  {}

  lemma GroupNamed(net: Net, sp: Spelling, q: string)
    requires Valid(sp) && Judged(net, sp) && sp.quad != [] && IsMapped(Meaning(sp)) && QuadText(sp) == q &&
             net.isIPv4(q)
    ensures AddressGroup(net, TextOf(sp)) == q
  {
    GroupOf(net, sp);
  }

  lemma GroupUnnamed(net: Net, sp: Spelling, p: string)
    requires Valid(sp) && Judged(net, sp) && sp.quad == [] && Prefix(Meaning(sp)) == p
    ensures AddressGroup(net, TextOf(sp)) == p + "/64"
  {
    GroupOf(net, sp);
  }

  lemma DottedExample()
    ensures Valid(DOTTED) && Meaning(DOTTED) == [0, 0, 0, 0, 0, 0xffff, 0xc633, 0x6407]
    ensures QuadText(DOTTED) == "198.51.100.7"
  {
    ExampleValues();
    var q := DOTTED.quad;
    assert q[0] == "198" && q[1] == "51" && q[2] == "100" && q[3] == "7";
    assert Values(["ffff"]) == [0xffff];
    assert q[1..] == ["51", "100", "7"] && q[1..][1..] == ["100", "7"] && q[1..][1..][1..] == ["7"];
    assert Join(["100", "7"], ".") == "100.7";
    assert Join(["51", "100", "7"], ".") == "51.100.7";
  }

  lemma HexExample()
    ensures Valid(HEX) && Meaning(HEX) == [0, 0, 0, 0, 0, 0xffff, 0xc633, 0x6407]
    ensures Prefix(Meaning(HEX)) == "0:0:0:0::"
  {
    ExampleValues();
    assert Values(["ffff", "c633", "6407"]) == [0xffff, 0xc633, 0x6407];
    assert HexText(0) == "0";
    assert ["0", "0", "0", "0"][1..] == ["0", "0", "0"] && ["0", "0", "0"][1..] == ["0", "0"] &&
           ["0", "0"][1..] == ["0"];
    assert Join(["0", "0"], ":") == "0:0";
    assert Join(["0", "0", "0"], ":") == "0:0:0";
  }

  // ---------------------------------------------------------------- how an address may be dressed

  /** What may stand around an address: white space, brackets, and a zone. */
  datatype Dress = Dress(before: string, brackets: bool, zone: Option<string>, after: string)

  predicate AllSpace(s: string) { forall i | 0 <= i < |s| :: IsSpace(s[i]) }

  /** White space at the end of a zone without brackets counts as what stands after it. */
  predicate Tidy(d: Dress) {
    && AllSpace(d.before) && AllSpace(d.after)
    && (!d.brackets && d.zone.Some? && d.zone.value != "" ==> !IsSpace(d.zone.value[|d.zone.value| - 1]))
  }

  function Zoned(d: Dress, x: string): string { match d.zone case None => x case Some(z) => x + ("%" + z) }

  function Core(d: Dress, x: string): string { if d.brackets then "[" + Zoned(d, x) + "]" else Zoned(d, x) }

  function Dressed(d: Dress, x: string): string { d.before + Core(d, x) + d.after }

  /** An address in small or capital letters. */
  predicate IsAddressText(x: string) { x != "" && forall i | 0 <= i < |x| :: AddressChar(Lower(x)[i]) }

  lemma LowerAppend(a: string, b: string)
    ensures Lower(a + b) == Lower(a) + Lower(b)
  {}

  lemma CoreTrimmed(d: Dress, x: string)
    requires Tidy(d) && IsAddressText(x)
    ensures Core(d, x) != "" && Trimmed(Core(d, x))
  {
    var c := Core(d, x);
    assert AddressChar(Lower(x)[0]) && AddressChar(Lower(x)[|x| - 1]);
    if !d.brackets {
      assert c[0] == x[0];
      match d.zone
      case None =>
      case Some(z) =>
        assert c == x + ("%" + z);
        assert c[|c| - 1] == if z == "" then '%' else z[|z| - 1];
    }
  }

  lemma ZoneCut(d: Dress, x: string)
    requires IsAddressText(x)
    ensures Before(Lower(Zoned(d, x)), '%') == Lower(x)
  {
    var a := Lower(x);
    assert '%' !in a by {
      assert forall i | 0 <= i < |a| :: AddressChar(a[i]);
    }
    match d.zone
    case None =>
      assert a[..|a|] == a;
      FindIs(a, '%', |a|);
    case Some(z) =>
      LowerAppend(x, "%" + z);
      LowerAppend("%", z);
      assert Lower(x + ("%" + z)) == a + ['%'] + Lower(z);
      FindAt(a, '%', Lower(z));
  }

  /** The plain form of a dressed address is the address. */
  lemma PlainDressed(d: Dress, x: string)
    requires Tidy(d) && IsAddressText(x)
    ensures Plain(Dressed(d, x)) == Lower(x) && Trim(Dressed(d, x)) != ""
  {
    var c := Core(d, x);
    CoreTrimmed(d, x);
    TrimPadded(d.before, c, d.after);
    ZoneCut(d, x);
    if d.brackets {
      var z := Zoned(d, x);
      LowerAppend("[" + z, "]");
      LowerAppend("[", z);
      assert Lower(c) == "[" + Lower(z) + "]";
      assert Lower(c)[1..|c| - 1] == Lower(z);
    } else {
      assert Lower(c)[0] == Lower(x)[0] && AddressChar(Lower(x)[0]);
    }
  }

  /** Main result: white space, brackets, a zone and capitals make no difference to an address's group. */
  lemma DressedAlike(net: Net, d: Dress, x: string)
    requires Tidy(d) && IsAddressText(x)
    ensures AddressGroup(net, Dressed(d, x)) == AddressGroup(net, Lower(x))
  {
    PlainDressed(d, x);
    forall c | c in Lower(x) ensures AddressChar(c) {
      var i :| 0 <= i < |Lower(x)| && Lower(x)[i] == c;
    }
    PlainIs(Lower(x));
  }

  // ---------------------------------------------------------------- IPv4, and what is no address

  /** node:net takes for IPv4 only four decimal groups with points between, and not the empty text for anything. */
  ghost predicate Sane(net: Net) {
    (forall q :: net.isIPv4(q) ==> IsQuad(q)) && !net.isIPv6("")
  }

  lemma QuadChars(q: string)
    requires IsQuad(q)
    ensures q != "" && (forall i | 0 <= i < |q| :: IsDigit(q[i]) || q[i] == '.')
    ensures Lower(q) == q && IsAddressText(q)
  {
    var p := Split(q, '.');
    JoinSplit(q, '.');
    DigitsJoined(p);
    assert forall i | 0 <= i < |q| :: q[i] in q;
    assert forall i | 0 <= i < |q| :: Lower(q)[i] == q[i];
  }

  lemma {:induction false} DigitsJoined(parts: seq<string>)
    requires parts != [] && forall i | 0 <= i < |parts| :: Octet(parts[i])
    ensures var q := Join(parts, "."); q != "" && forall c | c in q :: IsDigit(c) || c == '.'
  {
    if |parts| > 1 {
      assert forall i | 0 <= i < |parts[1..]| :: parts[1..][i] == parts[i + 1];
      DigitsJoined(parts[1..]);
    }
  }

  /** Main result: an IPv4 address is its own group, however it is dressed. */
  lemma QuadGroup(net: Net, d: Dress, q: string)
    requires Sane(net) && net.isIPv4(q) && Tidy(d)
    ensures AddressGroup(net, Dressed(d, q)) == q
  {
    QuadChars(q);
    DressedAlike(net, d, q);
    forall c | c in q ensures AddressChar(c) {
      var i :| 0 <= i < |q| && q[i] == c;
    }
    PlainIs(q);
    assert QuadTail(q) == Some(q) && q[..|q| - |q|] == "";
    assert MappedQuad(q) == None;
  }

  /** Main result: two IPv4 addresses count as one exactly when they are the same. */
  lemma SameQuads(net: Net, d: Dress, q: string, e: Dress, r: string)
    requires Sane(net) && net.isIPv4(q) && net.isIPv4(r) && Tidy(d) && Tidy(e)
    ensures SameAddressGroup(net, Dressed(d, q), Dressed(e, r)) <==> q == r
  {
    QuadGroup(net, d, q);
    QuadGroup(net, e, r);
    QuadChars(q);
  }

  /** Main result: an IPv4-mapped address in the dotted form counts as its IPv4 address. */
  lemma MappedIsQuad(net: Net, sp: Spelling, d: Dress)
    requires Sane(net) && Valid(sp) && Judged(net, sp) && sp.quad != [] && IsMapped(Meaning(sp)) && Tidy(d)
    requires net.isIPv4(QuadText(sp))
    ensures SameAddressGroup(net, TextOf(sp), Dressed(d, QuadText(sp)))
  {
    GroupOf(net, sp);
    QuadGroup(net, d, QuadText(sp));
    QuadChars(QuadText(sp));
  }

  /** The text ends in an IPv4 address, with zeros and ffff: before it. */
  ghost predicate EndsMapped(net: Net, a: string, q: string) {
    |q| <= |a| && a[|a| - |q|..] == q && net.isIPv4(q) && MappedFront(a[..|a| - |q|])
  }

  /** The quad that the pattern finds is the only one with a colon before it. */
  lemma {:induction false} OneQuad(a: string, q: string)
    requires |q| <= |a| && a[|a| - |q|..] == q && IsQuad(q)
    requires var f := a[..|a| - |q|]; f != "" && f[|f| - 1] == ':'
    ensures QuadTail(a) == Some(q)
    decreases |a|
  {
    var f := a[..|a| - |q|];
    assert a == f + q;
    NoColonInQuad(a);
    assert a[|f| - 1] == ':';
    if |f| == 1 {
      assert a[1..] == q;
      assert QuadTail(q) == Some(q);
    } else {
      var b := a[1..];
      assert b[|b| - |q|..] == q && b[..|b| - |q|] == f[1..];
      OneQuad(b, q);
    }
  }

  lemma NoColonInQuad(a: string)
    ensures IsQuad(a) ==> ':' !in a
  {
    if IsQuad(a) {
      QuadChars(a);
    }
  }

  lemma FrontColon(f: string)
    requires MappedFront(f)
    ensures f != "" && f[|f| - 1] == ':'
  {
    assert f[|f| - 1] == f[|f| - 5..][4];
  }

  lemma EndsMappedIs(net: Net, a: string, q: string)
    requires Sane(net)
    ensures EndsMapped(net, a, q) <==> MappedQuad(a) == Some(q) && net.isIPv4(q)
  {
    if EndsMapped(net, a, q) {
      var f := a[..|a| - |q|];
      FrontColon(f);
      OneQuad(a, q);
      FoundMapped(a, q, f);
    }
  }

  lemma FoundMapped(a: string, q: string, f: string)
    requires QuadTail(a) == Some(q) && f == a[..|a| - |q|] && MappedFront(f)
    ensures MappedQuad(a) == Some(q)
  {}

  /**
   Main result: a text that is neither IPv4 nor IPv6 counts as its first 64
   plain characters; unless it ends like a mapped address, when it counts as
   that IPv4 address although it may be no address at all.
   */
  lemma UnknownGroup(net: Net, ip: string)
    requires Sane(net) && !net.isIPv4(Plain(ip)) && !net.isIPv6(Plain(ip))
    ensures var a := Plain(ip);
            && (forall q :: EndsMapped(net, a, q) ==> AddressGroup(net, ip) == q)
            && ((forall q :: !EndsMapped(net, a, q)) ==> AddressGroup(net, ip) == a[..if |a| < 64 then |a| else 64])
  {
    var a := Plain(ip);
    BlankIsNothing(ip);
    UnknownShort(net, ip, a, MappedQuad(a));
    forall q ensures EndsMapped(net, a, q) <==> MappedQuad(a) == Some(q) && net.isIPv4(q) {
      EndsMappedIs(net, a, q);
    }
  }

  lemma UnknownShort(net: Net, ip: string, a: string, found: Option<string>)
    requires a == Plain(ip) && !net.isIPv4(a) && !net.isIPv6(a) && (Trim(ip) == "" ==> a == "")
    requires found == MappedQuad(a)
    ensures AddressGroup(net, ip) ==
            if found.Some? && net.isIPv4(found.value) then found.value else a[..if |a| < 64 then |a| else 64]
  {
    assert a[..|a|] == a;
    if Trim(ip) == "" {
      FindIs("", '.', 0);
      assert QuadTail("") == None;
    }
  }

  lemma BlankIsNothing(ip: string)
    ensures Trim(ip) == "" ==> Plain(ip) == ""
  {}

  /** Main result: there is no group exactly when nothing is left of the text without its dress; so "[]" has none. */
  lemma NoGroup(net: Net, ip: string)
    requires Sane(net)
    ensures AddressGroup(net, ip) == "" <==> Plain(ip) == ""
    ensures AddressGroup(net, "[]") == "" && !SameAddressGroup(net, "[]", "[]")
  {
    NoGroupIff(net, ip);
    NoGroupIff(net, "[]");
    TrimmedStays("[]");
    assert Lower("[]") == "[]" && "[]"[1..1] == "";
  }

  lemma NoGroupIff(net: Net, ip: string)
    requires Sane(net)
    ensures AddressGroup(net, ip) == "" <==> Plain(ip) == ""
  {
    var a := Plain(ip);
    BlankIsNothing(ip);
    FindIs("", '.', 0);
    assert !IsQuad("");
    if a == "" {
      assert MappedQuad(a) == None;
    }
  }
}
