/**
 The string operations of the JavaScript sources, on Dafny strings, with the
 facts about splitting and joining that several of the models share.
 */
module Text {

  datatype Option<+T> = None | Some(value: T)

  datatype Result<+T, +E> = Ok(value: T) | Err(error: E)

  predicate IsDigit(c: char) { '0' <= c <= '9' }

  predicate IsLower(c: char) { 'a' <= c <= 'z' }

  predicate IsAlpha(c: char) { IsLower(c) || 'A' <= c <= 'Z' }

  predicate IsBase64Url(c: char) { IsAlpha(c) || IsDigit(c) || c == '_' || c == '-' }

  /** What `String.prototype.trim` removes. */
  predicate IsSpace(c: char) {
    || '\t' <= c <= '\r' || c == ' ' || c == '\U{00A0}' || c == '\U{1680}'
    || '\U{2000}' <= c <= '\U{200A}' || c == '\U{2028}' || c == '\U{2029}'
    || c == '\U{202F}' || c == '\U{205F}' || c == '\U{3000}' || c == '\U{FEFF}'
  }

  function TrimStart(s: string): (r: string)
    ensures r == "" || !IsSpace(r[0])
  {
    if s != "" && IsSpace(s[0]) then TrimStart(s[1..]) else s
  }

  function TrimEnd(s: string): (r: string)
    ensures r == "" || !IsSpace(r[|r| - 1])
    ensures r <= s
  {
    if s != "" && IsSpace(s[|s| - 1]) then TrimEnd(s[..|s| - 1]) else s
  }

  function Trim(s: string): string { TrimEnd(TrimStart(s)) }

  /** Whether trimming leaves the text as it is. */
  predicate Trimmed(s: string) { s == "" || (!IsSpace(s[0]) && !IsSpace(s[|s| - 1])) }

  predicate StartsWith(s: string, prefix: string) { prefix <= s }

  /** The first index of a character; the length when there is none. */
  function Find(s: string, c: char): (i: nat)
    ensures i <= |s|
    ensures i < |s| ==> s[i] == c
    ensures c !in s[..i]
  {
    if s == "" || s[0] == c then 0 else
      var k := Find(s[1..], c);
      assert s[..k + 1] == [s[0]] + s[1..][..k];
      1 + k
  }

  lemma {:induction false} FindAt(a: string, c: char, b: string)
    requires c !in a
    ensures Find(a + [c] + b, c) == |a|
  {
    assert (a + [c] + b)[..|a|] == a;
    FindIs(a + [c] + b, c, |a|);
  }

  /** The first index is determined by what it promises. */
  lemma {:induction false} FindIs(s: string, c: char, k: nat)
    requires k <= |s| && c !in s[..k] && (k < |s| ==> s[k] == c)
    ensures Find(s, c) == k
  {
    if k > 0 {
      assert s[..k][0] == s[0] && s[1..][..k - 1] == s[..k][1..];
      FindIs(s[1..], c, k - 1);
    }
  }

  /** `String.prototype.split` by one character. */
  function Split(s: string, c: char): (parts: seq<string>)
    ensures |parts| >= 1
    decreases |s|
  {
    var i := Find(s, c);
    if i == |s| then [s] else [s[..i]] + Split(s[i + 1..], c)
  }

  /** `Array.prototype.join`. */
  function Join(parts: seq<string>, sep: string): string {
    if |parts| == 0 then ""
    else if |parts| == 1 then parts[0]
    else parts[0] + sep + Join(parts[1..], sep)
  }

  function Concat(parts: seq<string>): string {
    if |parts| == 0 then "" else parts[0] + Concat(parts[1..])
  }

  /** Splitting a join gives the parts back, when no part holds the separator. */
  lemma {:induction false} SplitJoin(parts: seq<string>, c: char)
    requires |parts| > 0
    requires forall p | p in parts :: c !in p
    ensures Split(Join(parts, [c]), c) == parts
  {
    var s := Join(parts, [c]);
    assert parts[0] in parts;
    if |parts| == 1 {
      assert s[..|s|] == s;
      FindIs(s, c, |s|);
    } else {
      var rest := Join(parts[1..], [c]);
      assert s == parts[0] + [c] + rest;
      FindAt(parts[0], c, rest);
      assert s[..|parts[0]|] == parts[0];
      assert s[|parts[0]| + 1..] == rest;
      SplitJoin(parts[1..], c);
    }
  }

  /** Joining a split gives the text back, and no part holds the separator. */
  lemma {:induction false} JoinSplit(s: string, c: char)
    ensures Join(Split(s, c), [c]) == s
    ensures forall p | p in Split(s, c) :: c !in p
    decreases |s|
  {
    var i := Find(s, c);
    if i < |s| {
      var first, rest := s[..i], Split(s[i + 1..], c);
      JoinSplit(s[i + 1..], c);
      assert s == first + [c] + s[i + 1..];
      assert ([first] + rest)[1..] == rest;
      forall p | p in [first] + rest ensures c !in p {
        assert p == first || p in rest;
      }
    } else {
      assert s[..i] == s;
    }
  }

  lemma Associative<T>(x: seq<T>, y: seq<T>, z: seq<T>)
    ensures x + (y + z) == (x + y) + z
  {}

  lemma {:induction false} ConcatAppend(a: seq<string>, b: seq<string>)
    ensures Concat(a + b) == Concat(a) + Concat(b)
  {
    if a == [] {
      assert a + b == b;
    } else {
      assert (a + b)[1..] == a[1..] + b;
      ConcatAppend(a[1..], b);
    }
  }

  lemma {:induction false} TrimmedStays(s: string)
    requires Trimmed(s)
    ensures Trim(s) == s
  {}

  lemma {:induction false} TrimStartPadded(before: string, s: string)
    requires (forall i | 0 <= i < |before| :: IsSpace(before[i])) && (s == "" || !IsSpace(s[0]))
    ensures TrimStart(before + s) == s
  {
    if before == "" {
      assert before + s == s;
    } else {
      assert (before + s)[1..] == before[1..] + s;
      TrimStartPadded(before[1..], s);
    }
  }

  lemma {:induction false} TrimEndPadded(s: string, after: string)
    requires (forall i | 0 <= i < |after| :: IsSpace(after[i])) && (s == "" || !IsSpace(s[|s| - 1]))
    ensures TrimEnd(s + after) == s
    decreases |after|
  {
    if after == "" {
      assert s + after == s;
    } else {
      var k := |after| - 1;
      assert (s + after)[..|s + after| - 1] == s + after[..k];
      TrimEndPadded(s, after[..k]);
    }
  }

  /** Trimming takes blanks off both ends, and nothing else. */
  lemma TrimPadded(before: string, s: string, after: string)
    requires Trimmed(s)
    requires (forall i | 0 <= i < |before| :: IsSpace(before[i])) && (forall i | 0 <= i < |after| :: IsSpace(after[i]))
    ensures Trim(before + s + after) == s
  {
    if s == "" {
      var all := before + after;
      assert before + s + after == all && all + "" == all;
      TrimStartPadded(all, "");
    } else {
      assert before + s + after == before + (s + after);
      TrimStartPadded(before, s + after);
      TrimEndPadded(s, after);
    }
  }

  // ---------------------------------------------------------------- two in a row

  /** The index of the first two equal characters c in a row; the length when there are none. */
  function FindDouble(s: string, c: char): (i: nat)
    ensures i <= |s|
    ensures i < |s| ==> i + 1 < |s| && s[i] == c && s[i + 1] == c
  {
    if |s| < 2 then |s|
    else if s[0] == c && s[1] == c then 0
    else
      var i := FindDouble(s[1..], c);
      i + 1
  }

  lemma {:induction false} DoubleIn(a: string, c: char, b: string)
    requires FindDouble(a, c) < |a|
    ensures FindDouble(a + b, c) == FindDouble(a, c)
  {
    assert (a + b)[0] == a[0] && (a + b)[1] == a[1];
    if !(a[0] == c && a[1] == c) {
      assert (a + b)[1..] == a[1..] + b;
      DoubleIn(a[1..], c, b);
    }
  }

  lemma {:induction false} DoubleAfter(s: string, c: char, rest: string)
    requires FindDouble(s, c) == |s| && (s != "" ==> s[|s| - 1] != c)
    ensures FindDouble(s + [c, c] + rest, c) == |s|
  {
    var t := s + [c, c] + rest;
    if s == "" {
      assert t[0] == c && t[1] == c;
    } else if |s| == 1 {
      assert t[1..] == [c, c] + rest;
      assert FindDouble(t[1..], c) == 0;
    } else {
      assert t[1..] == s[1..] + [c, c] + rest;
      assert t[0] == s[0] && t[1] == s[1];
      DoubleAfter(s[1..], c, rest);
    }
  }

  lemma {:induction false} NoDouble(s: string, c: char)
    requires c !in s
    ensures FindDouble(s, c) == |s|
  {
    if |s| >= 2 {
      NoDouble(s[1..], c);
    }
  }

  /** Parts that are not empty and do not hold the separator. */
  predicate FullParts(parts: seq<string>, c: char) {
    forall i | 0 <= i < |parts| :: parts[i] != "" && c !in parts[i]
  }

  /** Joined, such parts hold no two separators in a row, and none at either end. */
  lemma {:induction false} JoinNoDouble(parts: seq<string>, c: char)
    requires FullParts(parts, c)
    ensures var s := Join(parts, [c]);
            && FindDouble(s, c) == |s| && (s == "" <==> parts == [])
            && (s != "" ==> s[0] != c && s[|s| - 1] != c)
    decreases |parts|
  {
    if parts != [] {
      var l := parts[0];
      assert l[0] in l && l[|l| - 1] in l;
      if |parts| == 1 {
        NoDouble(l, c);
      } else {
        var rest := Join(parts[1..], [c]);
        JoinNoDouble(parts[1..], c);
        assert Join(parts, [c]) == l + [c] + rest;
        NoDoubleThen(l, c, rest);
      }
    }
  }

  lemma {:induction false} NoDoubleThen(l: string, c: char, rest: string)
    requires c !in l && rest != "" && rest[0] != c && FindDouble(rest, c) == |rest|
    ensures FindDouble(l + [c] + rest, c) == |l + [c] + rest|
  {
    var s := l + [c] + rest;
    if l == "" {
      assert s[1..] == rest && s[1] == rest[0];
    } else {
      assert s[1..] == l[1..] + [c] + rest;
      assert s[0] == l[0];
      NoDoubleThen(l[1..], c, rest);
    }
  }

  /** The order of `<` on strings. */
  predicate Less(a: string, b: string) {
    if b == "" then false
    else if a == "" then true
    else a[0] < b[0] || (a[0] == b[0] && Less(a[1..], b[1..]))
  }

  lemma {:induction false} LessTotal(a: string, b: string)
    ensures Less(a, b) || Less(b, a) || a == b
    ensures Less(a, b) ==> !Less(b, a) && a != b
  {
    if a != "" && b != "" && a[0] == b[0] {
      LessTotal(a[1..], b[1..]);
      assert a == [a[0]] + a[1..] && b == [b[0]] + b[1..];
    }
  }

  /** A digest tells any two inputs apart. */
  ghost predicate Injective<T(!new)>(digest: T -> string) { forall a, b :: digest(a) == digest(b) ==> a == b }
}
