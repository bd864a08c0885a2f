/**
 Bytes as base64url text without padding (section 5 of RFC 4648), as Node's
 `Buffer` writes and reads them.
 */
module Base64Url {

  import opened Text

  type Byte = b: int | 0 <= b < 256

  predicate AllBase64Url(s: string) { forall i | 0 <= i < |s| :: IsBase64Url(s[i]) }

  function Digit(c: char): (d: nat)
    requires IsBase64Url(c)
    ensures d < 64
  {
    if 'A' <= c <= 'Z' then (c - 'A') as nat
    else if IsLower(c) then (c - 'a') as nat + 26
    else if IsDigit(c) then (c - '0') as nat + 52
    else if c == '-' then 62
    else 63
  }

  function Char(d: nat): (c: char)
    requires d < 64
    ensures IsBase64Url(c) && Digit(c) == d
  {
    if d < 26 then 'A' + d as char
    else if d < 52 then 'a' + (d - 26) as char
    else if d < 62 then '0' + (d - 52) as char
    else if d == 62 then '-'
    else '_'
  }

  /** The four digits of three bytes. */
  function Digits(b0: Byte, b1: Byte, b2: Byte): (s: string)
    ensures |s| == 4 && AllBase64Url(s)
  {
    [Char(b0 / 4), Char(b0 % 4 * 16 + b1 / 16), Char(b1 % 16 * 4 + b2 / 64), Char(b2 % 64)]
  }

  /** The three bytes of four digits. */
  function Bytes(d0: nat, d1: nat, d2: nat, d3: nat): (b: seq<Byte>)
    requires d0 < 64 && d1 < 64 && d2 < 64 && d3 < 64
    ensures |b| == 3
  {
    [d0 * 4 + d1 / 16, d1 % 16 * 16 + d2 / 4, d2 % 4 * 64 + d3]
  }

  /** `buffer.toString("base64url")`: one byte takes two digits, two take three, three take four. */
  function Encode(bs: seq<Byte>): (s: string)
    ensures AllBase64Url(s)
  {
    if |bs| == 0 then ""
    else if |bs| == 1 then Digits(bs[0], 0, 0)[..2]
    else if |bs| == 2 then Digits(bs[0], bs[1], 0)[..3]
    else Digits(bs[0], bs[1], bs[2]) + Encode(bs[3..])
  }

  /** `Buffer.from(s, "base64url")`: bits that make no whole byte are dropped. */
  function Decode(s: string): seq<Byte>
    requires AllBase64Url(s)
  {
    if |s| < 2 then []
    else if |s| == 2 then Bytes(Digit(s[0]), Digit(s[1]), 0, 0)[..1]
    else if |s| == 3 then Bytes(Digit(s[0]), Digit(s[1]), Digit(s[2]), 0)[..2]
    else Bytes(Digit(s[0]), Digit(s[1]), Digit(s[2]), Digit(s[3])) + Decode(s[4..])
  }

  lemma BytesBack(b0: Byte, b1: Byte, b2: Byte)
    ensures var s := Digits(b0, b1, b2); Bytes(Digit(s[0]), Digit(s[1]), Digit(s[2]), Digit(s[3])) == [b0, b1, b2]
  {
    Divided(b0 % 4 * 16 + b1 / 16, b0 % 4, b1 / 16, 16);
    Divided(b1 % 16 * 4 + b2 / 64, b1 % 16, b2 / 64, 4);
  }

  lemma DigitsBack(d0: nat, d1: nat, d2: nat, d3: nat)
    requires d0 < 64 && d1 < 64 && d2 < 64 && d3 < 64
    ensures var b := Bytes(d0, d1, d2, d3); Digits(b[0], b[1], b[2]) == [Char(d0), Char(d1), Char(d2), Char(d3)]
  {
    var b := Bytes(d0, d1, d2, d3);
    Divided(b[0], d0, d1 / 16, 4);
    Divided(b[1], d1 % 16, d2 / 4, 16);
    Divided(b[2], d2 % 4, d3, 64);
    SameDigits(b[0], b[1], b[2], d0, d1, d2, d3);
  }

  lemma SameDigits(b0: Byte, b1: Byte, b2: Byte, d0: nat, d1: nat, d2: nat, d3: nat)
    requires d0 < 64 && d1 < 64 && d2 < 64 && d3 < 64
    requires b0 / 4 == d0 && b0 % 4 * 16 + b1 / 16 == d1 && b1 % 16 * 4 + b2 / 64 == d2 && b2 % 64 == d3
    ensures Digits(b0, b1, b2) == [Char(d0), Char(d1), Char(d2), Char(d3)]
  {}

  lemma Divided(b: nat, q: nat, r: nat, n: nat)
    requires n == 4 || n == 16 || n == 64
    requires b == q * n + r && r < n
    ensures b / n == q && b % n == r
  {
    if n == 4 {
      assert b / 4 == q;
    } else if n == 16 {
      assert b / 16 == q;
    } else {
      assert b / 64 == q;
    }
  }

  lemma EncodeMore(b: seq<Byte>, rest: seq<Byte>)
    requires |b| == 3
    ensures Encode(b + rest) == Digits(b[0], b[1], b[2]) + Encode(rest)
  {
    assert (b + rest)[3..] == rest;
  }

  lemma DecodeMore(s: string, rest: string)
    requires |s| == 4 && AllBase64Url(s) && AllBase64Url(rest)
    ensures AllBase64Url(s + rest)
    ensures Decode(s + rest) == Bytes(Digit(s[0]), Digit(s[1]), Digit(s[2]), Digit(s[3])) + Decode(rest)
  {
    assert (s + rest)[4..] == rest;
  }

  lemma OneBack(b: Byte)
    ensures Decode(Encode([b])) == [b]
  {
    var s := Digits(b, 0, 0);
    BytesBack(b, 0, 0);
    assert Encode([b]) == s[..2] && Decode(s[..2]) == Bytes(Digit(s[0]), Digit(s[1]), 0, 0)[..1];
  }

  lemma TwoBack(b: Byte, c: Byte)
    ensures Decode(Encode([b, c])) == [b, c]
  {
    var s := Digits(b, c, 0);
    BytesBack(b, c, 0);
    assert Encode([b, c]) == s[..3] && Decode(s[..3]) == Bytes(Digit(s[0]), Digit(s[1]), Digit(s[2]), 0)[..2];
  }

  lemma ThreeBack(b: Byte, c: Byte, d: Byte, text: string, rest: seq<Byte>)
    requires AllBase64Url(text) && Decode(text) == rest
    ensures AllBase64Url(Digits(b, c, d) + text) && Decode(Digits(b, c, d) + text) == [b, c, d] + rest
  {
    BytesBack(b, c, d);
    DecodeMore(Digits(b, c, d), text);
  }

  /** Bytes that are written are read back. */
  lemma {:induction false} DecodeEncode(bs: seq<Byte>)
    ensures Decode(Encode(bs)) == bs
  {
    if |bs| == 1 {
      assert bs == [bs[0]];
      OneBack(bs[0]);
    } else if |bs| == 2 {
      assert bs == [bs[0], bs[1]];
      TwoBack(bs[0], bs[1]);
    } else if |bs| >= 3 {
      DecodeEncode(bs[3..]);
      ThreeBack(bs[0], bs[1], bs[2], Encode(bs[3..]), bs[3..]);
      assert bs == [bs[0], bs[1], bs[2]] + bs[3..];
    }
  }

  /** Text that is just what its bytes are written as. */
  predicate IsCanonical(s: string) { AllBase64Url(s) && Encode(Decode(s)) == s }

  /** The last digit holds no bits beyond its `n` bytes. */
  predicate NoStrayBits(s: string, n: nat)
    requires AllBase64Url(s)
  {
    s != "" ==>
      && (n % 3 == 1 ==> Digit(s[|s| - 1]) % 16 == 0)
      && (n % 3 == 2 ==> Digit(s[|s| - 1]) % 4 == 0)
  }

  lemma DigitChar(c: char)
    requires IsBase64Url(c)
    ensures Char(Digit(c)) == c
  {}

  /** The text is what some `n` bytes are written as. */
  predicate IsBytesText(s: string, n: nat) { IsCanonical(s) && |Decode(s)| == n }

  predicate HasShape(s: string, n: nat)
    requires AllBase64Url(s)
  {
    |s| == (n * 4 + 2) / 3 && NoStrayBits(s, n)
  }

  /** Main result: text is what some `n` bytes are written as exactly when it has their length and no stray bits. */
  lemma {:induction false} CanonicalIs(s: string, n: nat)
    requires AllBase64Url(s)
    ensures IsBytesText(s, n) <==> HasShape(s, n)
    decreases |s|
  {
    if |s| < 4 {
      FewDigits(s, n);
    } else if n < 3 {
      TooLong(s, n);
    } else {
      CanonicalIs(s[4..], n - 3);
      LongerText(s, n);
      RestStray(s, n);
    }
  }

  lemma TooLong(s: string, n: nat)
    requires AllBase64Url(s) && |s| >= 4 && n < 3
    ensures !IsBytesText(s, n) && !HasShape(s, n)
  {
    FourDigits(s);
    FewBytes(|s|, n);
  }

  lemma LongerText(s: string, n: nat)
    requires AllBase64Url(s) && |s| >= 4 && n >= 3
    ensures IsBytesText(s, n) <==> IsBytesText(s[4..], n - 3)
  {
    FourDigits(s);
  }

  lemma FewBytes(len: nat, n: nat)
    ensures len < 4 ==>
              (len == (n * 4 + 2) / 3 <==> (len == 0 && n == 0) || (len == 2 && n == 1) || (len == 3 && n == 2))
    ensures len >= 4 && n < 3 ==> len != (n * 4 + 2) / 3
  {}

  lemma RestStray(s: string, n: nat)
    requires AllBase64Url(s) && |s| >= 4 && n >= 3
    ensures HasShape(s[4..], n - 3) <==> HasShape(s, n)
  {
    assert (n * 4 + 2) / 3 == ((n - 3) * 4 + 2) / 3 + 4;
    assert s[4..] != "" ==> s[4..][|s| - 5] == s[|s| - 1];
    assert |s| == 4 && 4 == (n * 4 + 2) / 3 ==> n == 3;
  }

  /** Four digits are three bytes, with nothing lost. */
  lemma FourDigits(s: string)
    requires AllBase64Url(s) && |s| >= 4
    ensures |Decode(s)| == 3 + |Decode(s[4..])| && (IsCanonical(s) <==> IsCanonical(s[4..]))
  {
    var first, rest := s[..4], s[4..];
    var b := Bytes(Digit(s[0]), Digit(s[1]), Digit(s[2]), Digit(s[3]));
    DigitsBack(Digit(s[0]), Digit(s[1]), Digit(s[2]), Digit(s[3]));
    FirstDigits(s);
    assert s == first + rest;
    EncodeMore(b, Decode(rest));
    SameFirst(first, Encode(Decode(rest)), rest);
  }

  lemma FirstDigits(s: string)
    requires AllBase64Url(s) && |s| >= 4
    ensures [Char(Digit(s[0])), Char(Digit(s[1])), Char(Digit(s[2])), Char(Digit(s[3]))] == s[..4]
  {
    DigitChar(s[0]);
    DigitChar(s[1]);
    DigitChar(s[2]);
    DigitChar(s[3]);
  }

  lemma SameFirst(a: string, x: string, y: string)
    ensures a + x == a + y <==> x == y
  {
    assert (a + x)[|a|..] == x && (a + y)[|a|..] == y;
  }

  lemma FewDigits(s: string, n: nat)
    requires AllBase64Url(s) && |s| < 4
    ensures IsBytesText(s, n) <==> HasShape(s, n)
  {
    FewBytes(|s|, n);
    if |s| == 2 {
      TwoDigits(s);
    } else if |s| == 3 {
      ThreeDigits(s);
    } else {
      assert Decode(s) == [] && Encode([]) == "";
    }
  }

  lemma TwoDigits(s: string)
    requires AllBase64Url(s) && |s| == 2
    ensures |Decode(s)| == 1 && (IsCanonical(s) <==> Digit(s[1]) % 16 == 0)
  {
    var b := Decode(s)[0];
    OneByte(Digit(s[0]), Digit(s[1]));
    DigitChar(s[0]);
    DigitChar(s[1]);
    var t := Digits(b, 0, 0);
    assert Encode(Decode(s)) == t[..2];
    assert t[..2] == s <==> t[0] == s[0] && t[1] == s[1];
  }

  lemma OneByte(d0: nat, d1: nat)
    requires d0 < 64 && d1 < 64
    ensures var b := d0 * 4 + d1 / 16; b / 4 == d0 && (b % 4 * 16 == d1 <==> d1 % 16 == 0)
  {}

  lemma ThreeDigits(s: string)
    requires AllBase64Url(s) && |s| == 3
    ensures |Decode(s)| == 2 && (IsCanonical(s) <==> Digit(s[2]) % 4 == 0)
  {
    var b := Decode(s);
    TwoBytes(Digit(s[0]), Digit(s[1]), Digit(s[2]), b[0], b[1]);
    FirstTwo(s[0], s[1], b[0], b[1]);
    LastOf(s[2], b[1]);
    var t := Digits(b[0], b[1], 0);
    assert Encode(b) == t[..3];
    assert t[..3] == s <==> t[0] == s[0] && t[1] == s[1] && t[2] == s[2];
  }

  lemma FirstTwo(c0: char, c1: char, b0: Byte, b1: Byte)
    requires IsBase64Url(c0) && IsBase64Url(c1)
    requires b0 / 4 == Digit(c0) && b0 % 4 * 16 + b1 / 16 == Digit(c1)
    ensures Digits(b0, b1, 0)[0] == c0 && Digits(b0, b1, 0)[1] == c1
  {
    DigitChar(c0);
    DigitChar(c1);
  }

  lemma LastOf(c2: char, b1: Byte)
    requires IsBase64Url(c2) && (b1 % 16 * 4 == Digit(c2) <==> Digit(c2) % 4 == 0)
    ensures Char(b1 % 16 * 4) == c2 <==> Digit(c2) % 4 == 0
  {
    DigitChar(c2);
  }

  lemma TwoBytes(d0: nat, d1: nat, d2: nat, b0: Byte, b1: Byte)
    requires d0 < 64 && d1 < 64 && d2 < 64 && b0 == d0 * 4 + d1 / 16 && b1 == d1 % 16 * 16 + d2 / 4
    ensures b0 / 4 == d0 && b0 % 4 * 16 + b1 / 16 == d1 && (b1 % 16 * 4 == d2 <==> d2 % 4 == 0)
  {
    Divided(b0, d0, d1 / 16, 4);
    Divided(b1, d1 % 16, d2 / 4, 16);
  }

  /** The digits are those of table 2 of RFC 4648: the letters, the numerals, hyphen and underscore. */
  lemma AlphabetIs(d: nat)
    requires d < 64
    ensures Char(0) == 'A' && Char(26) == 'a' && Char(52) == '0' && Char(62) == '-' && Char(63) == '_'
    ensures d != 25 && d != 51 && d < 61 ==> Char(d + 1) == Char(d) + 1 as char
    ensures Digit(Char(d)) == d
  {}
}
