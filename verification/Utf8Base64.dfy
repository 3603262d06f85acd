/**
 * UTF-8 and Base64 with their readers, as encodeMimeWords of src/utils/smtp-client.ts
 * uses them. A text is a sequence of code points, as Array.from gives them for
 * well-formed text.
 */
module Utf8Base64 {
  import opened Common

  type Byte = n: nat | n < 256

  // ── UTF-8 ──

  function Utf8Char(c: char): (b: seq<Byte>)
    ensures 1 <= |b| <= 4
  {
    Utf8Number(c as int)
  }

  function Utf8Number(n: nat): (b: seq<Byte>)
    requires n < 0x11_0000
    ensures 1 <= |b| <= 4
  {
    var h := n / 64;
    var hh := h / 64;
    if n < 0x80 then [n]
    else if n < 0x800 then [0xC0 + h, 0x80 + n % 64]
    else if n < 0x1_0000 then [0xE0 + hh, 0x80 + h % 64, 0x80 + n % 64]
    else [0xF0 + hh / 64, 0x80 + hh % 64, 0x80 + h % 64, 0x80 + n % 64]
  }

  function Utf8(s: string): seq<Byte> {
    if s == "" then [] else Utf8(s[..|s| - 1]) + Utf8Char(s[|s| - 1])
  }

  predicate IsScalar(n: int) { 0 <= n < 0xD800 || 0xE000 <= n < 0x11_0000 }

  /** The length a first byte announces, and the bits it holds. */
  function Lead(b: Byte): (nat, nat) {
    if b < 0x80 then (1, b)
    else if 0xC0 <= b < 0xE0 then (2, b - 0xC0)
    else if 0xE0 <= b < 0xF0 then (3, b - 0xE0)
    else if 0xF0 <= b < 0xF8 then (4, b - 0xF0)
    else (0, 0)
  }

  /** The number continued by the bytes, each of which must be a continuation byte. */
  function Continued(b: seq<Byte>, n: nat): Option<nat>
    decreases |b|
  {
    if b == [] then Some(n)
    else if 0x80 <= b[0] < 0xC0 then Continued(b[1..], 64 * n + b[0] - 0x80)
    else None
  }

  /** One code point at the front of the bytes: it and the bytes it takes. */
  function ReadChar(b: seq<Byte>): Option<(char, nat)> {
    if b == [] then None
    else
      var (length, first) := Lead(b[0]);
      if length == 0 || |b| < length then None
      else
        match Continued(b[1..length], first)
        case None => None
        case Some(n) => if IsScalar(n) then Some((n as char, length)) else None
  }

  function ReadUtf8(b: seq<Byte>): Option<string>
    decreases |b|
  {
    if b == [] then Some("")
    else
      match ReadChar(b)
      case None => None
      case Some((c, length)) =>
        if length == 0 || length > |b| then None
        else
          match ReadUtf8(b[length..])
          case None => None
          case Some(s) => Some([c] + s)
  }

  lemma Continues(n: nat, b: seq<Byte>, low: nat)
    requires low < 64 && b != [] && b[0] == 0x80 + low
    ensures Continued(b, n) == Continued(b[1..], 64 * n + low)
  {
  }

  lemma ReadsTail(n: nat)
    requires n < 0x11_0000
    ensures var b := Utf8Number(n); var (length, first) := Lead(b[0]);
      length == |b| && Continued(b[1..], first) == Some(n)
  {
    var b, h := Utf8Number(n), n / 64;
    var hh := h / 64;
    if n < 0x80 {
      assert b[1..] == [];
    } else if n < 0x800 {
      Continues(h, b[1..], n % 64);
      assert b[1..][1..] == [];
    } else if n < 0x1_0000 {
      Continues(hh, b[1..], h % 64);
      assert b[1..][1..] == [0x80 + n % 64];
      Continues(h, b[1..][1..], n % 64);
      assert b[1..][1..][1..] == [];
    } else {
      Continues(hh / 64, b[1..], hh % 64);
      assert b[1..][1..] == [0x80 + h % 64, 0x80 + n % 64];
      Continues(hh, b[1..][1..], h % 64);
      assert b[1..][1..][1..] == [0x80 + n % 64];
      Continues(h, b[1..][1..][1..], n % 64);
      assert b[1..][1..][1..][1..] == [];
    }
  }

  lemma ReadsChar(c: char, rest: seq<Byte>)
    ensures ReadChar(Utf8Char(c) + rest) == Some((c, |Utf8Char(c)|))
  {
    var b := Utf8Char(c);
    ReadsTail(c as int);
    assert (b + rest)[0] == b[0] && (b + rest)[1..|b|] == b[1..];
  }

  /** The bytes of a text, first code point first. */
  lemma {:induction false} Utf8Front(s: string)
    requires s != ""
    ensures Utf8(s) == Utf8Char(s[0]) + Utf8(s[1..])
  {
    var n := |s| - 1;
    if n > 0 {
      Utf8Front(s[..n]);
      assert s[..n][1..] == s[1..][..n - 1] && s[1..][n - 1] == s[n];
      assert Utf8(s[1..]) == Utf8(s[1..][..n - 1]) + Utf8Char(s[n]);
    } else {
      assert s[..0] == "" && s[1..] == "";
    }
  }

  lemma {:induction false} Utf8Reads(s: string)
    ensures ReadUtf8(Utf8(s)) == Some(s)
  {
    if s != "" {
      Utf8Front(s);
      ReadsChar(s[0], Utf8(s[1..]));
      Utf8Reads(s[1..]);
      assert Utf8(s)[|Utf8Char(s[0])|..] == Utf8(s[1..]);
      assert [s[0]] + s[1..] == s;
    }
  }

  // ── Base64 ──

  type Sextet = n: nat | n < 64

  function Base64Char(n: Sextet): char {
    if n < 26 then ('A' as int + n) as char
    else if n < 52 then ('a' as int + n - 26) as char
    else if n < 62 then ('0' as int + n - 52) as char
    else if n == 62 then '+' else '/'
  }

  function ReadBase64Char(c: char): Option<Sextet> {
    if 'A' <= c <= 'Z' then Some(c as int - 'A' as int)
    else if 'a' <= c <= 'z' then Some(c as int - 'a' as int + 26)
    else if '0' <= c <= '9' then Some(c as int - '0' as int + 52)
    else if c == '+' then Some(62)
    else if c == '/' then Some(63)
    else None
  }

  lemma Base64CharReads(n: Sextet)
    ensures ReadBase64Char(Base64Char(n)) == Some(n)
    ensures Base64Char(n) != '=' && Base64Char(n) != '?'
  {
  }

  function OneQuad(a: Byte): (s: string)
    ensures |s| == 4
  {
    [Base64Char(a / 4), Base64Char(a % 4 * 16), '=', '=']
  }

  function TwoQuad(a: Byte, b: Byte): (s: string)
    ensures |s| == 4
  {
    [Base64Char(a / 4), Base64Char(a % 4 * 16 + b / 16), Base64Char(b % 16 * 4), '=']
  }

  function ThreeQuad(a: Byte, b: Byte, c: Byte): (s: string)
    ensures |s| == 4
  {
    [Base64Char(a / 4), Base64Char(a % 4 * 16 + b / 16), Base64Char(b % 16 * 4 + c / 64), Base64Char(c % 64)]
  }

  /** Three bytes as four characters; the last one or two bytes are padded. */
  function Base64(b: seq<Byte>): string
    decreases |b|
  {
    if |b| == 0 then ""
    else if |b| == 1 then OneQuad(b[0])
    else if |b| == 2 then TwoQuad(b[0], b[1])
    else ThreeQuad(b[0], b[1], b[2]) + Base64(b[3..])
  }

  lemma {:induction false} Base64Length(b: seq<Byte>)
    ensures |Base64(b)| == (|b| + 2) / 3 * 4
    decreases |b|
  {
    if |b| >= 3 {
      Base64Length(b[3..]);
      assert |Base64(b)| == 4 + |Base64(b[3..])|;
    }
  }

  /** No question mark, so the end of an encoded-word is found. */
  lemma {:induction false} Base64HasNoMark(b: seq<Byte>, i: nat)
    requires i < |Base64(b)|
    ensures Base64(b)[i] != '?'
    decreases |b|
  {
    if |b| >= 3 && i >= 4 { Base64HasNoMark(b[3..], i - 4); }
  }

  function ReadQuad(s: string): Option<seq<Byte>>
    requires |s| == 4
  {
    match (ReadBase64Char(s[0]), ReadBase64Char(s[1]))
    case (Some(p), Some(q)) =>
      if s[2] == '=' && s[3] == '=' then Some([p * 4 + q / 16])
      else (
        match ReadBase64Char(s[2])
        case None => None
        case Some(r) =>
          if s[3] == '=' then Some([p * 4 + q / 16, q % 16 * 16 + r / 4])
          else
            match ReadBase64Char(s[3])
            case None => None
            case Some(t) => Some([p * 4 + q / 16, q % 16 * 16 + r / 4, r % 4 * 64 + t])
      )
    case _ => None
  }

  function ReadBase64(s: string): Option<seq<Byte>>
    decreases |s|
  {
    if s == "" then Some([])
    else if |s| < 4 then None
    else
      match (ReadQuad(s[..4]), ReadBase64(s[4..]))
      case (Some(b), Some(rest)) => Some(b + rest)
      case _ => None
  }

  lemma JoinsBack(x: nat, y: nat)
    ensures y < 16 ==> (x * 16 + y) / 16 == x && (x * 16 + y) % 16 == y
    ensures y < 4 ==> (x * 4 + y) / 4 == x && (x * 4 + y) % 4 == y
  {
  }

  lemma OneReads(a: Byte)
    ensures ReadQuad(OneQuad(a)) == Some([a])
  {
    Base64CharReads(a / 4);
    Base64CharReads(a % 4 * 16);
    JoinsBack(a % 4, 0);
  }

  lemma TwoRead(a: Byte, b: Byte)
    ensures ReadQuad(TwoQuad(a, b)) == Some([a, b])
  {
    Base64CharReads(a / 4);
    Base64CharReads(a % 4 * 16 + b / 16);
    Base64CharReads(b % 16 * 4);
    JoinsBack(a % 4, b / 16);
    JoinsBack(b % 16, 0);
  }

  lemma FullQuadReads(p: Sextet, q: Sextet, r: Sextet, t: Sextet)
    ensures ReadQuad([Base64Char(p), Base64Char(q), Base64Char(r), Base64Char(t)])
         == Some([p * 4 + q / 16, q % 16 * 16 + r / 4, r % 4 * 64 + t])
  {
    Base64CharReads(p);
    Base64CharReads(q);
    Base64CharReads(r);
    Base64CharReads(t);
  }

  lemma ThreeRead(a: Byte, b: Byte, c: Byte)
    ensures ReadQuad(ThreeQuad(a, b, c)) == Some([a, b, c])
  {
    FullQuadReads(a / 4, a % 4 * 16 + b / 16, b % 16 * 4 + c / 64, c % 64);
    JoinsBack(a % 4, b / 16);
    JoinsBack(b % 16, c / 64);
  }

  /** A quad at the front is read on its own. */
  lemma QuadInFront(quad: string, rest: string, b: seq<Byte>, more: seq<Byte>)
    requires |quad| == 4 && ReadQuad(quad) == Some(b) && ReadBase64(rest) == Some(more)
    ensures ReadBase64(quad + rest) == Some(b + more)
  {
    assert (quad + rest)[..4] == quad && (quad + rest)[4..] == rest;
  }

  lemma LastQuad(quad: string, b: seq<Byte>)
    requires |quad| == 4 && ReadQuad(quad) == Some(b)
    ensures ReadBase64(quad) == Some(b)
  {
    QuadInFront(quad, "", b, []);
    assert quad + "" == quad && b + [] == b;
  }

  lemma OneByteReads(a: Byte)
    ensures ReadBase64(OneQuad(a)) == Some([a])
  {
    OneReads(a);
    LastQuad(OneQuad(a), [a]);
  }

  lemma TwoBytesRead(a: Byte, b: Byte)
    ensures ReadBase64(TwoQuad(a, b)) == Some([a, b])
  {
    TwoRead(a, b);
    LastQuad(TwoQuad(a, b), [a, b]);
  }

  lemma LongReads(b: seq<Byte>, rest: string)
    requires |b| >= 3 && ReadBase64(rest) == Some(b[3..])
    ensures ReadBase64(ThreeQuad(b[0], b[1], b[2]) + rest) == Some(b)
  {
    ThreeRead(b[0], b[1], b[2]);
    QuadInFront(ThreeQuad(b[0], b[1], b[2]), rest, [b[0], b[1], b[2]], b[3..]);
    assert [b[0], b[1], b[2]] + b[3..] == b;
  }

  lemma {:induction false} Base64Reads(b: seq<Byte>)
    ensures ReadBase64(Base64(b)) == Some(b)
    decreases |b|
  {
    if |b| >= 3 {
      Base64Reads(b[3..]);
      LongReads(b, Base64(b[3..]));
    } else if |b| == 2 {
      TwoBytesRead(b[0], b[1]);
      assert [b[0], b[1]] == b;
    } else if |b| == 1 {
      OneByteReads(b[0]);
      assert [b[0]] == b;
    }
  }
}
