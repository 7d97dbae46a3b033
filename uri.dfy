/** ECMAScript's `encodeURIComponent`, which the header uses to put the search
    text into the `q` parameter, and the decoding the search page's
    `searchParams.get` applies to it: percent-decoding of the UTF-8 bytes of
    the query, then UTF-8 decoding. */
module Uri {
  import opened Common

  /** The characters `encodeURIComponent` leaves alone: ASCII letters and
      digits and `- _ . ! ~ * ' ( )`. */
  predicate Unreserved(c: char)
  {
    || ('A' <= c <= 'Z') || ('a' <= c <= 'z') || ('0' <= c <= '9')
    || c in "-_.!~*'()"
  }

  newtype byte = x: int | 0 <= x < 256

  /** The UTF-8 encoding of one code point. */
  function Utf8(c: char): (bs: seq<byte>)
    ensures 1 <= |bs| <= 4
    ensures |bs| == 1 <==> c as int < 0x80
    ensures |bs| == 1 ==> bs[0] as int == c as int
  {
    var cp := c as int;
    if cp < 0x80 then [cp as byte]
    else if cp < 0x800 then [(0xC0 + cp / 64) as byte, (0x80 + cp % 64) as byte]
    else if cp < 0x10000 then
      [(0xE0 + cp / 4096) as byte, (0x80 + cp / 64 % 64) as byte, (0x80 + cp % 64) as byte]
    else
      [(0xF0 + cp / 262144) as byte, (0x80 + cp / 4096 % 64) as byte,
       (0x80 + cp / 64 % 64) as byte, (0x80 + cp % 64) as byte]
  }

  function Utf8String(s: string): seq<byte>
  {
    if |s| == 0 then [] else Utf8(s[0]) + Utf8String(s[1..])
  }

  /** The upper-case hexadecimal digit of `n`. */
  function HexDigit(n: nat): (c: char)
    requires n < 16
    ensures IsHex(c as int) && HexValue(c as int) == n
  {
    "0123456789ABCDEF"[n]
  }

  predicate IsHex(b: int)
  {
    ('0' as int <= b <= '9' as int) || ('A' as int <= b <= 'F' as int) || ('a' as int <= b <= 'f' as int)
  }

  function HexValue(b: int): (v: nat)
    requires IsHex(b)
    ensures v < 16
  {
    if b <= '9' as int then b - '0' as int
    else if b <= 'F' as int then b - 'A' as int + 10
    else b - 'a' as int + 10
  }

  /** `%XY` for each byte. */
  function Escapes(bs: seq<byte>): (s: string)
    ensures |s| == 3 * |bs|
  {
    if |bs| == 0 then []
    else ['%', HexDigit(bs[0] as int / 16), HexDigit(bs[0] as int % 16)] + Escapes(bs[1..])
  }

  function EncodeChar(c: char): string
  {
    if Unreserved(c) then [c] else Escapes(Utf8(c))
  }

  /** `encodeURIComponent(s)`. */
  function Encode(s: string): (r: string)
    ensures |r| >= |s|
    ensures forall i | 0 <= i < |r| :: Unreserved(r[i]) || r[i] == '%' || IsHex(r[i] as int)
  {
    if |s| == 0 then []
    else
      EscapesShape(Utf8(s[0]));
      EncodeChar(s[0]) + Encode(s[1..])
  }

  lemma {:induction false} EscapesShape(bs: seq<byte>)
    ensures forall i | 0 <= i < |Escapes(bs)| :: Escapes(bs)[i] == '%' || IsHex(Escapes(bs)[i] as int)
    decreases |bs|
  {
    if |bs| > 0 {
      EscapesShape(bs[1..]);
      var head := ['%', HexDigit(bs[0] as int / 16), HexDigit(bs[0] as int % 16)];
      assert Escapes(bs) == head + Escapes(bs[1..]);
    }
  }

  /** No character that ends or splits a query parameter's value: `&`, `#`,
      and the space and `+` that form decoding reads as spaces. */
  predicate NoSeparator(s: string)
  {
    forall i | 0 <= i < |s| :: s[i] != '&' && s[i] != '#' && s[i] != ' ' && s[i] != '+'
  }

  /** An encoded string is a single parameter value. */
  lemma EncodedHasNoSeparators(s: string)
    ensures NoSeparator(Encode(s))
  {
    var e := Encode(s);
    forall i | 0 <= i < |e|
      ensures e[i] != '&' && e[i] != '#' && e[i] != ' ' && e[i] != '+'
    {
      assert Unreserved(e[i]) || e[i] == '%' || IsHex(e[i] as int);
    }
  }

  /** A string of unreserved characters is its own encoding. */
  lemma {:induction false} EncodeUnreserved(s: string)
    requires forall i | 0 <= i < |s| :: Unreserved(s[i])
    ensures Encode(s) == s
    decreases |s|
  {
    if |s| > 0 {
      EncodeUnreserved(s[1..]);
      assert [s[0]] + s[1..] == s;
    }
  }

  /** Form-value decoding of the bytes: `+` becomes a space, `%` with two
      hexadecimal digits becomes that byte, and every other byte, a stray
      `%` included, stays. */
  function FormDecode(bs: seq<byte>): seq<byte>
  {
    if |bs| == 0 then []
    else if |bs| >= 3 && bs[0] as int == '%' as int && IsHex(bs[1] as int) && IsHex(bs[2] as int) then
      [(HexValue(bs[1] as int) * 16 + HexValue(bs[2] as int)) as byte] + FormDecode(bs[3..])
    else if bs[0] as int == '+' as int then [' ' as int as byte] + FormDecode(bs[1..])
    else [bs[0]] + FormDecode(bs[1..])
  }

  predicate IsContinuation(b: byte)
  {
    0x80 <= b as int < 0xC0
  }

  predicate IsScalar(cp: int)
  {
    (0 <= cp < 0xD800) || (0xE000 <= cp < 0x110000)
  }

  /** Strict UTF-8 decoding: `None` on a malformed, overlong or surrogate
      sequence. */
  function Utf8Decode(bs: seq<byte>): Option<string>
    decreases |bs|
  {
    if |bs| == 0 then Some([])
    else
      var b0 := bs[0] as int;
      var n := SequenceLength(b0);
      if n == 0 || |bs| < n then None
      else if exists i | 1 <= i < n :: !IsContinuation(bs[i]) then None
      else
        var cp := DecodeUnit(bs[..n]);
        if cp < Least(n) || !IsScalar(cp) then None
        else match Utf8Decode(bs[n..])
          case None => None
          case Some(rest) => Some([cp as char] + rest)
  }

  /** The code point of one encoded sequence, lead byte first. */
  function DecodeUnit(u: seq<byte>): int
    requires 1 <= |u| <= 4
  {
    var b0 := u[0] as int;
    if |u| == 1 then b0
    else if |u| == 2 then (b0 - 0xC0) * 64 + (u[1] as int - 0x80)
    else if |u| == 3 then (b0 - 0xE0) * 4096 + (u[1] as int - 0x80) * 64 + (u[2] as int - 0x80)
    else (b0 - 0xF0) * 262144 + (u[1] as int - 0x80) * 4096 + (u[2] as int - 0x80) * 64 + (u[3] as int - 0x80)
  }

  /** `searchParams.get`'s decoding of a parameter value. */
  function Decode(s: string): Option<string>
  {
    Utf8Decode(FormDecode(Utf8String(s)))
  }

  lemma {:induction false} Utf8StringConcat(a: string, b: string)
    ensures Utf8String(a + b) == Utf8String(a) + Utf8String(b)
    decreases |a|
  {
    if |a| > 0 {
      assert (a + b)[1..] == a[1..] + b;
      Utf8StringConcat(a[1..], b);
    } else {
      assert a + b == b;
    }
  }

  lemma AsciiHead(hi: char, lo: char)
    requires hi as int < 0x80 && lo as int < 0x80
    ensures Utf8String(['%', hi, lo]) == ['%' as int as byte, hi as int as byte, lo as int as byte]
  {
    var t := ['%', hi, lo];
    assert t[1..] == [hi, lo] && t[1..][1..] == [lo] && t[1..][1..][1..] == [];
    assert Utf8String([lo]) == [lo as int as byte];
    assert Utf8String([hi, lo]) == [hi as int as byte, lo as int as byte];
  }

  /** One escape decodes back to its byte. */
  lemma EscapeDecodes(b: byte, tail: seq<byte>)
    ensures FormDecode(Utf8String(['%', HexDigit(b as int / 16), HexDigit(b as int % 16)]) + tail)
            == [b] + FormDecode(tail)
  {
    var hi, lo := HexDigit(b as int / 16), HexDigit(b as int % 16);
    AsciiHead(hi, lo);
    var x := Utf8String(['%', hi, lo]) + tail;
    assert x[3..] == tail;
    assert HexValue(x[1] as int) * 16 + HexValue(x[2] as int) == b as int;
  }

  /** The bytes of the escapes of `bs` decode back to `bs`. */
  lemma {:induction false} EscapesDecode(bs: seq<byte>, rest: seq<byte>)
    ensures FormDecode(Utf8String(Escapes(bs)) + rest) == bs + FormDecode(rest)
    decreases |bs|
  {
    if |bs| > 0 {
      var head := ['%', HexDigit(bs[0] as int / 16), HexDigit(bs[0] as int % 16)];
      Utf8StringConcat(head, Escapes(bs[1..]));
      var tail := Utf8String(Escapes(bs[1..])) + rest;
      assert Utf8String(Escapes(bs)) + rest == Utf8String(head) + tail;
      EscapeDecodes(bs[0], tail);
      EscapesDecode(bs[1..], rest);
      assert bs == [bs[0]] + bs[1..];
    } else {
      assert Utf8String(Escapes(bs)) + rest == rest;
    }
  }

  /** One encoded character decodes back to its UTF-8 bytes. */
  lemma EncodeCharDecode(c: char, rest: seq<byte>)
    ensures FormDecode(Utf8String(EncodeChar(c)) + rest) == Utf8(c) + FormDecode(rest)
  {
    if Unreserved(c) {
      assert Utf8String([c]) == Utf8(c) + Utf8String([]);
      assert Utf8String([c]) + rest == [c as int as byte] + rest;
    } else {
      EscapesDecode(Utf8(c), rest);
    }
  }

  /** The length of the sequence a lead byte starts; 0 for a byte that
      starts none. */
  function SequenceLength(b0: int): nat
  {
    if b0 < 0x80 then 1 else if 0xC2 <= b0 < 0xE0 then 2 else if 0xE0 <= b0 < 0xF0 then 3
    else if 0xF0 <= b0 < 0xF5 then 4 else 0
  }

  /** The least code point a sequence of `n` bytes may carry. */
  function Least(n: nat): int
  {
    if n <= 1 then 0 else if n == 2 then 0x80 else if n == 3 then 0x800 else 0x10000
  }

  /** The encoding of a code point is one well-formed sequence that carries
      it. */
  lemma Utf8Unit(c: char)
    ensures var u := Utf8(c);
      && SequenceLength(u[0] as int) == |u|
      && (forall i | 1 <= i < |u| :: IsContinuation(u[i]))
      && DecodeUnit(u) == c as int
      && Least(|u|) <= c as int
  {
    var cp := c as int;
    if cp < 0x80 {
    } else if cp < 0x800 {
      Utf8Unit2(c);
    } else if cp < 0x10000 {
      Utf8Unit3(c);
    } else {
      Utf8Unit4(c);
    }
  }

  lemma Utf8Unit2(c: char)
    requires 0x80 <= c as int < 0x800
    ensures var u := Utf8(c);
      && |u| == 2 && SequenceLength(u[0] as int) == 2 && IsContinuation(u[1]) && DecodeUnit(u) == c as int
  {
    var cp := c as int;
    var q, r := cp / 64, cp % 64;
    assert cp == q * 64 + r;
    assert Utf8(c) == [(0xC0 + q) as byte, (0x80 + r) as byte];
  }

  lemma Utf8Unit3(c: char)
    requires 0x800 <= c as int < 0x10000
    ensures var u := Utf8(c);
      && |u| == 3 && SequenceLength(u[0] as int) == 3 && IsContinuation(u[1]) && IsContinuation(u[2])
      && DecodeUnit(u) == c as int
  {
    var cp := c as int;
    var q, r := cp / 64, cp % 64;
    var q2, r2 := q / 64, q % 64;
    assert cp == q * 64 + r && q == q2 * 64 + r2;
    assert cp / 4096 == q2;
    assert Utf8(c) == [(0xE0 + q2) as byte, (0x80 + r2) as byte, (0x80 + r) as byte];
  }

  lemma Utf8Unit4(c: char)
    requires 0x10000 <= c as int
    ensures var u := Utf8(c);
      && |u| == 4 && SequenceLength(u[0] as int) == 4
      && IsContinuation(u[1]) && IsContinuation(u[2]) && IsContinuation(u[3])
      && DecodeUnit(u) == c as int
  {
    var cp := c as int;
    var q, r := cp / 64, cp % 64;
    var q2, r2 := q / 64, q % 64;
    var q3, r3 := q2 / 64, q2 % 64;
    assert cp == q * 64 + r && q == q2 * 64 + r2 && q2 == q3 * 64 + r3;
    assert cp / 4096 == q2 && cp / 262144 == q3;
    assert Utf8(c) == [(0xF0 + q3) as byte, (0x80 + r3) as byte, (0x80 + r2) as byte, (0x80 + r) as byte];
  }

  /** The UTF-8 bytes of a code point decode back to it. */
  lemma Utf8Decodes(c: char, rest: seq<byte>)
    ensures Utf8Decode(Utf8(c) + rest) ==
      (match Utf8Decode(rest) case None => None case Some(r) => Some([c] + r))
  {
    var bs := Utf8(c) + rest;
    var n := |Utf8(c)|;
    assert bs[..n] == Utf8(c) && bs[n..] == rest;
    Utf8Unit(c);
    assert SequenceLength(bs[0] as int) == n;
    assert forall i | 1 <= i < n :: IsContinuation(bs[i]);
  }

  /** What the header encodes, the search page reads back unchanged. */
  lemma {:induction false} DecodeEncode(s: string)
    ensures Decode(Encode(s)) == Some(s)
    decreases |s|
  {
    if |s| > 0 {
      DecodeEncode(s[1..]);
      var tail := Utf8String(Encode(s[1..]));
      Utf8StringConcat(EncodeChar(s[0]), Encode(s[1..]));
      EncodeCharDecode(s[0], tail);
      Utf8Decodes(s[0], FormDecode(tail));
      assert [s[0]] + s[1..] == s;
    }
  }
}
