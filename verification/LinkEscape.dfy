/** A value as it is written into an address: percent-encoding as in section 2.1 of RFC 3986, over UTF-8 bytes. */
module LinkEscape {
  import opened Results

  /** The characters written as they are. */
  predicate Unreserved(c: char)
  {
    'A' <= c <= 'Z' || 'a' <= c <= 'z' || '0' <= c <= '9' || c in "-_.!~*'()"
  }

  /** The characters an escaped value can hold. */
  predicate Emitted(c: char)
  {
    Unreserved(c) || c == '%'
  }

  type byte = b: nat | b < 256 witness 0

  /** The UTF-8 bytes of one character: its number, six bits to each byte after the first. */
  function Utf8(c: char): (r: seq<byte>)
    ensures r != []
  {
    var n := c as int;
    if n < 0x80 then [n]
    else if n < 0x800 then [0xC0 + n / 64, 0x80 + n % 64]
    else if n < 0x1_0000 then [0xE0 + n / 64 / 64, 0x80 + n / 64 % 64, 0x80 + n % 64]
    else [0xF0 + n / 64 / 64 / 64, 0x80 + n / 64 / 64 % 64, 0x80 + n / 64 % 64, 0x80 + n % 64]
  }

  /** How many bytes a character takes, which its first one says. */
  function Width(lead: nat): nat
  {
    if lead < 0x80 then 1 else if lead < 0xE0 then 2 else if lead < 0xF0 then 3 else 4
  }

  lemma LeadSaysWidth(c: char)
    ensures |Utf8(c)| == Width(Utf8(c)[0])
  {
  }

  /** What a byte after the first adds. */
  function Low(b: byte): int
  {
    b as int - 0x80
  }

  /** The number its bytes stand for. */
  function Number(u: seq<byte>): int
  {
    if |u| == 1 then u[0] as int
    else if |u| == 2 then 64 * (u[0] as int - 0xC0) + Low(u[1])
    else if |u| == 3 then 64 * (64 * (u[0] as int - 0xE0) + Low(u[1])) + Low(u[2])
    else if |u| == 4 then 64 * (64 * (64 * (u[0] as int - 0xF0) + Low(u[1])) + Low(u[2])) + Low(u[3])
    else 0
  }

  lemma NumberOfUtf8(c: char)
    ensures Number(Utf8(c)) == c as int
  {
    var n := c as int;
    assert n == 64 * (n / 64) + n % 64;
    assert n / 64 == 64 * (n / 64 / 64) + n / 64 % 64;
    assert n / 64 / 64 == 64 * (n / 64 / 64 / 64) + n / 64 / 64 % 64;
  }

  lemma Utf8Injective(a: char, b: char)
    requires Utf8(a) == Utf8(b)
    ensures a == b
  {
    NumberOfUtf8(a);
    NumberOfUtf8(b);
  }

  /** One hexadecimal digit, in upper case. */
  function Hex(d: nat): (c: char)
    requires d < 16
    ensures Unreserved(c)
  {
    if d < 10 then ('0' as int + d) as char else ('A' as int + d - 10) as char
  }

  lemma HexInjective(d: nat, e: nat)
    requires d < 16 && e < 16 && Hex(d) == Hex(e)
    ensures d == e
  {
  }

  /** Bytes, each written as a percent sign and two digits. */
  function Percent(bytes: seq<byte>): (s: string)
    ensures |s| == 3 * |bytes|
    ensures forall c <- s :: Emitted(c)
  {
    if bytes == [] then "" else ['%', Hex(bytes[0] / 16), Hex(bytes[0] % 16)] + Percent(bytes[1..])
  }

  lemma {:induction false} PercentInjective(u: seq<byte>, v: seq<byte>)
    requires Percent(u) == Percent(v)
    ensures u == v
  {
    if u != [] {
      SameByte(u, "", v, "");
      assert Percent(u[1..]) == Percent(u)[3..] == Percent(v)[3..] == Percent(v[1..]);
      PercentInjective(u[1..], v[1..]);
      assert u == [u[0]] + u[1..] && v == [v[0]] + v[1..];
    }
  }

  lemma SameByte(u: seq<byte>, x: string, v: seq<byte>, y: string)
    requires u != [] && v != []
    requires Percent(u) + x == Percent(v) + y
    ensures u[0] == v[0]
  {
    var s, t := Percent(u) + x, Percent(v) + y;
    assert s[1] == Hex(u[0] / 16) && s[2] == Hex(u[0] % 16);
    assert t[1] == Hex(v[0] / 16) && t[2] == Hex(v[0] % 16);
    HexInjective(u[0] / 16, v[0] / 16);
    HexInjective(u[0] % 16, v[0] % 16);
  }

  function EncodeChar(c: char): (s: string)
    ensures s != [] && forall k <- s :: Emitted(k)
  {
    if Unreserved(c) then [c] else Percent(Utf8(c))
  }

  /** A value, escaped. */
  function Encode(text: string): (s: string)
    ensures forall k <- s :: Emitted(k)
  {
    if text == "" then "" else EncodeChar(text[0]) + Encode(text[1..])
  }

  /** No character's escape starts another's, so an escaped text says where its first character ends. */
  lemma FirstCharacterIsRead(a: char, x: string, b: char, y: string)
    requires EncodeChar(a) + x == EncodeChar(b) + y
    ensures a == b && x == y
  {
    var s := EncodeChar(a) + x;
    assert s[0] == EncodeChar(a)[0] == EncodeChar(b)[0];
    if !Unreserved(a) && !Unreserved(b) {
      var u, v := Utf8(a), Utf8(b);
      SameByte(u, x, v, y);
      LeadSaysWidth(a);
      LeadSaysWidth(b);
      assert Percent(u) == s[..3 * |u|] == Percent(v);
      PercentInjective(u, v);
      Utf8Injective(a, b);
    }
    assert x == s[|EncodeChar(a)|..] && y == s[|EncodeChar(b)|..];
  }

  /** Two texts that escape alike are the same text. */
  lemma {:induction false} EncodeInjective(s: string, t: string)
    requires Encode(s) == Encode(t)
    ensures s == t
  {
    if s != "" && t != "" {
      FirstCharacterIsRead(s[0], Encode(s[1..]), t[0], Encode(t[1..]));
      EncodeInjective(s[1..], t[1..]);
      assert s == [s[0]] + s[1..] && t == [t[0]] + t[1..];
    }
  }

  /** A text of unreserved characters is written as it is. */
  lemma {:induction false} UnreservedIsKept(text: string)
    requires forall c <- text :: Unreserved(c)
    ensures Encode(text) == text
  {
    if text != "" {
      UnreservedIsKept(text[1..]);
      assert text == [text[0]] + text[1..];
    }
  }

  // ----------------------------------------------------------- reading it back

  /** What one hexadecimal digit stands for. */
  function DigitValue(c: char): (d: nat)
    ensures d < 16
  {
    if '0' <= c <= '9' then c as int - '0' as int
    else if 'A' <= c <= 'F' then c as int - 'A' as int + 10
    else 0
  }

  /** Byte `i` of those `s` writes out, three characters each. */
  function ByteAt(s: string, i: nat): byte
    requires 3 * i + 2 < |s|
  {
    16 * DigitValue(s[3 * i + 1]) + DigitValue(s[3 * i + 2])
  }

  /** The first `n` bytes that `s` writes out. */
  function ReadBytes(s: string, n: nat): seq<byte>
    requires 3 * n <= |s|
  {
    seq(n, i requires 0 <= i < n => ByteAt(s, i))
  }

  /** The character a number stands for, when it stands for one. */
  function CharOf(n: int): Option<char>
  {
    if 0 <= n < 0xD800 || 0xE000 <= n < 0x11_0000 then Some(n as char) else None
  }

  /** An escaped text read back: a percent sign starts as many bytes as the first of them says. */
  function Decode(s: string): Option<string>
    decreases |s|
  {
    if s == "" then Some("")
    else if s[0] != '%' then
      (match Decode(s[1..]) case Some(rest) => Some([s[0]] + rest) case None => None)
    else if |s| < 3 || |s| < 3 * Width(ReadBytes(s, 1)[0]) then None
    else
      var n := Width(ReadBytes(s, 1)[0]);
      match (CharOf(Number(ReadBytes(s, n))), Decode(s[3 * n..]))
      case (Some(c), Some(rest)) => Some([c] + rest)
      case _ => None
  }

  lemma DigitOfHex(d: nat)
    requires d < 16
    ensures DigitValue(Hex(d)) == d
  {
  }

  lemma ByteOfDigits(b: byte)
    ensures 16 * DigitValue(Hex(b / 16)) + DigitValue(Hex(b % 16)) == b
  {
    DigitOfHex(b / 16);
    DigitOfHex(b % 16);
  }

  /** Where the two digits of byte `i` stand. */
  lemma {:induction false} PercentAt(bytes: seq<byte>, i: nat)
    requires i < |bytes|
    ensures Percent(bytes)[3 * i + 1] == Hex(bytes[i] / 16) && Percent(bytes)[3 * i + 2] == Hex(bytes[i] % 16)
  {
    if i > 0 {
      PercentAt(bytes[1..], i - 1);
    }
  }

  lemma BytesAreRead(bytes: seq<byte>, rest: string, n: nat)
    requires n <= |bytes|
    ensures ReadBytes(Percent(bytes) + rest, n) == bytes[..n]
  {
    forall i | 0 <= i < n
      ensures ByteAt(Percent(bytes) + rest, i) == bytes[i]
    {
      PercentAt(bytes, i);
      ByteOfDigits(bytes[i]);
    }
  }

  lemma EscapedCharIsRead(c: char, rest: string)
    requires !Unreserved(c) && Decode(rest).Some?
    ensures Decode(EncodeChar(c) + rest) == Some([c] + Decode(rest).value)
  {
    var u := Utf8(c);
    var s := Percent(u) + rest;
    assert s[0] == '%';
    BytesAreRead(u, rest, 1);
    BytesAreRead(u, rest, |u|);
    assert u[..|u|] == u;
    LeadSaysWidth(c);
    NumberOfUtf8(c);
    assert s[3 * |u|..] == rest;
  }

  /** An escaped text is read back as the text it was. */
  lemma {:induction false} DecodeUndoesEncode(text: string)
    ensures Decode(Encode(text)) == Some(text)
  {
    if text != "" {
      var c, rest := text[0], Encode(text[1..]);
      DecodeUndoesEncode(text[1..]);
      assert text == [c] + text[1..];
      if Unreserved(c) {
        assert (EncodeChar(c) + rest)[1..] == rest;
      } else {
        EscapedCharIsRead(c, rest);
      }
    }
  }
}
