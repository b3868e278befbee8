/** `atob`, the browser's base64 decoder: the forgiving-base64 decode of the HTML standard, which reads the
    alphabet of section 4 of RFC 4648, tolerates ASCII whitespace and missing padding and discards the
    pad bits of a final partial group. `Btoa` is the matching padded encoder, used for the round trip. */
module Base64 {
  import opened Wrappers

  type Byte = bv8
  type Sextet = x: bv8 | x < 64

  /** ASCII whitespace of the HTML standard: TAB, LF, FF, CR and SPACE. */
  predicate IsAsciiWhitespace(c: char) {
    c == '\t' || c == '\n' || c == '\U{000C}' || c == '\r' || c == ' '
  }

  function RemoveAsciiWhitespace(s: string): (r: string)
    ensures forall i :: 0 <= i < |r| ==> !IsAsciiWhitespace(r[i])
  {
    if s == [] then []
    else if IsAsciiWhitespace(s[0]) then RemoveAsciiWhitespace(s[1..])
    else [s[0]] + RemoveAsciiWhitespace(s[1..])
  }

  /** The 64 characters of the base64 alphabet (section 4 of RFC 4648, table 1). */
  predicate IsBase64Char(c: char) {
    ('A' <= c <= 'Z') || ('a' <= c <= 'z') || ('0' <= c <= '9') || c == '+' || c == '/'
  }

  predicate AllBase64(s: string) {
    forall i :: 0 <= i < |s| ==> IsBase64Char(s[i])
  }

  /** The byte with a given value, counted up from zero. */
  function ByteOf(n: int): (b: Byte)
    requires 0 <= n < 256
    ensures b as int == n
    decreases n
  {
    if n == 0 then 0 else ByteOf(n - 1) + 1
  }

  /** The value of a base64 character (section 4 of RFC 4648, table 1). */
  function SextetValue(c: char): Sextet
    requires IsBase64Char(c)
  {
    if 'A' <= c <= 'Z' then ByteOf(c as int - 'A' as int)
    else if 'a' <= c <= 'z' then ByteOf(c as int - 'a' as int + 26)
    else if '0' <= c <= '9' then ByteOf(c as int - '0' as int + 52)
    else if c == '+' then 62
    else 63
  }

  function SextetChar(v: Sextet): (c: char)
    ensures IsBase64Char(c) && SextetValue(c) == v
  {
    var n := v as int;
    if n < 26 then ('A' as int + n) as char
    else if n < 52 then ('a' as int + n - 26) as char
    else if n < 62 then ('0' as int + n - 52) as char
    else if n == 62 then '+'
    else '/'
  }

  /** Step 2 of the decode: a length divisible by four loses one or two trailing '='. */
  function StripPadding(s: string): string {
    if |s| % 4 == 0 && |s| >= 2 && s[|s| - 2] == '=' && s[|s| - 1] == '=' then s[..|s| - 2]
    else if |s| % 4 == 0 && |s| >= 1 && s[|s| - 1] == '=' then s[..|s| - 1]
    else s
  }

  /** The bytes of a run of base64 characters, four characters giving three bytes; a final group of two or
      three characters gives one or two bytes and its left-over bits are dropped. (A final lone character
      gives nothing here; `Atob` refuses such input before decoding.) */
  function DecodeSextets(s: string): (r: seq<Byte>)
    requires AllBase64(s)
  {
    if |s| <= 1 then []
    else if |s| == 2 then
      [Byte0(SextetValue(s[0]), SextetValue(s[1]))]
    else if |s| == 3 then
      [Byte0(SextetValue(s[0]), SextetValue(s[1])), Byte1(SextetValue(s[1]), SextetValue(s[2]))]
    else
      DecodeGroup(s[..4]) + DecodeSextets(s[4..])
  }

  /** The number of bytes `n` base64 characters decode to: three per group of four, and one fewer than the
      characters of a final partial group. */
  function DecodedLength(n: nat): nat {
    3 * (n / 4) + (if n % 4 == 0 then 0 else n % 4 - 1)
  }

  lemma {:induction false} DecodeSextetsLength(s: string)
    requires AllBase64(s)
    ensures |DecodeSextets(s)| == DecodedLength(|s|)
    decreases |s|
  {
    if |s| > 3 {
      DecodeSextetsLength(s[4..]);
      assert |s[4..]| == |s| - 4;
    }
  }

  /** The three bytes of four base64 characters a, b, c, d: aaaaaabb bbbbcccc ccdddddd. */
  function DecodeGroup(g: string): seq<Byte>
    requires |g| == 4 && AllBase64(g)
  {
    [Byte0(SextetValue(g[0]), SextetValue(g[1])), Byte1(SextetValue(g[1]), SextetValue(g[2])),
     Byte2(SextetValue(g[2]), SextetValue(g[3]))]
  }

  function Byte0(a: Sextet, b: Sextet): Byte { (a << 2) | (b >> 4) }
  function Byte1(b: Sextet, c: Sextet): Byte { ((b & 15) << 4) | (c >> 2) }
  function Byte2(c: Sextet, d: Sextet): Byte { ((c & 3) << 6) | d }

  /** The "binary string" `atob` returns: one character per byte, whose code is the byte. */
  function BinaryString(bytes: seq<Byte>): (r: string)
    ensures |r| == |bytes| && forall i :: 0 <= i < |r| ==> r[i] as int == bytes[i] as int
  {
    seq(|bytes|, i requires 0 <= i < |bytes| => bytes[i] as int as char)
  }

  /** `atob(data)`: None where the browser throws `InvalidCharacterError`. */
  function Atob(data: string): (r: Option<string>)
    ensures r.Some? ==> forall i :: 0 <= i < |r.value| ==> r.value[i] as int < 256
  {
    var s := StripPadding(RemoveAsciiWhitespace(data));
    if |s| % 4 == 1 || !AllBase64(s) then None
    else Some(BinaryString(DecodeSextets(s)))
  }

  /** The base64 text of whole groups and of a final partial group, without padding. */
  function EncodeUnpadded(b: seq<Byte>): (r: string)
    ensures AllBase64(r)
  {
    if |b| == 0 then []
    else if |b| == 1 then [SextetChar(Sextet0(b[0])), SextetChar(Sextet1(b[0], 0))]
    else if |b| == 2 then
      [SextetChar(Sextet0(b[0])), SextetChar(Sextet1(b[0], b[1])), SextetChar(Sextet2(b[1], 0))]
    else
      EncodeGroup(b[0], b[1], b[2]) + EncodeUnpadded(b[3..])
  }

  /** The four base64 characters of the bytes x, y, z. */
  function EncodeGroup(x: Byte, y: Byte, z: Byte): (g: string)
    ensures |g| == 4 && AllBase64(g)
  {
    [SextetChar(Sextet0(x)), SextetChar(Sextet1(x, y)), SextetChar(Sextet2(y, z)), SextetChar(Sextet3(z))]
  }

  function Sextet0(x: Byte): Sextet { x >> 2 }
  function Sextet1(x: Byte, y: Byte): Sextet { ((x & 3) << 4) | (y >> 4) }
  function Sextet2(y: Byte, z: Byte): Sextet { ((y & 15) << 2) | (z >> 6) }
  function Sextet3(z: Byte): Sextet { z & 63 }

  /** The length of the unpadded text: four characters per whole group, one more than the bytes of a partial one. */
  lemma {:induction false} EncodeUnpaddedLength(b: seq<Byte>)
    ensures |EncodeUnpadded(b)| % 4 == (if |b| % 3 == 0 then 0 else |b| % 3 + 1)
    ensures |EncodeUnpadded(b)| == 0 <==> |b| == 0
  {
    if |b| >= 3 {
      var rest := EncodeUnpadded(b[3..]);
      EncodeUnpaddedLength(b[3..]);
      assert |EncodeUnpadded(b)| == |rest| + 4;
      Mod3Step(|b|);
      Mod4Step(|rest|);
    }
  }

  lemma Mod3Step(n: nat)
    requires n >= 3
    ensures (n - 3) % 3 == n % 3
  {
  }

  lemma Mod4Step(m: nat)
    ensures (m + 4) % 4 == m % 4
  {
  }

  /** `btoa` of a binary string: the padded base64 encoding of section 4 of RFC 4648. */
  function Btoa(b: seq<Byte>): (r: string)
    ensures |r| % 4 == 0
  {
    EncodeUnpaddedLength(b);
    EncodeUnpadded(b) + (if |b| % 3 == 1 then "==" else if |b| % 3 == 2 then "=" else "")
  }

  /** Decoding an encoding gives back the bytes: `atob(btoa(x)) == x`. */
  lemma AtobBtoa(b: seq<Byte>)
    ensures Atob(Btoa(b)) == Some(BinaryString(b))
  {
    var u := EncodeUnpadded(b);
    BtoaNoWhitespace(b);
    BtoaStrip(b);
    EncodeUnpaddedLength(b);
    DecodeEncode(b);
    assert StripPadding(RemoveAsciiWhitespace(Btoa(b))) == u;
  }

  /** The padded encoding has no whitespace. */
  lemma BtoaNoWhitespace(b: seq<Byte>)
    ensures RemoveAsciiWhitespace(Btoa(b)) == Btoa(b)
  {
    var e := Btoa(b);
    var u := EncodeUnpadded(b);
    var pad := e[|u|..];
    assert e == u + pad;
    assert forall i :: 0 <= i < |pad| ==> pad[i] == '=';
    forall i | 0 <= i < |e| ensures !IsAsciiWhitespace(e[i]) {
      if i < |u| { assert e[i] == u[i]; } else { assert e[i] == pad[i - |u|]; }
    }
    RemoveWhitespaceIdentity(e);
  }

  /** Once its padding is stripped, the padded encoding is the unpadded text. */
  lemma BtoaStrip(b: seq<Byte>)
    ensures StripPadding(Btoa(b)) == EncodeUnpadded(b)
  {
    var u := EncodeUnpadded(b);
    EncodeUnpaddedLength(b);
    if |b| % 3 == 0 {
      assert Btoa(b) == u;
      StripNone(u);
    } else if |b| % 3 == 1 {
      assert Btoa(b) == u + "==";
      StripDouble(u);
    } else {
      assert Btoa(b) == u + "=";
      StripSingle(u);
    }
  }

  lemma StripNone(u: string)
    requires |u| % 4 == 0 && AllBase64(u)
    ensures StripPadding(u) == u
  {
    if |u| > 0 {
      assert IsBase64Char(u[|u| - 1]);
    }
  }

  lemma StripDouble(u: string)
    requires |u| % 4 == 2
    ensures StripPadding(u + "==") == u
  {
    var e := u + "==";
    assert e[|e| - 2..] == "==";
    assert e[..|e| - 2] == u;
  }

  lemma StripSingle(u: string)
    requires |u| % 4 == 3 && AllBase64(u)
    ensures StripPadding(u + "=") == u
  {
    var e := u + "=";
    assert e[|e| - 2] == u[|u| - 1];
    assert IsBase64Char(u[|u| - 1]);
    assert e[..|e| - 1] == u;
  }

  lemma {:induction false} RemoveWhitespaceIdentity(s: string)
    requires forall i :: 0 <= i < |s| ==> !IsAsciiWhitespace(s[i])
    ensures RemoveAsciiWhitespace(s) == s
  {
    if s != [] {
      RemoveWhitespaceIdentity(s[1..]);
    }
  }

  lemma {:induction false} DecodeEncode(b: seq<Byte>)
    ensures DecodeSextets(EncodeUnpadded(b)) == b
  {
    if |b| == 1 {
      DecodeEncodeOne(b);
    } else if |b| == 2 {
      DecodeEncodeTwo(b);
    } else if |b| >= 3 {
      DecodeEncode(b[3..]);
      DecodeEncodeStep(b[0], b[1], b[2], b[3..]);
      assert [b[0], b[1], b[2]] + b[3..] == b;
    }
  }

  lemma DecodeEncodeOne(b: seq<Byte>)
    requires |b| == 1
    ensures DecodeSextets(EncodeUnpadded(b)) == b
  {
    GroupBits(b[0], 0, 0);
    assert b == [b[0]];
  }

  lemma DecodeEncodeTwo(b: seq<Byte>)
    requires |b| == 2
    ensures DecodeSextets(EncodeUnpadded(b)) == b
  {
    GroupBits(b[0], b[1], 0);
    assert b == [b[0], b[1]];
  }

  lemma DecodeEncodeStep(x: Byte, y: Byte, z: Byte, t: seq<Byte>)
    requires DecodeSextets(EncodeUnpadded(t)) == t
    ensures DecodeSextets(EncodeUnpadded([x, y, z] + t)) == [x, y, z] + t
  {
    var b := [x, y, z] + t;
    assert b[3..] == t;
    var g := EncodeGroup(x, y, z);
    var rest := EncodeUnpadded(t);
    assert EncodeUnpadded(b) == g + rest;
    var u := g + rest;
    assert u[..4] == g && u[4..] == rest;
    assert DecodeGroup(g) == [x, y, z] by { GroupBits(x, y, z); }
    assert DecodeSextets(u) == DecodeGroup(g) + DecodeSextets(rest);
  }

  /** The bit arithmetic of one group: three bytes split into four sextets and joined back. */
  lemma GroupBits(x: Byte, y: Byte, z: Byte)
    ensures Byte0(Sextet0(x), Sextet1(x, y)) == x
    ensures Byte1(Sextet1(x, y), Sextet2(y, z)) == y
    ensures Byte2(Sextet2(y, z), Sextet3(z)) == z
  {
  }
}
