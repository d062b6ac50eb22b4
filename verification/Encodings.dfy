/** The two encodings of checksum values: hexadecimal, and base64 as in section 4 of
    RFC 4648, read the way the client reads them. */
module Encodings {
  import opened Collections

  // ----- Hexadecimal -----

  function HexDigit(n: nat): char
    requires n < 16
  {
    if n < 10 then ('0' as int + n) as char else ('a' as int + n - 10) as char
  }

  function HexValue(c: char): Option<nat> {
    if '0' <= c <= '9' then Some(c as int - '0' as int)
    else if 'a' <= c <= 'f' then Some(c as int - 'a' as int + 10)
    else if 'A' <= c <= 'F' then Some(c as int - 'A' as int + 10)
    else None
  }

  function Hex(v: seq<byte>): (s: string)
    ensures |s| == 2 * |v|
    ensures forall c :: c in s ==> '0' <= c <= '9' || 'a' <= c <= 'f'
  {
    if v == [] then ""
    else
      var last := v[|v| - 1] as int;
      Hex(v[..|v| - 1]) + [HexDigit(last / 16), HexDigit(last % 16)]
  }

  /** The number some hexadecimal digits denote. */
  function DigitsValue(s: string): Option<nat> {
    if s == "" then Some(0)
    else
      match (DigitsValue(s[..|s| - 1]), HexValue(s[|s| - 1]))
      case (Some(high), Some(low)) => Some(16 * high + low)
      case _ => None
  }

  /** strconv.ParseInt in base 16: an optional sign, then digits. */
  function ParseHex(s: string): Option<int> {
    var signed := s != "" && (s[0] == '-' || s[0] == '+');
    var digits := if signed then s[1..] else s;
    if digits == "" then None
    else
      match DigitsValue(digits)
      case None => None
      case Some(n) => var m: int := n; Some(if signed && s[0] == '-' then -m else m)
  }

  /** The four low bytes of a number, the highest first, as shifting and masking a two's
      complement integer gives them. */
  function LowBytes(n: int): (v: seq<byte>)
    ensures |v| == 4
  {
    [(n / 0x100_0000 % 256) as byte, (n / 0x1_0000 % 256) as byte, (n / 0x100 % 256) as byte, (n % 256) as byte]
  }

  function BigEndian(v: seq<byte>): nat {
    if v == [] then 0 else 256 * BigEndian(v[..|v| - 1]) + v[|v| - 1] as int
  }

  lemma {:induction false} HexDenotesBytes(v: seq<byte>)
    ensures DigitsValue(Hex(v)) == Some(BigEndian(v))
  {
    if v != [] {
      HexDenotesBytes(v[..|v| - 1]);
      var high := Hex(v[..|v| - 1]);
      var last := v[|v| - 1] as int;
      var a, b := HexDigit(last / 16), HexDigit(last % 16);
      assert Hex(v)[..|Hex(v)| - 1] == high + [a];
      assert (high + [a])[..|high|] == high;
      assert HexValue(a) == Some(last / 16) && HexValue(b) == Some(last % 16);
    }
  }

  lemma BigEndianStep(v: seq<byte>, n: nat)
    requires n < |v|
    ensures BigEndian(v[..n + 1]) == 256 * BigEndian(v[..n]) + v[n] as int
  {
    assert v[..n + 1][..n] == v[..n];
  }

  lemma BigEndianOfFour(v: seq<byte>)
    requires |v| == 4
    ensures BigEndian(v) == ((v[0] as int * 256 + v[1] as int) * 256 + v[2] as int) * 256 + v[3] as int
  {
    assert v[..4] == v && v[..0] == [];
    BigEndianStep(v, 0);
    BigEndianStep(v, 1);
    BigEndianStep(v, 2);
    BigEndianStep(v, 3);
  }

  lemma ByteOut(high: nat, low: nat)
    requires low < 256
    ensures (high * 256 + low) / 256 == high && (high * 256 + low) % 256 == low
  {
  }

  lemma LowBytesByDivision(n: nat)
    ensures LowBytes(n) == [(n / 256 / 256 / 256 % 256) as byte, (n / 256 / 256 % 256) as byte,
                            (n / 256 % 256) as byte, (n % 256) as byte]
  {
    assert n / 256 / 256 == n / 0x1_0000;
    assert n / 256 / 256 / 256 == n / 0x100_0000;
  }

  lemma LowBytesOfBigEndian(v: seq<byte>)
    requires |v| == 4
    ensures LowBytes(BigEndian(v)) == v
  {
    var a, b, c, d := v[0] as nat, v[1] as nat, v[2] as nat, v[3] as nat;
    BigEndianOfFour(v);
    LowBytesByDivision(BigEndian(v));
    ByteOut((a * 256 + b) * 256 + c, d);
    ByteOut(a * 256 + b, c);
    ByteOut(a, b);
  }

  /** Four bytes in hexadecimal are read back as the same four bytes. */
  lemma HexRoundTrip(v: seq<byte>)
    requires |v| == 4
    ensures ParseHex(Hex(v)).Some? && LowBytes(ParseHex(Hex(v)).value) == v
  {
    HexDenotesBytes(v);
    LowBytesOfBigEndian(v);
    assert Hex(v)[0] in Hex(v);
  }

  // ----- Base64 -----

  function Digit64(n: nat): char
    requires n < 64
  {
    if n < 26 then ('A' as int + n) as char
    else if n < 52 then ('a' as int + n - 26) as char
    else if n < 62 then ('0' as int + n - 52) as char
    else if n == 62 then '+' else '/'
  }

  function Value64(c: char): (r: Option<nat>)
    ensures r.Some? ==> r.value < 64
  {
    if 'A' <= c <= 'Z' then Some(c as int - 'A' as int)
    else if 'a' <= c <= 'z' then Some(c as int - 'a' as int + 26)
    else if '0' <= c <= '9' then Some(c as int - '0' as int + 52)
    else if c == '+' then Some(62)
    else if c == '/' then Some(63)
    else None
  }

  predicate IsDigit64(c: char) {
    'A' <= c <= 'Z' || 'a' <= c <= 'z' || '0' <= c <= '9' || c == '+' || c == '/'
  }

  lemma Digit64RoundTrip(n: nat)
    requires n < 64
    ensures Value64(Digit64(n)) == Some(n) && IsDigit64(Digit64(n))
  {
  }

  function Quad(a: byte, b: byte, c: byte): (s: string)
    ensures |s| == 4
  {
    var x, y, z := a as int, b as int, c as int;
    [Digit64(x / 4), Digit64(x % 4 * 16 + y / 16), Digit64(y % 16 * 4 + z / 64), Digit64(z % 64)]
  }

  /** How many groups of three hold the bytes. */
  function Groups(n: nat): nat {
    (n + 2) / 3
  }

  /** base64.StdEncoding, padded. */
  function Base64(v: seq<byte>): (s: string)
    ensures |s| == Groups(|v|) * 4
  {
    if v == [] then ""
    else if |v| == 1 then Quad(v[0], 0, 0)[..2] + "=="
    else if |v| == 2 then Quad(v[0], v[1], 0)[..3] + "="
    else Quad(v[0], v[1], v[2]) + Base64(v[3..])
  }

  /** Whole groups of four, padding only in the last; bits left over are ignored. */
  function Decode64(s: string): Option<seq<byte>> {
    if s == "" then Some([])
    else if |s| < 4 then None
    else
      match (Value64(s[0]), Value64(s[1]), Value64(s[2]), Value64(s[3]))
      case (Some(a), Some(b), Some(c), Some(d)) =>
        (match Decode64(s[4..])
         case None => None
         case Some(rest) =>
           Some([(a * 4 + b / 16) as byte, (b % 16 * 16 + c / 4) as byte, (c % 4 * 64 + d) as byte] + rest))
      case (Some(a), Some(b), Some(c), None) =>
        if |s| == 4 && s[3] == '=' then
          Some([(a * 4 + b / 16) as byte, (b % 16 * 16 + c / 4) as byte])
        else None
      case (Some(a), Some(b), None, None) =>
        if |s| == 4 && s[2..] == "==" then Some([(a * 4 + b / 16) as byte]) else None
      case _ => None
  }

  lemma HighByte(x: nat, y: nat)
    requires x < 256 && y < 256
    ensures x / 4 * 4 + (x % 4 * 16 + y / 16) / 16 == x
  {
    assert (x % 4 * 16 + y / 16) / 16 == x % 4;
  }

  lemma MiddleByte(x: nat, y: nat, z: nat)
    requires x < 256 && y < 256 && z < 256
    ensures (x % 4 * 16 + y / 16) % 16 * 16 + (y % 16 * 4 + z / 64) / 4 == y
  {
    assert (x % 4 * 16 + y / 16) % 16 == y / 16;
    assert (y % 16 * 4 + z / 64) / 4 == y % 16;
  }

  lemma LowByte(y: nat, z: nat)
    requires y < 256 && z < 256
    ensures (y % 16 * 4 + z / 64) % 4 * 64 + z % 64 == z
  {
    assert (y % 16 * 4 + z / 64) % 4 == z / 64;
  }

  lemma QuadRoundTrip(a: byte, b: byte, c: byte)
    ensures var q := Quad(a, b, c);
      && (forall i :: 0 <= i < 4 ==> Value64(q[i]).Some? && IsDigit64(q[i]))
      && var x, y, z, w := Value64(q[0]).value, Value64(q[1]).value, Value64(q[2]).value, Value64(q[3]).value;
         && x * 4 + y / 16 == a as int
         && y % 16 * 16 + z / 4 == b as int
         && z % 4 * 64 + w == c as int
  {
    var x, y, z := a as int, b as int, c as int;
    Digit64RoundTrip(x / 4);
    Digit64RoundTrip(x % 4 * 16 + y / 16);
    Digit64RoundTrip(y % 16 * 4 + z / 64);
    Digit64RoundTrip(z % 64);
    HighByte(x, y);
    MiddleByte(x, y, z);
    LowByte(y, z);
  }

  lemma Base64OfOne(a: byte)
    ensures Decode64(Base64([a])) == Some([a])
  {
    QuadRoundTrip(a, 0, 0);
    var q, s := Quad(a, 0, 0), Base64([a]);
    assert s == [q[0], q[1], '=', '='];
    assert s[2..] == "==";
  }

  lemma Base64OfTwo(a: byte, b: byte)
    ensures Decode64(Base64([a, b])) == Some([a, b])
  {
    QuadRoundTrip(a, b, 0);
    var q, s := Quad(a, b, 0), Base64([a, b]);
    assert s == [q[0], q[1], q[2], '='];
  }

  /** Only digits and padding are written. */
  lemma {:induction false} Base64Characters(v: seq<byte>)
    ensures forall c :: c in Base64(v) ==> IsDigit64(c) || c == '='
  {
    if |v| == 1 {
      QuadRoundTrip(v[0], 0, 0);
    } else if |v| == 2 {
      QuadRoundTrip(v[0], v[1], 0);
    } else if v != [] {
      QuadRoundTrip(v[0], v[1], v[2]);
      Base64Characters(v[3..]);
    }
  }

  lemma DecodeGroup(a: byte, b: byte, c: byte, s: string)
    ensures Decode64(Quad(a, b, c) + s) == match Decode64(s) case None => None case Some(rest) => Some([a, b, c] + rest)
  {
    QuadRoundTrip(a, b, c);
    var q := Quad(a, b, c);
    assert (q + s)[4..] == s;
    assert forall i :: 0 <= i < 4 ==> (q + s)[i] == q[i];
  }

  /** Decoding undoes encoding, for every sequence of bytes. */
  lemma {:induction false} Base64RoundTrip(v: seq<byte>)
    ensures Decode64(Base64(v)) == Some(v)
  {
    if v == [] {
    } else if |v| == 1 {
      Base64OfOne(v[0]);
      assert v == [v[0]];
    } else if |v| == 2 {
      Base64OfTwo(v[0], v[1]);
      assert v == [v[0], v[1]];
    } else {
      var rest := v[3..];
      Base64RoundTrip(rest);
      GroupRoundTrip(v[0], v[1], v[2], rest);
      assert v == [v[0], v[1], v[2]] + rest;
    }
  }

  lemma GroupRoundTrip(a: byte, b: byte, c: byte, rest: seq<byte>)
    requires Decode64(Base64(rest)) == Some(rest)
    ensures Decode64(Base64([a, b, c] + rest)) == Some([a, b, c] + rest)
  {
    DecodeGroup(a, b, c, Base64(rest));
    var v := [a, b, c] + rest;
    assert v[3..] == rest;
    assert Base64(v) == Quad(a, b, c) + Base64(rest);
  }

  /** One read of a base64 decoder into a buffer of 32 bytes: the whole groups among the
      first forty characters. */
  function ReadBase64(s: string): Option<seq<byte>> {
    var n := if |s| < 40 then |s| / 4 * 4 else 40;
    if n == 0 then None else Decode64(s[..n])
  }

  lemma {:induction false} Base64Prefix(v: seq<byte>, k: nat)
    requires 3 * k <= |v|
    ensures 4 * k <= |Base64(v)| && Base64(v)[..4 * k] == Base64(v[..3 * k])
  {
    if k > 0 {
      Base64Prefix(v[3..], k - 1);
      assert v[..3 * k][3..] == v[3..][..3 * (k - 1)];
      if |v| == 3 {
        assert v[3..] == [];
      }
      assert Base64(v)[..4 * k] == Quad(v[0], v[1], v[2]) + Base64(v[3..])[..4 * (k - 1)];
    }
  }

  lemma ReadAll(s: string, g: nat)
    requires |s| == g * 4 && 1 <= g <= 10
    ensures ReadBase64(s) == Decode64(s)
  {
    assert s[..|s|] == s;
  }

  lemma ReadForty(s: string)
    requires |s| >= 40
    ensures ReadBase64(s) == Decode64(s[..40])
  {
  }

  lemma GroupsBound(n: nat)
    ensures (n > 0 ==> Groups(n) >= 1) && (n <= 30 ==> Groups(n) <= 10) && (n >= 30 ==> Groups(n) >= 10)
  {
  }

  lemma ReadLong(v: seq<byte>)
    requires |v| > 30
    ensures ReadBase64(Base64(v)) == Some(v[..30])
  {
    GroupsBound(|v|);
    ReadForty(Base64(v));
    Base64Prefix(v, 10);
    Base64RoundTrip(v[..30]);
  }

  lemma ReadShort(v: seq<byte>)
    requires 1 <= |v| <= 30
    ensures ReadBase64(Base64(v)) == Some(v)
  {
    GroupsBound(|v|);
    ReadAll(Base64(v), Groups(|v|));
    Base64RoundTrip(v);
  }

  /** A read gives back at most thirty of the bytes encoded, and fails only on none. */
  lemma ReadBase64RoundTrip(v: seq<byte>)
    ensures ReadBase64(Base64(v)) == if v == [] then None else Some(if |v| <= 30 then v else v[..30])
  {
    if |v| > 30 {
      ReadLong(v);
    } else if v != [] {
      ReadShort(v);
    }
  }

  lemma WholeGroups(g: nat, rest: nat)
    requires rest < 4
    ensures (g * 4 + rest) / 4 * 4 == g * 4
  {
  }

  lemma ReadPart(s: string, g: nat, extra: string)
    requires |s| == g * 4 && 1 <= g <= 10 && (g == 10 || |extra| < 4)
    ensures ReadBase64(s + extra) == Decode64(s)
  {
    assert (s + extra)[..|s|] == s;
    if g < 10 {
      WholeGroups(g, |extra|);
    }
  }

  /** What follows the first forty characters is not read, and before them a group that is
      not whole does not count. */
  lemma LeftoversAreIgnored(v: seq<byte>, extra: string)
    requires 1 <= |v| <= 30 && (|Base64(v)| == 40 || |extra| < 4)
    ensures ReadBase64(Base64(v) + extra) == Some(v)
  {
    GroupsBound(|v|);
    ReadPart(Base64(v), Groups(|v|), extra);
    Base64RoundTrip(v);
  }

  // ----- The forms themselves -----

  /** The digits of base64, as in section 4 of RFC 4648: capital letters, small letters,
      figures, plus and slash. */
  lemma DigitsInOrder(n: nat)
    requires n < 64
    ensures Digit64(0) == 'A' && Digit64(25) == 'Z' && Digit64(26) == 'a' && Digit64(51) == 'z'
    ensures Digit64(52) == '0' && Digit64(61) == '9' && Digit64(62) == '+' && Digit64(63) == '/'
    ensures n + 1 < 62 && n != 25 && n != 51 ==> Digit64(n + 1) as int == Digit64(n) as int + 1
    ensures Value64(Digit64(n)) == Some(n) && Value64('=') == None && Value64('-') == None && Value64('_') == None
  {
  }

  function NumberOf(s: string): int
    requires |s| == 4 && forall i :: 0 <= i < 4 ==> Value64(s[i]).Some?
  {
    ((Value64(s[0]).value * 64 + Value64(s[1]).value) * 64 + Value64(s[2]).value) * 64 + Value64(s[3]).value
  }

  /** Four digits hold three bytes as one number, the first byte highest. */
  lemma QuadIsOneNumber(a: byte, b: byte, c: byte)
    ensures forall i :: 0 <= i < 4 ==> Value64(Quad(a, b, c)[i]).Some?
    ensures NumberOf(Quad(a, b, c)) == (a as int * 256 + b as int) * 256 + c as int
  {
    var x, y, z := a as int, b as int, c as int;
    Digit64RoundTrip(x / 4);
    Digit64RoundTrip(x % 4 * 16 + y / 16);
    Digit64RoundTrip(y % 16 * 4 + z / 64);
    Digit64RoundTrip(z % 64);
  }

  predicate IsPadding(s: string, i: nat)
    requires i < |s|
  {
    s[i] == '=' && i + 2 >= |s|
  }

  /** Nothing but whole groups of digits is decoded, with padding at the very end only. */
  lemma {:induction false} DecodedIsWellFormed(s: string)
    requires Decode64(s).Some?
    ensures |s| % 4 == 0 && forall i :: 0 <= i < |s| ==> Value64(s[i]).Some? || IsPadding(s, i)
  {
    if s != "" {
      if Value64(s[3]).Some? {
        DecodedIsWellFormed(s[4..]);
        forall i | 0 <= i < |s| ensures Value64(s[i]).Some? || IsPadding(s, i) {
          if i >= 4 {
            assert s[i] == s[4..][i - 4];
          }
        }
      } else if Value64(s[2]).None? {
        assert s[2..][0] == s[2] && s[2..][1] == s[3];
      }
    }
  }

  /** Hexadecimal digits in both cases, and nothing else. */
  lemma HexDigitsInOrder(n: nat, c: char)
    requires n < 16
    ensures HexDigit(0) == '0' && HexDigit(9) == '9' && HexDigit(10) == 'a' && HexDigit(15) == 'f'
    ensures n != 9 && n < 15 ==> HexDigit(n + 1) as int == HexDigit(n) as int + 1
    ensures HexValue(HexDigit(n)) == Some(n)
    ensures 'A' <= c <= 'F' ==> HexValue(c) == HexValue((c as int + 32) as char)
    ensures HexValue(c).Some? <==> '0' <= c <= '9' || 'a' <= c <= 'f' || 'A' <= c <= 'F'
  {
  }

  /** A byte is written as its high digit and its low one. */
  lemma HexOfByte(v: seq<byte>, b: byte)
    ensures Hex(v + [b]) == Hex(v) + [HexDigit(b as int / 16), HexDigit(b as int % 16)]
  {
    assert (v + [b])[..|v|] == v;
  }

  /** Zeros in front change nothing. */
  lemma {:induction false} ZerosInFront(s: string)
    ensures DigitsValue("0" + s) == DigitsValue(s)
  {
    var z := "0" + s;
    if s == "" {
      assert z[..0] == "";
    } else {
      ZerosInFront(s[..|s| - 1]);
      assert z[..|z| - 1] == "0" + s[..|s| - 1];
    }
  }

  /** A sign may stand in front of the digits and counts; there must be digits. */
  lemma SignsCount(s: string)
    requires s != "" && HexValue(s[0]).Some?
    ensures DigitsValue(s).Some? ==>
      && ParseHex(s) == ParseHex("+" + s) == Some(DigitsValue(s).value)
      && ParseHex("-" + s) == Some(0 - DigitsValue(s).value)
    ensures DigitsValue(s).None? ==> ParseHex(s) == ParseHex("+" + s) == ParseHex("-" + s) == None
    ensures ParseHex("") == ParseHex("-") == ParseHex("+") == None
  {
    SignedHex('+', s);
    SignedHex('-', s);
    assert "-" == ['-'] && "+" == ['+'];
  }

  lemma SignedHex(sign: char, s: string)
    requires s != "" && (sign == '-' || sign == '+')
    ensures ParseHex([sign] + s) == match DigitsValue(s)
      case None => None
      case Some(n) => Some(if sign == '-' then 0 - n else n)
  {
    var t := [sign] + s;
    assert t[0] == sign && t[1..] == s;
  }
}
