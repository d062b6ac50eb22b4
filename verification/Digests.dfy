/** The Digest header of section 4.3.2 of RFC 3230 (client/handle_http.go): printing
    checksums and parsing what servers report. */
module Digests {
  import opened Collections
  import opened Encodings
  import opened Strings

  datatype Algorithm = MD5 | CRC32C | CRC32 | SHA1

  datatype Checksum = Checksum(algorithm: Algorithm, value: seq<byte>)

  /** HttpDigestFromChecksum. */
  function DigestName(a: Algorithm): string {
    match a
    case CRC32 => "crc32"
    case CRC32C => "crc32c"
    case MD5 => "md5"
    case SHA1 => "sha"
  }

  /** ChecksumFromHttpDigest; None for an algorithm the client does not know. */
  function AlgorithmNamed(name: string): Option<Algorithm> {
    if name == "md5" then Some(MD5)
    else if name == "crc32c" then Some(CRC32C)
    else if name == "crc32" then Some(CRC32)
    else if name == "sha" then Some(SHA1)
    else None
  }

  /** checksumValueToHttpDigest. */
  function DigestValue(c: Checksum): string {
    match c.algorithm
    case CRC32 => Hex(c.value)
    case CRC32C => Hex(c.value)
    case MD5 => Base64(c.value)
    case SHA1 => Base64(c.value)
  }

  function PrintEntry(c: Checksum): string {
    DigestName(c.algorithm) + "=" + DigestValue(c)
  }

  /** The elements of a list, with optional white space before all but the first. */
  function Elements(list: seq<Checksum>, gap: string): seq<string> {
    seq(|list|, i requires 0 <= i < |list| => (if i == 0 then "" else gap) + PrintEntry(list[i]))
  }

  /** A header value listing the checksums. */
  function Print(list: seq<Checksum>, gap: string): string {
    JoinWith(Elements(list, gap), ',')
  }

  // ----- Parsing -----

  predicate IsSpace(c: char) {
    c == ' ' || '\t' <= c <= '\r' || c == '\U{0085}' || c == '\U{00A0}' || c == '\U{1680}'
    || '\U{2000}' <= c <= '\U{200A}'
    || c == '\U{2028}' || c == '\U{2029}' || c == '\U{202F}' || c == '\U{205F}' || c == '\U{3000}'
  }

  function TrimLeft(s: string): string {
    if s != "" && IsSpace(s[0]) then TrimLeft(s[1..]) else s
  }

  function TrimRight(s: string): string {
    if s != "" && IsSpace(s[|s| - 1]) then TrimRight(s[..|s| - 1]) else s
  }

  function Trim(s: string): string {
    TrimRight(TrimLeft(s))
  }

  /** The place of the first '=', or the length of the string. */
  function EqualsAt(s: string): (i: nat)
    ensures i <= |s|
    ensures forall j :: 0 <= j < i ==> s[j] != '='
    ensures i < |s| ==> s[i] == '='
  {
    if s == "" || s[0] == '=' then 0 else 1 + EqualsAt(s[1..])
  }

  /** The first four bytes of a zeroed buffer after `v` was read into it. */
  function FirstFour(v: seq<byte>): (r: seq<byte>)
    ensures |r| == 4
  {
    (v + [0, 0, 0, 0])[..4]
  }

  /** Some servers send a crc32c in base64. */
  predicate LooksLikeBase64(value: string) {
    |value| == 8 && value[6] == '=' && value[7] == '='
  }

  function ParseCrc(value: string): Option<seq<byte>> {
    if |value| > 8 then None
    else
      match ParseHex(value)
      case None => None
      case Some(n) => Some(LowBytes(n))
  }

  function ParseValue(a: Algorithm, value: string): Option<seq<byte>> {
    match a
    case CRC32C =>
      if LooksLikeBase64(value) && ReadBase64(value).Some? then Some(FirstFour(ReadBase64(value).value))
      else ParseCrc(value)
    case CRC32 => ParseCrc(value)
    case MD5 => ReadBase64(value)
    case SHA1 => ReadBase64(value)
  }

  /** A name and a value around the first '='. */
  function ParseNamed(e: string): seq<Checksum> {
    var i := EqualsAt(e);
    if i == |e| then []
    else
      match AlgorithmNamed(e[..i])
      case None => []
      case Some(a) =>
        (match ParseValue(a, e[i + 1..])
         case None => []
         case Some(v) => [Checksum(a, v)])
  }

  /** One element of the list; whatever cannot be read is passed over. */
  function ParseEntry(entry: string): seq<Checksum> {
    ParseNamed(Trim(entry))
  }

  function ParseEntries(value: string): seq<Checksum> {
    FlatMap(SplitOn(value, ','), ParseEntry)
  }

  function ParseHeader(values: seq<string>): seq<Checksum> {
    FlatMap(values, ParseEntries)
  }

  /** parseDigestHeader. */
  method ParseDigestHeader(values: seq<string>) returns (result: seq<Checksum>)
    ensures result == ParseHeader(values)
  {
    result := [];
    for k := 0 to |values|
      invariant result == FlatMap(values[..k], ParseEntries)
    {
      var read := ReadEntries(values[k]);
      FlatMapStep(values, k, ParseEntries, result, read);
      result := result + read;
    }
    assert values[..|values|] == values;
  }

  method ReadEntries(value: string) returns (result: seq<Checksum>)
    ensures result == ParseEntries(value)
  {
    var entries := SplitOn(value, ',');
    result := [];
    for n := 0 to |entries|
      invariant result == FlatMap(entries[..n], ParseEntry)
    {
      var read := ReadEntry(entries[n]);
      FlatMapStep(entries, n, ParseEntry, result, read);
      result := result + read;
    }
    assert entries[..|entries|] == entries;
  }

  method ReadEntry(raw: string) returns (r: seq<Checksum>)
    ensures r == ParseEntry(raw)
  {
    var entry := Trim(raw);
    if entry == "" {
      return [];
    }
    var i := EqualsAt(entry);
    if i == |entry| {
      return [];
    }
    var name, value := entry[..i], entry[i + 1..];
    var algorithm := AlgorithmNamed(name);
    if algorithm.None? {
      return [];
    }
    if name == "crc32c" && |value| == 8 && value[6] == '=' && value[7] == '=' {
      var decoded := ReadBase64(value);
      if decoded.Some? {
        return [Checksum(CRC32C, FirstFour(decoded.value))];
      }
    }
    if name == "crc32c" || name == "crc32" {
      if |value| > 8 {
        return [];
      }
      var number := ParseHex(value);
      if number.None? {
        return [];
      }
      return [Checksum(algorithm.value, LowBytes(number.value))];
    }
    var decoded := ReadBase64(value);
    if decoded.None? {
      return [];
    }
    return [Checksum(algorithm.value, decoded.value)];
  }

  // ----- Round trips -----

  /** The lengths that survive: four bytes for a CRC, one to thirty for the others, among
      them the sixteen of an MD5 and the twenty of a SHA. */
  predicate Representable(c: Checksum) {
    match c.algorithm
    case CRC32 => |c.value| == 4
    case CRC32C => |c.value| == 4
    case _ => 1 <= |c.value| <= 30
  }

  predicate HasCorrectLength(c: Checksum) {
    match c.algorithm
    case CRC32 => |c.value| == 4
    case CRC32C => |c.value| == 4
    case MD5 => |c.value| == 16
    case SHA1 => |c.value| == 20
  }

  predicate IsPlain(s: string) {
    forall c :: c in s ==> !IsSpace(c) && c != ','
  }

  lemma NamesArePlain(a: Algorithm)
    ensures IsPlain(DigestName(a)) && '=' !in DigestName(a)
  {
  }

  lemma ValuesArePlain(c: Checksum)
    ensures IsPlain(DigestValue(c))
  {
    Base64Characters(c.value);
  }

  lemma EqualsAfterName(name: string, value: string)
    requires '=' !in name
    ensures EqualsAt(name + "=" + value) == |name|
  {
    var e := name + "=" + value;
    assert forall i :: 0 <= i < |name| ==> e[i] == name[i] && name[i] in name;
    assert e[|name|] == '=';
  }

  lemma PrintIsPlain(c: Checksum)
    ensures IsPlain(PrintEntry(c)) && EqualsAt(PrintEntry(c)) == |DigestName(c.algorithm)| && PrintEntry(c) != ""
  {
    NamesArePlain(c.algorithm);
    ValuesArePlain(c);
    EqualsAfterName(DigestName(c.algorithm), DigestValue(c));
  }

  lemma {:induction false} TrimGap(gap: string, e: string)
    requires (forall c :: c in gap ==> IsSpace(c)) && e != "" && IsPlain(e)
    ensures Trim(gap + e) == e
  {
    if gap == "" {
      assert gap + e == e;
      assert e[0] in e && e[|e| - 1] in e;
    } else {
      assert (gap + e)[1..] == gap[1..] + e;
      assert gap[0] in gap && forall c :: c in gap[1..] ==> c in gap;
      TrimGap(gap[1..], e);
    }
  }

  /** A value is read back exactly when it is representable. */
  lemma ValueRoundTrips(c: Checksum)
    ensures ParseValue(c.algorithm, DigestValue(c)) == Some(c.value) <==> Representable(c)
  {
    match c.algorithm
    case CRC32 => CrcRoundTrips(c.value);
    case CRC32C =>
      CrcRoundTrips(c.value);
      if |c.value| == 4 {
        assert Hex(c.value)[6] in Hex(c.value);
      }
    case _ => ReadBase64RoundTrip(c.value);
  }

  lemma CrcRoundTrips(v: seq<byte>)
    ensures ParseCrc(Hex(v)) == Some(v) <==> |v| == 4
  {
    if |v| == 4 {
      HexRoundTrip(v);
    }
  }

  lemma NamedIsRead(a: Algorithm, value: string)
    ensures ParseNamed(DigestName(a) + "=" + value) ==
      match ParseValue(a, value) case None => [] case Some(v) => [Checksum(a, v)]
  {
    var name := DigestName(a);
    var e := name + "=" + value;
    NamesArePlain(a);
    EqualsAfterName(name, value);
    assert e[..|name|] == name && e[|name| + 1..] == value;
    assert AlgorithmNamed(name) == Some(a);
  }

  /** How a well-formed element is read, whatever white space stands before it. */
  lemma EntryIsRead(gap: string, a: Algorithm, value: string)
    requires (forall d :: d in gap ==> IsSpace(d)) && IsPlain(value)
    ensures ParseEntry(gap + (DigestName(a) + "=" + value)) ==
      match ParseValue(a, value) case None => [] case Some(v) => [Checksum(a, v)]
  {
    NamesArePlain(a);
    NamedIsRead(a, value);
    TrimGap(gap, DigestName(a) + "=" + value);
  }

  /** An entry is read back exactly when its value is representable. */
  lemma EntryRoundTrips(c: Checksum, gap: string)
    requires forall d :: d in gap ==> IsSpace(d)
    ensures ParseEntry(gap + PrintEntry(c)) == [c] <==> Representable(c)
  {
    ValuesArePlain(c);
    EntryIsRead(gap, c.algorithm, DigestValue(c));
    ValueRoundTrips(c);
  }

  lemma ElementsAreRead(list: seq<Checksum>, gap: string)
    requires forall c :: c in list ==> Representable(c)
    requires forall d :: d in gap ==> IsSpace(d)
    ensures FlatMap(Elements(list, gap), ParseEntry) == list
  {
    forall i | 0 <= i < |list| ensures ParseEntry(Elements(list, gap)[i]) == [list[i]] {
      EntryRoundTrips(list[i], if i == 0 then "" else gap);
    }
    FlatMapOfSingles(Elements(list, gap), ParseEntry, list);
  }

  lemma NothingIsRead()
    ensures ParseEntries("") == []
  {
    SplitOnWord("", ',');
    FlatMapOne("", ParseEntry);
  }

  /** Parsing a printed list gives back the list, in order. */
  lemma ListRoundTrips(list: seq<Checksum>, gap: string)
    requires forall c :: c in list ==> Representable(c)
    requires forall d :: d in gap ==> IsSpace(d)
    ensures ParseEntries(Print(list, gap)) == list
  {
    if list == [] {
      NothingIsRead();
    } else {
      forall e | e in Elements(list, gap) ensures ',' !in e {
        var i :| 0 <= i < |list| && e == Elements(list, gap)[i];
        PrintIsPlain(list[i]);
      }
      SplitOnJoin(Elements(list, gap), ',');
      ElementsAreRead(list, gap);
    }
  }

  function PrintAll(lists: seq<seq<Checksum>>, gap: string): seq<string> {
    seq(|lists|, i requires 0 <= i < |lists| => Print(lists[i], gap))
  }

  /** The same over any number of Digest headers, one list after another. */
  lemma HeaderRoundTrips(lists: seq<seq<Checksum>>, gap: string)
    requires forall i, c :: 0 <= i < |lists| && c in lists[i] ==> Representable(c)
    requires forall d :: d in gap ==> IsSpace(d)
    ensures ParseHeader(PrintAll(lists, gap)) == FlatMap(lists, (list: seq<Checksum>) => list)
  {
    var same := (list: seq<Checksum>) => list;
    forall i | 0 <= i < |lists| ensures ParseEntries(PrintAll(lists, gap)[i]) == same(lists[i]) {
      ListRoundTrips(lists[i], gap);
    }
    FlatMapAgrees(PrintAll(lists, gap), ParseEntries, lists, same);
  }

  /** Every list of checksums of correct lengths survives. */
  lemma DigestRoundTrip(list: seq<Checksum>)
    requires forall c :: c in list ==> HasCorrectLength(c)
    ensures ParseHeader([Print(list, "")]) == list
  {
    ListRoundTrips(list, "");
    FlatMapOne(Print(list, ""), ParseEntries);
  }

  lemma Base64OfFour(v: seq<byte>)
    requires |v| == 4
    ensures LooksLikeBase64(Base64(v))
  {
    var s, tail := Base64(v), Base64(v[3..]);
    assert s == Quad(v[0], v[1], v[2]) + tail;
    assert tail == Quad(v[3], 0, 0)[..2] + "==";
  }

  lemma Base64CrcValue(v: seq<byte>)
    requires |v| == 4
    ensures ParseValue(CRC32C, Base64(v)) == Some(v)
  {
    Base64OfFour(v);
    ReadBase64RoundTrip(v);
    assert FirstFour(v) == v;
  }

  lemma NothingInFront(s: string)
    ensures "" + s == s
  {
  }

  /** A crc32c sent in base64 is read as the same four bytes. */
  lemma Base64CrcIsRead(v: seq<byte>)
    requires |v| == 4
    ensures ParseEntry("crc32c=" + Base64(v)) == [Checksum(CRC32C, v)]
  {
    Base64CrcValue(v);
    Base64Characters(v);
    var value := Base64(v);
    EntryIsRead("", CRC32C, value);
    assert "crc32c" + "=" == "crc32c=";
    NothingInFront("crc32c=" + value);
  }

  // ----- What servers may send -----

  /** The names of the algorithms as servers send them. */
  lemma NamesOnTheWire(crc: seq<byte>, digest: seq<byte>)
    requires |crc| == 4 && 1 <= |digest| <= 30
    ensures ParseEntry("crc32=" + Hex(crc)) == [Checksum(CRC32, crc)]
    ensures ParseEntry("crc32c=" + Hex(crc)) == [Checksum(CRC32C, crc)]
    ensures ParseEntry("md5=" + Base64(digest)) == [Checksum(MD5, digest)]
    ensures ParseEntry("sha=" + Base64(digest)) == [Checksum(SHA1, digest)]
  {
    NameOnTheWire(Checksum(CRC32, crc), "crc32");
    NameOnTheWire(Checksum(CRC32C, crc), "crc32c");
    NameOnTheWire(Checksum(MD5, digest), "md5");
    NameOnTheWire(Checksum(SHA1, digest), "sha");
    assert "crc32" + "=" == "crc32=" && "crc32c" + "=" == "crc32c=" && "md5" + "=" == "md5=" && "sha" + "=" == "sha=";
  }

  lemma NameOnTheWire(c: Checksum, name: string)
    requires Representable(c)
    requires name == match c.algorithm
      case CRC32 => "crc32"
      case CRC32C => "crc32c"
      case MD5 => "md5"
      case SHA1 => "sha"
    ensures ParseEntry(name + "=" + DigestValue(c)) == [c]
  {
    EntryRoundTrips(c, "");
    assert "" + PrintEntry(c) == name + "=" + DigestValue(c);
  }

  predicate AllSpace(s: string) {
    forall c :: c in s ==> IsSpace(c)
  }

  lemma {:induction false} TrimRightGap(e: string, gap: string)
    requires AllSpace(gap) && e != "" && !IsSpace(e[|e| - 1])
    ensures TrimRight(e + gap) == e
  {
    var s := e + gap;
    if gap == "" {
      assert s == e;
    } else {
      assert s[|s| - 1] == gap[|gap| - 1] && gap[|gap| - 1] in gap;
      assert s[..|s| - 1] == e + gap[..|gap| - 1];
      assert forall c :: c in gap[..|gap| - 1] ==> c in gap;
      TrimRightGap(e, gap[..|gap| - 1]);
    }
  }

  lemma {:induction false} TrimLeftGap(gap: string, e: string)
    requires AllSpace(gap) && e != "" && !IsSpace(e[0])
    ensures TrimLeft(gap + e) == e
  {
    if gap == "" {
      assert gap + e == e;
    } else {
      assert gap[0] in gap && (gap + e)[1..] == gap[1..] + e;
      assert forall c :: c in gap[1..] ==> c in gap;
      TrimLeftGap(gap[1..], e);
    }
  }

  /** White space around an element does not count: blanks, tabs, line ends and what else
      Unicode calls a space. */
  lemma SpaceAroundIsIgnored(before: string, e: string, after: string)
    requires AllSpace(before) && AllSpace(after) && e != "" && !IsSpace(e[0]) && !IsSpace(e[|e| - 1])
    ensures ParseEntry(before + e + after) == ParseEntry(e)
    ensures IsSpace(' ') && IsSpace('\t') && IsSpace('\n') && IsSpace('\r') && !IsSpace('=') && !IsSpace(',')
  {
    assert before + e + after == before + (e + after);
    TrimLeftGap(before, e + after);
    TrimRightGap(e, after);
    TrimLeftGap("", e);
    TrimRightGap(e, "");
    assert "" + e == e && e + "" == e;
  }

  lemma PlainIsTrimmed(e: string)
    requires IsPlain(e)
    ensures Trim(e) == e
  {
    if e != "" {
      assert e[0] in e && e[|e| - 1] in e;
    }
  }

  lemma {:induction false} NoEquals(s: string)
    requires '=' !in s
    ensures EqualsAt(s) == |s|
  {
    if s != "" {
      assert s[0] in s && forall c :: c in s[1..] ==> c in s;
      NoEquals(s[1..]);
    }
  }

  /** Elements without '=', and those of other algorithms, are passed over. */
  lemma OthersArePassedOver(name: string, value: string)
    requires '=' !in name && IsPlain(name) && IsPlain(value)
    ensures ParseEntry(name) == []
    ensures name != "md5" && name != "crc32c" && name != "crc32" && name != "sha" ==>
      ParseEntry(name + "=" + value) == []
  {
    PlainIsTrimmed(name);
    PlainIsTrimmed(name + "=" + value);
    EqualsAfterName(name, value);
    assert (name + "=" + value)[..|name|] == name;
    NoEquals(name);
  }

  /** The digits of a hexadecimal number written in capitals. */
  function InCapitals(s: string): (r: string)
    ensures |r| == |s|
  {
    if s == "" then ""
    else
      var last := s[|s| - 1];
      InCapitals(s[..|s| - 1]) + [if 'a' <= last <= 'f' then (last as int - 32) as char else last]
  }

  lemma {:induction false} CapitalsCountTheSame(s: string)
    requires forall c :: c in s ==> '0' <= c <= '9' || 'a' <= c <= 'f'
    ensures DigitsValue(InCapitals(s)) == DigitsValue(s)
    ensures forall c :: c in InCapitals(s) ==> '0' <= c <= '9' || 'A' <= c <= 'F'
  {
    if s != "" {
      var high, last := s[..|s| - 1], s[|s| - 1];
      assert forall c :: c in high ==> c in s;
      assert last in s;
      CapitalsCountTheSame(high);
      assert InCapitals(s)[..|s| - 1] == InCapitals(high);
    }
  }

  /** A CRC has at most eight digits; fewer stand for leading zeros, and capitals count as
      small letters. */
  lemma CrcForms(s: string, v: seq<byte>)
    requires |v| == 4
    ensures |s| > 8 ==> ParseCrc(s) == None
    ensures 1 <= |s| <= 7 && HexValue(s[0]).Some? ==> ParseCrc("0" + s) == ParseCrc(s)
    ensures ParseCrc(Hex(v)) == ParseCrc(InCapitals(Hex(v))) == Some(v)
  {
    if 1 <= |s| <= 7 && HexValue(s[0]).Some? {
      ZerosInFront(s);
      assert ("0" + s)[0] == '0';
    }
    HexRoundTrip(v);
    CapitalsCountTheSame(Hex(v));
    assert InCapitals(Hex(v))[0] in InCapitals(Hex(v));
    assert Hex(v)[0] in Hex(v);
  }

  /** Only eight characters that end in two '=' make a crc32c base64; any other is read as a
      crc32 is. */
  lemma OnlyPaddedCrcIsBase64(value: string)
    requires |value| != 8 || value[6] != '=' || value[7] != '='
    ensures ParseValue(CRC32C, value) == ParseValue(CRC32, value)
  {
  }
}
