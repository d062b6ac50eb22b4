/** Splitting strings at a separator and joining them with one. */
module Strings {

  /** The parts of a string between the separators. */
  function SplitOn(s: string, sep: char): (parts: seq<string>)
    ensures |parts| >= 1
  {
    if s == "" then [""]
    else
      var rest := SplitOn(s[1..], sep);
      if s[0] == sep then [""] + rest else [[s[0]] + rest[0]] + rest[1..]
  }

  /** One character in front of a text that is already split. */
  function Led(c: char, parts: seq<string>, sep: char): seq<string>
    requires parts != []
  {
    if c == sep then [""] + parts else [[c] + parts[0]] + parts[1..]
  }

  lemma SplitOnLed(c: char, s: string, sep: char)
    ensures SplitOn([c] + s, sep) == Led(c, SplitOn(s, sep), sep)
  {
    assert ([c] + s)[1..] == s;
  }

  lemma LedAppend(c: char, first: seq<string>, last: seq<string>, sep: char)
    requires first != []
    ensures Led(c, first + last, sep) == Led(c, first, sep) + last
  {
    assert (first + last)[1..] == first[1..] + last;
  }

  lemma {:induction false} SplitOnAppend(a: string, b: string, sep: char)
    ensures SplitOn(a + [sep] + b, sep) == SplitOn(a, sep) + SplitOn(b, sep)
  {
    if a == "" {
      SplitOnLed(sep, b, sep);
      assert a + [sep] + b == [sep] + b;
    } else {
      var c, rest := a[0], a[1..];
      SplitOnAppend(rest, b, sep);
      SplitOnLed(c, rest, sep);
      SplitOnLed(c, rest + [sep] + b, sep);
      LedAppend(c, SplitOn(rest, sep), SplitOn(b, sep), sep);
      assert a == [c] + rest;
      assert a + [sep] + b == [c] + (rest + [sep] + b);
    }
  }

  lemma {:induction false} SplitOnWord(s: string, sep: char)
    requires sep !in s
    ensures SplitOn(s, sep) == [s]
  {
    if s != "" {
      assert s[0] != sep;
      assert forall c :: c in s[1..] ==> c in s;
      SplitOnWord(s[1..], sep);
      assert s == [s[0]] + s[1..];
    }
  }

  lemma {:induction false} PartsHaveNoSeparator(s: string, sep: char)
    ensures forall part :: part in SplitOn(s, sep) ==> sep !in part
  {
    if s != "" {
      PartsHaveNoSeparator(s[1..], sep);
      var rest := SplitOn(s[1..], sep);
      assert rest[0] in rest;
      forall part | part in SplitOn(s, sep) ensures sep !in part {
        if part != [s[0]] + rest[0] && part != "" {
          assert part in rest;
        }
      }
    }
  }

  function JoinWith(parts: seq<string>, sep: char): string {
    if parts == [] then ""
    else if |parts| == 1 then parts[0]
    else JoinWith(parts[..|parts| - 1], sep) + [sep] + parts[|parts| - 1]
  }

  /** Splitting undoes joining. */
  lemma {:induction false} SplitOnJoin(parts: seq<string>, sep: char)
    requires parts != [] && forall part :: part in parts ==> sep !in part
    ensures SplitOn(JoinWith(parts, sep), sep) == parts
  {
    var n := |parts| - 1;
    assert parts[n] in parts;
    SplitOnWord(parts[n], sep);
    assert parts == parts[..n] + [parts[n]];
    if n > 0 {
      SplitOnJoin(parts[..n], sep);
      SplitOnAppend(JoinWith(parts[..n], sep), parts[n], sep);
    }
  }
}
