/** The path functions the director-response cache relies on: Go's path.Clean and
    path.Dir on slash-separated names. */
module PathNames {
  import opened Strings

  /** The parts of a path between its slashes. */
  function Split(s: string): (parts: seq<string>)
    ensures |parts| >= 1
  {
    SplitOn(s, '/')
  }

  function Join(parts: seq<string>): string {
    JoinWith(parts, '/')
  }

  predicate IsRooted(p: string) {
    p != "" && p[0] == '/'
  }

  /** One more part: empty ones and "." vanish, ".." takes the last name away, and is
      itself kept only at the front of a path that is not rooted. */
  function Push(out: seq<string>, part: string, rooted: bool): seq<string> {
    if part == "" || part == "." then out
    else if part == ".." then
      if out != [] && out[|out| - 1] != ".." then out[..|out| - 1]
      else if rooted then out
      else out + [part]
    else out + [part]
  }

  function Resolve(parts: seq<string>, rooted: bool): seq<string> {
    if parts == [] then []
    else Push(Resolve(parts[..|parts| - 1], rooted), parts[|parts| - 1], rooted)
  }

  function Names(p: string): seq<string> {
    Resolve(Split(p), IsRooted(p))
  }

  function Text(rooted: bool, names: seq<string>): string {
    if rooted then "/" + Join(names) else if names == [] then "." else Join(names)
  }

  /** path.Clean. */
  function Clean(p: string): string {
    Text(IsRooted(p), Names(p))
  }

  /** The length of the part of a path up to and including its last slash. */
  function DirLength(p: string): (n: nat)
    ensures n <= |p|
  {
    if p == "" then 0 else if p[|p| - 1] == '/' then |p| else DirLength(p[..|p| - 1])
  }

  /** path.Dir. */
  function Dir(p: string): string {
    Clean(p[..DirLength(p)])
  }

  // ----- Splitting and joining -----

  lemma SplitAppend(a: string, b: string)
    ensures Split(a + "/" + b) == Split(a) + Split(b)
  {
    SplitOnAppend(a, b, '/');
  }

  lemma SplitWord(s: string)
    requires '/' !in s
    ensures Split(s) == [s]
  {
    SplitOnWord(s, '/');
  }

  predicate IsWord(name: string) {
    name != "" && name != "." && '/' !in name
  }

  predicate ShapedAt(names: seq<string>, i: nat, rooted: bool)
    requires i < |names|
  {
    && IsWord(names[i])
    && (names[i] == ".." ==> !rooted && (i == 0 || names[i - 1] == ".."))
  }

  /** What Resolve leaves: words, with ".." only in front and only in unrooted paths. */
  predicate Shaped(names: seq<string>, rooted: bool) {
    forall i :: 0 <= i < |names| ==> ShapedAt(names, i, rooted)
  }

  lemma ShapedPrefix(names: seq<string>, k: nat, rooted: bool)
    requires Shaped(names, rooted) && k <= |names|
    ensures Shaped(names[..k], rooted)
  {
    forall i | 0 <= i < k ensures ShapedAt(names[..k], i, rooted) {
      assert ShapedAt(names, i, rooted);
    }
  }

  lemma ShapedWords(names: seq<string>, rooted: bool)
    requires Shaped(names, rooted)
    ensures forall name :: name in names ==> IsWord(name)
  {
    forall name | name in names ensures IsWord(name) {
      var i :| 0 <= i < |names| && names[i] == name;
      assert ShapedAt(names, i, rooted);
    }
  }

  lemma {:induction false} ResolveIsShaped(parts: seq<string>, rooted: bool)
    requires forall part :: part in parts ==> '/' !in part
    ensures Shaped(Resolve(parts, rooted), rooted)
  {
    if parts != [] {
      var out := Resolve(parts[..|parts| - 1], rooted);
      var part := parts[|parts| - 1];
      ResolveIsShaped(parts[..|parts| - 1], rooted);
      assert part in parts;
      if out != [] {
        ShapedPrefix(out, |out| - 1, rooted);
        assert ShapedAt(out, |out| - 1, rooted);
      }
      var longer := out + [part];
      forall i | 0 <= i < |out| ensures ShapedAt(longer, i, rooted) {
        assert ShapedAt(out, i, rooted);
      }
    }
  }

  lemma {:induction false} ResolveShaped(names: seq<string>, rooted: bool)
    requires Shaped(names, rooted)
    ensures Resolve(names, rooted) == names
  {
    if names != [] {
      var n := |names| - 1;
      ShapedPrefix(names, n, rooted);
      ResolveShaped(names[..n], rooted);
      PushShaped(names, rooted);
    }
  }

  lemma PushShaped(names: seq<string>, rooted: bool)
    requires Shaped(names, rooted) && names != []
    ensures Push(names[..|names| - 1], names[|names| - 1], rooted) == names
  {
    var n := |names| - 1;
    assert ShapedAt(names, n, rooted);
    assert n > 0 ==> ShapedAt(names, n - 1, rooted);
    assert names == names[..n] + [names[n]];
  }

  lemma {:induction false} ResolvePadded(names: seq<string>, rooted: bool)
    ensures Resolve([""] + names, rooted) == Resolve(names, rooted)
  {
    var padded := [""] + names;
    if names == [] {
      assert padded[..|padded| - 1] == [];
    } else {
      ResolvePadded(names[..|names| - 1], rooted);
      assert padded[..|padded| - 1] == [""] + names[..|names| - 1];
    }
  }

  lemma {:induction false} SplitJoin(names: seq<string>)
    requires names != [] && forall name :: name in names ==> IsWord(name)
    ensures Split(Join(names)) == names
    ensures Join(names) != "" && Join(names)[0] != '/' && Join(names)[|Join(names)| - 1] != '/'
  {
    var n := |names| - 1;
    assert names[n] in names;
    SplitWord(names[n]);
    assert names[n][0] in names[n] && names[n][|names[n]| - 1] in names[n];
    if n > 0 {
      SplitJoin(names[..n]);
      SplitAppend(Join(names[..n]), names[n]);
      assert names == names[..n] + [names[n]];
    }
  }

  /** Cleaned names determine their text, and the text determines them. */
  lemma NamesOfText(rooted: bool, names: seq<string>)
    requires Shaped(names, rooted)
    ensures IsRooted(Text(rooted, names)) == rooted
    ensures Names(Text(rooted, names)) == names
  {
    ResolveShaped(names, rooted);
    ResolvePadded(names, rooted);
    if names == [] {
      assert Split(".") == ["."] by { SplitWord("."); }
      assert Split("/") == ["", ""] by { SplitAppend("", ""); assert "" + "/" + "" == "/"; }
      assert Resolve(["."], false) == [];
      var two := ["", ""];
      assert two[..1] == [""];
      assert Resolve(two, true) == Push(Resolve([""], true), "", true) == [];
    } else {
      ShapedWords(names, rooted);
      SplitJoin(names);
      SplitAppend("", Join(names));
      assert "" + "/" + Join(names) == "/" + Join(names);
      assert Split("/" + Join(names)) == [""] + names;
    }
  }

  lemma NamesAreShaped(p: string)
    ensures Shaped(Names(p), IsRooted(p))
  {
    PartsHaveNoSeparator(p, '/');
    ResolveIsShaped(Split(p), IsRooted(p));
  }

  /** Cleaning keeps a path rooted or not, and cleaning again changes nothing. */
  lemma CleanIsIdempotent(p: string)
    ensures IsRooted(Clean(p)) == IsRooted(p)
    ensures Names(Clean(p)) == Names(p)
    ensures Clean(Clean(p)) == Clean(p)
  {
    NamesAreShaped(p);
    NamesOfText(IsRooted(p), Names(p));
  }

  // ----- What cleaning does -----

  lemma EmptyIsDot()
    ensures Clean("") == "."
  {
    var one := [""];
    assert one[..0] == [];
    assert Resolve(one, false) == [];
  }

  lemma OnePartMore(p: string, part: string)
    requires p != "" && '/' !in part
    ensures IsRooted(p + "/" + part) == IsRooted(p)
    ensures Names(p + "/" + part) == Push(Names(p), part, IsRooted(p))
  {
    SplitAppend(p, part);
    SplitWord(part);
    var parts := Split(p) + [part];
    assert parts[..|parts| - 1] == Split(p);
  }

  lemma TopText(p: string)
    ensures Names(p) == [] <==> Clean(p) == if IsRooted(p) then "/" else "."
  {
    NamesAreShaped(p);
    NamesOfText(IsRooted(p), Names(p));
    NamesOfText(IsRooted(p), []);
  }

  predicate IsTop(cleaned: string) {
    cleaned == "/" || cleaned == "."
  }

  lemma TopIsNameless(p: string)
    ensures IsTop(Clean(p)) <==> Names(p) == []
  {
    TopText(p);
    NamesAreShaped(p);
    NamesOfText(IsRooted(p), Names(p));
  }

  /** A name is put behind a slash, except below the top of the tree. */
  lemma TextOfMore(rooted: bool, names: seq<string>, name: string)
    ensures Text(rooted, names + [name]) ==
      if names == [] then (if rooted then "/" + name else name) else Text(rooted, names) + "/" + name
  {
    var more := names + [name];
    assert more[..|more| - 1] == names;
  }

  /** A slash at the end and "." change nothing. */
  lemma CleanSkips(p: string)
    requires p != ""
    ensures Clean(p + "/") == Clean(p) && Clean(p + "/.") == Clean(p)
  {
    OnePartMore(p, "");
    OnePartMore(p, ".");
    assert p + "/" + "" == p + "/";
    assert p + "/" + "." == p + "/.";
  }

  predicate IsName(name: string) {
    '/' !in name && name != "" && name != "." && name != ".."
  }

  /** An ordinary name is added, and ".." behind it takes it away again. */
  lemma CleanAddsName(p: string, name: string)
    requires p != "" && IsName(name)
    ensures Clean(p + "/" + name) ==
      if Clean(p) == "/" then "/" + name else if Clean(p) == "." then name else Clean(p) + "/" + name
    ensures Clean(p + "/" + name + "/..") == Clean(p)
  {
    OnePartMore(p, name);
    OnePartMore(p + "/" + name, "..");
    assert (p + "/" + name) + "/" + ".." == p + "/" + name + "/..";
    assert (Names(p) + [name])[..|Names(p)|] == Names(p);
    TextOfMore(IsRooted(p), Names(p), name);
    TopIsNameless(p);
    TopText(p);
  }

  lemma OneUp(p: string)
    requires p != ""
    ensures IsRooted(p + "/..") == IsRooted(p) && Names(p + "/..") == Push(Names(p), "..", IsRooted(p))
  {
    OnePartMore(p, "..");
    assert p + "/" + ".." == p + "/..";
  }

  /** At the top of a rooted path ".." stays there. */
  lemma CleanStaysAtTheTop(p: string)
    requires IsRooted(p) && IsTop(Clean(p))
    ensures Clean(p + "/..") == "/"
  {
    OneUp(p);
    TopIsNameless(p);
    TopText(p + "/..");
  }

  lemma TextOfUps()
    ensures Text(false, [".."]) == ".." && Text(false, ["..", ".."]) == "../.."
  {
    var ups := ["..", ".."];
    assert ups[..1] == [".."];
  }

  /** Of any other path ".." is kept in front. */
  lemma CleanKeepsUps(p: string)
    requires p != "" && !IsRooted(p)
    ensures Clean(p) == "." ==> Clean(p + "/..") == ".."
    ensures Names(p) == [".."] ==> Clean(p) == ".." && Clean(p + "/..") == "../.."
  {
    OneUp(p);
    TopIsNameless(p);
    TextOfUps();
  }

  /** Where it begins: the empty path and "." are ".", "/" is itself, and so is a name. */
  lemma CleanBeginnings(name: string)
    requires '/' !in name && name != ""
    ensures Clean("") == "." && Clean("/") == "/" && Clean(name) == name && Clean("/" + name) ==
      if name == "." || name == ".." then "/" else "/" + name
  {
    EmptyIsDot();
    SplitWord(name);
    var one := [name];
    assert one[..0] == [] && Resolve(one[..0], false) == [];
    assert Resolve(one, false) == Push([], name, false);
    TextOfMore(false, [], name);
    assert [] + [name] == [name];
    SplitAppend("", "");
    assert "" + "/" + "" == "/";
    var two := ["", ""];
    assert two[..1] == [""] && [""][..0] == [];
    assert Resolve([""], true) == [] && Resolve(two, true) == [];
    OnePartMore("/", name);
    SlashesDoNotCount(name);
  }

  lemma SlashesDoNotCount(name: string)
    requires '/' !in name && name != ""
    ensures Names("/" + name) == Push([], name, true)
  {
    SplitAppend("", name);
    SplitWord(name);
    assert "" + "/" + name == "/" + name;
    var two := ["", name];
    assert two[..1] == [""] && [""][..0] == [];
    assert Resolve([""], true) == [];
    TextOfMore(true, [], name);
  }

  // ----- Parents -----

  lemma {:induction false} DirLengthAfterSlash(a: string, b: string)
    requires '/' !in b
    ensures DirLength(a + "/" + b) == |a| + 1
  {
    var s := a + "/" + b;
    if b != "" {
      assert s[|s| - 1] == b[|b| - 1] && b[|b| - 1] in b;
      assert s[..|s| - 1] == a + "/" + b[..|b| - 1];
      assert forall c :: c in b[..|b| - 1] ==> c in b;
      DirLengthAfterSlash(a, b[..|b| - 1]);
    }
  }

  lemma {:induction false} DirLengthOfWord(s: string)
    requires '/' !in s
    ensures DirLength(s) == 0
  {
    if s != "" {
      assert s[|s| - 1] in s;
      assert forall c :: c in s[..|s| - 1] ==> c in s;
      DirLengthOfWord(s[..|s| - 1]);
    }
  }

  /** A trailing slash is cleaned away. */
  lemma CleanTrailingSlash(rooted: bool, names: seq<string>)
    requires Shaped(names, rooted) && names != []
    ensures Clean(Text(rooted, names) + "/") == Text(rooted, names)
  {
    var t := Text(rooted, names);
    NamesOfText(rooted, names);
    SplitAppend(t, "");
    assert t + "/" + "" == t + "/";
    var parts := Split(t) + [""];
    assert parts[..|parts| - 1] == Split(t);
    ShapedWords(names, rooted);
    if !rooted { SplitJoin(names); }
    assert IsRooted(t + "/") == rooted;
  }

  /** The parent of a cleaned path drops its last name; the top is its own parent. */
  lemma DirDropsLastName(rooted: bool, names: seq<string>)
    requires Shaped(names, rooted)
    ensures Dir(Text(rooted, names)) == Text(rooted, if names == [] then [] else names[..|names| - 1])
  {
    var t := Text(rooted, names);
    if names == [] {
      NamesOfText(rooted, names);
      if rooted {
        assert t == "" + "/" + "";
        DirLengthAfterSlash("", "");
        assert t[..1] == t;
      } else {
        DirLengthOfWord(t);
        EmptyIsDot();
      }
    } else {
      var n := |names| - 1;
      assert ShapedAt(names, n, rooted);
      if n == 0 {
        if rooted {
          assert t == "" + "/" + names[0];
          DirLengthAfterSlash("", names[0]);
          assert t[..1] == "/" == Text(true, []);
          NamesOfText(true, []);
        } else {
          DirLengthOfWord(t);
          EmptyIsDot();
        }
      } else {
        var up := Text(rooted, names[..n]);
        assert t == up + "/" + names[n];
        DirLengthAfterSlash(up, names[n]);
        assert t[..|up| + 1] == up + "/";
        ShapedPrefix(names, n, rooted);
        CleanTrailingSlash(rooted, names[..n]);
      }
    }
  }

  /** A cleaned path differs from its parent unless it is the top. */
  lemma ParentDiffers(rooted: bool, names: seq<string>)
    requires Shaped(names, rooted) && names != []
    ensures Text(rooted, names[..|names| - 1]) != Text(rooted, names)
  {
    ShapedPrefix(names, |names| - 1, rooted);
    NamesOfText(rooted, names);
    NamesOfText(rooted, names[..|names| - 1]);
  }

  /** One step up: the top is its own parent, anything else has a shorter one. */
  lemma NextCandidate(rooted: bool, names: seq<string>)
    requires Shaped(names, rooted)
    ensures Dir(Text(rooted, names)) == Text(rooted, names) <==> names == []
    ensures names != [] ==>
      Dir(Text(rooted, names)) == Text(rooted, names[..|names| - 1]) && Shaped(names[..|names| - 1], rooted)
  {
    DirDropsLastName(rooted, names);
    if names != [] {
      ParentDiffers(rooted, names);
      ShapedPrefix(names, |names| - 1, rooted);
    }
  }

  // ----- Prefixes -----

  /** matchesPrefix. */
  predicate MatchesPrefix(objectPath: string, prefix: string) {
    prefix == "/" || objectPath == prefix || prefix + "/" <= objectPath
  }

  lemma {:induction false} JoinAppend(a: seq<string>, b: seq<string>)
    requires a != [] && b != []
    ensures Join(a + b) == Join(a) + "/" + Join(b)
  {
    var ab := a + b;
    var n := |b| - 1;
    assert ab[..|ab| - 1] == a + b[..n];
    if n == 0 {
      assert a + b[..0] == a;
    } else {
      JoinAppend(a, b[..n]);
      assert Join(ab) == Join(a) + "/" + Join(b[..n]) + "/" + b[n];
      assert Join(b) == Join(b[..n]) + "/" + b[n];
      assert Join(ab) == Join(a) + "/" + (Join(b[..n]) + "/" + b[n]);
    }
  }

  lemma AncestorMatches(names: seq<string>, prefix: seq<string>)
    requires Shaped(names, true) && prefix <= names && prefix != []
    ensures MatchesPrefix(Text(true, names), Text(true, prefix))
  {
    if prefix != names {
      var rest := names[|prefix|..];
      assert names == prefix + rest;
      JoinAppend(prefix, rest);
      assert Text(true, names) == (Text(true, prefix) + "/") + Join(rest);
    }
  }

  lemma MatchIsAncestor(names: seq<string>, prefix: seq<string>)
    requires Shaped(names, true) && Shaped(prefix, true) && prefix != []
    requires Text(true, prefix) + "/" <= Text(true, names)
    ensures prefix <= names
  {
    var s, p := Text(true, names), Text(true, prefix);
    var r := s[|p| + 1..];
    assert s == p + "/" + r;
    SplitAppend(p, r);
    SplitRooted(prefix);
    SplitRooted(names);
    assert |Split(s)| >= 3;
    assert names != [];
    assert [""] + names == [""] + (prefix + Split(r));
    assert names == ([""] + names)[1..];
  }

  /** On cleaned absolute paths, matching a prefix is naming an ancestor. */
  lemma MatchesPrefixIsAncestor(names: seq<string>, prefix: seq<string>)
    requires Shaped(names, true) && Shaped(prefix, true)
    ensures MatchesPrefix(Text(true, names), Text(true, prefix)) <==> prefix <= names
  {
    var s, p := Text(true, names), Text(true, prefix);
    if prefix == [] {
    } else {
      NamesOfText(true, prefix);
      NamesOfText(true, []);
      assert p != "/";
      if prefix <= names {
        AncestorMatches(names, prefix);
      } else if p + "/" <= s {
        MatchIsAncestor(names, prefix);
      } else if s == p {
        NamesOfText(true, names);
      }
    }
  }

  lemma SplitRooted(names: seq<string>)
    requires Shaped(names, true)
    ensures names != [] ==> Split(Text(true, names)) == [""] + names
    ensures names == [] ==> Split(Text(true, names)) == ["", ""]
  {
    SplitAppend("", Join(names));
    assert "" + "/" + Join(names) == Text(true, names);
    if names != [] {
      ShapedWords(names, true);
      SplitJoin(names);
    }
  }
}
