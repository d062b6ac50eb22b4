/** The cache of director responses (client/dir_resp_cache.go): entries scoped to a
    federation, found by walking up from a path to the longest live prefix. */
module DirRespCaching {
  import opened Collections
  import opened PathNames

  datatype Url = Url(host: string, path: string)

  /** A director response: its object servers, nil ones included, and all its other
      headers, which the cache never looks at. */
  datatype Response = Response(servers: seq<Option<Url>>, headers: string)

  datatype Entry = Entry(resp: Response, expiry: int)

  predicate Trivial(objectPath: string) {
    Clean(objectPath) == "" || Clean(objectPath) == "/" || Clean(objectPath) == "."
  }

  predicate HasSuffix(s: string, suffix: string) {
    |suffix| <= |s| && s[|s| - |suffix|..] == suffix
  }

  function TrimSuffix(s: string, suffix: string): string {
    if HasSuffix(s, suffix) then s[..|s| - |suffix|] else s
  }

  function StripUrl(u: Option<Url>, objectPath: string): Option<Url> {
    if u.None? then None else Some(u.value.(path := TrimSuffix(u.value.path, objectPath)))
  }

  function ExtendUrl(u: Option<Url>, objectPath: string): Option<Url> {
    if u.None? then None else Some(u.value.(path := u.value.path + objectPath))
  }

  function Extended(servers: seq<Option<Url>>, objectPath: string): seq<Option<Url>> {
    seq(|servers|, i requires 0 <= i < |servers| => ExtendUrl(servers[i], objectPath))
  }

  function Stripped(resp: Response, objectPath: string): Response {
    if Trivial(objectPath) then resp
    else resp.(servers := seq(|resp.servers|, i requires 0 <= i < |resp.servers| =>
           StripUrl(resp.servers[i], Clean(objectPath))))
  }

  function Reconstituted(resp: Response, objectPath: string): Response {
    if Trivial(objectPath) then resp else resp.(servers := Extended(resp.servers, Clean(objectPath)))
  }

  method StripFederationPaths(resp: Response, objectPath: string) returns (r: Response)
    ensures r == Stripped(resp, objectPath)
  {
    var cleaned := Clean(objectPath);
    if cleaned == "" || cleaned == "/" || cleaned == "." {
      return resp;
    }
    var stripped: seq<Option<Url>> := [];
    for i := 0 to |resp.servers|
      invariant |stripped| == i
      invariant forall k :: 0 <= k < i ==> stripped[k] == StripUrl(resp.servers[k], cleaned)
    {
      var u := resp.servers[i];
      if u.None? {
        stripped := stripped + [None];
      } else {
        var path := u.value.path;
        if HasSuffix(path, cleaned) {
          path := path[..|path| - |cleaned|];
        }
        stripped := stripped + [Some(Url(u.value.host, path))];
      }
    }
    return resp.(servers := stripped);
  }

  method ReconstitutePaths(resp: Response, objectPath: string) returns (r: Response)
    ensures r == Reconstituted(resp, objectPath)
  {
    var cleaned := Clean(objectPath);
    if cleaned == "" || cleaned == "/" || cleaned == "." {
      return resp;
    }
    var extended: seq<Option<Url>> := [];
    for i := 0 to |resp.servers|
      invariant |extended| == i
      invariant forall k :: 0 <= k < i ==> extended[k] == ExtendUrl(resp.servers[k], cleaned)
    {
      var u := resp.servers[i];
      extended := extended + [if u.None? then None else Some(Url(u.value.host, u.value.path + cleaned))];
    }
    return resp.(servers := extended);
  }

  /** Stripping undoes reconstituting, always. */
  lemma StripUndoesReconstitute(resp: Response, objectPath: string)
    ensures Stripped(Reconstituted(resp, objectPath), objectPath) == resp
  {
    if !Trivial(objectPath) {
      var c := Clean(objectPath);
      var back := Stripped(Reconstituted(resp, objectPath), objectPath);
      forall i | 0 <= i < |resp.servers| ensures back.servers[i] == resp.servers[i] {
        var u := resp.servers[i];
        if u.Some? {
          var longer := u.value.path + c;
          assert longer[|longer| - |c|..] == c;
          assert longer[..|longer| - |c|] == u.value.path;
        }
      }
      assert back.servers == resp.servers;
    }
  }

  /** The trivial paths are those without a name: the top of the tree. */
  lemma TrivialIsNameless(objectPath: string)
    ensures Trivial(objectPath) <==> Names(objectPath) == []
  {
    TopIsNameless(objectPath);
    CleanNotEmpty(objectPath);
  }

  lemma CleanNotEmpty(p: string)
    ensures Clean(p) != ""
  {
    NamesAreShaped(p);
    if !IsRooted(p) && Names(p) != [] {
      ShapedWords(Names(p), false);
      SplitJoin(Names(p));
    }
  }

  /** At the top of the tree nothing is stripped and nothing put back; of a path with names
      the whole cleaned path is. */
  lemma PathsComeOffAndOn(bases: seq<Option<Url>>, headers: string, p: string, q: string)
    ensures Names(p) == [] ==> forall resp :: Stripped(resp, p) == resp && Reconstituted(resp, p) == resp
    ensures Names(p) != [] && Names(q) != [] ==>
      Reconstituted(Stripped(Response(Extended(bases, Clean(p)), headers), p), q)
        == Response(Extended(bases, Clean(q)), headers)
  {
    TrivialIsNameless(p);
    TrivialIsNameless(q);
    StripUndoesReconstitute(Response(bases, headers), p);
  }

  /** Reconstituting undoes stripping exactly when every server path that is there
      ends in the object path, or the object path names nothing. */
  lemma ReconstituteUndoesStrip(resp: Response, objectPath: string)
    ensures Reconstituted(Stripped(resp, objectPath), objectPath) == resp
      <==> (Names(objectPath) == []
        || forall i :: 0 <= i < |resp.servers| && resp.servers[i].Some? ==>
             HasSuffix(resp.servers[i].value.path, Clean(objectPath)))
  {
    TrivialIsNameless(objectPath);
    if !Trivial(objectPath) {
      var c := Clean(objectPath);
      var back := Reconstituted(Stripped(resp, objectPath), objectPath);
      forall i | 0 <= i < |resp.servers|
        ensures back.servers[i] == resp.servers[i]
           <==> resp.servers[i].None? || HasSuffix(resp.servers[i].value.path, c)
      {
        var u := resp.servers[i];
        if u.Some? {
          assert u.value.path == u.value.path[..|u.value.path|];
          if HasSuffix(u.value.path, c) {
            assert u.value.path == u.value.path[..|u.value.path| - |c|] + c;
          } else {
            assert back.servers[i].value.path == u.value.path + c;
            assert |u.value.path + c| > |u.value.path|;
          }
        }
      }
      if forall i :: 0 <= i < |resp.servers| ==> back.servers[i] == resp.servers[i] {
        assert back.servers == resp.servers;
      } else {
        assert back.servers != resp.servers;
      }
    }
  }

  // ----- Keys -----

  function CacheKey(federation: string, prefix: string): string {
    federation + "\n" + prefix
  }

  /** The first newline of a key ends its federation. */
  lemma FederationEndsKey(f: string, p: string, g: string, q: string)
    requires '\n' !in g && CacheKey(f, p) == CacheKey(g, q)
    ensures |g| <= |f|
  {
    var k := CacheKey(f, p);
    assert k[|f|] == '\n';
    forall i | 0 <= i < |g| ensures k[i] != '\n' {
      assert CacheKey(g, q)[i] == g[i] && g[i] in g;
    }
  }

  /** Keys of newline-free federations never collide. */
  lemma CacheKeyInjective(f: string, p: string, g: string, q: string)
    requires '\n' !in f && '\n' !in g && CacheKey(f, p) == CacheKey(g, q)
    ensures f == g && p == q
  {
    FederationEndsKey(f, p, g, q);
    FederationEndsKey(g, q, f, p);
    assert CacheKey(f, p)[..|f|] == f && CacheKey(g, q)[..|f|] == g;
    assert CacheKey(f, p)[|f| + 1..] == p && CacheKey(g, q)[|f| + 1..] == q;
  }

  predicate IsCleanAbsolute(p: string) {
    IsRooted(p) && Clean(p) == p
  }

  /** Entries are stored under cleaned absolute prefixes of newline-free federations. */
  ghost predicate KeysValid(entries: map<string, Entry>) {
    forall k :: k in entries ==>
      exists f, p :: k == CacheKey(f, p) && f != "" && '\n' !in f && IsCleanAbsolute(p)
  }

  // ----- The operations on the entries as a value -----

  function StoreAt(entries: map<string, Entry>, ttl: int, federation: string, prefix: string, objectPath: string,
                   resp: Response, now: int): map<string, Entry>
  {
    if !IsRooted(Clean(prefix)) || federation == "" then entries
    else entries[CacheKey(federation, Clean(prefix)) := Entry(Stripped(resp, objectPath), now + ttl)]
  }

  predicate Live(entries: map<string, Entry>, federation: string, prefix: string, now: int) {
    CacheKey(federation, prefix) in entries && now < entries[CacheKey(federation, prefix)].expiry
  }

  /** The walk from a path to its ancestors: the first live one. */
  function Walk(entries: map<string, Entry>, federation: string, rooted: bool, names: seq<string>,
                now: int): Option<string>
  {
    if Live(entries, federation, Text(rooted, names), now) then Some(Text(rooted, names))
    else if names == [] then None
    else Walk(entries, federation, rooted, names[..|names| - 1], now)
  }

  function LookupAt(entries: map<string, Entry>, federation: string, objectPath: string, now: int): Option<Response> {
    if federation == "" then None
    else
      match Walk(entries, federation, IsRooted(objectPath), Names(objectPath), now)
      case None => None
      case Some(prefix) =>
        if CacheKey(federation, prefix) in entries
        then Some(Reconstituted(entries[CacheKey(federation, prefix)].resp, objectPath))
        else None
  }

  /** The entries the periodic clean-up leaves. */
  function Unexpired(entries: map<string, Entry>, now: int): map<string, Entry> {
    map k | k in entries && !(now > entries[k].expiry) :: entries[k]
  }

  class DirRespCache {
    const ttl: int
    var entries: map<string, Entry>

    constructor (ttl: int)
      ensures this.ttl == ttl && entries == map[] && KeysValid(entries)
    {
      this.ttl := ttl;
      entries := map[];
    }

    method Store(federation: string, prefix: string, objectPath: string, resp: Response, now: int)
      modifies this
      ensures entries == StoreAt(old(entries), ttl, federation, prefix, objectPath, resp, now)
      ensures old(KeysValid(entries)) && '\n' !in federation ==> KeysValid(entries)
    {
      StoreKeepsKeys(entries, ttl, federation, prefix, objectPath, resp, now);
      var cleaned := Clean(prefix);
      if !IsRooted(cleaned) {
        return;
      }
      if federation == "" {
        return;
      }
      var stripped := StripFederationPaths(resp, objectPath);
      entries := entries[CacheKey(federation, cleaned) := Entry(stripped, now + ttl)];
    }

    method Lookup(federation: string, objectPath: string, now: int) returns (r: Option<Response>)
      ensures r == LookupAt(entries, federation, objectPath, now)
    {
      var cleaned := Clean(objectPath);
      if federation == "" {
        return None;
      }
      var candidate := cleaned;
      ghost var rooted, names := IsRooted(objectPath), Names(objectPath);
      NamesAreShaped(objectPath);
      CleanIsIdempotent(objectPath);
      while true
        invariant Shaped(names, rooted) && candidate == Text(rooted, names)
        invariant Walk(entries, federation, IsRooted(objectPath), Names(objectPath), now)
               == Walk(entries, federation, rooted, names, now)
        decreases |names|
      {
        var key := CacheKey(federation, candidate);
        if key in entries {
          if now < entries[key].expiry {
            var resp := ReconstitutePaths(entries[key].resp, cleaned);
            return Some(resp);
          }
        }
        var parent := Dir(candidate);
        NextCandidate(rooted, names);
        if parent == candidate {
          break;
        }
        candidate := parent;
        names := names[..|names| - 1];
      }
      return None;
    }

    method Invalidate(federation: string, prefix: string)
      modifies this
      ensures entries == old(entries) - {CacheKey(federation, Clean(prefix))}
      ensures old(KeysValid(entries)) ==> KeysValid(entries)
    {
      entries := entries - {CacheKey(federation, Clean(prefix))};
    }

    method CleanExpired(now: int)
      modifies this
      ensures entries == Unexpired(old(entries), now)
      ensures old(KeysValid(entries)) ==> KeysValid(entries)
    {
      var rest := entries.Keys;
      while rest != {}
        invariant rest <= entries.Keys <= old(entries).Keys
        invariant forall k :: k in old(entries) ==> (k in entries <==> k in rest || !(now > old(entries)[k].expiry))
        invariant forall k :: k in entries ==> entries[k] == old(entries)[k]
      {
        var k :| k in rest;
        rest := rest - {k};
        if now > entries[k].expiry {
          entries := entries - {k};
        }
      }
    }
  }

  lemma StoreKeepsKeys(entries: map<string, Entry>, ttl: int, federation: string, prefix: string, objectPath: string,
                       resp: Response, now: int)
    ensures KeysValid(entries) && '\n' !in federation ==>
      KeysValid(StoreAt(entries, ttl, federation, prefix, objectPath, resp, now))
  {
    CleanIsIdempotent(prefix);
  }

  // ----- What a lookup finds -----

  /** None of the prefixes of more than `k` names is live. */
  predicate NoneLiveBelow(entries: map<string, Entry>, federation: string, rooted: bool, names: seq<string>, now: int,
                          k: int)
  {
    forall j :: 0 <= j <= |names| && k < j ==> !Live(entries, federation, Text(rooted, names[..j]), now)
  }

  lemma NoneLiveWithMore(entries: map<string, Entry>, federation: string, rooted: bool, names: seq<string>, now: int,
                         k: int)
    requires names != [] && !Live(entries, federation, Text(rooted, names), now)
    requires NoneLiveBelow(entries, federation, rooted, names[..|names| - 1], now, k)
    ensures NoneLiveBelow(entries, federation, rooted, names, now, k)
  {
    var n := |names|;
    forall j | 0 <= j <= n && k < j ensures !Live(entries, federation, Text(rooted, names[..j]), now) {
      assert names[..j] == if j == n then names else names[..n - 1][..j];
    }
  }

  lemma {:induction false} WalkFindsLongest(entries: map<string, Entry>, federation: string, rooted: bool,
                                            names: seq<string>, now: int)
    requires Shaped(names, rooted)
    ensures var w := Walk(entries, federation, rooted, names, now);
      && (w.Some? ==>
            && Live(entries, federation, w.value, now)
            && exists k :: 0 <= k <= |names| && w.value == Text(rooted, names[..k])
                 && NoneLiveBelow(entries, federation, rooted, names, now, k))
      && (w.None? ==> NoneLiveBelow(entries, federation, rooted, names, now, -1))
  {
    var n := |names|;
    assert names[..n] == names;
    if Live(entries, federation, Text(rooted, names), now) {
      assert NoneLiveBelow(entries, federation, rooted, names, now, n);
    } else if names == [] {
      assert NoneLiveBelow(entries, federation, rooted, names, now, -1);
    } else {
      var up := names[..n - 1];
      ShapedPrefix(names, n - 1, rooted);
      WalkFindsLongest(entries, federation, rooted, up, now);
      var w := Walk(entries, federation, rooted, up, now);
      if w.None? {
        NoneLiveWithMore(entries, federation, rooted, names, now, -1);
      } else {
        var k :| 0 <= k <= |up| && w.value == Text(rooted, up[..k])
          && NoneLiveBelow(entries, federation, rooted, up, now, k);
        NoneLiveWithMore(entries, federation, rooted, names, now, k);
        assert up[..k] == names[..k];
      }
    }
  }

  /** `p` is the longest live prefix of the path among the federation's entries. */
  ghost predicate IsLongestMatch(entries: map<string, Entry>, federation: string, objectPath: string, now: int,
                                 p: string)
  {
    && IsCleanAbsolute(p) && Live(entries, federation, p, now) && MatchesPrefix(Clean(objectPath), p)
    && forall q :: IsCleanAbsolute(q) && Live(entries, federation, q, now) && MatchesPrefix(Clean(objectPath), q) ==>
         |q| <= |p|
  }

  lemma {:induction false} JoinGrows(names: seq<string>, k: nat)
    requires k <= |names|
    ensures |Join(names[..k])| <= |Join(names)|
  {
    if k < |names| {
      JoinGrows(names[..|names| - 1], k);
      assert names[..|names| - 1][..k] == names[..k];
    } else {
      assert names[..k] == names;
    }
  }

  /** For an absolute path the walk answers with the longest matching live entry, or
      misses when there is none. */
  lemma LookupIsLongestPrefix(entries: map<string, Entry>, federation: string, objectPath: string, now: int)
    requires federation != "" && IsRooted(objectPath)
    ensures LookupAt(entries, federation, objectPath, now).None? <==>
      forall p :: IsCleanAbsolute(p) && Live(entries, federation, p, now) ==> !MatchesPrefix(Clean(objectPath), p)
    ensures LookupAt(entries, federation, objectPath, now).Some? ==>
      exists p :: IsLongestMatch(entries, federation, objectPath, now, p)
        && LookupAt(entries, federation, objectPath, now)
           == Some(Reconstituted(entries[CacheKey(federation, p)].resp, objectPath))
  {
    var names := Names(objectPath);
    NamesAreShaped(objectPath);
    WalkFindsLongest(entries, federation, true, names, now);
    var w := Walk(entries, federation, true, names, now);
    forall q | IsCleanAbsolute(q) && Live(entries, federation, q, now) && MatchesPrefix(Clean(objectPath), q)
      ensures w.Some? && |q| <= |w.value|
    {
      MatchIsNamed(names, q);
      var j := |Names(q)|;
      assert names[..j] == Names(q);
      var k :| 0 <= k <= |names| && w.value == Text(true, names[..k])
        && NoneLiveBelow(entries, federation, true, names, now, k);
      JoinGrows(names[..k], j);
      assert names[..k][..j] == names[..j];
    }
    if w.Some? {
      var k :| 0 <= k <= |names| && w.value == Text(true, names[..k]);
      ShapedPrefix(names, k, true);
      NamesOfText(true, names[..k]);
      MatchesPrefixIsAncestor(names, names[..k]);
      assert IsLongestMatch(entries, federation, objectPath, now, w.value);
    }
  }

  lemma MatchIsNamed(names: seq<string>, q: string)
    requires Shaped(names, true) && IsCleanAbsolute(q) && MatchesPrefix(Text(true, names), q)
    ensures Names(q) <= names && q == Text(true, Names(q))
  {
    NamesAreShaped(q);
    MatchesPrefixIsAncestor(names, Names(q));
  }

  /** A relative path, or no federation, never hits. */
  lemma RelativePathMisses(entries: map<string, Entry>, federation: string, objectPath: string, now: int)
    requires KeysValid(entries) && '\n' !in federation
    requires federation == "" || !IsRooted(objectPath)
    ensures LookupAt(entries, federation, objectPath, now).None?
  {
    if federation != "" {
      var names := Names(objectPath);
      NamesAreShaped(objectPath);
      WalkFindsLongest(entries, federation, false, names, now);
      forall k | 0 <= k <= |names| ensures !Live(entries, federation, Text(false, names[..k]), now) {
        ShapedPrefix(names, k, false);
        NamesOfText(false, names[..k]);
        var key := CacheKey(federation, Text(false, names[..k]));
        if key in entries {
          var f, p :| key == CacheKey(f, p) && f != "" && '\n' !in f && IsCleanAbsolute(p);
          CacheKeyInjective(federation, Text(false, names[..k]), f, p);
        }
      }
    }
  }

  lemma {:induction false} WalkFrame(entries: map<string, Entry>, entries': map<string, Entry>, federation: string,
                                     rooted: bool, names: seq<string>, now: int)
    requires forall p :: CacheKey(federation, p) in entries <==> CacheKey(federation, p) in entries'
    requires forall p :: CacheKey(federation, p) in entries ==>
      entries[CacheKey(federation, p)] == entries'[CacheKey(federation, p)]
    ensures Walk(entries, federation, rooted, names, now) == Walk(entries', federation, rooted, names, now)
  {
    if names != [] {
      WalkFrame(entries, entries', federation, rooted, names[..|names| - 1], now);
    }
  }

  /** What one federation stores changes no answer of another. */
  lemma FederationsAreIsolated(entries: map<string, Entry>, ttl: int, federation: string, other: string, prefix: string,
                               learnedFrom: string, resp: Response, stored: int, objectPath: string, now: int)
    requires '\n' !in federation && '\n' !in other && federation != other
    ensures LookupAt(StoreAt(entries, ttl, other, prefix, learnedFrom, resp, stored), federation, objectPath, now)
         == LookupAt(entries, federation, objectPath, now)
  {
    var entries' := StoreAt(entries, ttl, other, prefix, learnedFrom, resp, stored);
    forall p ensures CacheKey(federation, p) != CacheKey(other, Clean(prefix)) {
      if CacheKey(federation, p) == CacheKey(other, Clean(prefix)) {
        CacheKeyInjective(federation, p, other, Clean(prefix));
      }
    }
    WalkFrame(entries, entries', federation, IsRooted(objectPath), Names(objectPath), now);
  }

  /** After a store, the stored prefix is the longest live match of every path it is
      the longest match of among the entries before. */
  lemma StoredPrefixIsLongest(entries: map<string, Entry>, federation: string, prefix: string, entry: Entry, q: string,
                              now: int, r: string)
    requires IsCleanAbsolute(prefix) && now < entry.expiry && MatchesPrefix(Clean(q), prefix)
    requires forall p :: IsCleanAbsolute(p) && Live(entries, federation, p, now) && MatchesPrefix(Clean(q), p) ==>
      |p| <= |prefix|
    requires IsLongestMatch(entries[CacheKey(federation, prefix) := entry], federation, q, now, r)
    ensures r == prefix
  {
    var entries' := entries[CacheKey(federation, prefix) := entry];
    assert Live(entries', federation, prefix, now);
    if CacheKey(federation, r) == CacheKey(federation, prefix) {
      SameKeySamePrefix(federation, r, prefix);
    } else {
      assert Live(entries, federation, r, now);
      SameLengthMatches(Clean(q), r, prefix);
    }
  }

  /** An entry learned from path `p`, with servers base + p, answers any `q` under its
      prefix with base + q, while it lives and no longer prefix does. */
  lemma LearnedEntryServes(entries: map<string, Entry>, ttl: int, federation: string, prefix: string, p: string,
                           q: string, bases: seq<Option<Url>>, headers: string, stored: int, now: int)
    requires federation != "" && IsRooted(prefix) && IsRooted(q)
    requires Names(p) != [] && Names(q) != []
    requires now < stored + ttl && MatchesPrefix(Clean(q), Clean(prefix))
    requires forall r :: IsCleanAbsolute(r) && Live(entries, federation, r, now) && MatchesPrefix(Clean(q), r) ==>
      |r| <= |Clean(prefix)|
    ensures LookupAt(StoreAt(entries, ttl, federation, prefix, p, Response(Extended(bases, Clean(p)), headers), stored),
                     federation, q, now)
         == Some(Response(Extended(bases, Clean(q)), headers))
  {
    var base := Response(bases, headers);
    var learned := Response(Extended(bases, Clean(p)), headers);
    var entry := Entry(base, stored + ttl);
    CleanIsIdempotent(prefix);
    TrivialIsNameless(p);
    TrivialIsNameless(q);
    StripUndoesReconstitute(base, p);
    var entries' := entries[CacheKey(federation, Clean(prefix)) := entry];
    assert StoreAt(entries, ttl, federation, prefix, p, learned, stored) == entries';
    LookupFindsStored(entries, federation, Clean(prefix), entry, q, now);
  }

  /** A stored entry answers until its time is up and not at that time or later: where no
      other entry matches, a path under the prefix hits if and only if it is asked for
      before. Without a federation, or for a relative prefix, nothing is stored. */
  lemma EntryServesUntilExpiry(entries: map<string, Entry>, ttl: int, federation: string, prefix: string, p: string,
                               resp: Response, stored: int, q: string, now: int)
    requires IsRooted(q) && federation != ""
    requires forall r :: IsCleanAbsolute(r) && Live(entries, federation, r, now) ==>
      !MatchesPrefix(Clean(q), r) || r == Clean(prefix)
    ensures IsRooted(prefix) && MatchesPrefix(Clean(q), Clean(prefix)) ==>
      (LookupAt(StoreAt(entries, ttl, federation, prefix, p, resp, stored), federation, q, now).Some? <==>
         now < stored + ttl)
    ensures !IsRooted(prefix) ==> StoreAt(entries, ttl, federation, prefix, p, resp, stored) == entries
    ensures StoreAt(entries, ttl, "", prefix, p, resp, stored) == entries
  {
    CleanIsIdempotent(prefix);
    var entries' := StoreAt(entries, ttl, federation, prefix, p, resp, stored);
    LookupIsLongestPrefix(entries', federation, q, now);
    if IsRooted(prefix) && MatchesPrefix(Clean(q), Clean(prefix)) {
      assert Live(entries', federation, Clean(prefix), now) <==> now < stored + ttl;
      forall r | IsCleanAbsolute(r) && Live(entries', federation, r, now) && MatchesPrefix(Clean(q), r)
        ensures r == Clean(prefix)
      {
        if CacheKey(federation, r) == CacheKey(federation, Clean(prefix)) {
          SameKeySamePrefix(federation, r, Clean(prefix));
        } else {
          assert Live(entries, federation, r, now);
        }
      }
    }
  }

  /** Cleaning up changes no answer, then or later, and leaves no entry that is past. */
  lemma CleaningChangesNoAnswer(entries: map<string, Entry>, cleaned: int, federation: string, q: string, now: int)
    requires cleaned <= now
    ensures LookupAt(Unexpired(entries, cleaned), federation, q, now) == LookupAt(entries, federation, q, now)
    ensures forall k :: k in Unexpired(entries, cleaned) ==> k in entries && entries[k].expiry >= cleaned
  {
    CleaningKeepsWalk(entries, cleaned, federation, IsRooted(q), Names(q), now);
    NamesAreShaped(q);
    WalkFindsLongest(entries, federation, IsRooted(q), Names(q), now);
  }

  lemma {:induction false} CleaningKeepsWalk(entries: map<string, Entry>, cleaned: int, federation: string,
                                             rooted: bool, names: seq<string>, now: int)
    requires cleaned <= now
    ensures Walk(Unexpired(entries, cleaned), federation, rooted, names, now)
         == Walk(entries, federation, rooted, names, now)
  {
    if names != [] {
      CleaningKeepsWalk(entries, cleaned, federation, rooted, names[..|names| - 1], now);
    }
  }

  /** `p` is none of the prefixes a walk from the names tries. */
  predicate IsNotTried(p: string, rooted: bool, names: seq<string>) {
    Text(rooted, names) != p && (names == [] || IsNotTried(p, rooted, names[..|names| - 1]))
  }

  lemma {:induction false} WalkWithout(entries: map<string, Entry>, federation: string, gone: string, rooted: bool,
                                       names: seq<string>, now: int)
    requires IsNotTried(gone, rooted, names)
    ensures Walk(entries - {CacheKey(federation, gone)}, federation, rooted, names, now)
         == Walk(entries, federation, rooted, names, now) != Some(gone)
  {
    if CacheKey(federation, Text(rooted, names)) == CacheKey(federation, gone) {
      SameKeySamePrefix(federation, Text(rooted, names), gone);
    }
    if names != [] {
      WalkWithout(entries, federation, gone, rooted, names[..|names| - 1], now);
    }
  }

  lemma WalkedIsMatched(objectPath: string, k: nat)
    requires IsRooted(objectPath) && k <= |Names(objectPath)|
    ensures MatchesPrefix(Clean(objectPath), Text(true, Names(objectPath)[..k]))
  {
    var names := Names(objectPath);
    NamesAreShaped(objectPath);
    ShapedPrefix(names, k, true);
    MatchesPrefixIsAncestor(names, names[..k]);
  }

  lemma {:induction false} OutsideIsNotTried(objectPath: string, gone: string, k: nat)
    requires IsRooted(objectPath) && k <= |Names(objectPath)| && !MatchesPrefix(Clean(objectPath), gone)
    ensures IsNotTried(gone, true, Names(objectPath)[..k])
  {
    WalkedIsMatched(objectPath, k);
    if k > 0 {
      OutsideIsNotTried(objectPath, gone, k - 1);
      assert Names(objectPath)[..k][..k - 1] == Names(objectPath)[..k - 1];
    }
  }

  /** Invalidating a prefix changes no answer of another federation, nor of a path that is
      not under the prefix, and the entry answers nothing any more, at any time. */
  lemma InvalidationIsLocal(entries: map<string, Entry>, federation: string, prefix: string, other: string, q: string,
                            now: int)
    requires '\n' !in federation && '\n' !in other && IsRooted(q)
    ensures var left := entries - {CacheKey(federation, Clean(prefix))};
      && !Live(left, federation, Clean(prefix), now)
      && (other != federation || !MatchesPrefix(Clean(q), Clean(prefix)) ==>
            LookupAt(left, other, q, now) == LookupAt(entries, other, q, now))
  {
    var gone := Clean(prefix);
    var left := entries - {CacheKey(federation, gone)};
    if other != federation {
      forall p ensures CacheKey(other, p) != CacheKey(federation, gone) {
        if CacheKey(other, p) == CacheKey(federation, gone) {
          CacheKeyInjective(other, p, federation, gone);
        }
      }
      WalkFrame(entries, left, other, true, Names(q), now);
    } else if !MatchesPrefix(Clean(q), gone) {
      assert Names(q)[..|Names(q)|] == Names(q);
      OutsideIsNotTried(q, gone, |Names(q)|);
      WalkWithout(entries, federation, gone, true, Names(q), now);
      var w := Walk(entries, federation, true, Names(q), now);
      if w.Some? && CacheKey(federation, w.value) == CacheKey(federation, gone) {
        SameKeySamePrefix(federation, w.value, gone);
      }
    }
  }

  lemma LookupFindsStored(entries: map<string, Entry>, federation: string, prefix: string, entry: Entry, q: string,
                          now: int)
    requires federation != "" && IsRooted(q)
    requires IsCleanAbsolute(prefix) && now < entry.expiry && MatchesPrefix(Clean(q), prefix)
    requires forall p :: IsCleanAbsolute(p) && Live(entries, federation, p, now) && MatchesPrefix(Clean(q), p) ==>
      |p| <= |prefix|
    ensures LookupAt(entries[CacheKey(federation, prefix) := entry], federation, q, now)
         == Some(Reconstituted(entry.resp, q))
  {
    var entries' := entries[CacheKey(federation, prefix) := entry];
    LookupIsLongestPrefix(entries', federation, q, now);
    assert Live(entries', federation, prefix, now);
    var r :| IsLongestMatch(entries', federation, q, now, r)
        && LookupAt(entries', federation, q, now) == Some(Reconstituted(entries'[CacheKey(federation, r)].resp, q));
    StoredPrefixIsLongest(entries, federation, prefix, entry, q, now, r);
  }

  lemma SameKeySamePrefix(federation: string, p: string, q: string)
    requires CacheKey(federation, p) == CacheKey(federation, q)
    ensures p == q
  {
    assert CacheKey(federation, p)[|federation| + 1..] == p;
    assert CacheKey(federation, q)[|federation| + 1..] == q;
  }

  /** Two prefixes of one path with the same length are the same. */
  lemma SameLengthMatches(path: string, p: string, q: string)
    requires MatchesPrefix(path, p) && MatchesPrefix(path, q) && |p| == |q| && IsRooted(p) && IsRooted(q)
    ensures p == q
  {
    if p != "/" && q != "/" {
      assert p == path[..|p|] == q;
    }
  }
}
