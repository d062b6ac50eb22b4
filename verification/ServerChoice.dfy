/** Which servers a download tries: the user's preferred ones, then those the director
    named (client/main.go, generateSortedObjServers; client/handle_http.go,
    getObjectServersToTry). */
module ServerChoice {
  import opened Collections

  /** A server's URL: its text and its host, empty when it has none. */
  datatype Server = Server(text: string, host: string)

  /** What makes two servers the same: the host, or the whole text without one. */
  function ServerKey(s: Server): string {
    if s.host != "" then s.host else s.text
  }

  function Keys(servers: seq<Server>): set<string> {
    set s | s in servers :: ServerKey(s)
  }

  datatype Choice =
    | Chosen(servers: seq<Server>, preferred: nat)
    | EmptyServer
    | PlusNotLast

  predicate BadAt(preferred: seq<Server>, i: nat)
    requires i < |preferred|
  {
    preferred[i].text == "" || (preferred[i].text == "+" && i != |preferred| - 1)
  }

  predicate IsFirstBad(preferred: seq<Server>, i: nat)
    requires i < |preferred|
  {
    BadAt(preferred, i) && forall j :: 0 <= j < i ==> !BadAt(preferred, j)
  }

  /** The text stands at `i`, and before it only names of servers. */
  predicate FirstMark(preferred: seq<Server>, i: int, text: string) {
    && 0 <= i < |preferred| && preferred[i].text == text
    && forall j :: 0 <= j < i ==> preferred[j].text != "" && preferred[j].text != "+"
  }

  /** No preference is empty, and '+' stands at the end only. */
  predicate WellFormed(preferred: seq<Server>) {
    forall i :: 0 <= i < |preferred| ==> preferred[i].text != "" && (preferred[i].text == "+" ==> i == |preferred| - 1)
  }

  lemma WellFormedIsNowhereBad(preferred: seq<Server>)
    ensures WellFormed(preferred) <==> forall i :: 0 <= i < |preferred| ==> !BadAt(preferred, i)
  {
    if forall i :: 0 <= i < |preferred| ==> !BadAt(preferred, i) {
      forall i | 0 <= i < |preferred|
        ensures preferred[i].text != "" && (preferred[i].text == "+" ==> i == |preferred| - 1)
      {
        assert !BadAt(preferred, i);
      }
    }
  }

  function Named(): Server -> bool {
    (s: Server) => s.text != "+"
  }

  /** The director's servers without those whose key was seen before. */
  function Unseen(director: seq<Server>, seen: set<string>): seq<Server> {
    if director == [] then []
    else if ServerKey(director[0]) in seen then Unseen(director[1..], seen)
    else [director[0]] + Unseen(director[1..], seen + {ServerKey(director[0])})
  }

  predicate WantsDirector(preferred: seq<Server>) {
    preferred == [] || preferred[|preferred| - 1].text == "+"
  }

  /** The servers chosen when the preferences are well formed. */
  function Combined(director: seq<Server>, preferred: seq<Server>): seq<Server> {
    var mine := Select(preferred, Named());
    if WantsDirector(preferred) then mine + Unseen(director, Keys(mine)) else mine
  }

  /** generateSortedObjServers: the first ill-formed preference is the error; otherwise
      the preferred servers, duplicates and all, then what the director adds. */
  method GenerateSortedObjServers(director: seq<Server>, preferred: seq<Server>) returns (r: Choice)
    ensures r.EmptyServer? <==> exists i :: FirstMark(preferred, i, "")
    ensures r.PlusNotLast? <==> exists i :: FirstMark(preferred, i, "+") && i < |preferred| - 1
    ensures r.Chosen? ==> r.servers == Combined(director, preferred) && r.preferred == |Select(preferred, Named())|
    ensures r.Chosen? <==> WellFormed(preferred)
  {
    FirstBadIsMarked(preferred, "");
    FirstBadIsMarked(preferred, "+");
    WellFormedIsNowhereBad(preferred);
    var choice, appendCaches := ReadPreferences(preferred);
    if !choice.Chosen? || (preferred != [] && !appendCaches) {
      return choice;
    }
    var servers := AddUnseen(choice.servers, director);
    return Chosen(servers, choice.preferred);
  }

  /** The servers the user prefers, and whether a final '+' asks for more. */
  method ReadPreferences(preferred: seq<Server>) returns (r: Choice, appendCaches: bool)
    ensures r.EmptyServer? <==> exists i :: 0 <= i < |preferred| && IsFirstBad(preferred, i) && preferred[i].text == ""
    ensures r.PlusNotLast? <==> exists i :: 0 <= i < |preferred| && IsFirstBad(preferred, i) && preferred[i].text == "+"
    ensures r.Chosen? <==> forall i :: 0 <= i < |preferred| ==> !BadAt(preferred, i)
    ensures r.Chosen? ==> r.servers == Select(preferred, Named()) && r.preferred == |r.servers|
    ensures r.Chosen? ==> (appendCaches <==> preferred != [] && preferred[|preferred| - 1].text == "+")
  {
    var servers: seq<Server> := [];
    appendCaches := false;
    for i := 0 to |preferred|
      invariant servers == Select(preferred[..i], Named())
      invariant forall j :: 0 <= j < i ==> !BadAt(preferred, j)
      invariant appendCaches <==> i == |preferred| > 0 && preferred[i - 1].text == "+"
    {
      var server := preferred[i];
      assert preferred[..i + 1] == preferred[..i] + [server];
      SelectAppend(preferred[..i], server, Named());
      if server.text == "" {
        OnlyFirstBad(preferred, i);
        return EmptyServer, false;
      } else if server.text == "+" {
        if i != |preferred| - 1 {
          OnlyFirstBad(preferred, i);
          return PlusNotLast, false;
        }
        appendCaches := true;
      } else {
        servers := servers + [server];
      }
    }
    assert preferred[..|preferred|] == preferred;
    r := Chosen(servers, |servers|);
  }

  lemma OnlyFirstBad(preferred: seq<Server>, i: nat)
    requires i < |preferred| && BadAt(preferred, i) && forall j :: 0 <= j < i ==> !BadAt(preferred, j)
    ensures IsFirstBad(preferred, i) && forall j :: 0 <= j < |preferred| && IsFirstBad(preferred, j) ==> j == i
  {
  }

  /** The first ill-formed preference is the first empty one, or a '+' that others follow,
      with only names of servers before it. */
  lemma FirstBadIsMarked(preferred: seq<Server>, text: string)
    requires text == "" || text == "+"
    ensures (exists i :: 0 <= i < |preferred| && IsFirstBad(preferred, i) && preferred[i].text == text)
       <==> exists i :: FirstMark(preferred, i, text) && (text == "+" ==> i < |preferred| - 1)
  {
    forall i | 0 <= i < |preferred| && IsFirstBad(preferred, i) && preferred[i].text == text
      ensures FirstMark(preferred, i, text) && (text == "+" ==> i < |preferred| - 1)
    {
      forall j | 0 <= j < i ensures preferred[j].text != "" && preferred[j].text != "+" {
        assert !BadAt(preferred, j);
      }
    }
    forall i | FirstMark(preferred, i, text) && (text == "+" ==> i < |preferred| - 1)
      ensures 0 <= i < |preferred| && IsFirstBad(preferred, i)
    {
      assert BadAt(preferred, i);
    }
  }

  method AddUnseen(mine: seq<Server>, director: seq<Server>) returns (servers: seq<Server>)
    ensures servers == mine + Unseen(director, Keys(mine))
  {
    servers := mine;
    var seen := set s | s in mine :: ServerKey(s);
    ghost var all := mine + Unseen(director, seen);
    for i := 0 to |director|
      invariant all == servers + Unseen(director[i..], seen)
    {
      var key := ServerKey(director[i]);
      assert director[i..][1..] == director[i + 1..];
      if key !in seen {
        seen := seen + {key};
        servers := servers + [director[i]];
      }
    }
  }

  /** The first server with its key stands at `a`. */
  predicate FirstAt(director: seq<Server>, a: nat, s: Server) {
    && a < |director| && director[a] == s
    && forall k :: 0 <= k < a ==> ServerKey(director[k]) != ServerKey(s)
  }

  lemma FirstAtShifts(director: seq<Server>, a: nat, s: Server)
    requires director != [] && FirstAt(director[1..], a, s) && ServerKey(director[0]) != ServerKey(s)
    ensures FirstAt(director, a + 1, s)
  {
    forall k | 0 <= k < a + 1 ensures ServerKey(director[k]) != ServerKey(s) {
      if k > 0 {
        assert director[k] == director[1..][k - 1];
      }
    }
  }

  /** Each kept server is the first of the director's with its host. */
  predicate AreFirsts(director: seq<Server>, kept: seq<Server>, at: seq<nat>) {
    |at| == |kept| && forall i :: 0 <= i < |at| ==> FirstAt(director, at[i], kept[i])
  }

  predicate AllNew(kept: seq<Server>, seen: set<string>) {
    forall i :: 0 <= i < |kept| ==> ServerKey(kept[i]) !in seen
  }

  predicate Increasing(at: seq<nat>) {
    forall i, j :: 0 <= i < j < |at| ==> at[i] < at[j]
  }

  function Shifted(at: seq<nat>): (r: seq<nat>)
    ensures |r| == |at| && forall i :: 0 <= i < |at| ==> r[i] == at[i] + 1
  {
    seq(|at|, i requires 0 <= i < |at| => at[i] + 1)
  }

  /** Positions behind a first server that is not kept again. */
  lemma FirstsShift(director: seq<Server>, kept: seq<Server>, at: seq<nat>, seen: set<string>)
    requires director != [] && AreFirsts(director[1..], kept, at)
    requires AllNew(kept, seen) && ServerKey(director[0]) in seen
    ensures AreFirsts(director, kept, Shifted(at))
  {
    forall i | 0 <= i < |at| ensures FirstAt(director, Shifted(at)[i], kept[i]) {
      FirstAtShifts(director, at[i], kept[i]);
    }
  }

  lemma FirstsPrepend(director: seq<Server>, kept: seq<Server>, at: seq<nat>)
    requires director != [] && AreFirsts(director, kept, at)
    ensures AreFirsts(director, [director[0]] + kept, [0] + at)
  {
    assert FirstAt(director, 0, director[0]);
  }

  /** The director's servers that are kept stand in the director's order, each the first
      with its host, and none with a host seen before. */
  lemma {:induction false} UnseenKeepsFirsts(director: seq<Server>, seen: set<string>) returns (at: seq<nat>)
    ensures AreFirsts(director, Unseen(director, seen), at)
    ensures AllNew(Unseen(director, seen), seen) && Increasing(at)
  {
    at := [];
    if director != [] {
      var head := ServerKey(director[0]);
      var seen' := if head in seen then seen else seen + {head};
      var rest := Unseen(director[1..], seen');
      var later := UnseenKeepsFirsts(director[1..], seen');
      FirstsShift(director, rest, later, seen');
      if head in seen {
        at := Shifted(later);
      } else {
        FirstsPrepend(director, rest, Shifted(later));
        at := [0] + Shifted(later);
      }
    }
  }

  lemma FirstsDiffer(director: seq<Server>, a: nat, b: nat, s: Server, t: Server)
    requires FirstAt(director, a, s) && FirstAt(director, b, t) && a < b
    ensures ServerKey(s) != ServerKey(t)
  {
    assert ServerKey(director[a]) != ServerKey(t);
  }

  /** No two servers kept share a host. */
  lemma UnseenIsDistinct(director: seq<Server>, seen: set<string>)
    ensures var kept := Unseen(director, seen);
      && KeysDiffer(kept)
      && (forall s :: s in kept ==> s in director && ServerKey(s) !in seen)
  {
    var kept := Unseen(director, seen);
    var at := UnseenKeepsFirsts(director, seen);
    forall i, j | 0 <= i < j < |kept| ensures ServerKey(kept[i]) != ServerKey(kept[j]) {
      FirstsDiffer(director, at[i], at[j], kept[i], kept[j]);
    }
    forall s | s in kept ensures s in director && ServerKey(s) !in seen {
      var i :| 0 <= i < |kept| && kept[i] == s;
      assert FirstAt(director, at[i], s);
    }
  }

  /** No host the director named is lost. */
  lemma {:induction false} UnseenLosesNoHost(director: seq<Server>, seen: set<string>)
    ensures Keys(director) <= seen + Keys(Unseen(director, seen))
  {
    if director != [] {
      var head := ServerKey(director[0]);
      var seen' := if head in seen then seen else seen + {head};
      UnseenLosesNoHost(director[1..], seen');
      assert director == [director[0]] + director[1..];
    }
  }

  // ----- Which servers are chosen -----

  /** The same host, or the same text without one. */
  predicate SameServer(a: Server, b: Server) {
    (if a.host == "" then a.text else a.host) == (if b.host == "" then b.text else b.host)
  }

  /** All of the director's hosts are there. */
  predicate Covers(servers: seq<Server>, director: seq<Server>) {
    forall d :: d in director ==> exists s :: s in servers && SameServer(s, d)
  }

  predicate NoneTwice(servers: seq<Server>) {
    forall i, j :: 0 <= i < j < |servers| ==> !SameServer(servers[i], servers[j])
  }

  /** The preferred servers themselves, without a final '+'. */
  function NamedOnes(preferred: seq<Server>): seq<Server> {
    if preferred != [] && preferred[|preferred| - 1].text == "+" then preferred[..|preferred| - 1] else preferred
  }

  lemma NamedOnesAreSelected(preferred: seq<Server>)
    requires WellFormed(preferred)
    ensures Select(preferred, Named()) == NamedOnes(preferred)
  {
    var ones := NamedOnes(preferred);
    assert forall s :: s in ones ==> exists i :: 0 <= i < |ones| && preferred[i] == s;
    SelectAll(ones, Named());
    if ones != preferred {
      var n := |preferred| - 1;
      assert preferred == ones + [preferred[n]];
      SelectAppend(ones, preferred[n], Named());
    }
  }

  lemma KeyInKeys(servers: seq<Server>, d: Server)
    requires ServerKey(d) in Keys(servers)
    ensures exists s :: s in servers && SameServer(s, d)
  {
    var s :| s in servers && ServerKey(s) == ServerKey(d);
    assert SameServer(s, d);
  }

  /** The servers chosen: without preferences every host of the director once; with
      preferences the named ones, duplicates and all, and after a final '+' also every
      host of the director that is not among them, once. */
  lemma ChosenServers(director: seq<Server>, preferred: seq<Server>)
    requires WellFormed(preferred)
    ensures var r := Combined(director, preferred); var n := |NamedOnes(preferred)|;
      && |Select(preferred, Named())| == n <= |r| && r[..n] == NamedOnes(preferred)
      && (preferred != [] && preferred[|preferred| - 1].text != "+" ==> r == preferred)
      && (preferred == [] || preferred[|preferred| - 1].text == "+" ==>
            && Covers(r, director) && NoneTwice(r[n..])
            && forall s :: s in r[n..] ==> s in director && forall m :: m in r[..n] ==> !SameServer(m, s))
  {
    var mine, r := Select(preferred, Named()), Combined(director, preferred);
    NamedOnesAreSelected(preferred);
    if preferred == [] || preferred[|preferred| - 1].text == "+" {
      DirectorAdds(director, mine);
      assert r[..|mine|] == mine && r[|mine|..] == Unseen(director, Keys(mine));
    }
  }

  lemma DirectorAdds(director: seq<Server>, mine: seq<Server>)
    ensures var more := Unseen(director, Keys(mine));
      && Covers(mine + more, director) && NoneTwice(more)
      && forall s :: s in more ==> s in director && forall m :: m in mine ==> !SameServer(m, s)
  {
    var more := Unseen(director, Keys(mine));
    UnseenIsDistinct(director, Keys(mine));
    UnseenLosesNoHost(director, Keys(mine));
    forall d | d in director ensures exists s :: s in mine + more && SameServer(s, d) {
      assert ServerKey(d) in Keys(director);
      if ServerKey(d) in Keys(mine) {
        KeyInKeys(mine, d);
      } else {
        KeyInKeys(more, d);
      }
    }
    forall s | s in more ensures s in director && forall m :: m in mine ==> !SameServer(m, s) {
      forall m | m in mine ensures !SameServer(m, s) {
        assert ServerKey(m) in Keys(mine);
      }
    }
  }

  // ----- Attempts -----

  /** Where an attempt connects to. */
  datatype Endpoint = Endpoint(url: string, unixSocket: string, proxy: bool)

  datatype Attempt = Attempt(endpoint: Endpoint, preferred: bool, cacheAge: Option<int>)

  /** The attempts one server gives rise to. `details` stands for the URL parsing and the
      proxy settings. */
  function AttemptsAt(server: Server, details: string -> seq<Endpoint>, preferred: bool): (r: seq<Attempt>)
    ensures |r| == |details(server.text)|
  {
    var endpoints := details(server.text);
    seq(|endpoints|, i requires 0 <= i < |endpoints| => Attempt(endpoints[i], preferred, None))
  }

  function Expand(servers: seq<Server>, details: string -> seq<Endpoint>, preferred: bool): seq<Attempt> {
    if servers == [] then []
    else Expand(servers[..|servers| - 1], details, preferred) + AttemptsAt(servers[|servers| - 1], details, preferred)
  }

  lemma ExpandMore(servers: seq<Server>, from: nat, i: nat, details: string -> seq<Endpoint>, preferred: bool)
    requires from <= i < |servers|
    ensures Expand(servers[from..i + 1], details, preferred)
         == Expand(servers[from..i], details, preferred) + AttemptsAt(servers[i], details, preferred)
  {
    assert servers[from..i + 1][..i - from] == servers[from..i];
  }

  /** How many endpoints the first `i` servers have. */
  function Offset(servers: seq<Server>, details: string -> seq<Endpoint>, i: nat): nat
    requires i <= |servers|
  {
    if i == 0 then 0 else Offset(servers, details, i - 1) + |details(servers[i - 1].text)|
  }

  lemma {:induction false} OffsetOfPrefix(servers: seq<Server>, details: string -> seq<Endpoint>, n: nat, i: nat)
    requires i <= n <= |servers|
    ensures Offset(servers[..n], details, i) == Offset(servers, details, i)
  {
    if i > 0 {
      OffsetOfPrefix(servers, details, n, i - 1);
    }
  }

  /** The attempts stand in the order of the servers, and for each in that of its
      endpoints, with nothing between them. */
  lemma {:induction false} AttemptsStandInOrder(servers: seq<Server>, details: string -> seq<Endpoint>, preferred: bool,
                                                i: nat, j: nat)
    requires i < |servers| && j < |details(servers[i].text)|
    ensures |Expand(servers, details, preferred)| == Offset(servers, details, |servers|)
    ensures Offset(servers, details, i) + j < |Expand(servers, details, preferred)|
    ensures Expand(servers, details, preferred)[Offset(servers, details, i) + j]
         == Attempt(details(servers[i].text)[j], preferred, None)
  {
    var n := |servers| - 1;
    ExpandLength(servers, details, preferred);
    ExpandLength(servers[..n], details, preferred);
    OffsetOfPrefix(servers, details, n, n);
    if i < n {
      AttemptsStandInOrder(servers[..n], details, preferred, i, j);
      OffsetOfPrefix(servers, details, n, i);
    }
  }

  lemma {:induction false} ExpandLength(servers: seq<Server>, details: string -> seq<Endpoint>, preferred: bool)
    ensures |Expand(servers, details, preferred)| == Offset(servers, details, |servers|)
  {
    if servers != [] {
      ExpandLength(servers[..|servers| - 1], details, preferred);
      OffsetOfPrefix(servers, details, |servers| - 1, |servers| - 1);
    }
  }

  function Least(a: nat, b: nat): nat {
    if a <= b then a else b
  }

  /** The attempts at the first `i` servers, the first `nPreferred` of them preferred. */
  function AttemptsAtFirst(servers: seq<Server>, details: string -> seq<Endpoint>, nPreferred: nat,
                           i: nat): seq<Attempt>
    requires i <= |servers|
  {
    if i == 0 then []
    else AttemptsAtFirst(servers, details, nPreferred, i - 1) + AttemptsAt(servers[i - 1], details, i - 1 < nPreferred)
  }

  lemma {:induction false} PreferredAttempts(servers: seq<Server>, details: string -> seq<Endpoint>, nPreferred: nat,
                                             i: nat)
    requires i <= nPreferred <= |servers|
    ensures AttemptsAtFirst(servers, details, nPreferred, i) == Expand(servers[..i], details, true)
  {
    if i > 0 {
      PreferredAttempts(servers, details, nPreferred, i - 1);
      ExpandMore(servers, 0, i - 1, details, true);
      assert servers[0..i] == servers[..i] && servers[0..i - 1] == servers[..i - 1];
    }
  }

  lemma {:induction false} AllAttempts(servers: seq<Server>, details: string -> seq<Endpoint>, nPreferred: nat, i: nat)
    requires nPreferred <= i <= |servers|
    ensures AttemptsAtFirst(servers, details, nPreferred, i)
         == Expand(servers[..nPreferred], details, true) + Expand(servers[nPreferred..i], details, false)
  {
    if i == nPreferred {
      PreferredAttempts(servers, details, nPreferred, i);
    } else {
      AllAttempts(servers, details, nPreferred, i - 1);
      ExpandMore(servers, nPreferred, i - 1, details, false);
      var mine := Expand(servers[..nPreferred], details, true);
      var theirs := Expand(servers[nPreferred..i - 1], details, false);
      var more := AttemptsAt(servers[i - 1], details, false);
      assert (mine + theirs) + more == mine + (theirs + more);
    }
  }

  /** getObjectServersToTry: every preferred server, and at most `cap` of the others. */
  method GetObjectServersToTry(servers: seq<Server>, details: string -> seq<Endpoint>, cap: nat, nPreferred: nat)
    returns (attempts: seq<Attempt>)
    requires nPreferred <= |servers|
    ensures attempts == Expand(servers[..nPreferred], details, true)
                      + Expand(servers[nPreferred..Least(nPreferred + cap, |servers|)], details, false)
  {
    attempts := [];
    var directorListed := 0;
    var i := 0;
    while i < |servers|
      invariant i <= |servers| && directorListed == (if i <= nPreferred then 0 else i - nPreferred) <= cap
      invariant attempts == AttemptsAtFirst(servers, details, nPreferred, i)
    {
      var isPreferred := i < nPreferred;
      if !isPreferred {
        if directorListed == cap {
          break;
        }
        directorListed := directorListed + 1;
      }
      attempts := attempts + AttemptsAt(servers[i], details, isPreferred);
      i := i + 1;
    }
    assert i == Least(nPreferred + cap, |servers|);
    AllAttempts(servers, details, nPreferred, i);
  }

  /** The attempts of a download: with ill-formed preferences there are none. */
  function DownloadAttempts(director: seq<Server>, preferred: seq<Server>, details: string -> seq<Endpoint>,
                            cap: nat): seq<Attempt>
  {
    if !WellFormed(preferred) then []
    else
      Expand(Select(preferred, Named()), details, true)
      + Expand(DirectorPart(director, preferred, cap), details, false)
  }

  /** The director's servers that are tried. */
  function DirectorPart(director: seq<Server>, preferred: seq<Server>, cap: nat): seq<Server> {
    if !WantsDirector(preferred) then []
    else
      var more := Unseen(director, Keys(Select(preferred, Named())));
      more[..Least(cap, |more|)]
  }

  lemma {:induction false} ExpandsToNothing(servers: seq<Server>, details: string -> seq<Endpoint>, preferred: bool)
    ensures Expand(servers, details, preferred) == [] <==> forall s :: s in servers ==> details(s.text) == []
  {
    if servers != [] {
      var n := |servers| - 1;
      ExpandsToNothing(servers[..n], details, preferred);
      assert servers == servers[..n] + [servers[n]];
    }
  }

  /** A download has nowhere to go exactly when a preference is ill-formed or no server
      chosen has an endpoint. */
  lemma NothingToTryExactlyWhen(director: seq<Server>, preferred: seq<Server>, details: string -> seq<Endpoint>,
                                cap: nat)
    ensures DownloadAttempts(director, preferred, details, cap) == [] <==>
      || !WellFormed(preferred)
      || forall s :: s in Select(preferred, Named()) || s in DirectorPart(director, preferred, cap) ==>
           details(s.text) == []
  {
    ExpandsToNothing(Select(preferred, Named()), details, true);
    ExpandsToNothing(DirectorPart(director, preferred, cap), details, false);
  }

  /** The attempts of a download are those at the chosen servers, in order: all the named
      ones first, as preferred, then as many of the director's as the cap allows. */
  lemma DownloadTriesTheChosen(director: seq<Server>, preferred: seq<Server>, details: string -> seq<Endpoint>,
                               cap: nat)
    requires WellFormed(preferred)
    ensures var chosen := Combined(director, preferred); var n := |NamedOnes(preferred)|;
      && n <= |chosen|
      && var upTo := if n + cap <= |chosen| then n + cap else |chosen|;
         DownloadAttempts(director, preferred, details, cap)
           == Expand(chosen[..n], details, true) + Expand(chosen[n..upTo], details, false)
  {
    NamedOnesAreSelected(preferred);
    ChosenParts(director, preferred, cap);
  }

  lemma ChosenParts(director: seq<Server>, preferred: seq<Server>, cap: nat)
    ensures var mine, chosen := Select(preferred, Named()), Combined(director, preferred);
      && |mine| <= |chosen| && chosen[..|mine|] == mine
      && var upTo := if |mine| + cap <= |chosen| then |mine| + cap else |chosen|;
         chosen[|mine|..upTo] == DirectorPart(director, preferred, cap)
  {
  }

  /** buildDownloadTransfers: it fails when there is nothing to try. */
  method BuildDownloadTransfers(director: seq<Server>, preferred: seq<Server>, details: string -> seq<Endpoint>,
                                cap: nat)
    returns (attempts: Option<seq<Attempt>>)
    ensures attempts == if DownloadAttempts(director, preferred, details, cap) == [] then None
                        else Some(DownloadAttempts(director, preferred, details, cap))
  {
    var choice := GenerateSortedObjServers(director, preferred);
    var transfers: seq<Attempt>;
    match choice {
      case Chosen(servers, n) =>
        transfers := GetObjectServersToTry(servers, details, cap, n);
        assert servers[..n] == Select(preferred, Named());
        assert servers[n..Least(n + cap, |servers|)] == DirectorPart(director, preferred, cap);
      case _ =>
        transfers := GetObjectServersToTry([], details, cap, 0);
    }
    return if |transfers| > 0 then Some(transfers) else None;
  }

  lemma {:induction false} ExpandMarks(servers: seq<Server>, details: string -> seq<Endpoint>, preferred: bool)
    ensures forall a :: a in Expand(servers, details, preferred) ==> a.preferred == preferred && a.cacheAge == None
  {
    if servers != [] {
      ExpandMarks(servers[..|servers| - 1], details, preferred);
    }
  }

  predicate KeysDiffer(servers: seq<Server>) {
    forall i, j :: 0 <= i < j < |servers| ==> ServerKey(servers[i]) != ServerKey(servers[j])
  }

  lemma PrefixKeysDiffer(servers: seq<Server>, n: nat)
    requires n <= |servers| && KeysDiffer(servers)
    ensures KeysDiffer(servers[..n])
  {
  }

  /** At most `cap` of the director's servers are tried, all different, none sharing a
      host with a preferred server. */
  lemma DirectorPartIsApart(director: seq<Server>, preferred: seq<Server>, cap: nat)
    ensures var part := DirectorPart(director, preferred, cap);
      && |part| <= cap && KeysDiffer(part)
      && forall s :: s in part ==> s in director && ServerKey(s) !in Keys(Select(preferred, Named()))
  {
    if WantsDirector(preferred) {
      var more := Unseen(director, Keys(Select(preferred, Named())));
      UnseenIsDistinct(director, Keys(Select(preferred, Named())));
      PrefixKeysDiffer(more, Least(cap, |more|));
    }
  }
}
