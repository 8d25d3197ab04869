/** Which URLs survive sanitizing, judged by their characters (turn/cloudflare.go). */
module IceUrls {
  import opened IceServers
  import opened Results
  import opened Sequences
  import opened Text

  /** Port 53 stands at `i`, given by a colon or an equals sign, and the port ends there. */
  predicate IsPort53At(u: string, i: nat) {
    && i + 3 <= |u| && (u[i] == ':' || u[i] == '=') && u[i + 1] == '5' && u[i + 2] == '3'
    && (i + 3 == |u| || u[i + 3] == '?' || u[i + 3] == '/' || u[i + 3] == '&')
  }

  lemma LowerKeeps(c: char, d: char)
    requires d in ":=53?/&"
    ensures LowerChar(c) == d <==> c == d
  {
  }

  lemma OccursInLower(u: string, marker: string, i: nat)
    requires marker == ":53" || marker == "=53"
    ensures OccursAt(Lower(u), marker, i) && PortEnds(Lower(u), i + 3) <==> IsPort53At(u, i) && u[i] == marker[0]
  {
    if i + 3 <= |u| {
      var low := Lower(u);
      LowerKeeps(u[i], marker[0]);
      LowerKeeps(u[i + 1], '5');
      LowerKeeps(u[i + 2], '3');
      assert low[i..i + 3] == [low[i], low[i + 1], low[i + 2]];
      if i + 3 < |u| {
        LowerKeeps(u[i + 3], '?');
        LowerKeeps(u[i + 3], '/');
        LowerKeeps(u[i + 3], '&');
      }
    }
  }

  lemma MarkerIff(u: string, marker: string)
    requires marker == ":53" || marker == "=53"
    ensures HasExactMarker(Lower(u), marker) <==> exists i: nat :: IsPort53At(u, i) && u[i] == marker[0]
  {
    if i: nat :| OccursAt(Lower(u), marker, i) && PortEnds(Lower(u), i + |marker|) {
      OccursInLower(u, marker, i);
    }
    if i: nat :| IsPort53At(u, i) && u[i] == marker[0] {
      OccursInLower(u, marker, i);
      assert OccursAt(Lower(u), marker, i) && PortEnds(Lower(u), i + |marker|);
    }
  }

  ghost predicate HasPort53(u: string) {
    exists i: nat :: IsPort53At(u, i)
  }

  /** A URL is blocked exactly if port 53 stands somewhere in it. */
  lemma BlockedIff(url: string)
    ensures UsesBlockedPort(url) <==> HasPort53(Trim(url))
  {
    MarkerIff(Trim(url), ":53");
    MarkerIff(Trim(url), "=53");
  }

  // --- which URLs are kept ---

  /** The URL is given by the server, up to white space around it. */
  predicate IsGivenBy(server: IceServer, u: string) {
    exists j :: 0 <= j < |server.urls| && Trim(server.urls[j]) == u
  }

  predicate IsGiven(servers: seq<IceServer>, u: string) {
    exists i :: 0 <= i < |servers| && IsGivenBy(servers[i], u)
  }

  lemma KeepsIff(url: string)
    ensures Keeps(url) <==> Trim(url) != "" && !HasPort53(Trim(url))
  {
    TrimIsTrimmed(url);
    BlockedIff(Trim(url));
  }

  lemma {:induction false} KeptIff(urls: seq<string>, u: string)
    ensures u in Kept(urls) <==> (exists j :: 0 <= j < |urls| && Trim(urls[j]) == u) && u != "" && !HasPort53(u)
  {
    if urls != [] {
      var before, last := urls[..|urls| - 1], urls[|urls| - 1];
      KeptIff(before, u);
      KeepsIff(last);
      assert forall j :: 0 <= j < |before| ==> before[j] == urls[j];
      assert u in Kept(urls) <==> u in Kept(before) || (Keeps(last) && Trim(last) == u);
    }
  }

  lemma GivenOneMore(servers: seq<IceServer>, u: string)
    requires servers != []
    ensures IsGiven(servers, u) <==> IsGiven(servers[..|servers| - 1], u) || IsGivenBy(servers[|servers| - 1], u)
  {
    var before := servers[..|servers| - 1];
    if i :| 0 <= i < |before| && IsGivenBy(before[i], u) {
      assert IsGivenBy(servers[i], u);
    }
    if i :| 0 <= i < |servers| && IsGivenBy(servers[i], u) {
      assert i < |before| ==> before[i] == servers[i];
    }
  }

  lemma AllKeptGains(servers: seq<IceServer>, u: string)
    requires servers != []
    ensures u in AllKept(servers) <==> u in AllKept(servers[..|servers| - 1]) || u in Kept(servers[|servers| - 1].urls)
  {
  }

  /** Sanitizing keeps exactly the given URLs that are not blank and do not use port 53, trimmed. */
  lemma {:induction false} UrlIsKeptIff(servers: seq<IceServer>, u: string)
    ensures u in AllKept(servers) <==> IsGiven(servers, u) && u != "" && !HasPort53(u)
  {
    if servers != [] {
      UrlIsKeptIff(servers[..|servers| - 1], u);
      AllKeptGains(servers, u);
      GivenOneMore(servers, u);
      KeptIff(servers[|servers| - 1].urls, u);
    }
  }

  /** `clean` is made of the given server, of which a URL is kept. */
  ghost predicate IsMadeOf(clean: IceServer, server: IceServer) {
    Kept(server.urls) != [] && clean == IceServer(Kept(server.urls), Trim(server.username), Trim(server.credential))
  }

  ghost predicate IsMadeOfAny(clean: IceServer, servers: seq<IceServer>) {
    exists i :: 0 <= i < |servers| && IsMadeOf(clean, servers[i])
  }

  lemma CleanedGainsOne(servers: seq<IceServer>, clean: IceServer)
    requires servers != []
    ensures clean in Cleaned(servers) <==>
              clean in Cleaned(servers[..|servers| - 1]) || IsMadeOf(clean, servers[|servers| - 1])
  {
  }

  lemma MadeOfOneMore(servers: seq<IceServer>, clean: IceServer)
    requires servers != []
    ensures IsMadeOfAny(clean, servers) <==>
              IsMadeOfAny(clean, servers[..|servers| - 1]) || IsMadeOf(clean, servers[|servers| - 1])
  {
    var before := servers[..|servers| - 1];
    if i :| 0 <= i < |before| && IsMadeOf(clean, before[i]) {
      assert IsMadeOf(clean, servers[i]);
    }
    if i :| 0 <= i < |servers| && IsMadeOf(clean, servers[i]) {
      assert i < |before| ==> before[i] == servers[i];
    }
  }

  /** A server is kept, with its texts trimmed, exactly if one of its URLs is. */
  lemma {:induction false} ServerIsKeptIff(servers: seq<IceServer>, clean: IceServer)
    ensures clean in Cleaned(servers) <==> IsMadeOfAny(clean, servers)
  {
    if servers != [] {
      ServerIsKeptIff(servers[..|servers| - 1], clean);
      CleanedGainsOne(servers, clean);
      MadeOfOneMore(servers, clean);
    }
  }

  // --- schemes ---

  /** The URL begins with the scheme, in whatever case. */
  predicate HasScheme(u: string, scheme: string) {
    |u| >= |scheme| && forall i :: 0 <= i < |scheme| ==>
      u[i] == scheme[i] || ('A' <= u[i] <= 'Z' && u[i] as int + 32 == scheme[i] as int)
  }

  lemma LowerHasPrefix(u: string, scheme: string)
    requires forall i :: 0 <= i < |scheme| ==> scheme[i] == ':' || 'a' <= scheme[i] <= 'z'
    ensures HasPrefix(Lower(u), scheme) <==> HasScheme(u, scheme)
  {
  }

  lemma LowerIsTrimmed(u: string)
    requires Trimmed(u)
    ensures Trimmed(Lower(u))
  {
  }

  /** The scheme of a trimmed URL decides what it is. */
  lemma SchemeDecides(u: string)
    requires Trimmed(u)
    ensures IsTurn(u) <==> HasScheme(u, "turn:") || HasScheme(u, "turns:")
    ensures IsStun(u) <==> HasScheme(u, "stun:") || HasScheme(u, "stuns:")
    ensures IsIceServerUrl(u) <==> IsTurn(u) || IsStun(u)
  {
    LowerIsTrimmed(u);
    TrimFixesTrimmed(u);
    TrimFixesTrimmed(Lower(u));
    LowerHasPrefix(u, "turn:");
    LowerHasPrefix(u, "turns:");
    LowerHasPrefix(u, "stun:");
    LowerHasPrefix(u, "stuns:");
  }

  /** The URL is given, not blank, and does not use port 53. */
  ghost predicate Remains(servers: seq<IceServer>, u: string) {
    IsGiven(servers, u) && u != "" && !HasPort53(u)
  }

  predicate IsTurnUrl(u: string) {
    HasScheme(u, "turn:") || HasScheme(u, "turns:")
  }

  predicate IsStunUrl(u: string) {
    HasScheme(u, "stun:") || HasScheme(u, "stuns:")
  }

  lemma RemainingUrl(servers: seq<IceServer>, u: string)
    ensures u in AllKept(servers) <==> Remains(servers, u)
    ensures Remains(servers, u) ==>
              && (IsTurn(u) <==> IsTurnUrl(u)) && (IsStun(u) <==> IsStunUrl(u))
              && (IsIceServerUrl(u) <==> IsTurnUrl(u) || IsStunUrl(u))
  {
    UrlIsKeptIff(servers, u);
    if IsGiven(servers, u) {
      var i :| 0 <= i < |servers| && IsGivenBy(servers[i], u);
      var j :| 0 <= j < |servers[i].urls| && Trim(servers[i].urls[j]) == u;
      TrimIsTrimmed(servers[i].urls[j]);
      SchemeDecides(u);
    }
  }

  /** Sanitizing succeeds exactly on servers of which every URL that remains is a
      STUN or TURN URL, and one is a TURN URL; a STUN server is put in front exactly
      if none of them is a STUN URL. */
  lemma SanitizeSucceedsIff(servers: seq<IceServer>)
    ensures Sanitized(servers).Success? <==>
              && (forall u :: Remains(servers, u) ==> IsTurnUrl(u) || IsStunUrl(u))
              && (exists u :: Remains(servers, u) && IsTurnUrl(u))
    ensures Sanitized(servers).Success? ==>
              Sanitized(servers).value ==
              (if exists u :: Remains(servers, u) && IsStunUrl(u) then [] else [STUN_SERVER]) + Cleaned(servers)
  {
    forall u: string
      ensures u in AllKept(servers) <==> Remains(servers, u)
      ensures Remains(servers, u) ==>
                && (IsTurn(u) <==> IsTurnUrl(u)) && (IsStun(u) <==> IsStunUrl(u))
                && (IsIceServerUrl(u) <==> IsTurnUrl(u) || IsStunUrl(u))
    {
      RemainingUrl(servers, u);
    }
    SanitizedByMembers(servers, AllKept(servers));
    assert [] + Cleaned(servers) == Cleaned(servers);
  }

  lemma SanitizedByMembers(servers: seq<IceServer>, kept: seq<string>)
    requires kept == AllKept(servers)
    ensures AllValid(kept) <==> forall u :: u in kept ==> IsIceServerUrl(u)
    ensures AnyTurn(kept) <==> exists u :: u in kept && IsTurn(u)
    ensures AnyStun(kept) <==> exists u :: u in kept && IsStun(u)
    ensures AnyTurn(kept) ==> servers != []
  {
  }

  // --- a provider's answer ---

  lemma KeptOfTwo(blocked: string, turn: string)
    requires Trimmed(turn) && turn != "" && !HasPort53(turn) && HasPort53(Trim(blocked))
    ensures Kept([blocked, turn]) == [turn]
  {
    TrimFixesTrimmed(turn);
    KeepsIff(blocked);
    KeepsIff(turn);
    assert [blocked, turn][..1] == [blocked] && [blocked][..0] == [];
    assert Kept([blocked]) == [];
  }

  lemma SingleUrl(u: string)
    ensures AllValid([u]) == IsIceServerUrl(u) && AnyTurn([u]) == IsTurn(u) && AnyStun([u]) == IsStun(u)
  {
    assert [u][0] == u;
  }

  lemma TurnIsNoStun(u: string)
    requires Trimmed(u) && (HasScheme(u, "turn:") || HasScheme(u, "turns:"))
    ensures IsTurn(u) && !IsStun(u) && IsIceServerUrl(u)
  {
    SchemeDecides(u);
    assert u[0] == 't' || u[0] == 'T';
  }

  lemma SingleServer(server: IceServer, u: string)
    requires Kept(server.urls) == [u]
    ensures AllKept([server]) == [u] && Cleaned([server]) == [IceServer([u], Trim(server.username), Trim(server.credential))]
  {
    assert [server][..0] == [];
  }

  lemma SanitizedWithStun(servers: seq<IceServer>, kept: seq<string>, clean: seq<IceServer>)
    requires servers != [] && AllKept(servers) == kept && Cleaned(servers) == clean
    requires AllValid(kept) && AnyTurn(kept) && !AnyStun(kept)
    ensures Sanitized(servers) == Success([STUN_SERVER] + clean)
  {
  }

  /** Of a server with a TURN URL and one on port 53 the latter goes, the texts are
      trimmed, and a STUN server comes in front. */
  lemma OneServerIsSanitized(blocked: string, turn: string, username: string, credential: string)
    requires Trimmed(turn) && !HasPort53(turn) && HasPort53(Trim(blocked))
    requires HasScheme(turn, "turn:") || HasScheme(turn, "turns:")
    ensures Sanitized([IceServer([blocked, turn], username, credential)])
         == Success([IceServer([STUN_URL], "", "")] + [IceServer([turn], Trim(username), Trim(credential))])
  {
    var server := IceServer([blocked, turn], username, credential);
    KeptOfTwo(blocked, turn);
    TurnIsNoStun(turn);
    SingleUrl(turn);
    SingleServer(server, turn);
    SanitizedWithStun([server], [turn], [IceServer([turn], Trim(username), Trim(credential))]);
  }

  /** The port may be followed by a query, a path, a parameter or nothing. */
  lemma Port53IsFound(before: string, after: string)
    requires after == "" || after[0] == '?' || after[0] == '/' || after[0] == '&'
    ensures HasPort53(before + ":53" + after) && HasPort53(before + "=53" + after)
  {
    assert IsPort53At(before + ":53" + after, |before|);
    assert IsPort53At(before + "=53" + after, |before|);
  }
}
