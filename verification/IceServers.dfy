/** Cleaning the ICE servers that a TURN provider returns (turn/cloudflare.go). */
module IceServers {
  import opened Results
  import opened Sequences
  import opened Text

  // --- searching for a port ---

  predicate OccursAt(s: string, marker: string, i: nat) {
    i + |marker| <= |s| && s[i..i + |marker|] == marker
  }

  /** Nothing or the end of a port follows at `end`. */
  predicate PortEnds(s: string, end: nat)
    requires end <= |s|
  {
    end == |s| || s[end] in "?/&"
  }

  /** Some occurrence of the marker is followed by the end of a port. */
  ghost predicate HasExactMarker(s: string, marker: string) {
    exists i :: 0 <= i && OccursAt(s, marker, i) && PortEnds(s, i + |marker|)
  }

  /** Two occurrences of the marker never overlap. */
  predicate IsBorderless(marker: string) {
    marker != "" && forall k :: 0 < k < |marker| ==> marker[k..] != marker[..|marker| - k]
  }

  lemma OverlapIsBorder(s: string, marker: string, i: nat, j: nat)
    requires i < j < i + |marker| && OccursAt(s, marker, i) && OccursAt(s, marker, j)
    ensures marker[j - i..] == marker[..|marker| - (j - i)]
  {
    assert s[i..i + |marker|][j - i..] == s[j..j + |marker|][..|marker| - (j - i)];
  }

  lemma OccurrencesAreApart(s: string, marker: string, i: nat, j: nat)
    requires IsBorderless(marker) && i < j && OccursAt(s, marker, i) && OccursAt(s, marker, j)
    ensures j >= i + |marker|
  {
    if j < i + |marker| {
      OverlapIsBorder(s, marker, i, j);
    }
  }

  lemma PortMarkersAreBorderless()
    ensures IsBorderless(":53") && IsBorderless("=53")
  {
    forall marker, k | (marker == ":53" || marker == "=53") && 0 < k < |marker|
      ensures marker[k..] != marker[..|marker| - k]
    {
      assert marker[k..][0] == marker[k] && marker[..|marker| - k][0] == marker[0];
    }
  }

  /** The first occurrence of the marker from `from` on. */
  method IndexFrom(s: string, marker: string, from: nat) returns (r: Option<nat>)
    requires from <= |s|
    ensures match r
            case Some(i) => from <= i && OccursAt(s, marker, i) && forall j :: from <= j < i ==> !OccursAt(s, marker, j)
            case None => forall j :: from <= j ==> !OccursAt(s, marker, j)
  {
    var i := from;
    while i + |marker| <= |s|
      invariant from <= i && forall j :: from <= j < i ==> !OccursAt(s, marker, j)
    {
      if s[i..i + |marker|] == marker {
        return Some(i);
      }
      i := i + 1;
    }
    return None;
  }

  /** The search from `offset` on: it looks at the first occurrence there, and goes on behind it. */
  ghost predicate SearchFinds(s: string, marker: string, offset: nat)
    requires marker != "" && offset <= |s|
    decreases |s| - offset
  {
    exists i :: offset <= i && FirstFrom(s, marker, offset, i)
                && (PortEnds(s, i + |marker|) || SearchFinds(s, marker, i + |marker|))
  }

  ghost predicate FirstFrom(s: string, marker: string, offset: nat, i: nat) {
    offset <= i && OccursAt(s, marker, i) && forall j :: offset <= j < i ==> !OccursAt(s, marker, j)
  }

  /** An occurrence that the search skips could end a port, if it overlaps another one. */
  method HasExactURLPortMarker(raw: string, marker: string) returns (found: bool)
    requires marker != ""
    ensures found <==> SearchFinds(raw, marker, 0)
    ensures found ==> HasExactMarker(raw, marker)
    ensures IsBorderless(marker) ==> (found <==> HasExactMarker(raw, marker))
  {
    FoundIsThere(raw, marker, 0);
    if IsBorderless(marker) {
      SearchIsExact(raw, marker, 0);
    }
    var offset := 0;
    while true
      invariant offset <= |raw|
      invariant SearchFinds(raw, marker, 0) <==> SearchFinds(raw, marker, offset)
      decreases |raw| - offset
    {
      var idx := IndexFrom(raw, marker, offset);
      if idx.None? {
        return false;
      }
      assert FirstFrom(raw, marker, offset, idx.value);
      FirstIsOnly(raw, marker, offset, idx.value);
      var end := idx.value + |marker|;
      if end == |raw| || raw[end] in "?/&" {
        return true;
      }
      offset := end;
    }
  }

  lemma {:induction false} FoundIsThere(s: string, marker: string, offset: nat)
    requires marker != "" && offset <= |s|
    ensures SearchFinds(s, marker, offset) ==> HasExactMarker(s, marker)
    decreases |s| - offset
  {
    if i: nat :| FirstFrom(s, marker, offset, i) {
      FirstIsOnly(s, marker, offset, i);
      if !PortEnds(s, i + |marker|) {
        FoundIsThere(s, marker, i + |marker|);
      }
    }
  }

  /** No occurrence before `offset` is followed by the end of a port. */
  ghost predicate NoneEndsBefore(s: string, marker: string, offset: nat) {
    forall i :: 0 <= i < offset && OccursAt(s, marker, i) ==> !PortEnds(s, i + |marker|)
  }

  lemma FirstIsOnly(s: string, marker: string, offset: nat, i: nat)
    requires marker != "" && FirstFrom(s, marker, offset, i)
    ensures SearchFinds(s, marker, offset) <==> PortEnds(s, i + |marker|) || SearchFinds(s, marker, i + |marker|)
  {
    forall j | offset <= j && FirstFrom(s, marker, offset, j)
      ensures j == i
    {
    }
  }

  lemma NoneEndsFurther(s: string, marker: string, offset: nat, first: nat)
    requires IsBorderless(marker) && NoneEndsBefore(s, marker, offset)
    requires FirstFrom(s, marker, offset, first) && !PortEnds(s, first + |marker|)
    ensures NoneEndsBefore(s, marker, first + |marker|)
  {
    forall i | 0 <= i < first + |marker| && OccursAt(s, marker, i)
      ensures !PortEnds(s, i + |marker|)
    {
      if i > first {
        OccurrencesAreApart(s, marker, first, i);
      }
    }
  }

  /** The marker holds none of the characters that end a port. */
  predicate IsPlain(marker: string) {
    forall i :: 0 <= i < |marker| ==> marker[i] !in "?/&"
  }

  /** A marker that overlaps itself, as far as it goes. */
  lemma OverlappedIsMissed(marker: string, k: nat)
    requires IsPlain(marker) && 0 < k < |marker| && marker[k..] == marker[..|marker| - k]
    ensures var s := marker[..k] + marker; HasExactMarker(s, marker) && !SearchFinds(s, marker, 0)
  {
    var s, n := marker[..k] + marker, |marker|;
    assert s[k..k + n] == marker;
    assert OccursAt(s, marker, k) && PortEnds(s, k + n);
    assert s[..n] == marker by {
      assert marker == marker[..k] + marker[k..];
      assert s[..n] == marker[..k] + marker[..n - k];
    }
    assert FirstFrom(s, marker, 0, 0);
    FirstIsOnly(s, marker, 0, 0);
    assert s[n] == marker[n - k];
    assert !SearchFinds(s, marker, n);
  }

  /** For a marker without these characters, the search answers rightly on every
      string if and only if occurrences of the marker never overlap. */
  lemma SearchIsExactIffBorderless(marker: string)
    requires marker != "" && IsPlain(marker)
    ensures (forall s: string :: SearchFinds(s, marker, 0) == HasExactMarker(s, marker)) <==> IsBorderless(marker)
  {
    if IsBorderless(marker) {
      forall s: string
        ensures SearchFinds(s, marker, 0) == HasExactMarker(s, marker)
      {
        SearchIsExact(s, marker, 0);
      }
    } else {
      var k :| 0 < k < |marker| && marker[k..] == marker[..|marker| - k];
      OverlappedIsMissed(marker, k);
    }
  }

  lemma {:induction false} SearchIsExact(s: string, marker: string, offset: nat)
    requires marker != "" && IsBorderless(marker) && offset <= |s| && NoneEndsBefore(s, marker, offset)
    ensures SearchFinds(s, marker, offset) == HasExactMarker(s, marker)
    decreases |s| - offset
  {
    if i: nat :| FirstFrom(s, marker, offset, i) {
      FirstIsOnly(s, marker, offset, i);
      if !PortEnds(s, i + |marker|) {
        NoneEndsFurther(s, marker, offset, i);
        SearchIsExact(s, marker, i + |marker|);
      }
    } else {
      NoFirstNoOccurrence(s, marker, offset, |s|);
    }
  }

  lemma {:induction false} NoFirstNoOccurrence(s: string, marker: string, offset: nat, n: nat)
    requires forall i: nat :: !FirstFrom(s, marker, offset, i)
    ensures forall j :: offset <= j < n ==> !OccursAt(s, marker, j)
  {
    if n > 0 {
      NoFirstNoOccurrence(s, marker, offset, n - 1);
      assert !FirstFrom(s, marker, offset, n - 1);
    }
  }

  ghost predicate UsesBlockedPort(url: string) {
    HasExactMarker(Lower(Trim(url)), ":53") || HasExactMarker(Lower(Trim(url)), "=53")
  }

  method UsesBlockedCloudflarePort(raw: string) returns (blocked: bool)
    ensures blocked <==> UsesBlockedPort(raw)
  {
    PortMarkersAreBorderless();
    blocked := HasExactURLPortMarker(Lower(Trim(raw)), ":53");
    if !blocked {
      blocked := HasExactURLPortMarker(Lower(Trim(raw)), "=53");
    }
  }

  // --- schemes ---

  predicate IsTurn(url: string) {
    var lower := Trim(Lower(url)); HasPrefix(lower, "turn:") || HasPrefix(lower, "turns:")
  }

  predicate IsStun(url: string) {
    var lower := Trim(Lower(url)); HasPrefix(lower, "stun:") || HasPrefix(lower, "stuns:")
  }

  predicate IsIceServerUrl(url: string) {
    var lower := Lower(Trim(url));
    HasPrefix(lower, "stun:") || HasPrefix(lower, "stuns:") || HasPrefix(lower, "turn:") || HasPrefix(lower, "turns:")
  }

  // --- the servers ---

  datatype IceServer = IceServer(urls: seq<string>, username: string, credential: string)

  datatype IceError = NoServers | InvalidUrl | NoTurn

  const STUN_URL := "stun:stun.cloudflare.com:3478"
  const STUN_SERVER := IceServer([STUN_URL], "", "")

  ghost predicate Keeps(url: string) {
    Trim(url) != "" && !UsesBlockedPort(Trim(url))
  }

  /** The URLs of a server that are kept, trimmed. */
  ghost function Kept(urls: seq<string>): seq<string> {
    if urls == [] then []
    else
      var last := urls[|urls| - 1];
      Kept(urls[..|urls| - 1]) + if Keeps(last) then [Trim(last)] else []
  }

  ghost function Cleaned(servers: seq<IceServer>): seq<IceServer> {
    if servers == [] then []
    else
      var last := servers[|servers| - 1];
      Cleaned(servers[..|servers| - 1])
      + if Kept(last.urls) == [] then [] else [IceServer(Kept(last.urls), Trim(last.username), Trim(last.credential))]
  }

  ghost function AllKept(servers: seq<IceServer>): seq<string> {
    if servers == [] then [] else AllKept(servers[..|servers| - 1]) + Kept(servers[|servers| - 1].urls)
  }

  ghost predicate AllValid(urls: seq<string>) {
    forall i :: 0 <= i < |urls| ==> IsIceServerUrl(urls[i])
  }

  ghost predicate AnyTurn(urls: seq<string>) {
    exists i :: 0 <= i < |urls| && IsTurn(urls[i])
  }

  ghost predicate AnyStun(urls: seq<string>) {
    exists i :: 0 <= i < |urls| && IsStun(urls[i])
  }

  /** Sanitizing succeeds exactly on servers whose kept URLs all have an ICE
      scheme, one of them TURN; a STUN server is put in front if there is none. */
  ghost function Sanitized(servers: seq<IceServer>): Result<seq<IceServer>, IceError> {
    if servers == [] then Failure(NoServers)
    else if !AllValid(AllKept(servers)) then Failure(InvalidUrl)
    else if !AnyTurn(AllKept(servers)) then Failure(NoTurn)
    else Success(if AnyStun(AllKept(servers)) then Cleaned(servers) else [STUN_SERVER] + Cleaned(servers))
  }

  lemma CleanedOneMore(servers: seq<IceServer>, i: nat)
    requires i < |servers|
    ensures var last := servers[i];
            Cleaned(servers[..i + 1]) == Cleaned(servers[..i])
              + if Kept(last.urls) == [] then [] else [IceServer(Kept(last.urls), Trim(last.username), Trim(last.credential))]
    ensures AllKept(servers[..i + 1]) == AllKept(servers[..i]) + Kept(servers[i].urls)
    ensures AllKept(servers[..i]) + Kept(servers[i].urls) <= AllKept(servers)
  {
    assert servers[..i + 1][..i] == servers[..i];
    AllKeptUpTo(servers, i + 1);
  }

  lemma {:induction false} AllKeptUpTo(servers: seq<IceServer>, i: nat)
    requires i <= |servers|
    ensures AllKept(servers[..i]) <= AllKept(servers)
  {
    if i < |servers| {
      assert servers[..|servers| - 1][..i] == servers[..i];
      AllKeptUpTo(servers[..|servers| - 1], i);
    } else {
      assert servers[..i] == servers;
    }
  }

  lemma {:induction false} KeptUpTo(urls: seq<string>, j: nat)
    requires j <= |urls|
    ensures Kept(urls[..j]) <= Kept(urls)
  {
    if j < |urls| {
      assert urls[..|urls| - 1][..j] == urls[..j];
      KeptUpTo(urls[..|urls| - 1], j);
    } else {
      assert urls[..j] == urls;
    }
  }

  method SanitizeICEServers(servers: seq<IceServer>) returns (r: Result<seq<IceServer>, IceError>)
    ensures r == Sanitized(servers)
  {
    if |servers| == 0 {
      return Failure(NoServers);
    }
    var out := [];
    var hasTURN, hasSTUN := false, false;
    for i := 0 to |servers|
      invariant out == Cleaned(servers[..i])
      invariant AllValid(AllKept(servers[..i]))
      invariant hasTURN <==> AnyTurn(AllKept(servers[..i]))
      invariant hasSTUN <==> AnyStun(AllKept(servers[..i]))
    {
      var ok, urls, turn, stun := CleanUrls(servers[i].urls);
      CleanedOneMore(servers, i);
      if !ok {
        SuffixInvalid(AllKept(servers[..i]), Kept(servers[i].urls), AllKept(servers));
        return Failure(InvalidUrl);
      }
      AnyOfBoth(AllKept(servers[..i]), Kept(servers[i].urls));
      hasTURN, hasSTUN := hasTURN || turn, hasSTUN || stun;
      if |urls| == 0 {
        continue;
      }
      out := out + [IceServer(urls, Trim(servers[i].username), Trim(servers[i].credential))];
    }
    assert servers[..|servers|] == servers;
    if !hasSTUN {
      out := [STUN_SERVER] + out;
    }
    if !hasTURN {
      return Failure(NoTurn);
    }
    return Success(out);
  }

  lemma AnyOfBoth(a: seq<string>, b: seq<string>)
    ensures AllValid(a + b) <==> AllValid(a) && AllValid(b)
    ensures AnyTurn(a + b) <==> AnyTurn(a) || AnyTurn(b)
    ensures AnyStun(a + b) <==> AnyStun(a) || AnyStun(b)
  {
    forall i | 0 <= i < |a + b|
      ensures (a + b)[i] == if i < |a| then a[i] else b[i - |a|]
    {
    }
    forall i | 0 <= i < |b|
      ensures b[i] == (a + b)[|a| + i]
    {
    }
    forall i | 0 <= i < |a|
      ensures a[i] == (a + b)[i]
    {
    }
  }

  lemma SuffixInvalid(a: seq<string>, b: seq<string>, whole: seq<string>)
    requires !AllValid(b) && a + b <= whole
    ensures !AllValid(whole)
  {
    var i :| 0 <= i < |b| && !IsIceServerUrl(b[i]);
    assert whole[|a| + i] == (a + b)[|a| + i] == b[i];
  }

  /** The inner loop: the URLs of one server, and whether they are all valid. */
  method CleanUrls(rawUrls: seq<string>) returns (ok: bool, urls: seq<string>, turn: bool, stun: bool)
    ensures ok <==> AllValid(Kept(rawUrls))
    ensures ok ==> urls == Kept(rawUrls) && (turn <==> AnyTurn(urls)) && (stun <==> AnyStun(urls))
  {
    ok, urls, turn, stun := true, [], false, false;
    for j := 0 to |rawUrls|
      invariant urls == Kept(rawUrls[..j]) && AllValid(urls)
      invariant turn <==> AnyTurn(urls)
      invariant stun <==> AnyStun(urls)
      invariant ok
    {
      assert rawUrls[..j + 1][..j] == rawUrls[..j];
      var rawURL := Trim(rawUrls[j]);
      if rawURL == "" {
        continue;
      }
      var blocked := UsesBlockedCloudflarePort(rawURL);
      if blocked {
        continue;
      }
      AnyOfBoth(urls, [rawURL]);
      TrimIsTrimmed(rawUrls[j]);
      if !IsIceServerUrl(rawURL) {
        assert !IsIceServerUrl([rawURL][0]);
        KeptUpTo(rawUrls, j + 1);
        SuffixInvalid(urls, [rawURL], Kept(rawUrls));
        ok := false;
        return;
      }
      assert [rawURL][0] == rawURL;
      turn := turn || IsTurn(rawURL);
      stun := stun || IsStun(rawURL);
      urls := urls + [rawURL];
    }
    assert rawUrls[..|rawUrls|] == rawUrls;
  }

  // --- sanitizing twice ---

  lemma {:induction false} KeptTwice(urls: seq<string>)
    ensures Kept(Kept(urls)) == Kept(urls)
  {
    if urls != [] {
      var before, last := urls[..|urls| - 1], urls[|urls| - 1];
      KeptTwice(before);
      if Keeps(last) {
        TrimIsTrimmed(last);
        assert (Kept(before) + [Trim(last)])[..|Kept(before)|] == Kept(before);
      } else {
        assert Kept(urls) == Kept(before);
      }
    }
  }

  lemma {:induction false} CleanedTwice(servers: seq<IceServer>)
    ensures Cleaned(Cleaned(servers)) == Cleaned(servers) && AllKept(Cleaned(servers)) == AllKept(servers)
  {
    if servers != [] {
      var before, last := servers[..|servers| - 1], servers[|servers| - 1];
      CleanedTwice(before);
      if Kept(last.urls) == [] {
        assert Cleaned(servers) == Cleaned(before);
      } else {
        var clean := IceServer(Kept(last.urls), Trim(last.username), Trim(last.credential));
        KeptTwice(last.urls);
        TrimIsTrimmed(last.username);
        TrimIsTrimmed(last.credential);
        assert (Cleaned(before) + [clean])[..|Cleaned(before)|] == Cleaned(before);
      }
    }
  }

  lemma NoFiveNoMarker(s: string)
    requires '5' !in s
    ensures !HasExactMarker(Lower(s), ":53") && !HasExactMarker(Lower(s), "=53")
  {
    forall i: nat, marker | marker == ":53" || marker == "=53"
      ensures !OccursAt(Lower(s), marker, i)
    {
      if OccursAt(Lower(s), marker, i) {
        FiveWasThere(s, marker, i);
      }
    }
  }

  lemma FiveWasThere(s: string, marker: string, i: nat)
    requires (marker == ":53" || marker == "=53") && OccursAt(Lower(s), marker, i)
    ensures '5' in s
  {
    assert Lower(s)[i..i + 3][1] == Lower(s)[i + 1];
    assert s[i + 1] == '5';
  }

  lemma StunUrlIsKept()
    ensures Kept([STUN_URL]) == [STUN_URL]
  {
    TrimFixesTrimmed(STUN_URL);
    NoFiveNoMarker(STUN_URL);
    assert [STUN_URL][..0] == [];
  }

  lemma StunUrlIsStun()
    ensures IsIceServerUrl(STUN_URL) && IsStun(STUN_URL) && !IsTurn(STUN_URL)
  {
    TrimFixesTrimmed(STUN_URL);
    var lower := Lower(STUN_URL);
    TrimFixesTrimmed(lower);
    assert lower[0] == 's';
    assert lower[..5] == "stun:";
  }

  lemma StunServerIsClean()
    ensures Cleaned([STUN_SERVER]) == [STUN_SERVER] && AllKept([STUN_SERVER]) == [STUN_URL]
  {
    StunUrlIsKept();
    TrimFixesTrimmed("");
    assert [STUN_SERVER][..0] == [];
  }

  lemma {:induction false} CleanedInFront(first: IceServer, servers: seq<IceServer>)
    requires Cleaned([first]) == [first]
    ensures Cleaned([first] + servers) == [first] + Cleaned(servers)
  {
    if servers == [] {
      assert [first] + servers == [first];
    } else {
      Regroup([first], servers);
      CleanedInFront(first, servers[..|servers| - 1]);
    }
  }

  lemma {:induction false} KeptInFront(first: IceServer, servers: seq<IceServer>)
    requires AllKept([first]) == first.urls
    ensures AllKept([first] + servers) == first.urls + AllKept(servers)
  {
    if servers == [] {
      assert [first] + servers == [first] && first.urls + [] == first.urls;
    } else {
      var before, last := servers[..|servers| - 1], servers[|servers| - 1];
      Regroup([first], servers);
      KeptInFront(first, before);
      Associate(first.urls, AllKept(before), Kept(last.urls));
    }
  }

  /** A clean STUN server in front of clean servers changes nothing. */
  lemma CleanStaysClean(first: IceServer, servers: seq<IceServer>)
    requires Cleaned([first]) == [first] && AllKept([first]) == first.urls
    requires AllValid(first.urls) && AnyStun(first.urls) && AllValid(AllKept(servers)) && AnyTurn(AllKept(servers))
    ensures Sanitized([first] + Cleaned(servers)) == Success([first] + Cleaned(servers))
  {
    CleanedTwice(servers);
    CleanedInFront(first, Cleaned(servers));
    KeptInFront(first, Cleaned(servers));
    AnyOfBoth(first.urls, AllKept(servers));
  }

  /** What was sanitized once is left as it is. */
  lemma SanitizingIsIdempotent(servers: seq<IceServer>)
    requires Sanitized(servers).Success?
    ensures Sanitized(Sanitized(servers).value) == Sanitized(servers)
  {
    if AnyStun(AllKept(servers)) {
      CleanedTwice(servers);
    } else {
      StunServerIsClean();
      StunUrlIsStun();
      assert [STUN_URL][0] == STUN_URL;
      CleanStaysClean(STUN_SERVER, servers);
    }
  }
}
