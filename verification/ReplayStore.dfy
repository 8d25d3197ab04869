/** One-time use of grant tokens: a map that is pruned on every call and still
    answers as if it kept everything (grantauth/replay_guard.go). */
module ReplayStore {
  import opened Text

  datatype Verdict = Accepted | ReplayDetected | InvalidClaim | StoreUnavailable

  type Seen = map<string, int>

  function Later(a: int, b: int): int {
    if a < b then b else a
  }

  function Fresh(seen: Seen, now: int): Seen {
    map id | id in seen && seen[id] > now :: seen[id]
  }

  predicate Blocks(seen: Seen, id: string, now: int) {
    id in seen && seen[id] > now
  }

  /** One call of the store, with the clock it reads under its lock. */
  datatype Request = Request(tokenID: string, expiresAt: int, now: int)

  /** Until when an accepted request blocks its token ID. */
  function StoredExpiry(q: Request): int {
    Later(q.expiresAt, q.now)
  }

  function VerdictOn(seen: Seen, q: Request): Verdict {
    if Trim(q.tokenID) == "" then InvalidClaim else if Blocks(seen, Trim(q.tokenID), q.now) then ReplayDetected else Accepted
  }

  function After(seen: Seen, q: Request): Seen {
    match VerdictOn(seen, q)
    case Accepted => Fresh(seen, q.now)[Trim(q.tokenID) := StoredExpiry(q)]
    case ReplayDetected => Fresh(seen, q.now)
    case _ => seen
  }

  class MemoryReplayStore {
    var seen: Seen

    constructor ()
      ensures seen == map[]
    {
      seen := map[];
    }

    method Consume(tokenID: string, expiresAt: int, now: int) returns (r: Verdict)
      modifies this
      ensures r == VerdictOn(old(seen), Request(tokenID, expiresAt, now))
      ensures seen == After(old(seen), Request(tokenID, expiresAt, now))
      ensures r == InvalidClaim <==> Trim(tokenID) == ""
      ensures r == InvalidClaim ==> seen == old(seen)
    {
      var id := Trim(tokenID);
      if id == "" {
        return InvalidClaim;
      }
      var exp := expiresAt;
      if exp < now {
        exp := now;
      }
      var todo := seen.Keys;
      while todo != {}
        invariant todo <= seen.Keys <= old(seen).Keys
        invariant forall k :: k in seen ==> seen[k] == old(seen)[k]
        invariant forall k :: k in old(seen) && k !in todo ==> (k in seen <==> old(seen)[k] > now)
        decreases todo
      {
        var existing :| existing in todo;
        todo := todo - {existing};
        if !(seen[existing] > now) {
          seen := seen - {existing};
        }
      }
      assert seen == Fresh(old(seen), now);
      if id in seen && seen[id] > now {
        return ReplayDetected;
      }
      seen := seen[id := exp];
      return Accepted;
    }
  }

  class ReplayGuard {
    const store: MemoryReplayStore?

    constructor (store: MemoryReplayStore?)
      ensures this.store == store
    {
      this.store := store;
    }

    /** The guard reads the clock once more, before the store does. */
    method Consume(tokenID: string, expiresAt: int, guardNow: int, now: int) returns (r: Verdict)
      modifies if store == null then {} else {store}
      ensures store == null ==> r == StoreUnavailable
      ensures store != null ==>
                var q := Request(tokenID, if guardNow > expiresAt then guardNow else expiresAt, now);
                r == VerdictOn(old(store.seen), q) && store.seen == After(old(store.seen), q)
    {
      if store == null {
        return StoreUnavailable;
      }
      var id := Trim(tokenID);
      TrimIsTrimmed(tokenID);
      TrimFixesTrimmed(id);
      if id == "" {
        return InvalidClaim;
      }
      var exp := expiresAt;
      if exp < guardNow {
        exp := guardNow;
      }
      r := store.Consume(id, exp, now);
    }
  }

  // --- against the full history ---

  function Exec(requests: seq<Request>): Seen {
    if requests == [] then map[] else After(Exec(requests[..|requests| - 1]), requests[|requests| - 1])
  }

  /** What request number `i` of a run is told. */
  function Told(requests: seq<Request>, i: nat): Verdict
    requires i < |requests|
  {
    VerdictOn(Exec(requests[..i]), requests[i])
  }

  /** Request number `i` was accepted, is for `id`, and blocks it beyond `now`. */
  predicate AcceptedFor(requests: seq<Request>, i: nat, id: string, now: int)
    requires i < |requests|
  {
    Told(requests, i) == Accepted && Trim(requests[i].tokenID) == id && StoredExpiry(requests[i]) > now
  }

  predicate ClocksUpTo(requests: seq<Request>, now: int) {
    forall i :: 0 <= i < |requests| ==> requests[i].now <= now
  }

  lemma ToldBefore(requests: seq<Request>, n: nat, i: nat)
    requires i < n <= |requests|
    ensures Told(requests[..n], i) == Told(requests, i)
  {
    assert requests[..n][..i] == requests[..i];
  }

  /** The call reads a clock that is at or past `expiry`, and prunes by it. */
  predicate Overtakes(q: Request, expiry: int) {
    Trim(q.tokenID) != "" && q.now >= expiry
  }

  /** What request number `i` stored has not been pruned since. */
  predicate Survives(requests: seq<Request>, i: nat)
    requires i < |requests|
  {
    forall k :: i < k < |requests| ==> !Overtakes(requests[k], StoredExpiry(requests[i]))
  }

  /** Request number `i` put the entry of `id` there that expires at `expiry`. */
  predicate Stored(requests: seq<Request>, i: nat, id: string, expiry: int)
    requires i < |requests|
  {
    Told(requests, i) == Accepted && Trim(requests[i].tokenID) == id && StoredExpiry(requests[i]) == expiry && Survives(requests, i)
  }

  predicate Holds(seen: Seen, id: string, expiry: int) {
    id in seen && seen[id] == expiry
  }

  lemma SurvivesBefore(requests: seq<Request>, i: nat)
    requires i < |requests| - 1
    ensures Survives(requests, i) <==>
              Survives(requests[..|requests| - 1], i) && !Overtakes(requests[|requests| - 1], StoredExpiry(requests[i]))
  {
    forall k | i < k < |requests| - 1
      ensures requests[..|requests| - 1][k] == requests[k]
    {
    }
  }

  lemma StoredBefore(requests: seq<Request>, i: nat, id: string, expiry: int)
    requires i < |requests| - 1
    ensures Stored(requests, i, id, expiry) <==>
              Stored(requests[..|requests| - 1], i, id, expiry) && !Overtakes(requests[|requests| - 1], expiry)
  {
    ToldBefore(requests, |requests| - 1, i);
    SurvivesBefore(requests, i);
  }

  lemma LastIsStored(requests: seq<Request>, id: string, expiry: int)
    requires requests != []
    ensures var n, q := |requests| - 1, requests[|requests| - 1];
            Stored(requests, n, id, expiry) <==>
              VerdictOn(Exec(requests[..n]), q) == Accepted && Trim(q.tokenID) == id && StoredExpiry(q) == expiry
  {
  }

  predicate StillStored(requests: seq<Request>, id: string, expiry: int) {
    exists i :: 0 <= i < |requests| && Stored(requests, i, id, expiry)
  }

  lemma StoredOneMore(requests: seq<Request>, id: string, expiry: int)
    requires requests != []
    ensures var before, q := requests[..|requests| - 1], requests[|requests| - 1];
            StillStored(requests, id, expiry) <==>
              || (StillStored(before, id, expiry) && !Overtakes(q, expiry))
              || Stored(requests, |requests| - 1, id, expiry)
  {
    var before, q := requests[..|requests| - 1], requests[|requests| - 1];
    if StillStored(before, id, expiry) && !Overtakes(q, expiry) {
      var i :| 0 <= i < |before| && Stored(before, i, id, expiry);
      StoredBefore(requests, i, id, expiry);
    }
    if StillStored(requests, id, expiry) && !Stored(requests, |requests| - 1, id, expiry) {
      var i :| 0 <= i < |before| && Stored(requests, i, id, expiry);
      StoredBefore(requests, i, id, expiry);
    }
  }

  /** One call prunes an entry, keeps it, or stores a new one. */
  lemma AfterHolds(seen: Seen, q: Request, id: string, expiry: int)
    ensures Holds(After(seen, q), id, expiry) <==>
              || (Holds(seen, id, expiry) && !Overtakes(q, expiry))
              || (VerdictOn(seen, q) == Accepted && Trim(q.tokenID) == id && StoredExpiry(q) == expiry)
  {
  }

  /** The entries are those of the accepted calls that were never overtaken. */
  lemma {:induction false} HoldsAsHistory(requests: seq<Request>, id: string, expiry: int)
    ensures Holds(Exec(requests), id, expiry) <==> StillStored(requests, id, expiry)
  {
    if requests != [] {
      var before, q := requests[..|requests| - 1], requests[|requests| - 1];
      HoldsAsHistory(before, id, expiry);
      AfterHolds(Exec(before), q, id, expiry);
      LastIsStored(requests, id, expiry);
      StoredOneMore(requests, id, expiry);
    }
  }

  /** For all clocks: a call with a valid token ID reports a replay exactly when
      an earlier accepted call for that ID stored an expiry that still lies ahead,
      and no call in between read a clock at or past that expiry. */
  lemma ReplayIffSurvives(requests: seq<Request>, i: nat)
    requires i < |requests| && Trim(requests[i].tokenID) != ""
    ensures Told(requests, i) == ReplayDetected
       <==> exists j :: 0 <= j < i && AcceptedFor(requests, j, Trim(requests[i].tokenID), requests[i].now) && Survives(requests[..i], j)
  {
    var id, now, seen := Trim(requests[i].tokenID), requests[i].now, Exec(requests[..i]);
    forall j | 0 <= j < i
      ensures Told(requests[..i], j) == Told(requests, j)
    {
      ToldBefore(requests, i, j);
    }
    if Blocks(seen, id, now) {
      HoldsAsHistory(requests[..i], id, seen[id]);
      var j :| 0 <= j < i && Stored(requests[..i], j, id, seen[id]);
      assert AcceptedFor(requests, j, id, now);
    }
    forall j | 0 <= j < i && AcceptedFor(requests, j, id, now) && Survives(requests[..i], j)
      ensures Blocks(seen, id, now)
    {
      assert Stored(requests[..i], j, id, StoredExpiry(requests[j]));
      HoldsAsHistory(requests[..i], id, StoredExpiry(requests[j]));
    }
  }

  /** An expiry that lies ahead of a clock no earlier call exceeds was never overtaken. */
  lemma AheadSurvives(requests: seq<Request>, i: nat, j: nat)
    requires j < i < |requests| && ClocksUpTo(requests[..i], requests[i].now) && StoredExpiry(requests[j]) > requests[i].now
    ensures Survives(requests[..i], j)
  {
    forall k | j < k < i
      ensures !Overtakes(requests[..i][k], StoredExpiry(requests[j]))
    {
      assert requests[..i][k].now <= requests[i].now;
    }
  }

  /** Under a clock that does not run backwards, a call with a valid token ID
      reports a replay exactly when an earlier accepted call for that ID stored
      an expiry that still lies ahead.  No pruning can be noticed. */
  lemma ReplayIffBlocked(requests: seq<Request>, i: nat)
    requires i < |requests| && ClocksUpTo(requests[..i], requests[i].now) && Trim(requests[i].tokenID) != ""
    ensures Told(requests, i) == ReplayDetected
       <==> exists j :: 0 <= j < i && AcceptedFor(requests, j, Trim(requests[i].tokenID), requests[i].now)
  {
    ReplayIffSurvives(requests, i);
    forall j | 0 <= j < i && AcceptedFor(requests, j, Trim(requests[i].tokenID), requests[i].now)
      ensures Survives(requests[..i], j)
    {
      AheadSurvives(requests, i, j);
    }
  }

  /** A clock ahead reopens a token: a call for another one in between lets it be
      used again exactly when its clock is at or past the stored expiry. */
  lemma ClockAheadReopens(tokenID: string, other: string, expiresAt: int, now: int, ahead: int)
    requires Trim(tokenID) != "" && Trim(other) != "" && Trim(tokenID) != Trim(other) && now < expiresAt
    ensures var q := Request(tokenID, expiresAt, now);
            Told([q, Request(other, expiresAt, ahead), q], 2) == Accepted <==> ahead >= expiresAt
  {
    var q, between := Request(tokenID, expiresAt, now), Request(other, expiresAt, ahead);
    assert [q, between, q][..2] == [q, between] && [q, between][..1] == [q] && [q][..0] == [];
    assert Exec([q]) == map[Trim(tokenID) := expiresAt];
    assert Holds(Exec([q, between]), Trim(tokenID), expiresAt) <==> ahead < expiresAt;
  }

  /** Of two accepted calls for one ID the second, or some call before it, read
      a clock at or past the first one's stored expiry: under a clock that does
      not run backwards they are apart by it. */
  lemma AcceptancesAreApart(requests: seq<Request>, i: nat, j: nat)
    requires i < j < |requests|
    requires Trim(requests[i].tokenID) == Trim(requests[j].tokenID)
    requires Told(requests, i) == Told(requests, j) == Accepted
    ensures exists k :: i < k <= j && Overtakes(requests[k], StoredExpiry(requests[i]))
    ensures ClocksUpTo(requests[..j], requests[j].now) ==> requests[j].now >= StoredExpiry(requests[i])
  {
    if StoredExpiry(requests[i]) > requests[j].now {
      assert AcceptedFor(requests, i, Trim(requests[j].tokenID), requests[j].now);
      ReplayIffSurvives(requests, j);
      var k :| i < k < j && Overtakes(requests[..j][k], StoredExpiry(requests[i]));
      assert Overtakes(requests[k], StoredExpiry(requests[i]));
      assert requests[..j][k] == requests[k];
    } else {
      assert Overtakes(requests[j], StoredExpiry(requests[i]));
    }
  }

  /** The bound is the stored expiry: a token that has expired when it is first
      used blocks nothing, not even a second use at the same instant. */
  lemma ExpiredTokenMayBeReused(tokenID: string, expiresAt: int, now: int)
    requires Trim(tokenID) != ""
    ensures var q := Request(tokenID, expiresAt, now);
            Told([q], 0) == Accepted && (Told([q, q], 1) == Accepted <==> expiresAt <= now)
  {
    var q := Request(tokenID, expiresAt, now);
    assert [q, q][..1] == [q] && [q][..0] == [] && [q, q][..0] == [];
  }
}
