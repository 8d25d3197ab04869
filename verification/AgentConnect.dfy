/** The connect handler: it registers the session first and takes the
    registration back when ICE servers or the signal token cannot be issued
    (cmd/shellin-control-plane/agent_connect_handlers.go). */
module AgentConnect {
  import opened Results
  import opened Text
  import opened RegistrySpec
  import Stored = AgentRegistry

  /** The registration that a connect request makes. */
  function Registration(subject: string, sessionID: string, agentLabel: string, maxSessions: int, now: int): Op {
    Op.UpsertLimited(subject, sessionID, agentLabel, TRANSPORT, maxSessions, now)
  }

  /** `subject` and `maxSessions` come from the caller's entitlement; `iceIssued`
      and `tokenIssued` are how the two later steps turn out. */
  method HandleAgentConnect(registry: Stored.AgentRegistry, subject: string, maxSessions: int, requestedID: string,
                            agentLabel: string, now: int, iceIssued: bool, tokenIssued: bool)
    returns (status: nat)
    requires registry.Valid()
    modifies registry
    ensures registry.Valid()
    ensures registry.meaning == (if status == 200 || IdOf(subject, requestedID) in old(registry.meaning).live
                                 then Apply(old(registry.meaning), Registration(subject, requestedID, agentLabel, maxSessions, now))
                                 else old(registry.meaning))
    ensures status != 200 && IdOf(subject, requestedID) !in old(registry.meaning).live ==>
              registry.items == old(registry.items) && registry.terminated == old(registry.terminated)
    ensures status == if Trim(requestedID) == "" then 400
                      else match Refusal(old(registry.meaning), Registration(subject, requestedID, agentLabel, maxSessions, now))
                           case Some(e) => StatusOf(e)
                           case None => if !iceIssued then 502 else if !tokenIssued then 500 else 200
  {
    var sessionID := Trim(requestedID);
    TrimIsTrimmed(requestedID);
    TrimFixesTrimmed(sessionID);
    if sessionID == "" {
      return 400;
    }
    var r := registry.UpsertLimited(subject, sessionID, agentLabel, TRANSPORT, maxSessions, now);
    if r.Failure? {
      Stored.MeaningIsUnique(registry.items, old(registry.items), registry.meaning.live);
      Stored.MeaningIsUnique(registry.terminated, old(registry.terminated), registry.meaning.dead);
      return StatusOf(r.error);
    }
    var created := r.value.1;
    if !iceIssued {
      if created {
        TakeBack(registry, old(registry.meaning), subject, sessionID, old(registry.items), old(registry.terminated));
      }
      return 502;
    }
    if !tokenIssued {
      if created {
        TakeBack(registry, old(registry.meaning), subject, sessionID, old(registry.items), old(registry.terminated));
      }
      return 500;
    }
    return 200;
  }

  /** The Remove that undoes a registration made over the state `before`. */
  method TakeBack(registry: Stored.AgentRegistry, ghost before: Registry, subject: string, sessionID: string,
                  ghost items: Stored.Nested<AgentStatus>, ghost terminated: Stored.Nested<int>)
    requires registry.Valid() && Stored.Means(items, before.live) && Stored.Means(terminated, before.dead)
    requires var id := IdOf(subject, sessionID);
             HasId(id) && id !in before.live && id in registry.meaning.live
             && registry.meaning == before.(live := before.live[id := registry.meaning.live[id]])
    modifies registry
    ensures registry.Valid() && registry.meaning == before && registry.items == items && registry.terminated == terminated
  {
    ghost var id := IdOf(subject, sessionID);
    assert before.live[id := registry.meaning.live[id]] - {id} == before.live;
    var _ := registry.Remove(subject, sessionID);
    Stored.MeaningIsUnique(registry.items, items, before.live);
    Stored.MeaningIsUnique(registry.terminated, terminated, before.dead);
  }

  /** The statuses of a refused connect: 400 if the subject, the session ID or the
      maximum is missing, 410 for a terminated session, 409 for a new session beyond
      the maximum. */
  lemma ConnectIsRefusedAs(r: Registry, subject: string, sessionID: string, agentLabel: string, maxSessions: int, now: int)
    ensures var id, refusal := IdOf(subject, sessionID), Refusal(r, Registration(subject, sessionID, agentLabel, maxSessions, now));
            var complete := Trim(subject) != "" && Trim(sessionID) != "" && maxSessions > 0;
            && (refusal.Some? && StatusOf(refusal.value) == 400 <==> !complete)
            && (refusal.Some? && StatusOf(refusal.value) == 410 <==> complete && id in r.dead)
            && (refusal.Some? && StatusOf(refusal.value) == 409 <==>
                  complete && id !in r.dead && id !in r.live && |SessionsOf(r.live, Trim(subject))| >= maxSessions)
            && (refusal.Some? ==> StatusOf(refusal.value) in {400, 409, 410})
  {
    assert Trim(TRANSPORT) != "";
  }

  /** What an accepted connect stores: the trimmed texts, the one transport there is,
      and the creation time of a session that was live already. */
  lemma ConnectRegisters(r: Registry, subject: string, sessionID: string, agentLabel: string, maxSessions: int, now: int)
    requires Refusal(r, Registration(subject, sessionID, agentLabel, maxSessions, now)).None?
    ensures var id, after := IdOf(subject, sessionID), Apply(r, Registration(subject, sessionID, agentLabel, maxSessions, now));
            && after.dead == r.dead
            && after.live == r.live[id := AgentStatus(Trim(subject), Trim(sessionID), Trim(agentLabel), "webrtc_turn",
                                                      if id in r.live then r.live[id].createdAt else now, now)]
  {
    TrimFixesTrimmed("webrtc_turn");
  }

  // --- what happens between the registration and its undoing ---

  predicate SameAt(a: Registry, b: Registry, i: AgentId) {
    (i in a.live <==> i in b.live) && (i in a.live ==> a.live[i] == b.live[i])
  }

  /** The two registries differ at most in the live session `id`. */
  ghost predicate SameBut(a: Registry, b: Registry, id: AgentId) {
    a.dead == b.dead && forall i: AgentId :: i != id ==> SameAt(a, b, i)
  }

  /** Moreover `a` has the session whenever `b` has, and saw it last at the same time. */
  ghost predicate Ahead(a: Registry, b: Registry, id: AgentId) {
    SameBut(a, b, id) && (id in b.live ==> id in a.live && a.live[id].lastSeenAt == b.live[id].lastSeenAt)
  }

  /** The operation registers another session of the subject, whose last place `id` has in `a` but not in `b`. */
  ghost predicate MissesLastPlace(b: Registry, op: Op, id: AgentId) {
    op.UpsertLimited? &&
    var other := IdOf(op.subject, op.sessionID);
    && other.subject == id.subject && other != id && HasId(other) && Trim(op.transport) != ""
    && other !in b.dead && other !in b.live && |SessionsOf(b.live, id.subject)| + 1 == op.maxSessions
  }

  /** The operation terminates all sessions of the subject, and in `a` the session `id` with them. */
  predicate TerminatesIt(a: Registry, op: Op, id: AgentId) {
    op.TerminateAll? && Ends(a, id, op.subject, op.staleAfter, op.now) && !(id in a.dead && a.dead[id] == op.now)
  }

  /** The operation turns out differently because `id` is live in `a` and not in `b`. */
  ghost predicate Disturbs(a: Registry, b: Registry, op: Op, id: AgentId) {
    id in a.live && id !in b.live && (MissesLastPlace(b, op, id) || TerminatesIt(a, op, id))
  }

  lemma CountsDiffer(a: Registry, b: Registry, id: AgentId, subject: string)
    requires Ahead(a, b, id)
    ensures |SessionsOf(a.live, subject)| == |SessionsOf(b.live, subject)| + if subject == id.subject && id in a.live && id !in b.live then 1 else 0
  {
    var x, y := SessionsOf(a.live, subject), SessionsOf(b.live, subject);
    forall i: AgentId | i != id
      ensures i in x <==> i in y
    {
      assert SameAt(a, b, i);
    }
    if subject == id.subject && id in a.live && id !in b.live {
      assert x == y + {id};
    } else {
      assert x == y;
    }
  }

  lemma RefusalDiffers(a: Registry, b: Registry, op: Op, id: AgentId)
    requires Ahead(a, b, id) && (op.Upsert? || op.UpsertLimited?) && IdOf(op.subject, op.sessionID) != id
    ensures Refusal(a, op) != Refusal(b, op) <==> Disturbs(a, b, op, id)
    ensures Disturbs(a, b, op, id) ==> Refusal(a, op) == Some(LimitReached) && Refusal(b, op).None?
  {
    assert SameAt(a, b, IdOf(op.subject, op.sessionID));
    CountsDiffer(a, b, id, IdOf(op.subject, op.sessionID).subject);
  }

  lemma OwnUpsert(a: Registry, b: Registry, op: Op, id: AgentId)
    requires Ahead(a, b, id) && (op.Upsert? || op.UpsertLimited?) && IdOf(op.subject, op.sessionID) == id
    ensures Refusal(b, op).None? ==> Refusal(a, op).None?
  {
    CountsDiffer(a, b, id, id.subject);
  }

  /** What an undisturbed operation does to another session. */
  lemma StepKeepsSameAt(a: Registry, b: Registry, op: Op, id: AgentId, i: AgentId)
    requires Ahead(a, b, id) && !Disturbs(a, b, op, id) && i != id
    ensures SameAt(Apply(a, op), Apply(b, op), i)
  {
    assert SameAt(a, b, i);
    if op.Upsert? || op.UpsertLimited? {
      if IdOf(op.subject, op.sessionID) != id {
        assert SameAt(a, b, IdOf(op.subject, op.sessionID));
        RefusalDiffers(a, b, op, id);
      }
    } else if !op.Cleanup? && !op.TerminateAll? {
      assert SameAt(a, b, IdOf(op.subject, op.sessionID)) || IdOf(op.subject, op.sessionID) == id;
    }
  }

  lemma TerminatesBoth(a: Registry, b: Registry, op: Op, id: AgentId, i: AgentId)
    requires Ahead(a, b, id) && !Disturbs(a, b, op, id) && op.TerminateAll?
    ensures Ends(a, i, op.subject, op.staleAfter, op.now) == Ends(b, i, op.subject, op.staleAfter, op.now)
         || (i in a.dead && a.dead[i] == op.now)
  {
    if i != id {
      assert SameAt(a, b, i);
    }
  }

  lemma StepKeepsDead(a: Registry, b: Registry, op: Op, id: AgentId)
    requires Ahead(a, b, id) && !Disturbs(a, b, op, id)
    ensures Apply(a, op).dead == Apply(b, op).dead
  {
    if op.TerminateAll? {
      var x, y := Apply(a, op).dead, Apply(b, op).dead;
      forall i: AgentId
        ensures i in x <==> i in y
        ensures i in x ==> x[i] == y[i]
      {
        TerminatesBoth(a, b, op, id, i);
      }
    }
  }

  lemma StepKeepsIt(a: Registry, b: Registry, op: Op, id: AgentId)
    requires Ahead(a, b, id)
    ensures var x, y := Apply(a, op), Apply(b, op);
            id in y.live ==> id in x.live && x.live[id].lastSeenAt == y.live[id].lastSeenAt
  {
    if (op.Upsert? || op.UpsertLimited?) && IdOf(op.subject, op.sessionID) == id {
      OwnUpsert(a, b, op, id);
    }
  }

  lemma StepKeepsAhead(a: Registry, b: Registry, op: Op, id: AgentId)
    requires Ahead(a, b, id) && !Disturbs(a, b, op, id)
    ensures Ahead(Apply(a, op), Apply(b, op), id)
  {
    StepKeepsDead(a, b, op, id);
    StepKeepsIt(a, b, op, id);
    forall i: AgentId | i != id
      ensures SameAt(Apply(a, op), Apply(b, op), i)
    {
      StepKeepsSameAt(a, b, op, id, i);
    }
  }

  lemma DisturbedDiffers(a: Registry, b: Registry, op: Op, id: AgentId)
    requires Ahead(a, b, id) && Disturbs(a, b, op, id) && HasId(id)
    ensures !SameBut(Apply(a, op), Apply(b, op), id)
  {
    if op.UpsertLimited? {
      var other := IdOf(op.subject, op.sessionID);
      RefusalDiffers(a, b, op, id);
      assert SameAt(a, b, other);
      assert !SameAt(Apply(a, op), Apply(b, op), other);
    } else {
      assert id in Apply(a, op).dead && Apply(a, op).dead[id] == op.now;
      assert id in Apply(b, op).dead ==> id in b.dead && Apply(b, op).dead[id] == b.dead[id];
    }
  }

  ghost predicate DisturbsAt(a: Registry, b: Registry, ops: seq<Op>, id: AgentId, n: nat)
    requires n < |ops|
  {
    Disturbs(ApplyAll(a, ops[..n]), ApplyAll(b, ops[..n]), ops[n], id)
  }

  ghost predicate Undisturbed(a: Registry, b: Registry, ops: seq<Op>, id: AgentId) {
    forall n :: 0 <= n < |ops| ==> !DisturbsAt(a, b, ops, id, n)
  }

  ghost predicate SameButAfter(a: Registry, b: Registry, ops: seq<Op>, id: AgentId, n: nat)
    requires n <= |ops|
  {
    SameBut(ApplyAll(a, ops[..n]), ApplyAll(b, ops[..n]), id)
  }

  ghost predicate SameButThroughout(a: Registry, b: Registry, ops: seq<Op>, id: AgentId) {
    forall n :: 0 <= n <= |ops| ==> SameButAfter(a, b, ops, id, n)
  }

  lemma SameButPrefix(a: Registry, b: Registry, ops: seq<Op>, id: AgentId)
    requires ops != []
    ensures SameButThroughout(a, b, ops, id) <==>
              SameButThroughout(a, b, ops[..|ops| - 1], id) && SameButAfter(a, b, ops, id, |ops|)
  {
    var before := ops[..|ops| - 1];
    forall k | 0 <= k <= |before|
      ensures SameButAfter(a, b, before, id, k) <==> SameButAfter(a, b, ops, id, k)
    {
      assert before[..k] == ops[..k];
    }
  }

  lemma UndisturbedPrefix(a: Registry, b: Registry, ops: seq<Op>, id: AgentId)
    requires ops != []
    ensures Undisturbed(a, b, ops, id) <==>
              Undisturbed(a, b, ops[..|ops| - 1], id) && !DisturbsAt(a, b, ops, id, |ops| - 1)
  {
    var before := ops[..|ops| - 1];
    forall k | 0 <= k < |before|
      ensures DisturbsAt(a, b, before, id, k) <==> DisturbsAt(a, b, ops, id, k)
    {
      assert before[..k] == ops[..k];
    }
  }

  lemma {:induction false} RunKeepsAhead(a: Registry, b: Registry, ops: seq<Op>, id: AgentId)
    requires Ahead(a, b, id) && HasId(id)
    ensures SameButThroughout(a, b, ops, id) <==> Undisturbed(a, b, ops, id)
    ensures Undisturbed(a, b, ops, id) ==> Ahead(ApplyAll(a, ops), ApplyAll(b, ops), id)
  {
    if ops == [] {
      assert SameButAfter(a, b, ops, id, 0);
    } else {
      var n := |ops| - 1;
      var x, y := ApplyAll(a, ops[..n]), ApplyAll(b, ops[..n]);
      RunKeepsAhead(a, b, ops[..n], id);
      SameButPrefix(a, b, ops, id);
      UndisturbedPrefix(a, b, ops, id);
      assert ops[..n + 1] == ops;
      if Undisturbed(a, b, ops[..n], id) {
        if Disturbs(x, y, ops[n], id) {
          DisturbedDiffers(x, y, ops[n], id);
        } else {
          StepKeepsAhead(x, y, ops[n], id);
        }
      }
    }
  }

  lemma RemoveTheDifference(a: Registry, b: Registry, subject: string, sessionID: string)
    requires var id := IdOf(subject, sessionID); HasId(id) && SameBut(a, b, id)
    ensures Apply(a, Op.Remove(subject, sessionID)) == b <==> IdOf(subject, sessionID) !in b.live
  {
    var id := IdOf(subject, sessionID);
    if id !in b.live {
      forall i: AgentId
        ensures i in a.live - {id} <==> i in b.live
        ensures i in b.live ==> a.live[i] == b.live[i]
      {
        assert i != id ==> SameAt(a, b, i);
      }
      assert a.live - {id} == b.live;
    }
  }

  lemma RegisteredIsAhead(r: Registry, subject: string, sessionID: string, agentLabel: string, maxSessions: int, now: int)
    requires IdOf(subject, sessionID) !in r.live
    ensures Ahead(Apply(r, Registration(subject, sessionID, agentLabel, maxSessions, now)), r, IdOf(subject, sessionID))
  {
    TrimIsTrimmed(sessionID);
  }

  /** A registration that is taken back, whatever requests of whatever subjects
      came in between.  Throughout them the registry differs from what they alone
      would have made of it in at most the session itself, if and only if no other
      session of the subject missed its last place and no terminate-all caught the
      session.  The removal then restores what they alone would have left, if and
      only if the session would not be among it. */
  lemma FailedConnectRollsBack(r: Registry, subject: string, sessionID: string, agentLabel: string, maxSessions: int, now: int, between: seq<Op>)
    requires HasId(IdOf(subject, sessionID)) && IdOf(subject, sessionID) !in r.live
    ensures var id, registered := IdOf(subject, sessionID), Apply(r, Registration(subject, sessionID, agentLabel, maxSessions, now));
            && (SameButThroughout(registered, r, between, id) <==> Undisturbed(registered, r, between, id))
            && (Undisturbed(registered, r, between, id) ==>
                  (Apply(ApplyAll(registered, between), Op.Remove(subject, sessionID)) == ApplyAll(r, between)
                   <==> id !in ApplyAll(r, between).live))
  {
    var id, registered := IdOf(subject, sessionID), Apply(r, Registration(subject, sessionID, agentLabel, maxSessions, now));
    RegisteredIsAhead(r, subject, sessionID, agentLabel, maxSessions, now);
    RunKeepsAhead(registered, r, between, id);
    if Undisturbed(registered, r, between, id) {
      RemoveTheDifference(ApplyAll(registered, between), ApplyAll(r, between), subject, sessionID);
    }
  }

  /** The operation is about another subject, about all of them, or about this very session. */
  predicate ElsewhereOrOwn(op: Op, id: AgentId) {
    op.Cleanup? || Trim(op.subject) != id.subject || (!op.TerminateAll? && IdOf(op.subject, op.sessionID) == id)
  }

  /** Requests of other subjects, clean-ups and requests of the same session never
      disturb it: the registration leaves no trace exactly when the session would
      not be live without it. */
  lemma FailedConnectLeavesNoTrace(r: Registry, subject: string, sessionID: string, agentLabel: string, maxSessions: int, now: int, between: seq<Op>)
    requires HasId(IdOf(subject, sessionID)) && IdOf(subject, sessionID) !in r.live
    requires forall n :: 0 <= n < |between| ==> ElsewhereOrOwn(between[n], IdOf(subject, sessionID))
    ensures var registered := Apply(r, Registration(subject, sessionID, agentLabel, maxSessions, now));
            Apply(ApplyAll(registered, between), Op.Remove(subject, sessionID)) == ApplyAll(r, between)
            <==> IdOf(subject, sessionID) !in ApplyAll(r, between).live
  {
    FailedConnectRollsBack(r, subject, sessionID, agentLabel, maxSessions, now, between);
  }

  /** In every registry, a second connect of the same session that would have been
      accepted is accepted in between, and loses its session to the removal. */
  lemma FailedConnectTakesAnotherDown(r: Registry, subject: string, sessionID: string, agentLabel: string, maxSessions: int, now: int, second: Op)
    requires HasId(IdOf(subject, sessionID)) && IdOf(subject, sessionID) !in r.live
    requires second.UpsertLimited? && IdOf(second.subject, second.sessionID) == IdOf(subject, sessionID) && Refusal(r, second).None?
    ensures var id, registered := IdOf(subject, sessionID), Apply(r, Registration(subject, sessionID, agentLabel, maxSessions, now));
            && Refusal(registered, second).None? && id in Apply(registered, second).live && id in Apply(r, second).live
            && id !in Apply(Apply(registered, second), Op.Remove(subject, sessionID)).live
  {
    var id, registered := IdOf(subject, sessionID), Apply(r, Registration(subject, sessionID, agentLabel, maxSessions, now));
    RegisteredIsAhead(r, subject, sessionID, agentLabel, maxSessions, now);
    OwnUpsert(registered, r, second, id);
  }

  /** While it lasts, an accepted registration makes the connect of another
      session answer that the limit is reached exactly when it took the last place. */
  lemma RegistrationTakesLastPlace(r: Registry, subject: string, sessionID: string, agentLabel: string, maxSessions: int, now: int, other: Op)
    requires var id := IdOf(subject, sessionID); id !in r.live && Refusal(r, Registration(subject, sessionID, agentLabel, maxSessions, now)).None?
    requires other.UpsertLimited? && IdOf(other.subject, other.sessionID) != IdOf(subject, sessionID) && Refusal(r, other).None?
    ensures var registered := Apply(r, Registration(subject, sessionID, agentLabel, maxSessions, now));
            && (Refusal(registered, other).None? || Refusal(registered, other) == Some(LimitReached))
            && (Refusal(registered, other) == Some(LimitReached) <==>
                  && Trim(other.subject) == Trim(subject) && IdOf(other.subject, other.sessionID) !in r.live
                  && |SessionsOf(r.live, Trim(subject))| + 1 == other.maxSessions)
  {
    var id, registered := IdOf(subject, sessionID), Apply(r, Registration(subject, sessionID, agentLabel, maxSessions, now));
    TrimIsTrimmed(sessionID);
    RegisteredIsAhead(r, subject, sessionID, agentLabel, maxSessions, now);
    RefusalDiffers(registered, r, other, id);
  }

  /** A terminate-all of the subject tombstones an accepted registration, which a
      removal does not undo, exactly when it does not find it stale. */
  lemma TerminateAllCatchesRegistration(r: Registry, subject: string, sessionID: string, agentLabel: string, maxSessions: int, now: int, all: Op)
    requires var id := IdOf(subject, sessionID); id !in r.live && Refusal(r, Registration(subject, sessionID, agentLabel, maxSessions, now)).None?
    requires all.TerminateAll? && Trim(all.subject) == Trim(subject)
    ensures var id, registered := IdOf(subject, sessionID), Apply(r, Registration(subject, sessionID, agentLabel, maxSessions, now));
            id in Apply(Apply(registered, all), Op.Remove(subject, sessionID)).dead
            <==> all.staleAfter <= 0 || all.now - all.staleAfter <= now
  {
    TrimIsTrimmed(sessionID);
    var id, registered := IdOf(subject, sessionID), Apply(r, Registration(subject, sessionID, agentLabel, maxSessions, now));
    assert id in registered.live && registered.live[id].lastSeenAt == now && id !in registered.dead;
    assert Apply(Apply(registered, all), Op.Remove(subject, sessionID)).dead == Apply(registered, all).dead;
  }
}
