/** What the agent registry means: one flat map of live sessions and one of
    tombstones, and what every sequence of its operations keeps
    (controlplane/agent_registry*.go). */
module RegistrySpec {
  import opened Results
  import opened Text

  /** Ten minutes, in seconds. */
  const RETENTION := 600

  datatype AgentId = AgentId(subject: string, sessionID: string)

  datatype AgentStatus = AgentStatus(subject: string, sessionID: string, agentLabel: string, transport: string, createdAt: int, lastSeenAt: int)

  datatype Registry = Registry(live: map<AgentId, AgentStatus>, dead: map<AgentId, int>)

  datatype RegistryError = InvalidRequest | LimitReached | Terminated

  /** The one transport there is. */
  const TRANSPORT := "webrtc_turn"

  /** The status that a handler answers a refused upsert with. */
  function StatusOf(e: RegistryError): nat {
    match e
    case LimitReached => 409
    case Terminated => 410
    case InvalidRequest => 400
  }

  function IdOf(subject: string, sessionID: string): AgentId {
    AgentId(Trim(subject), Trim(sessionID))
  }

  predicate HasId(id: AgentId) {
    id.subject != "" && id.sessionID != ""
  }

  predicate IsStale(lastSeenAt: int, now: int, staleAfter: int) {
    staleAfter > 0 && lastSeenAt < now - staleAfter
  }

  /** What a lookup finds: a live session that is not stale. */
  function Found(r: Registry, id: AgentId, staleAfter: int, now: int): Option<AgentStatus> {
    if HasId(id) && id in r.live && !IsStale(r.live[id].lastSeenAt, now, staleAfter) then Some(r.live[id]) else None
  }

  /** The live sessions of a subject that are not stale at `now`. */
  ghost function FreshOf(live: map<AgentId, AgentStatus>, subject: string, staleAfter: int, now: int): set<AgentId> {
    if Trim(subject) == "" then {}
    else set id | id in live && id.subject == Trim(subject) && !IsStale(live[id].lastSeenAt, now, staleAfter)
  }

  ghost function SessionsOf(live: map<AgentId, AgentStatus>, subject: string): set<AgentId> {
    set id | id in live && id.subject == subject
  }

  /** The status a session has after it is registered again, or for the first time. */
  function Refreshed(r: Registry, id: AgentId, agentLabel: string, transport: string, now: int): AgentStatus {
    AgentStatus(id.subject, id.sessionID, Trim(agentLabel), Trim(transport), if id in r.live then r.live[id].createdAt else now, now)
  }

  datatype Op =
    | Upsert(subject: string, sessionID: string, agentLabel: string, transport: string, now: int)
    | UpsertLimited(subject: string, sessionID: string, agentLabel: string, transport: string, maxSessions: int, now: int)
    | Touch(subject: string, sessionID: string, agentLabel: string, now: int)
    | Terminate(subject: string, sessionID: string, now: int)
    | Remove(subject: string, sessionID: string)
    | TerminateAll(subject: string, staleAfter: int, now: int)
    | Cleanup(staleAfter: int, now: int)

  /** Why an upsert is refused, if it is. */
  ghost function Refusal(r: Registry, op: Op): Option<RegistryError>
    requires op.Upsert? || op.UpsertLimited?
  {
    var id := IdOf(op.subject, op.sessionID);
    if !HasId(id) || Trim(op.transport) == "" then Some(InvalidRequest)
    else if op.UpsertLimited? && op.maxSessions <= 0 then Some(InvalidRequest)
    else if id in r.dead then Some(Terminated)
    else if op.UpsertLimited? && id !in r.live && |SessionsOf(r.live, id.subject)| >= op.maxSessions then Some(LimitReached)
    else None
  }

  /** Whether a terminate-all at `now` ends session `id`. */
  predicate Ends(r: Registry, id: AgentId, subject: string, staleAfter: int, now: int) {
    id in r.live && id.subject == Trim(subject) && !IsStale(r.live[id].lastSeenAt, now, staleAfter)
  }

  ghost function Apply(r: Registry, op: Op): Registry {
    match op
    case Upsert(subject, sessionID, agentLabel, transport, now) =>
      var id := IdOf(subject, sessionID);
      if Refusal(r, op).Some? then r else r.(live := r.live[id := Refreshed(r, id, agentLabel, transport, now)])
    case UpsertLimited(subject, sessionID, agentLabel, transport, _, now) =>
      var id := IdOf(subject, sessionID);
      if Refusal(r, op).Some? then r else r.(live := r.live[id := Refreshed(r, id, agentLabel, transport, now)])
    case Touch(subject, sessionID, agentLabel, now) =>
      var id := IdOf(subject, sessionID);
      if id !in r.live || !HasId(id) then r
      else r.(live := r.live[id := r.live[id].(agentLabel := if Trim(agentLabel) != "" then Trim(agentLabel) else r.live[id].agentLabel,
                                               lastSeenAt := now)])
    case Terminate(subject, sessionID, now) =>
      var id := IdOf(subject, sessionID);
      if !HasId(id) then r else Registry(r.live - {id}, r.dead[id := now])
    case Remove(subject, sessionID) =>
      var id := IdOf(subject, sessionID);
      if !HasId(id) then r else r.(live := r.live - {id})
    case TerminateAll(subject, staleAfter, now) =>
      if Trim(subject) == "" then r
      else Registry(map id | id in r.live && !Ends(r, id, subject, staleAfter, now) :: r.live[id],
                    map id | id in r.live.Keys + r.dead.Keys && (id in r.dead || Ends(r, id, subject, staleAfter, now)) ::
                      if Ends(r, id, subject, staleAfter, now) then now else r.dead[id])
    case Cleanup(staleAfter, now) =>
      Registry(map id | id in r.live && !IsStale(r.live[id].lastSeenAt, now, staleAfter) :: r.live[id],
               map id | id in r.dead && !(r.dead[id] < now - RETENTION) :: r.dead[id])
  }

  ghost function ApplyAll(r: Registry, ops: seq<Op>): Registry {
    if ops == [] then r else Apply(ApplyAll(r, ops[..|ops| - 1]), ops[|ops| - 1])
  }

  const EMPTY := Registry(map[], map[])

  // --- live or dead, never both ---

  ghost predicate Disjoint(r: Registry) {
    r.live.Keys !! r.dead.Keys
  }

  lemma ApplyKeepsDisjoint(r: Registry, op: Op)
    requires Disjoint(r)
    ensures Disjoint(Apply(r, op))
  {
  }

  /** In every run, no session is both live and tombstoned. */
  lemma {:induction false} NeverBoth(ops: seq<Op>)
    ensures Disjoint(ApplyAll(EMPTY, ops))
  {
    if ops != [] {
      NeverBoth(ops[..|ops| - 1]);
      ApplyKeepsDisjoint(ApplyAll(EMPTY, ops[..|ops| - 1]), ops[|ops| - 1]);
    }
  }

  // --- how long a termination lasts ---

  /** The one operation that ends a termination is a clean-up past its stamp by more than ten minutes. */
  lemma TerminationEndsExactly(r: Registry, op: Op, id: AgentId)
    requires Disjoint(r) && id in r.dead
    ensures id !in Apply(r, op).dead <==> op.Cleanup? && op.now > r.dead[id] + 600
  {
  }

  /** Only a terminate of this very session stamps it anew. */
  predicate Stamps(op: Op, id: AgentId) {
    op.Terminate? && IdOf(op.subject, op.sessionID) == id
  }

  /** The latest stamp of a session that was stamped `t` before the operations. */
  function Stamp(ops: seq<Op>, id: AgentId, t: int): int {
    if ops == [] then t
    else if Stamps(ops[|ops| - 1], id) then ops[|ops| - 1].now
    else Stamp(ops[..|ops| - 1], id, t)
  }

  predicate CleansInTime(ops: seq<Op>, id: AgentId, t: int, n: nat)
    requires n < |ops|
  {
    ops[n].Cleanup? ==> ops[n].now <= Stamp(ops[..n], id, t) + RETENTION
  }

  /** No clean-up is more than ten minutes past the latest stamp before it. */
  ghost predicate NoneCleansIt(ops: seq<Op>, id: AgentId, t: int) {
    forall n :: 0 <= n < |ops| ==> CleansInTime(ops, id, t, n)
  }

  ghost predicate TerminatedAfter(r: Registry, ops: seq<Op>, id: AgentId, n: nat)
    requires n <= |ops|
  {
    id in ApplyAll(r, ops[..n]).dead
  }

  /** The session is tombstoned after each of the operations. */
  ghost predicate StaysTerminated(r: Registry, ops: seq<Op>, id: AgentId) {
    forall n :: 0 <= n <= |ops| ==> TerminatedAfter(r, ops, id, n)
  }

  lemma StampAfter(r: Registry, op: Op, id: AgentId)
    requires Disjoint(r) && id in r.dead && HasId(id)
    ensures Disjoint(Apply(r, op))
    ensures id in Apply(r, op).dead ==> Apply(r, op).dead[id] == if Stamps(op, id) then op.now else r.dead[id]
  {
  }

  lemma NoneCleansPrefix(ops: seq<Op>, id: AgentId, t: int)
    requires ops != []
    ensures NoneCleansIt(ops, id, t) <==> NoneCleansIt(ops[..|ops| - 1], id, t) && CleansInTime(ops, id, t, |ops| - 1)
  {
    var before := ops[..|ops| - 1];
    forall n | 0 <= n < |before|
      ensures CleansInTime(before, id, t, n) <==> CleansInTime(ops, id, t, n)
    {
      assert before[..n] == ops[..n];
    }
  }

  lemma StaysPrefix(r: Registry, ops: seq<Op>, id: AgentId)
    requires ops != []
    ensures StaysTerminated(r, ops, id) <==> StaysTerminated(r, ops[..|ops| - 1], id) && TerminatedAfter(r, ops, id, |ops|)
    ensures TerminatedAfter(r, ops, id, |ops|) <==> id in ApplyAll(r, ops).dead
  {
    var before := ops[..|ops| - 1];
    assert ops[..|ops|] == ops;
    forall n | 0 <= n <= |before|
      ensures TerminatedAfter(r, before, id, n) <==> TerminatedAfter(r, ops, id, n)
    {
      assert before[..n] == ops[..n];
    }
  }

  /** The exact condition.  A session tombstoned at `t` stays tombstoned
      throughout if and only if every clean-up's clock is at most ten minutes past
      the latest stamp before it; meanwhile it carries that stamp. */
  lemma {:induction false} StaysTerminatedIff(r: Registry, ops: seq<Op>, id: AgentId, t: int)
    requires Disjoint(r) && id in r.dead && r.dead[id] == t && HasId(id)
    ensures Disjoint(ApplyAll(r, ops))
    ensures StaysTerminated(r, ops, id) <==> NoneCleansIt(ops, id, t)
    ensures StaysTerminated(r, ops, id) ==> id in ApplyAll(r, ops).dead && ApplyAll(r, ops).dead[id] == Stamp(ops, id, t)
  {
    if ops != [] {
      var before, op := ops[..|ops| - 1], ops[|ops| - 1];
      StaysTerminatedIff(r, before, id, t);
      NoneCleansPrefix(ops, id, t);
      StaysPrefix(r, ops, id);
      ApplyKeepsDisjoint(ApplyAll(r, before), op);
      if StaysTerminated(r, before, id) {
        TerminationEndsExactly(ApplyAll(r, before), op, id);
        StampAfter(ApplyAll(r, before), op, id);
      }
    }
  }

  /** As long as no clean-up is more than ten minutes past the latest stamp, the
      session is not live, no upsert of it is accepted, and no touch or lookup
      finds it. */
  lemma TerminationLasts(r: Registry, ops: seq<Op>, id: AgentId, t: int)
    requires Disjoint(r) && id in r.dead && r.dead[id] == t && HasId(id) && NoneCleansIt(ops, id, t)
    ensures var n := ApplyAll(r, ops);
            && id in n.dead && n.dead[id] == Stamp(ops, id, t) && id !in n.live && Disjoint(n)
            && (forall op: Op :: (op.Upsert? || op.UpsertLimited?) && IdOf(op.subject, op.sessionID) == id ==>
                                   Refusal(n, op) == Some(Terminated) || Refusal(n, op) == Some(InvalidRequest))
  {
    StaysTerminatedIff(r, ops, id, t);
  }

  /** A clock that was read earlier moves the stamp back: after it, a clean-up
      removes the tombstone exactly when it is ten minutes past the second stamp,
      however recent the first one is. */
  lemma LateTerminateShortensRetention(r: Registry, id: AgentId, first: int, second: int, cleanup: int, staleAfter: int)
    requires Disjoint(r) && HasId(id) && IdOf(id.subject, id.sessionID) == id
    ensures var terminated := Apply(Apply(r, Terminate(id.subject, id.sessionID, first)), Terminate(id.subject, id.sessionID, second));
            && id in terminated.dead && terminated.dead[id] == second
            && (id !in Apply(terminated, Cleanup(staleAfter, cleanup)).dead <==> cleanup > second + RETENTION)
  {
    var once := Apply(r, Terminate(id.subject, id.sessionID, first));
    ApplyKeepsDisjoint(r, Terminate(id.subject, id.sessionID, first));
    StampAfter(once, Terminate(id.subject, id.sessionID, second), id);
    TerminationEndsExactly(Apply(once, Terminate(id.subject, id.sessionID, second)), Cleanup(staleAfter, cleanup), id);
  }

  // --- the session limit ---

  /** The server only upserts with the limit of the subject's entitlement. */
  predicate ServerUse(op: Op, limits: map<string, int>) {
    && !op.Upsert?
    && (op.UpsertLimited? ==> Trim(op.subject) in limits && limits[Trim(op.subject)] == op.maxSessions)
  }

  ghost predicate WithinLimits(live: map<AgentId, AgentStatus>, limits: map<string, int>) {
    forall subject: string :: |SessionsOf(live, subject)| > 0 ==> subject in limits && |SessionsOf(live, subject)| <= limits[subject]
  }

  lemma SubsetIsSmaller<T>(a: set<T>, b: set<T>)
    requires a <= b
    ensures |a| <= |b|
  {
    assert b == a + (b - a);
  }

  lemma FewerLiveStaysWithin(before: map<AgentId, AgentStatus>, after: map<AgentId, AgentStatus>, limits: map<string, int>)
    requires WithinLimits(before, limits) && after.Keys <= before.Keys
    ensures WithinLimits(after, limits)
  {
    forall subject: string
      ensures |SessionsOf(after, subject)| <= |SessionsOf(before, subject)|
    {
      SubsetIsSmaller(SessionsOf(after, subject), SessionsOf(before, subject));
    }
  }

  lemma SessionsAfterSet(live: map<AgentId, AgentStatus>, id: AgentId, status: AgentStatus, subject: string)
    ensures SessionsOf(live[id := status], subject) == SessionsOf(live, subject) + (if subject == id.subject then {id} else {})
  {
  }

  lemma SetStaysWithin(live: map<AgentId, AgentStatus>, id: AgentId, status: AgentStatus, limits: map<string, int>)
    requires WithinLimits(live, limits)
    requires id in live || (id.subject in limits && |SessionsOf(live, id.subject)| < limits[id.subject])
    ensures WithinLimits(live[id := status], limits)
  {
    var after := live[id := status];
    forall subject: string | |SessionsOf(after, subject)| > 0
      ensures subject in limits && |SessionsOf(after, subject)| <= limits[subject]
    {
      SessionsAfterSet(live, id, status, subject);
      if subject == id.subject {
        assert id in live ==> SessionsOf(live, subject) + {id} == SessionsOf(live, subject);
        assert id in live ==> |SessionsOf(live, subject)| > 0;
      } else {
        assert SessionsOf(after, subject) == SessionsOf(live, subject);
      }
    }
  }

  lemma UpsertStaysWithin(r: Registry, op: Op, limits: map<string, int>)
    requires op.UpsertLimited? && ServerUse(op, limits) && WithinLimits(r.live, limits)
    ensures WithinLimits(Apply(r, op).live, limits)
  {
    if Refusal(r, op).None? {
      var id := IdOf(op.subject, op.sessionID);
      SetStaysWithin(r.live, id, Refreshed(r, id, op.agentLabel, op.transport, op.now), limits);
    }
  }

  lemma ApplyStaysWithin(r: Registry, op: Op, limits: map<string, int>)
    requires ServerUse(op, limits) && WithinLimits(r.live, limits)
    ensures WithinLimits(Apply(r, op).live, limits)
  {
    if op.UpsertLimited? {
      UpsertStaysWithin(r, op, limits);
    } else {
      FewerLiveStaysWithin(r.live, Apply(r, op).live, limits);
    }
  }

  /** As the server uses it, the registry never holds more live sessions of a subject than its maximum. */
  lemma {:induction false} SessionsStayWithinLimits(ops: seq<Op>, limits: map<string, int>)
    requires forall i :: 0 <= i < |ops| ==> ServerUse(ops[i], limits)
    ensures WithinLimits(ApplyAll(EMPTY, ops).live, limits)
  {
    if ops == [] {
      forall subject: string
        ensures SessionsOf(map[], subject) == {}
      {
      }
    } else {
      SessionsStayWithinLimits(ops[..|ops| - 1], limits);
      ApplyStaysWithin(ApplyAll(EMPTY, ops[..|ops| - 1]), ops[|ops| - 1], limits);
    }
  }
}
