/** What a run of the registry says about one session: when it was last seen, what
    it shows, and whether it is live, all read off the history
    (controlplane/agent_registry*.go). */
module RegistryRuns {
  import opened Results
  import opened Text
  import opened RegistrySpec

  // --- when an upsert is accepted ---

  predicate IsUpsertOf(op: Op, id: AgentId) {
    (op.Upsert? || op.UpsertLimited?) && IdOf(op.subject, op.sessionID) == id
  }

  /** The upsert of `id` is complete, the session is not tombstoned, and there is room for it. */
  ghost predicate Accepts(r: Registry, op: Op, id: AgentId) {
    && IsUpsertOf(op, id) && id.subject != "" && id.sessionID != "" && Trim(op.transport) != "" && id !in r.dead
    && (op.UpsertLimited? ==> op.maxSessions > 0 && (id in r.live || |SessionsOf(r.live, id.subject)| < op.maxSessions))
  }

  /** An upsert is accepted exactly then, and the session is live afterwards. */
  lemma UpsertIsAcceptedIff(r: Registry, op: Op, id: AgentId)
    requires IsUpsertOf(op, id)
    ensures Refusal(r, op).None? <==> Accepts(r, op, id)
    ensures Accepts(r, op, id) ==> id in Apply(r, op).live
    ensures !Accepts(r, op, id) ==> Apply(r, op) == r
  {
  }

  /** Why an upsert is refused: a tombstone counts only for a complete request, the
      limit only for a session that is neither tombstoned nor live. */
  lemma UpsertIsRefusedAs(r: Registry, op: Op, id: AgentId)
    requires IsUpsertOf(op, id)
    ensures var complete := id.subject != "" && id.sessionID != "" && Trim(op.transport) != "" && (op.UpsertLimited? ==> op.maxSessions > 0);
            && (Refusal(r, op) == Some(InvalidRequest) <==> !complete)
            && (Refusal(r, op) == Some(Terminated) <==> complete && id in r.dead)
            && (Refusal(r, op) == Some(LimitReached) <==>
                  && complete && id !in r.dead && id !in r.live
                  && op.UpsertLimited? && |SessionsOf(r.live, id.subject)| >= op.maxSessions)
  {
  }

  /** An operation on a session without a subject or session ID changes nothing. */
  lemma BlankIdDoesNothing(r: Registry, op: Op)
    requires !op.Cleanup?
    requires Trim(op.subject) == "" || (!op.TerminateAll? && Trim(op.sessionID) == "")
    ensures Apply(r, op) == r
  {
  }

  // --- a heartbeat keeps a session alive ---

  /** After a heartbeat at `now` that found the session, a clean-up leaves it, and a
      lookup finds it, exactly as long as less than `staleAfter` went by, or ever
      if nothing is ever stale. */
  lemma HeartbeatKeepsAlive(r: Registry, subject: string, sessionID: string, agentLabel: string, now: int, staleAfter: int, later: int)
    requires var id := IdOf(subject, sessionID); id.subject != "" && id.sessionID != "" && id in r.live
    ensures var id, touched := IdOf(subject, sessionID), Apply(r, Touch(subject, sessionID, agentLabel, now));
            && id in touched.live
            && (id in Apply(touched, Cleanup(staleAfter, later)).live <==> staleAfter <= 0 || later - staleAfter <= now)
            && (Found(touched, id, staleAfter, later).Some? <==> staleAfter <= 0 || later - staleAfter <= now)
            && (id in FreshOf(touched.live, subject, staleAfter, later) <==> staleAfter <= 0 || later - staleAfter <= now)
  {
    TrimIsTrimmed(subject);
  }

  // --- what a live session shows ---

  /** A sign of life: an upsert that is accepted, or a heartbeat that finds the session. */
  ghost predicate Shows(r: Registry, op: Op, id: AgentId) {
    Accepts(r, op, id) || (op.Touch? && IdOf(op.subject, op.sessionID) == id && id in r.live)
  }

  /** An accepted upsert, or a heartbeat that finds the session and carries a label. */
  ghost predicate Labels(r: Registry, op: Op, id: AgentId) {
    Shows(r, op, id) && (op.Touch? ==> Trim(op.agentLabel) != "")
  }

  /** The upsert makes the session live. */
  ghost predicate Creates(r: Registry, op: Op, id: AgentId) {
    Accepts(r, op, id) && id !in r.live
  }

  datatype Kind = Showing | Labelling | Creating | Accepting

  ghost predicate IsKind(kind: Kind, r: Registry, op: Op, id: AgentId) {
    match kind
    case Showing => Shows(r, op, id)
    case Labelling => Labels(r, op, id)
    case Creating => Creates(r, op, id)
    case Accepting => Accepts(r, op, id)
  }

  /** The registry when operation `n` of the run begins. */
  ghost function StateAt(ops: seq<Op>, n: nat): Registry
    requires n <= |ops|
  {
    ApplyAll(EMPTY, ops[..n])
  }

  lemma NextState(ops: seq<Op>, n: nat)
    requires n < |ops|
    ensures StateAt(ops, n + 1) == Apply(StateAt(ops, n), ops[n])
  {
    assert ops[..n + 1][..n] == ops[..n];
  }

  /** Which operations of the run are of the kind. */
  ghost function KindAt(kind: Kind, ops: seq<Op>, id: AgentId): nat -> bool {
    (k: nat) => k < |ops| && IsKind(kind, StateAt(ops, k), ops[k], id)
  }

  /** Of the first `n`, `k` is the last one marked. */
  ghost predicate IsLast(n: nat, marked: nat -> bool, k: nat) {
    k < n && marked(k) && forall j: nat :: k < j < n ==> !marked(j)
  }

  lemma LastOneMore(n: nat, marked: nat -> bool, k: nat) returns (last: nat)
    requires marked(n) || IsLast(n, marked, k)
    ensures IsLast(n + 1, marked, last)
    ensures last == if marked(n) then n else k
  {
    last := if marked(n) then n else k;
  }

  datatype Field = Time(time: int) | Name(name: string)

  /** The part of a status that operations of the kind set. */
  function FieldOf(kind: Kind, status: AgentStatus): Field {
    match kind
    case Showing => Time(status.lastSeenAt)
    case Labelling => Name(status.agentLabel)
    case Creating => Time(status.createdAt)
    case Accepting => Name(status.transport)
  }

  /** What such an operation sets it to. */
  function FieldIn(kind: Kind, op: Op): Field
    requires op.Upsert? || op.UpsertLimited? || op.Touch?
    requires op.Touch? ==> kind.Showing? || kind.Labelling?
  {
    match kind
    case Showing => Time(op.now)
    case Labelling => Name(Trim(op.agentLabel))
    case Creating => Time(op.now)
    case Accepting => Name(Trim(op.transport))
  }

  /** What one operation makes of the status of a session that is live after it. */
  lemma FieldAfter(kind: Kind, r: Registry, op: Op, id: AgentId)
    requires id in Apply(r, op).live && HasId(id)
    ensures !IsKind(kind, r, op, id) ==> id in r.live
    ensures FieldOf(kind, Apply(r, op).live[id]) == if IsKind(kind, r, op, id) then FieldIn(kind, op) else FieldOf(kind, r.live[id])
  {
    if op.Upsert? || op.UpsertLimited? {
      FieldAfterUpsert(kind, r, op, id);
    } else if op.Touch? {
      FieldAfterTouch(kind, r, op, id);
    } else {
      FieldAfterOther(r, op, id);
    }
  }

  lemma FieldAfterUpsert(kind: Kind, r: Registry, op: Op, id: AgentId)
    requires (op.Upsert? || op.UpsertLimited?) && id in Apply(r, op).live && HasId(id)
    ensures !IsKind(kind, r, op, id) ==> id in r.live
    ensures FieldOf(kind, Apply(r, op).live[id]) == if IsKind(kind, r, op, id) then FieldIn(kind, op) else FieldOf(kind, r.live[id])
  {
  }

  lemma FieldAfterTouch(kind: Kind, r: Registry, op: Op, id: AgentId)
    requires op.Touch? && id in Apply(r, op).live && HasId(id)
    ensures id in r.live
    ensures FieldOf(kind, Apply(r, op).live[id]) == if IsKind(kind, r, op, id) then FieldIn(kind, op) else FieldOf(kind, r.live[id])
  {
  }

  /** The other operations leave a status as it is, or take it away. */
  lemma FieldAfterOther(r: Registry, op: Op, id: AgentId)
    requires !op.Upsert? && !op.UpsertLimited? && !op.Touch? && id in Apply(r, op).live
    ensures id in r.live && Apply(r, op).live[id] == r.live[id]
  {
  }

  lemma NewHasId(r: Registry, op: Op, id: AgentId)
    requires id in Apply(r, op).live && id !in r.live
    ensures HasId(id)
  {
  }

  lemma {:induction false} LiveHasId(ops: seq<Op>, n: nat, id: AgentId)
    requires n <= |ops| && id in StateAt(ops, n).live
    ensures HasId(id) && n > 0
  {
    if n > 0 {
      NextState(ops, n - 1);
      if id in StateAt(ops, n - 1).live {
        LiveHasId(ops, n - 1, id);
      } else {
        NewHasId(StateAt(ops, n - 1), ops[n - 1], id);
      }
    }
  }

  lemma {:induction false} FieldUpTo(kind: Kind, ops: seq<Op>, n: nat, id: AgentId) returns (k: nat)
    requires n <= |ops| && id in StateAt(ops, n).live
    ensures IsLast(n, KindAt(kind, ops, id), k)
    ensures FieldOf(kind, StateAt(ops, n).live[id]) == FieldIn(kind, ops[k])
    decreases n
  {
    LiveHasId(ops, n, id);
    NextState(ops, n - 1);
    FieldAfter(kind, StateAt(ops, n - 1), ops[n - 1], id);
    k := 0;
    if !IsKind(kind, StateAt(ops, n - 1), ops[n - 1], id) {
      k := FieldUpTo(kind, ops, n - 1, id);
    }
    k := LastOneMore(n - 1, KindAt(kind, ops, id), k);
  }

  /** In every run, a live session was last seen at the last upsert of it that was
      accepted or heartbeat that found it. */
  lemma LastSignDates(ops: seq<Op>, id: AgentId) returns (k: nat)
    requires id in ApplyAll(EMPTY, ops).live
    ensures IsLast(|ops|, KindAt(Showing, ops, id), k) && ApplyAll(EMPTY, ops).live[id].lastSeenAt == ops[k].now
  {
    assert ops[..|ops|] == ops;
    k := FieldUpTo(Showing, ops, |ops|, id);
  }

  /** Its label is that of the last of them that is an upsert or carries a label. */
  lemma LastLabelNames(ops: seq<Op>, id: AgentId) returns (k: nat)
    requires id in ApplyAll(EMPTY, ops).live
    ensures IsLast(|ops|, KindAt(Labelling, ops, id), k) && ApplyAll(EMPTY, ops).live[id].agentLabel == Trim(ops[k].agentLabel)
  {
    assert ops[..|ops|] == ops;
    k := FieldUpTo(Labelling, ops, |ops|, id);
  }

  /** Its creation time is that of the upsert that made it live, however often it was registered again. */
  lemma CreationIsKept(ops: seq<Op>, id: AgentId) returns (k: nat)
    requires id in ApplyAll(EMPTY, ops).live
    ensures IsLast(|ops|, KindAt(Creating, ops, id), k) && ApplyAll(EMPTY, ops).live[id].createdAt == ops[k].now
  {
    assert ops[..|ops|] == ops;
    k := FieldUpTo(Creating, ops, |ops|, id);
  }

  /** Its transport is that of the last accepted upsert. */
  lemma LastUpsertGivesTransport(ops: seq<Op>, id: AgentId) returns (k: nat)
    requires id in ApplyAll(EMPTY, ops).live
    ensures IsLast(|ops|, KindAt(Accepting, ops, id), k) && ApplyAll(EMPTY, ops).live[id].transport == Trim(ops[k].transport)
  {
    assert ops[..|ops|] == ops;
    k := FieldUpTo(Accepting, ops, |ops|, id);
  }

  // --- when a session is live ---

  /** The operation takes away a session that was last seen at `seen`: it is ended by
      name, or with its subject unless it is stale, or cleaned up because it is stale. */
  predicate Drops(op: Op, id: AgentId, seen: int) {
    match op
    case Terminate(subject, sessionID, _) => IdOf(subject, sessionID) == id
    case Remove(subject, sessionID) => IdOf(subject, sessionID) == id
    case TerminateAll(subject, staleAfter, now) => Trim(subject) == id.subject && (staleAfter <= 0 || now - staleAfter <= seen)
    case Cleanup(staleAfter, now) => staleAfter > 0 && seen < now - staleAfter
    case _ => false
  }

  /** When the session was last seen before operation `n`. */
  ghost function LastSeen(ops: seq<Op>, n: nat, id: AgentId): int
    requires n <= |ops|
  {
    if n == 0 then 0
    else if Shows(StateAt(ops, n - 1), ops[n - 1], id) then ops[n - 1].now
    else LastSeen(ops, n - 1, id)
  }

  /** Which operations of the run take the session away, or would. */
  ghost function DroppedAt(ops: seq<Op>, id: AgentId): nat -> bool {
    (k: nat) => k < |ops| && Drops(ops[k], id, LastSeen(ops, k, id))
  }

  /** Of the first `n`, `u` began something that none since ended. */
  ghost predicate KeptSince(n: nat, begins: nat -> bool, ends: nat -> bool, u: nat) {
    u < n && begins(u) && forall k: nat :: u < k < n ==> !ends(k)
  }

  lemma KeptOneMore(n: nat, m: nat, begins: nat -> bool, ends: nat -> bool)
    requires m == n + 1
    ensures (exists u: nat :: KeptSince(m, begins, ends, u)) <==> begins(n) || ((exists u: nat :: KeptSince(n, begins, ends, u)) && !ends(n))
  {
    if u: nat :| KeptSince(n, begins, ends, u) {
      assert !ends(n) ==> KeptSince(m, begins, ends, u);
    }
    if begins(n) {
      assert KeptSince(m, begins, ends, n);
    }
    if u: nat :| KeptSince(m, begins, ends, u) && u < n {
      assert KeptSince(n, begins, ends, u);
    }
  }

  lemma LiveAfter(r: Registry, op: Op, id: AgentId)
    requires HasId(id)
    ensures id in Apply(r, op).live <==> Accepts(r, op, id) || (id in r.live && !Drops(op, id, r.live[id].lastSeenAt))
  {
  }

  lemma {:induction false} LiveUpTo(ops: seq<Op>, n: nat, id: AgentId)
    requires n <= |ops| && HasId(id)
    ensures id in StateAt(ops, n).live <==> exists u: nat :: KeptSince(n, KindAt(Accepting, ops, id), DroppedAt(ops, id), u)
    ensures id in StateAt(ops, n).live ==> StateAt(ops, n).live[id].lastSeenAt == LastSeen(ops, n, id)
  {
    if n > 0 {
      LiveUpTo(ops, n - 1, id);
      NextState(ops, n - 1);
      LiveAfter(StateAt(ops, n - 1), ops[n - 1], id);
      KeptOneMore(n - 1, n, KindAt(Accepting, ops, id), DroppedAt(ops, id));
      if id in StateAt(ops, n).live {
        FieldAfter(Showing, StateAt(ops, n - 1), ops[n - 1], id);
      }
    }
  }

  /** In every run, a session is live exactly when some upsert of it was accepted
      and no operation since took it away, judged by when it was last seen. */
  lemma LiveIffAcceptedAndKept(ops: seq<Op>, id: AgentId)
    requires HasId(id)
    ensures id in ApplyAll(EMPTY, ops).live <==> exists u: nat :: KeptSince(|ops|, KindAt(Accepting, ops, id), DroppedAt(ops, id), u)
    ensures id in ApplyAll(EMPTY, ops).live ==> ApplyAll(EMPTY, ops).live[id].lastSeenAt == LastSeen(ops, |ops|, id)
  {
    LiveUpTo(ops, |ops|, id);
    assert ops[..|ops|] == ops;
  }
}
