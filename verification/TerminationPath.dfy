/** How a termination reaches the agent: the client's recovery run against the
    registry behind the server's heartbeat and register handlers
    (cmd/shellin/agent_auth_recovery.go, cmd/shellin-control-plane/agent_registry_handlers.go). */
module TerminationPath {
  import opened Lineage
  import opened Results
  import opened Text
  import Registry = RegistrySpec
  import opened Recovery = AuthRecovery
  import opened RecoveryTraces

  /** What becomes of one request.  The text of a transport error may mention a
      401, but names no other status. */
  datatype Luck = RequestLost(says401: bool) | ResponseLost(says401: bool) | Unauthorized | Served

  /** Everything the outside decides, by the number of the call.  `others` are
      the registry operations of other requests before the call, `elsewhere`
      answers the calls that are not about the registry. */
  datatype World = World(
    sessionID: string,
    agentLabel: string,
    subjectOf: Token -> string,
    maxSessions: nat -> int,
    now: nat -> int,
    luck: nat -> Luck,
    others: nat -> seq<Registry.Op>,
    elsewhere: Oracle)

  /** The registry operation that a heartbeat or register request performs. */
  function OpOf(w: World, n: nat, call: Call): Registry.Op
    requires call.Heartbeat? || call.Register?
  {
    if call.Heartbeat? then Registry.Touch(w.subjectOf(call.access), w.sessionID, w.agentLabel, w.now(n))
    else Registry.UpsertLimited(w.subjectOf(call.access), w.sessionID, w.agentLabel, Registry.TRANSPORT, w.maxSessions(n), w.now(n))
  }

  predicate Reaches(w: World, n: nat, call: Call) {
    (call.Heartbeat? || call.Register?) && (w.luck(n).ResponseLost? || w.luck(n).Served?)
  }

  /** The registry when call number |calls| arrives. */
  ghost function Seen(w: World, start: Registry.Registry, calls: seq<Event>): Registry.Registry {
    Registry.ApplyAll(After(w, start, calls), w.others(|calls|))
  }

  /** The registry after the calls made so far. */
  ghost function After(w: World, start: Registry.Registry, calls: seq<Event>): Registry.Registry
    decreases |calls|, 0
  {
    if calls == [] then start
    else
      var n := |calls| - 1;
      var r := Registry.ApplyAll(After(w, start, calls[..n]), w.others(n));
      if Reaches(w, n, calls[n].call) then Registry.Apply(r, OpOf(w, n, calls[n].call)) else r
  }

  ghost function Answer(w: World, r: Registry.Registry, n: nat, call: Call): Reply
    requires call.Heartbeat? || call.Register?
  {
    match w.luck(n)
    case RequestLost(says401) => Rejected(Plain(says401, false, false))
    case ResponseLost(says401) => Rejected(Plain(says401, false, false))
    case Unauthorized => Rejected(Status(401))
    case Served =>
      var op := OpOf(w, n, call);
      var id := Registry.IdOf(op.subject, op.sessionID);
      if call.Heartbeat? then
        if Registry.HasId(id) && id in r.live then Passed else Rejected(Status(404))
      else match Registry.Refusal(r, op)
           case None => Passed
           case Some(e) => Rejected(Status(Registry.StatusOf(e)))
  }

  /** `env` answers heartbeats and registrations as the server does in world `w`. */
  ghost predicate IsServer(env: Oracle, w: World, start: Registry.Registry) {
    && (forall h: seq<Event>, access: Token {:trigger env(h, Heartbeat(access))} ::
          env(h, Heartbeat(access)) == Answer(w, Seen(w, start, h), |h|, Heartbeat(access)))
    && (forall h: seq<Event>, access: Token {:trigger env(h, Register(access))} ::
          env(h, Register(access)) == Answer(w, Seen(w, start, h), |h|, Register(access)))
  }

  // --- the trace of a run ---

  ghost predicate Answered(env: Oracle, h: seq<Event>) {
    forall i :: 0 <= i < |h| ==> h[i].reply == env(h[..i], h[i].call)
  }

  lemma AnsweredOneMore(env: Oracle, h: seq<Event>, call: Call)
    requires Answered(env, h)
    ensures Answered(env, h + [Event(call, env(h, call))])
  {
    var h1 := h + [Event(call, env(h, call))];
    forall i | 0 <= i < |h1|
      ensures h1[i].reply == env(h1[..i], h1[i].call)
    {
      assert i < |h| ==> h1[..i] == h[..i];
      assert h1[..|h|] == h;
    }
  }

  lemma {:induction false} DriveIsAnswered(cfg: Config, auth: AuthSession, env: Oracle, h: seq<Event>, p: Point)
    requires Answered(env, h)
    ensures Answered(env, Drive(cfg, auth, env, h, p).1)
    decreases Rank(p)
  {
    if !p.Finished? {
      var (r, h1) := Ask(env, h, CallAt(p));
      AnsweredOneMore(env, h, CallAt(p));
      DriveIsAnswered(cfg, auth, env, h1, Resume(cfg, auth, p, r));
    }
  }

  predicate NotFoundAt(h: seq<Event>, i: nat)
    requires i < |h|
  {
    h[i].call.Heartbeat? && h[i].call.access != 0 && h[i].reply == Rejected(Status(404))
  }

  predicate Follows(h: seq<Event>, p: Point, i: nat)
    requires i < |h| && NotFoundAt(h, i)
  {
    if i + 1 < |h| then h[i + 1].call == Register(h[i].call.access)
    else p.Registering? && p.candidate.accessToken == h[i].call.access
  }

  /** A heartbeat refused as not found is followed by a registration with the
      same token, or the run stands right before it. */
  ghost predicate FollowedUp(h: seq<Event>, p: Point) {
    forall i :: 0 <= i < |h| && NotFoundAt(h, i) ==> Follows(h, p, i)
  }

  lemma {:induction false} DriveFollowsUp(cfg: Config, auth: AuthSession, env: Oracle, h: seq<Event>, p: Point)
    requires FollowedUp(h, p)
    ensures var (outcome, h1) := Drive(cfg, auth, env, h, p); FollowedUp(h1, Finished(outcome))
    decreases Rank(p)
  {
    if !p.Finished? {
      var (r, h1) := Ask(env, h, CallAt(p));
      var next := Resume(cfg, auth, p, r);
      forall i | 0 <= i < |h1| && NotFoundAt(h1, i)
        ensures Follows(h1, next, i)
      {
        if i < |h| {
          assert h1[i] == h[i] && NotFoundAt(h, i) && Follows(h, p, i);
          assert i + 1 < |h| ==> h1[i + 1] == h[i + 1];
          assert h1[|h|].call == CallAt(p);
        }
      }
      DriveFollowsUp(cfg, auth, env, h1, next);
    }
  }

  // --- while a session is terminated ---

  /** The latest stamp of a session stamped `t` at the start, when the other
      requests before call `n` are due. */
  function StampBefore(w: World, id: Registry.AgentId, t: int, n: nat): int {
    if n == 0 then t else Registry.Stamp(w.others(n - 1), id, StampBefore(w, id, t, n - 1))
  }

  /** No clean-up among the other requests comes more than ten minutes after the latest stamp. */
  ghost predicate NoneCleansIt(w: World, id: Registry.AgentId, t: int) {
    forall n: nat :: Registry.NoneCleansIt(w.others(n), id, StampBefore(w, id, t, n))
  }

  ghost predicate IsDead(r: Registry.Registry, id: Registry.AgentId, t: int) {
    Registry.Disjoint(r) && id in r.dead && r.dead[id] == t && Registry.HasId(id)
  }

  /** No call of the run brings a terminated session back. */
  lemma {:induction false} StaysDead(w: World, start: Registry.Registry, calls: seq<Event>, id: Registry.AgentId, t: int)
    requires IsDead(start, id, t) && NoneCleansIt(w, id, t)
    ensures IsDead(After(w, start, calls), id, StampBefore(w, id, t, |calls|))
    ensures IsDead(Seen(w, start, calls), id, StampBefore(w, id, t, |calls| + 1)) && id !in Seen(w, start, calls).live
    decreases |calls|
  {
    if calls != [] {
      var n := |calls| - 1;
      StaysDead(w, start, calls[..n], id, t);
      if Reaches(w, n, calls[n].call) {
        var op := OpOf(w, n, calls[n].call);
        Registry.StampAfter(Seen(w, start, calls[..n]), op, id);
        Registry.TerminationEndsExactly(Seen(w, start, calls[..n]), op, id);
      }
    }
    Registry.TerminationLasts(After(w, start, calls), w.others(|calls|), id, StampBefore(w, id, t, |calls|));
  }

  /** What a terminated session's own subject is told. */
  lemma DeadIsRefused(w: World, r: Registry.Registry, n: nat, call: Call, id: Registry.AgentId, t: int)
    requires call.Heartbeat? || call.Register?
    requires IsDead(r, id, t) && Registry.IdOf(w.subjectOf(call.access), w.sessionID) == id && w.maxSessions(n) > 0
    ensures Answer(w, r, n, call).Rejected?
    ensures w.luck(n).Served? ==> Answer(w, r, n, call) == Rejected(Status(if call.Heartbeat? then 404 else 410))
  {
    assert Trim(Registry.TRANSPORT) != "";
  }

  /** How a call with the terminated session's own subject ends. */
  lemma DeadCall(env: Oracle, w: World, start: Registry.Registry, id: Registry.AgentId, t: int, h: seq<Event>, i: nat)
    requires IsServer(env, w, start) && IsDead(start, id, t) && NoneCleansIt(w, id, t)
    requires id.sessionID == Trim(w.sessionID) && w.maxSessions(i) > 0
    requires Answered(env, h) && i < |h| && (h[i].call.Heartbeat? || h[i].call.Register?)
    requires Trim(w.subjectOf(h[i].call.access)) == id.subject
    ensures h[i].reply.Rejected?
    ensures RefusedAsGone(h[i]) <==> h[i].call.Register? && w.luck(i).Served?
    ensures h[i].call.Heartbeat? && w.luck(i).Served? ==> h[i].reply == Rejected(Status(404))
  {
    StaysDead(w, start, h[..i], id, t);
    assert h[i].reply == env(h[..i], h[i].call) == Answer(w, Seen(w, start, h[..i]), i, h[i].call);
    DeadIsRefused(w, Seen(w, start, h[..i]), i, h[i].call, id, StampBefore(w, id, t, i + 1));
  }

  /** While a session is terminated, a recovery succeeds only with a token of
      another subject: never with one that would bring the session back. */
  lemma NoRecoveryWhileDead(cfg: Config, auth: AuthSession, env: Oracle, w: World, start: Registry.Registry, id: Registry.AgentId, t: int)
    requires IsServer(env, w, start) && IsDead(start, id, t) && NoneCleansIt(w, id, t)
    requires id.sessionID == Trim(w.sessionID) && forall n: nat :: w.maxSessions(n) > 0
    ensures var (outcome, h) := Recover(cfg, auth, env, []);
            && (outcome.Recovered? ==> Trim(w.subjectOf(outcome.session.accessToken)) != id.subject)
            && id in After(w, start, h).dead && id !in After(w, start, h).live
  {
    var (outcome, h) := Recover(cfg, auth, env, []);
    StaysDead(w, start, h, id, t);
    RecoversIffLetThrough(cfg, auth, env);
    DriveIsRecover(cfg, auth, env, []);
    DriveIsAnswered(cfg, auth, env, [], Begin(cfg, auth));
    if outcome.Recovered? && Trim(w.subjectOf(outcome.session.accessToken)) == id.subject {
      DeadCall(env, w, start, id, t, h, |h| - 1);
    }
  }

  /** The heartbeats and registrations of a run all carry tokens of one subject. */
  ghost predicate OneSubject(w: World, h: seq<Event>, subject: string) {
    forall i :: 0 <= i < |h| && (h[i].call.Heartbeat? || h[i].call.Register?) ==> Trim(w.subjectOf(h[i].call.access)) == subject
  }

  lemma DeadCalls(env: Oracle, w: World, start: Registry.Registry, id: Registry.AgentId, t: int, h: seq<Event>)
    requires IsServer(env, w, start) && IsDead(start, id, t) && NoneCleansIt(w, id, t)
    requires id.sessionID == Trim(w.sessionID) && forall n: nat :: w.maxSessions(n) > 0
    requires Answered(env, h) && OneSubject(w, h, id.subject)
    ensures SawGone(h) <==> exists i :: 0 <= i < |h| && h[i].call.Register? && w.luck(i).Served?
    ensures forall i :: 0 <= i < |h| && h[i].call.Heartbeat? && w.luck(i).Served? ==> h[i].reply == Rejected(Status(404))
  {
    forall i | 0 <= i < |h| && (h[i].call.Heartbeat? || h[i].call.Register?)
      ensures RefusedAsGone(h[i]) <==> h[i].call.Register? && w.luck(i).Served?
      ensures h[i].call.Heartbeat? && w.luck(i).Served? ==> h[i].reply == Rejected(Status(404))
    {
      DeadCall(env, w, start, id, t, h, i);
    }
  }

  /** The termination of its session reaches a run exactly when one of its
      registrations is served: it then ends in the error that is neither retried
      nor mistaken for anything else.  Every served heartbeat asks for such a
      registration. */
  lemma TerminationReachesTheClient(cfg: Config, auth: AuthSession, env: Oracle, w: World, start: Registry.Registry, id: Registry.AgentId, t: int)
    requires IsServer(env, w, start) && IsDead(start, id, t) && NoneCleansIt(w, id, t)
    requires id.sessionID == Trim(w.sessionID) && forall n: nat :: w.maxSessions(n) > 0
    requires OneSubject(w, Recover(cfg, auth, env, []).1, id.subject)
    ensures var (outcome, h) := Recover(cfg, auth, env, []);
            && outcome.Failed?
            && (outcome == TERMINATED <==> exists i :: 0 <= i < |h| && h[i].call.Register? && w.luck(i).Served?)
            && (forall i :: 0 <= i < |h| && h[i].call.Heartbeat? && h[i].call.access != 0 && w.luck(i).Served? ==>
                              i + 1 < |h| && h[i + 1].call == Register(h[i].call.access))
  {
    var (outcome, h) := Recover(cfg, auth, env, []);
    NoRecoveryWhileDead(cfg, auth, env, w, start, id, t);
    RecoversIffLetThrough(cfg, auth, env);
    TerminatedIffGone(cfg, auth, env);
    DriveIsRecover(cfg, auth, env, []);
    DriveIsAnswered(cfg, auth, env, [], Begin(cfg, auth));
    DriveFollowsUp(cfg, auth, env, [], Begin(cfg, auth));
    DeadCalls(env, w, start, id, t, h);
    forall i | 0 <= i < |h| && h[i].call.Heartbeat? && h[i].call.access != 0 && w.luck(i).Served?
      ensures i + 1 < |h| && h[i + 1].call == Register(h[i].call.access)
    {
      assert NotFoundAt(h, i) && Follows(h, Finished(outcome), i);
    }
  }
}
