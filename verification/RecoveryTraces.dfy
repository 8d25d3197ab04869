/** What a recovery says about its calls: when its failure may be retried, what it
    tries before it gives up, and what follows what
    (cmd/shellin/agent_auth_recovery.go).  All of it is read off the calls and
    their replies. */
module RecoveryTraces {
  import opened Lineage
  import opened Results
  import opened AuthRecovery

  predicate Made(h: seq<Event>, c: Call) {
    exists i :: 0 <= i < |h| && h[i].call == c
  }

  /** The last call was a heartbeat or a registration. */
  predicate EndsInRound(h: seq<Event>) {
    h != [] && (h[|h| - 1].call.Heartbeat? || h[|h| - 1].call.Register?)
  }

  /** The last call was a heartbeat or a registration with `access`, and was not refused. */
  predicate LetThrough(h: seq<Event>, access: Token) {
    && h != [] && !h[|h| - 1].reply.Rejected?
    && (h[|h| - 1].call == Heartbeat(access) || h[|h| - 1].call == Register(access))
  }

  /** A heartbeat refused as not found counts for nothing, its registration does. */
  predicate RefusedAsUnauthorized(e: Event) {
    && e.reply.Rejected? && IsUnauthorized(e.reply.error)
    && (e.call.Register? || (e.call.Heartbeat? && !IsNotFound(e.reply.error)))
  }

  /** Nothing but one heartbeat was made, and perhaps its registration. */
  predicate OnlyFirstRound(h: seq<Event>) {
    |h| == 1 || (|h| == 2 && h[1].call.Register?)
  }

  /** The call before the round that ends with call `i`. */
  function BeforeRound(h: seq<Event>, i: nat): int
    requires i < |h|
  {
    if h[i].call.Register? then i - 2 else i - 1
  }

  /** Where a session that the last round let through came from: it is the one the
      recovery started with, or the call before the round brought it. */
  predicate ComesFrom(auth: AuthSession, h: seq<Event>, c: AuthSession, mode: UpdateMode)
    requires h != []
  {
    var k := BeforeRound(h, |h| - 1);
    if k < 0 then mode == Unchanged && c == auth
    else match h[k].call
         case LoadProfile => mode == Reloaded && h[k].reply.Content? && h[k].reply.file.Profile? && h[k].reply.file.session == c
         case Refresh(_) => mode == Refreshed && h[k].reply == Granted(c)
         case Exchange => mode == Refreshed && h[k].reply == Granted(c)
         case _ => false
  }

  /** Everything there is to try against a refused session was tried. */
  predicate AllTried(cfg: Config, auth: AuthSession, h: seq<Event>) {
    && (auth.refreshToken != 0 ==> Made(h, Refresh(auth.refreshToken)))
    && (cfg.hasProfilePath ==> Made(h, LoadProfile))
    && (cfg.userKey != 0 ==> Made(h, Exchange))
  }

  lemma OneMore(h: seq<Event>, e: Event)
    ensures forall c :: Made(h + [e], c) <==> Made(h, c) || e.call == c
    ensures SawGone(h + [e]) <==> SawGone(h) || RefusedAsGone(e)
  {
    assert (h + [e])[|h|] == e;
    assert forall i :: 0 <= i < |h| ==> (h + [e])[i] == h[i];
  }

  // --- how a recovery ends ---

  /** The refresh token and the profile, where there are any, were tried. */
  predicate ReloadTried(cfg: Config, auth: AuthSession, h: seq<Event>) {
    && (auth.refreshToken != 0 ==> Made(h, Refresh(auth.refreshToken)))
    && (cfg.hasProfilePath ==> Made(h, LoadProfile))
  }

  /** Where the history shows the recovery to be, short of its end. */
  ghost predicate At(cfg: Config, auth: AuthSession, h: seq<Event>, p: Point) {
    && !SawGone(h)
    && (Made(h, Exchange) ==> p.Finished? || ((p.Beating? || p.Registering?) && p.stage.AfterExchange?))
    && match p
       case Beating(stage, c) => AtRound(cfg, auth, h, stage, c)
       case Registering(stage, c) => h != [] && h[|h| - 1].call.Heartbeat? && AtRound(cfg, auth, h[..|h| - 1], stage, c)
       case Refreshing(second, token) =>
         h != [] && (second <==> Made(h, LoadProfile)) && if second then ReloadTried(cfg, auth, h) else token == auth.refreshToken != 0
       case Loading(tried) =>
         && h != [] && cfg.hasProfilePath && (tried <==> auth.refreshToken != 0)
         && (auth.refreshToken != 0 ==> Made(h, Refresh(auth.refreshToken)))
       case Exchanging => h != [] && ReloadTried(cfg, auth, h)
       case Finished(_) => true
  }

  ghost predicate AtRound(cfg: Config, auth: AuthSession, h: seq<Event>, stage: Stage, c: AuthSession) {
    if stage.First? then h == [] && c == auth
    else
      && |h| >= 2
      && match stage
         case AfterReload(tried) =>
           && ReloadTried(cfg, auth, h) && c.refreshToken != 0 && (tried <==> auth.refreshToken != 0)
           && h[|h| - 1].call.LoadProfile? && LatestFromProfile(cfg, h[|h| - 1].reply, auth) == Changed(c)
         case AfterExchange => ReloadTried(cfg, auth, h) && h[|h| - 1].call.Exchange? && SessionOf(h[|h| - 1].reply) == Some(c)
         case _ => h[|h| - 1].call.Refresh? && SessionOf(h[|h| - 1].reply) == Some(c)
  }

  /** What is true of a recovery once it is over. */
  ghost predicate Ended(cfg: Config, auth: AuthSession, h: seq<Event>, outcome: Outcome) {
    match outcome
    case Recovered(c, mode) => LetThrough(h, c.accessToken) && ComesFrom(auth, h, c, mode)
    case Failed(nonRetryable, _) =>
      && (EndsInRound(h) ==> h[|h| - 1].reply.Rejected?)
      && (!nonRetryable <==>
            !SawGone(h) && !Made(h, Exchange) && EndsInRound(h) && !(OnlyFirstRound(h) && RefusedAsUnauthorized(h[|h| - 1])))
      && (nonRetryable && !SawGone(h) ==> AllTried(cfg, auth, h))
  }

  ghost predicate Reached(cfg: Config, auth: AuthSession, h: seq<Event>, p: Point) {
    if p.Finished? then Ended(cfg, auth, h, p.outcome) else At(cfg, auth, h, p)
  }

  /** The round of `e`, behind the history `h`, is the one for `c`. */
  ghost predicate IsRound(cfg: Config, auth: AuthSession, h: seq<Event>, e: Event, stage: Stage, c: AuthSession) {
    && (e.call == Heartbeat(c.accessToken) || e.call == Register(c.accessToken))
    && (e.call.Register? ==> h != [] && h[|h| - 1].call.Heartbeat?)
    && AtRound(cfg, auth, RoundStart(h, e), stage, c)
  }

  /** The history before the heartbeat of the round. */
  function RoundStart(h: seq<Event>, e: Event): seq<Event> {
    if e.call.Register? && h != [] then h[..|h| - 1] else h
  }

  lemma RoundPasses(cfg: Config, auth: AuthSession, h: seq<Event>, e: Event, stage: Stage, c: AuthSession)
    requires IsRound(cfg, auth, h, e, stage, c) && !e.reply.Rejected?
    ensures Ended(cfg, auth, h + [e], Recovered(c, ModeOf(stage)))
  {
    var h1, start := h + [e], RoundStart(h, e);
    assert BeforeRound(h1, |h|) == |start| - 1;
    assert start != [] ==> h1[|start| - 1] == start[|start| - 1];
  }

  /** What was made before the heartbeat of the round was made before its registration. */
  lemma RoundMakesNothingElse(h: seq<Event>, e: Event)
    requires e.call.Heartbeat? || e.call.Register?
    requires e.call.Register? ==> h != [] && h[|h| - 1].call.Heartbeat?
    ensures forall c: Call :: !c.Heartbeat? && !c.Register? ==> (Made(h + [e], c) <==> Made(RoundStart(h, e), c))
  {
    OneMore(h, e);
    if e.call.Register? {
      assert h == h[..|h| - 1] + [h[|h| - 1]];
      OneMore(h[..|h| - 1], h[|h| - 1]);
    }
  }

  lemma RoundFails(cfg: Config, auth: AuthSession, h: seq<Event>, e: Event, stage: Stage, c: AuthSession, err: CallError)
    requires IsRound(cfg, auth, h, e, stage, c) && e.reply.Rejected?
    requires !SawGone(h) && (Made(h, Exchange) ==> stage.AfterExchange?)
    requires (IsGone(err) <==> RefusedAsGone(e)) && (IsUnauthorized(err) <==> RefusedAsUnauthorized(e))
    ensures Reached(cfg, auth, h + [e], AfterRound(cfg, auth, stage, c, Some(err)))
  {
    var h1, start := h + [e], RoundStart(h, e);
    OneMore(h, e);
    RoundMakesNothingElse(h, e);
    assert OnlyFirstRound(h1) <==> stage.First?;
    if stage.AfterExchange? {
      assert Made(start, Exchange) by {
        assert start[|start| - 1].call == Exchange;
      }
    }
    if stage.AfterReload? {
      assert Made(start, LoadProfile) by {
        assert start[|start| - 1].call == LoadProfile;
      }
    }
  }

  lemma RoundEnds(cfg: Config, auth: AuthSession, h: seq<Event>, e: Event, stage: Stage, c: AuthSession, err: Option<CallError>)
    requires IsRound(cfg, auth, h, e, stage, c)
    requires !SawGone(h) && (Made(h, Exchange) ==> stage.AfterExchange?)
    requires err.None? <==> !e.reply.Rejected?
    requires err.Some? ==> (IsGone(err.value) <==> RefusedAsGone(e)) && (IsUnauthorized(err.value) <==> RefusedAsUnauthorized(e))
    ensures Reached(cfg, auth, h + [e], AfterRound(cfg, auth, stage, c, err))
  {
    match err
    case None => RoundPasses(cfg, auth, h, e, stage, c);
    case Some(error) => RoundFails(cfg, auth, h, e, stage, c, error);
  }

  lemma ResumeReaches(cfg: Config, auth: AuthSession, h: seq<Event>, p: Point, r: Reply)
    requires cfg.sessionID != 0 && !p.Finished? && At(cfg, auth, h, p)
    ensures Reached(cfg, auth, h + [Event(CallAt(p), r)], Resume(cfg, auth, p, r))
  {
    var e := Event(CallAt(p), r);
    OneMore(h, e);
    assert (h + [e])[..|h|] == h;
    match p
    case Beating(stage, c) =>
      if r.Rejected? && IsNotFound(r.error) {
        if c.accessToken == 0 {
          RoundEnds(cfg, auth, h, e, stage, c, Some(MISSING_ARGUMENT));
        }
      } else {
        RoundEnds(cfg, auth, h, e, stage, c, ErrorOf(r));
      }
    case Registering(stage, c) => RoundEnds(cfg, auth, h, e, stage, c, ErrorOf(r));
    case _ =>
  }

  lemma {:induction false} DriveEnds(cfg: Config, auth: AuthSession, env: Oracle, h: seq<Event>, p: Point)
    requires cfg.sessionID != 0 && Reached(cfg, auth, h, p)
    ensures var (outcome, h1) := Drive(cfg, auth, env, h, p); Ended(cfg, auth, h1, outcome)
    decreases Rank(p)
  {
    if !p.Finished? {
      var (r, h1) := Ask(env, h, CallAt(p));
      ResumeReaches(cfg, auth, h, p, r);
      DriveEnds(cfg, auth, env, h1, Resume(cfg, auth, p, r));
    }
  }

  lemma RecoverEnds(cfg: Config, auth: AuthSession, env: Oracle)
    requires cfg.sessionID != 0
    ensures var (outcome, h) := Recover(cfg, auth, env, []); Ended(cfg, auth, h, outcome)
  {
    DriveIsRecover(cfg, auth, env, []);
    DriveEnds(cfg, auth, env, [], Begin(cfg, auth));
  }

  /** A failure may be retried exactly when nothing was refused as gone, no user key
      was tried, and the last call was a heartbeat or registration, unless that was
      the first round and was refused as unauthorized. */
  lemma RetryableIff(cfg: Config, auth: AuthSession, env: Oracle)
    requires Recover(cfg, auth, env, []).0.Failed?
    ensures var (outcome, h) := Recover(cfg, auth, env, []);
            !outcome.nonRetryable <==>
              cfg.sessionID == 0
              || (!SawGone(h) && !Made(h, Exchange) && EndsInRound(h) && !(OnlyFirstRound(h) && RefusedAsUnauthorized(h[|h| - 1])))
    ensures cfg.sessionID == 0 ==> Recover(cfg, auth, env, []).1 == []
  {
    if cfg.sessionID != 0 {
      RecoverEnds(cfg, auth, env);
    }
  }

  /** A recovery gives up for good only on a termination, or once it tried its
      refresh token, the profile and the user key, as far as there are any. */
  lemma GivesUpAfterTryingAll(cfg: Config, auth: AuthSession, env: Oracle)
    requires cfg.sessionID != 0
    ensures var (outcome, h) := Recover(cfg, auth, env, []);
            outcome.Failed? && outcome.nonRetryable && !outcome.terminated ==> AllTried(cfg, auth, h)
  {
    RecoverEnds(cfg, auth, env);
    TerminatedIffGone(cfg, auth, env);
  }

  /** A recovery succeeds exactly when its last call was a heartbeat or
      registration that was not refused.  Its session is the one let through, and
      its mode tells which call brought it. */
  lemma RecoversIffLetThrough(cfg: Config, auth: AuthSession, env: Oracle)
    ensures var (outcome, h) := Recover(cfg, auth, env, []);
            && (outcome.Recovered? <==> EndsInRound(h) && !h[|h| - 1].reply.Rejected?)
            && (outcome.Recovered? ==> LetThrough(h, outcome.session.accessToken) && ComesFrom(auth, h, outcome.session, outcome.mode))
  {
    if cfg.sessionID != 0 {
      RecoverEnds(cfg, auth, env);
    }
  }

  // --- what follows each call ---

  function UserKeyNext(cfg: Config): Option<Call> {
    if cfg.userKey != 0 then Some(Exchange) else None
  }

  function ProfileNext(cfg: Config): Option<Call> {
    if cfg.hasProfilePath then Some(LoadProfile) else UserKeyNext(cfg)
  }

  /** What follows a round that ended with call `i` refused as unauthorized: if it
      was the first, the refresh token, the profile or the user key, whichever there
      is; if it tried what another process left in the profile after the own refresh
      token had failed, that session's refresh token; else nothing. */
  function AfterUnauthorized(cfg: Config, auth: AuthSession, h: seq<Event>, i: nat): Option<Call>
    requires i < |h|
  {
    var k := BeforeRound(h, i);
    if k < 0 then
      if auth.refreshToken != 0 then Some(Refresh(auth.refreshToken)) else ProfileNext(cfg)
    else if h[k].call.LoadProfile? && auth.refreshToken != 0 then
      match LatestFromProfile(cfg, h[k].reply, auth)
      case Changed(latest) => Some(Refresh(latest.refreshToken))
      case _ => None
    else None
  }

  /** The call that must follow call `i`, if any, judged by the calls and replies up to it. */
  function FollowUp(cfg: Config, auth: AuthSession, h: seq<Event>, i: nat): Option<Call>
    requires i < |h|
  {
    var e := h[i];
    match e.call
    case LoadProfile =>
      (match LatestFromProfile(cfg, e.reply, auth)
       case Changed(latest) => Some(Heartbeat(latest.accessToken))
       case _ => UserKeyNext(cfg))
    case Refresh(_) =>
      (match SessionOf(e.reply)
       case Some(granted) => Some(Heartbeat(granted.accessToken))
       case None => if Made(h[..i], LoadProfile) then UserKeyNext(cfg) else ProfileNext(cfg))
    case Exchange =>
      (match SessionOf(e.reply)
       case Some(granted) => Some(Heartbeat(granted.accessToken))
       case None => None)
    case _ =>
      if e.call.Heartbeat? && e.reply.Rejected? && IsNotFound(e.reply.error) && e.call.access != 0 then Some(Register(e.call.access))
      else if RefusedAsUnauthorized(e) && !RefusedAsGone(e) then AfterUnauthorized(cfg, auth, h, i)
      else None
  }

  function CallDue(p: Point): Option<Call> {
    if p.Finished? then None else Some(CallAt(p))
  }

  /** Each call is the one that must follow the call before it, and `p` makes the one due now. */
  ghost predicate InOrder(cfg: Config, auth: AuthSession, h: seq<Event>, p: Point) {
    forall i :: 0 <= i < |h| ==> FollowUp(cfg, auth, h, i) == if i + 1 < |h| then Some(h[i + 1].call) else CallDue(p)
  }

  lemma FollowUpStays(cfg: Config, auth: AuthSession, h: seq<Event>, e: Event, i: nat)
    requires i < |h|
    ensures FollowUp(cfg, auth, h + [e], i) == FollowUp(cfg, auth, h, i)
  {
    assert (h + [e])[..i] == h[..i];
    assert forall k :: 0 <= k < |h| ==> (h + [e])[k] == h[k];
  }

  lemma RoundFollows(cfg: Config, auth: AuthSession, h: seq<Event>, e: Event, stage: Stage, c: AuthSession, err: Option<CallError>)
    requires cfg.sessionID != 0
    requires IsRound(cfg, auth, h, e, stage, c)
    requires err.None? <==> !e.reply.Rejected?
    requires err.Some? ==> (IsGone(err.value) <==> RefusedAsGone(e)) && (IsUnauthorized(err.value) <==> RefusedAsUnauthorized(e))
    requires e.call.Heartbeat? && e.reply.Rejected? && IsNotFound(e.reply.error) ==> c.accessToken == 0
    ensures FollowUp(cfg, auth, h + [e], |h|) == CallDue(AfterRound(cfg, auth, stage, c, err))
  {
    var h1 := h + [e];
    assert h1[|h|] == e;
    assert BeforeRound(h1, |h|) >= 0 ==> h1[BeforeRound(h1, |h|)] == h[BeforeRound(h1, |h|)];
    if e.call.Register? {
      assert |h| >= 2 ==> h[..|h| - 1][|h| - 2] == h[|h| - 2];
    }
  }

  lemma ResumeFollows(cfg: Config, auth: AuthSession, h: seq<Event>, p: Point, r: Reply)
    requires cfg.sessionID != 0 && !p.Finished? && At(cfg, auth, h, p)
    ensures FollowUp(cfg, auth, h + [Event(CallAt(p), r)], |h|) == CallDue(Resume(cfg, auth, p, r))
  {
    var e := Event(CallAt(p), r);
    assert (h + [e])[..|h|] == h && (h + [e])[|h|] == e;
    match p
    case Beating(stage, c) =>
      if r.Rejected? && IsNotFound(r.error) {
        if c.accessToken == 0 {
          RoundFollows(cfg, auth, h, e, stage, c, Some(MISSING_ARGUMENT));
        }
      } else {
        RoundFollows(cfg, auth, h, e, stage, c, ErrorOf(r));
      }
    case Registering(stage, c) => RoundFollows(cfg, auth, h, e, stage, c, ErrorOf(r));
    case Refreshing(second, _) => assert second <==> Made(h, LoadProfile);
    case _ =>
  }

  lemma OrderOneMore(cfg: Config, auth: AuthSession, h: seq<Event>, p: Point, r: Reply)
    requires cfg.sessionID != 0 && !p.Finished? && At(cfg, auth, h, p) && InOrder(cfg, auth, h, p)
    ensures InOrder(cfg, auth, h + [Event(CallAt(p), r)], Resume(cfg, auth, p, r))
  {
    var h1 := h + [Event(CallAt(p), r)];
    ResumeFollows(cfg, auth, h, p, r);
    forall i | 0 <= i < |h|
      ensures FollowUp(cfg, auth, h1, i) == Some(h1[i + 1].call)
    {
      FollowUpStays(cfg, auth, h, Event(CallAt(p), r), i);
    }
  }

  lemma {:induction false} DriveInOrder(cfg: Config, auth: AuthSession, env: Oracle, h: seq<Event>, p: Point)
    requires cfg.sessionID != 0 && Reached(cfg, auth, h, p) && InOrder(cfg, auth, h, p) && (h != [] ==> h[0].call == Heartbeat(auth.accessToken))
    requires h == [] ==> p == Beating(First, auth)
    ensures var (outcome, h1) := Drive(cfg, auth, env, h, p);
            InOrder(cfg, auth, h1, Finished(outcome)) && h1 != [] && h1[0].call == Heartbeat(auth.accessToken)
    decreases Rank(p)
  {
    if !p.Finished? {
      var (r, h1) := Ask(env, h, CallAt(p));
      ResumeReaches(cfg, auth, h, p, r);
      OrderOneMore(cfg, auth, h, p, r);
      DriveInOrder(cfg, auth, env, h1, Resume(cfg, auth, p, r));
    }
  }

  /** The calls of a recovery, exactly: it begins with a heartbeat of its session,
      each call is followed by the one that must follow it, and the last by none. */
  lemma CallsFollow(cfg: Config, auth: AuthSession, env: Oracle)
    requires cfg.sessionID != 0
    ensures var h := Recover(cfg, auth, env, []).1;
            && h != [] && h[0].call == Heartbeat(auth.accessToken)
            && forall i :: 0 <= i < |h| ==> FollowUp(cfg, auth, h, i) == if i + 1 < |h| then Some(h[i + 1].call) else None
  {
    DriveIsRecover(cfg, auth, env, []);
    DriveInOrder(cfg, auth, env, [], Begin(cfg, auth));
  }
}
