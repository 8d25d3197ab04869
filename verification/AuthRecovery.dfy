/** Recovering a heartbeat whose authorization ran out
    (cmd/shellin/agent_auth_recovery.go, auth_status_errors.go, auth_profile.go).

    Strings that are only compared for equality and blankness are numbers that
    stand for the trimmed string; 0 is the blank one.  The server, the network
    and the profile file are an oracle: the reply to a call may depend on every
    call and reply before it. */
module AuthRecovery {
  import opened Lineage
  import opened Results

  datatype AuthSession = AuthSession(accessToken: Token, accessExpiresAt: nat, refreshToken: Token, refreshExpiresAt: nat)

  /** `Status` is an HTTP status error.  Of any other error the program searches the text. */
  datatype CallError =
    | Status(code: nat)
    | Plain(says401: bool, says404: bool, says410: bool)

  predicate IsUnauthorized(e: CallError) {
    if e.Status? then e.code == 401 else e.says401
  }

  predicate IsNotFound(e: CallError) {
    if e.Status? then e.code == 404 else e.says404
  }

  predicate IsGone(e: CallError) {
    if e.Status? then e.code == 410 else e.says410
  }

  /** `controlPlane` stands for the base URL up to case and trailing slashes. */
  datatype Config = Config(controlPlane: nat, userKey: Token, hasProfilePath: bool, sessionID: nat)

  datatype ProfileFile = Unreadable | Profile(controlPlane: nat, session: AuthSession)

  datatype Call = Heartbeat(access: Token) | Register(access: Token) | Refresh(refresh: Token) | LoadProfile | Exchange

  datatype Reply = Passed | Rejected(error: CallError) | Granted(session: AuthSession) | Content(file: ProfileFile)

  datatype Event = Event(call: Call, reply: Reply)

  type Oracle = (seq<Event>, Call) -> Reply

  datatype UpdateMode = Unchanged | Reloaded | Refreshed

  /** A failure carries the two marks the program puts on an error. */
  datatype Outcome =
    | Recovered(session: AuthSession, mode: UpdateMode)
    | Failed(nonRetryable: bool, terminated: bool)

  // --- the calls ---

  function ErrorOf(r: Reply): Option<CallError> {
    if r.Rejected? then Some(r.error) else None
  }

  /** A refresh or an exchange succeeds only with both tokens present. */
  function SessionOf(r: Reply): Option<AuthSession> {
    if r.Granted? && r.session.accessToken != 0 && r.session.refreshToken != 0 then Some(r.session) else None
  }

  function LoadFromProfile(cfg: Config, file: ProfileFile): Option<AuthSession> {
    if file.Unreadable? then None
    else if file.controlPlane != 0 && file.controlPlane != cfg.controlPlane then None
    else if file.session.accessToken == 0 || file.session.refreshToken == 0 then None
    else Some(file.session)
  }

  datatype Latest = LoadFailed | Same | Changed(session: AuthSession)

  function LatestFromProfile(cfg: Config, r: Reply, current: AuthSession): Latest {
    if !cfg.hasProfilePath then Same
    else match LoadFromProfile(cfg, if r.Content? then r.file else Unreadable)
         case None => LoadFailed
         case Some(latest) => if latest == current then Same else Changed(latest)
  }

  // --- the recovery as it is written ---

  function Ask(env: Oracle, h: seq<Event>, call: Call): (Reply, seq<Event>) {
    var r := env(h, call);
    (r, h + [Event(call, r)])
  }

  /** The errors for a blank session ID or access token, whose texts mention no status. */
  const MISSING_ARGUMENT := Plain(false, false, false)

  function HeartbeatOrRegister(cfg: Config, env: Oracle, h: seq<Event>, access: Token): (Option<CallError>, seq<Event>) {
    if cfg.sessionID == 0 then (Some(MISSING_ARGUMENT), h)
    else
      var (beat, h1) := Ask(env, h, Heartbeat(access));
      if beat.Rejected? && IsNotFound(beat.error) then
        if access == 0 then (Some(MISSING_ARGUMENT), h1) else
        var (again, h2) := Ask(env, h1, Register(access));
        (ErrorOf(again), h2)
      else
        (ErrorOf(beat), h1)
  }

  const TERMINATED := Failed(true, true)
  const RETRYABLE := Failed(false, false)
  const PERMANENT := Failed(true, false)

  function UserKeyFallback(cfg: Config, env: Oracle, h: seq<Event>): (Outcome, seq<Event>) {
    if cfg.userKey == 0 then (PERMANENT, h)
    else
      var (r, h1) := Ask(env, h, Exchange);
      match SessionOf(r)
      case None => (PERMANENT, h1)
      case Some(fallback) =>
        var (err, h2) := HeartbeatOrRegister(cfg, env, h1, fallback.accessToken);
        match err
        case None => (Recovered(fallback, Refreshed), h2)
        case Some(e) => (if IsGone(e) then TERMINATED else PERMANENT, h2)
  }

  /** After a refresh failed: try what another process left in the profile. */
  function ReloadAndRetry(cfg: Config, auth: AuthSession, env: Oracle, h: seq<Event>): (Outcome, seq<Event>) {
    var (r, h1) := if cfg.hasProfilePath then Ask(env, h, LoadProfile) else (Content(Unreadable), h);
    match LatestFromProfile(cfg, r, auth)
    case LoadFailed => UserKeyFallback(cfg, env, h1)
    case Same => UserKeyFallback(cfg, env, h1)
    case Changed(latest) =>
      var (err, h2) := HeartbeatOrRegister(cfg, env, h1, latest.accessToken);
      match err
      case None => (Recovered(latest, Reloaded), h2)
      case Some(e) =>
        if IsGone(e) then (TERMINATED, h2)
        else if !IsUnauthorized(e) then (RETRYABLE, h2)
        else if latest.refreshToken == 0 then UserKeyFallback(cfg, env, h2)
        else
          var (r2, h3) := Ask(env, h2, Refresh(latest.refreshToken));
          match SessionOf(r2)
          case None => UserKeyFallback(cfg, env, h3)
          case Some(refreshed) =>
            var (err2, h4) := HeartbeatOrRegister(cfg, env, h3, refreshed.accessToken);
            match err2
            case None => (Recovered(refreshed, Refreshed), h4)
            case Some(e2) => (if IsGone(e2) then TERMINATED else RETRYABLE, h4)
  }

  /** Without a refresh token: only the profile can help. */
  function ReloadOnly(cfg: Config, auth: AuthSession, env: Oracle, h: seq<Event>): (Outcome, seq<Event>) {
    var (r, h1) := if cfg.hasProfilePath then Ask(env, h, LoadProfile) else (Content(Unreadable), h);
    match LatestFromProfile(cfg, r, auth)
    case LoadFailed => UserKeyFallback(cfg, env, h1)
    case Same => UserKeyFallback(cfg, env, h1)
    case Changed(latest) =>
      var (err, h2) := HeartbeatOrRegister(cfg, env, h1, latest.accessToken);
      match err
      case None => (Recovered(latest, Reloaded), h2)
      case Some(e) => (if IsGone(e) then TERMINATED else RETRYABLE, h2)
  }

  function Recover(cfg: Config, auth: AuthSession, env: Oracle, h: seq<Event>): (Outcome, seq<Event>) {
    var (err, h1) := HeartbeatOrRegister(cfg, env, h, auth.accessToken);
    match err
    case None => (Recovered(auth, Unchanged), h1)
    case Some(e) =>
      if IsGone(e) then (TERMINATED, h1)
      else if !IsUnauthorized(e) then (RETRYABLE, h1)
      else if auth.refreshToken != 0 then
        var (r, h2) := Ask(env, h1, Refresh(auth.refreshToken));
        match SessionOf(r)
        case Some(refreshed) =>
          var (err2, h3) := HeartbeatOrRegister(cfg, env, h2, refreshed.accessToken);
          (match err2
           case None => (Recovered(refreshed, Refreshed), h3)
           case Some(e2) => (if IsGone(e2) then TERMINATED else RETRYABLE, h3))
        case None => ReloadAndRetry(cfg, auth, env, h2)
      else
        ReloadOnly(cfg, auth, env, h1)
  }

  // --- the same recovery, one call at a time ---

  /** How the session being tried was come by. */
  datatype Stage = First | AfterRefresh | AfterReload(refreshTried: bool) | AfterSecondRefresh | AfterExchange

  /** What the recovery does next. */
  datatype Point =
    | Beating(stage: Stage, candidate: AuthSession)
    | Registering(stage: Stage, candidate: AuthSession)
    | Refreshing(second: bool, token: Token)
    | Loading(refreshTried: bool)
    | Exchanging
    | Finished(outcome: Outcome)

  function CallAt(p: Point): Call
    requires !p.Finished?
  {
    match p
    case Beating(_, c) => Heartbeat(c.accessToken)
    case Registering(_, c) => Register(c.accessToken)
    case Refreshing(_, token) => Refresh(token)
    case Loading(_) => LoadProfile
    case Exchanging => Exchange
  }

  function ModeOf(stage: Stage): UpdateMode {
    match stage
    case First => Unchanged
    case AfterReload(_) => Reloaded
    case _ => Refreshed
  }

  function Fallback(cfg: Config): Point {
    if cfg.userKey == 0 then Finished(PERMANENT) else Exchanging
  }

  function Reload(cfg: Config, refreshTried: bool): Point {
    if cfg.hasProfilePath then Loading(refreshTried) else Fallback(cfg)
  }

  function AfterRound(cfg: Config, auth: AuthSession, stage: Stage, c: AuthSession, err: Option<CallError>): Point {
    match err
    case None => Finished(Recovered(c, ModeOf(stage)))
    case Some(e) =>
      if IsGone(e) then Finished(TERMINATED)
      else match stage
           case First =>
             if !IsUnauthorized(e) then Finished(RETRYABLE)
             else if auth.refreshToken != 0 then Refreshing(false, auth.refreshToken)
             else Reload(cfg, false)
           case AfterReload(true) =>
             if !IsUnauthorized(e) then Finished(RETRYABLE)
             else if c.refreshToken == 0 then Fallback(cfg)
             else Refreshing(true, c.refreshToken)
           case AfterExchange => Finished(PERMANENT)
           case _ => Finished(RETRYABLE)
  }

  function Try(cfg: Config, auth: AuthSession, stage: Stage, c: AuthSession): Point {
    if cfg.sessionID == 0 then AfterRound(cfg, auth, stage, c, Some(MISSING_ARGUMENT)) else Beating(stage, c)
  }

  function Begin(cfg: Config, auth: AuthSession): Point {
    Try(cfg, auth, First, auth)
  }

  function Resume(cfg: Config, auth: AuthSession, p: Point, r: Reply): Point
    requires !p.Finished?
  {
    match p
    case Beating(stage, c) =>
      if r.Rejected? && IsNotFound(r.error) then
        if c.accessToken == 0 then AfterRound(cfg, auth, stage, c, Some(MISSING_ARGUMENT)) else Registering(stage, c)
      else
        AfterRound(cfg, auth, stage, c, ErrorOf(r))
    case Registering(stage, c) => AfterRound(cfg, auth, stage, c, ErrorOf(r))
    case Refreshing(second, _) =>
      (match SessionOf(r)
       case Some(refreshed) => Try(cfg, auth, if second then AfterSecondRefresh else AfterRefresh, refreshed)
       case None => if second then Fallback(cfg) else Reload(cfg, true))
    case Loading(tried) =>
      (match LatestFromProfile(cfg, r, auth)
       case Changed(latest) => Try(cfg, auth, AfterReload(tried), latest)
       case _ => Fallback(cfg))
    case Exchanging =>
      (match SessionOf(r)
       case Some(fallback) => Try(cfg, auth, AfterExchange, fallback)
       case None => Finished(PERMANENT))
  }

  function StageRank(stage: Stage): nat {
    match stage
    case AfterExchange => 1
    case AfterSecondRefresh => 4
    case AfterReload(_) => 7
    case AfterRefresh => 10
    case First => 13
  }

  function Rank(p: Point): nat {
    match p
    case Finished(_) => 0
    case Registering(stage, _) => StageRank(stage)
    case Beating(stage, _) => StageRank(stage) + 1
    case Exchanging => 3
    case Refreshing(second, _) => if second then 6 else 12
    case Loading(_) => 9
  }

  /** Run the recovery from point `p` to its end. */
  function Drive(cfg: Config, auth: AuthSession, env: Oracle, h: seq<Event>, p: Point): (Outcome, seq<Event>)
    decreases Rank(p)
  {
    if p.Finished? then (p.outcome, h)
    else
      var (r, h1) := Ask(env, h, CallAt(p));
      Drive(cfg, auth, env, h1, Resume(cfg, auth, p, r))
  }

  // --- the two agree ---

  lemma RoundAgrees(cfg: Config, auth: AuthSession, env: Oracle, h: seq<Event>, stage: Stage, c: AuthSession)
    ensures var (err, h1) := HeartbeatOrRegister(cfg, env, h, c.accessToken);
            Drive(cfg, auth, env, h, Try(cfg, auth, stage, c)) == Drive(cfg, auth, env, h1, AfterRound(cfg, auth, stage, c, err))
  {
  }

  lemma FallbackAgrees(cfg: Config, auth: AuthSession, env: Oracle, h: seq<Event>)
    ensures Drive(cfg, auth, env, h, Fallback(cfg)) == UserKeyFallback(cfg, env, h)
  {
    if cfg.userKey != 0 {
      var (r, h1) := Ask(env, h, Exchange);
      if SessionOf(r).Some? {
        RoundAgrees(cfg, auth, env, h1, AfterExchange, SessionOf(r).value);
      }
    }
  }

  lemma SecondRefreshAgrees(cfg: Config, auth: AuthSession, env: Oracle, h: seq<Event>, latest: AuthSession)
    ensures var (r, h1) := Ask(env, h, Refresh(latest.refreshToken));
            Drive(cfg, auth, env, h, Refreshing(true, latest.refreshToken)) ==
            match SessionOf(r)
            case None => UserKeyFallback(cfg, env, h1)
            case Some(refreshed) =>
              var (err, h2) := HeartbeatOrRegister(cfg, env, h1, refreshed.accessToken);
              match err
              case None => (Recovered(refreshed, Refreshed), h2)
              case Some(e) => (if IsGone(e) then TERMINATED else RETRYABLE, h2)
  {
    var (r, h1) := Ask(env, h, Refresh(latest.refreshToken));
    if SessionOf(r).Some? {
      RoundAgrees(cfg, auth, env, h1, AfterSecondRefresh, SessionOf(r).value);
    } else {
      FallbackAgrees(cfg, auth, env, h1);
    }
  }

  lemma ReloadAgrees(cfg: Config, auth: AuthSession, env: Oracle, h: seq<Event>, refreshTried: bool)
    ensures Drive(cfg, auth, env, h, Reload(cfg, refreshTried)) ==
            if refreshTried then ReloadAndRetry(cfg, auth, env, h) else ReloadOnly(cfg, auth, env, h)
  {
    if !cfg.hasProfilePath {
      FallbackAgrees(cfg, auth, env, h);
    } else {
      var (r, h1) := Ask(env, h, LoadProfile);
      match LatestFromProfile(cfg, r, auth)
      case Changed(latest) =>
        var (err, h2) := HeartbeatOrRegister(cfg, env, h1, latest.accessToken);
        RoundAgrees(cfg, auth, env, h1, AfterReload(refreshTried), latest);
        SecondRefreshAgrees(cfg, auth, env, h2, latest);
        FallbackAgrees(cfg, auth, env, h2);
      case _ => FallbackAgrees(cfg, auth, env, h1);
    }
  }

  /** Taking the recovery one call at a time changes neither its outcome nor its calls. */
  lemma DriveIsRecover(cfg: Config, auth: AuthSession, env: Oracle, h: seq<Event>)
    ensures Drive(cfg, auth, env, h, Begin(cfg, auth)) == Recover(cfg, auth, env, h)
  {
    var (err, h1) := HeartbeatOrRegister(cfg, env, h, auth.accessToken);
    RoundAgrees(cfg, auth, env, h, First, auth);
    if err.Some? && !IsGone(err.value) && IsUnauthorized(err.value) {
      if auth.refreshToken != 0 {
        var (r, h2) := Ask(env, h1, Refresh(auth.refreshToken));
        assert Drive(cfg, auth, env, h1, Refreshing(false, auth.refreshToken))
            == Drive(cfg, auth, env, h2, Resume(cfg, auth, Refreshing(false, auth.refreshToken), r));
        if SessionOf(r).Some? {
          RoundAgrees(cfg, auth, env, h2, AfterRefresh, SessionOf(r).value);
        } else {
          ReloadAgrees(cfg, auth, env, h2, true);
        }
      } else {
        ReloadAgrees(cfg, auth, env, h1, false);
      }
    }
  }

  // --- where a recovered session comes from ---

  /** `h` ends where a session to try at `stage` was come by, and `c` is that session. */
  ghost predicate Source(auth: AuthSession, h: seq<Event>, stage: Stage, c: AuthSession) {
    match stage
    case First => c == auth && h == []
    case AfterReload(_) => h != [] && exists file: ProfileFile :: h[|h| - 1] == Event(LoadProfile, Content(file)) && file.Profile? && file.session == c
    case AfterExchange => h != [] && h[|h| - 1] == Event(Exchange, Granted(c))
    case AfterRefresh => h != [] && h[|h| - 1] == Event(Refresh(auth.refreshToken), Granted(c))
    case AfterSecondRefresh => h != [] && exists token: Token :: h[|h| - 1] == Event(Refresh(token), Granted(c))
  }

  /** `h` ends in the heartbeat round that let `c` through. */
  ghost predicate JustPassed(h: seq<Event>, k: nat, c: AuthSession) {
    || (k + 1 == |h| && h[k].call == Heartbeat(c.accessToken) && !h[k].reply.Rejected?)
    || (k + 2 == |h| && h[k].call == Heartbeat(c.accessToken) && h[k + 1].call == Register(c.accessToken) && !h[k + 1].reply.Rejected?)
  }

  ghost predicate Progress(auth: AuthSession, h: seq<Event>, p: Point) {
    match p
    case Beating(stage, c) => Source(auth, h, stage, c)
    case Registering(stage, c) =>
      && h != [] && h[|h| - 1].call == Heartbeat(c.accessToken) && Source(auth, h[..|h| - 1], stage, c)
    case Refreshing(second, token) => second || token == auth.refreshToken
    case Finished(Recovered(c, mode)) =>
      exists k: nat, stage: Stage :: k < |h| && mode == ModeOf(stage) && Source(auth, h[..k], stage, c) && JustPassed(h, k, c)
    case _ => true
  }

  lemma ResumeKeepsProgress(cfg: Config, auth: AuthSession, env: Oracle, h: seq<Event>, p: Point)
    requires !p.Finished? && Progress(auth, h, p)
    ensures var (r, h1) := Ask(env, h, CallAt(p)); Progress(auth, h1, Resume(cfg, auth, p, r))
  {
    var (r, h1) := Ask(env, h, CallAt(p));
    assert h1[..|h1| - 1] == h;
    if p.Beating? {
      assert h1[..|h|] == h;
      if !r.Rejected? {
        assert JustPassed(h1, |h|, p.candidate);
      }
    } else if p.Registering? {
      assert h1[..|h| - 1] == h[..|h| - 1];
      if !r.Rejected? {
        assert JustPassed(h1, |h| - 1, p.candidate);
      }
    }
  }

  lemma {:induction false} DriveKeepsProgress(cfg: Config, auth: AuthSession, env: Oracle, h: seq<Event>, p: Point)
    requires Progress(auth, h, p)
    ensures var (outcome, h1) := Drive(cfg, auth, env, h, p); Progress(auth, h1, Finished(outcome))
    decreases Rank(p)
  {
    if !p.Finished? {
      var (r, h1) := Ask(env, h, CallAt(p));
      ResumeKeepsProgress(cfg, auth, env, h, p);
      DriveKeepsProgress(cfg, auth, env, h1, Resume(cfg, auth, p, r));
    }
  }

  /** A recovered session is one whose own access token the last round let
      through, and the mode says truly where the session came from. */
  lemma RecoveredIsTruthful(cfg: Config, auth: AuthSession, env: Oracle, c: AuthSession, mode: UpdateMode)
    requires Recover(cfg, auth, env, []).0 == Recovered(c, mode)
    ensures var h := Recover(cfg, auth, env, []).1;
            exists k: nat, stage: Stage :: k < |h| && mode == ModeOf(stage) && Source(auth, h[..k], stage, c) && JustPassed(h, k, c)
  {
    DriveIsRecover(cfg, auth, env, []);
    DriveKeepsProgress(cfg, auth, env, [], Begin(cfg, auth));
  }

  // --- how long it may take ---

  function Beats(h: seq<Event>): nat {
    if h == [] then 0 else Beats(h[..|h| - 1]) + if h[|h| - 1].call.Heartbeat? then 1 else 0
  }

  function Refreshes(h: seq<Event>): nat {
    if h == [] then 0 else Refreshes(h[..|h| - 1]) + if h[|h| - 1].call.Refresh? then 1 else 0
  }

  function Exchanges(h: seq<Event>): nat {
    if h == [] then 0 else Exchanges(h[..|h| - 1]) + if h[|h| - 1].call.Exchange? then 1 else 0
  }

  /** The heartbeats, refreshes and exchanges that may still follow. */
  function Budget(p: Point): (int, int, int) {
    match p
    case Finished(_) => (0, 0, 0)
    case Exchanging => (1, 0, 1)
    case Refreshing(second, _) => if second then (1, 1, 1) else (2, 2, 1)
    case Loading(tried) => if tried then (2, 1, 1) else (1, 0, 1)
    case Beating(stage, _) =>
      (match stage
       case First => (3, 2, 1)
       case AfterReload(tried) => if tried then (2, 1, 1) else (1, 0, 0)
       case _ => (1, 0, 0))
    case Registering(stage, _) =>
      (match stage
       case First => (2, 2, 1)
       case AfterReload(tried) => if tried then (1, 1, 1) else (0, 0, 0)
       case _ => (0, 0, 0))
  }

  /** The call at `p` and what may follow its reply stay within the budget of `p`. */
  lemma ResumeKeepsBudget(cfg: Config, auth: AuthSession, p: Point, r: Reply)
    requires !p.Finished?
    ensures var call, next := CallAt(p), Budget(Resume(cfg, auth, p, r));
            && next.0 + (if call.Heartbeat? then 1 else 0) <= Budget(p).0
            && next.1 + (if call.Refresh? then 1 else 0) <= Budget(p).1
            && next.2 + (if call.Exchange? then 1 else 0) <= Budget(p).2
  {
  }

  lemma CountsOneMore(h: seq<Event>, e: Event)
    ensures Beats(h + [e]) == Beats(h) + if e.call.Heartbeat? then 1 else 0
    ensures Refreshes(h + [e]) == Refreshes(h) + if e.call.Refresh? then 1 else 0
    ensures Exchanges(h + [e]) == Exchanges(h) + if e.call.Exchange? then 1 else 0
  {
    assert (h + [e])[..|h|] == h;
  }

  lemma {:induction false} DriveKeepsBudget(cfg: Config, auth: AuthSession, env: Oracle, h: seq<Event>, p: Point)
    ensures var h1 := Drive(cfg, auth, env, h, p).1;
            && Beats(h1) <= Beats(h) + Budget(p).0
            && Refreshes(h1) <= Refreshes(h) + Budget(p).1
            && Exchanges(h1) <= Exchanges(h) + Budget(p).2
    decreases Rank(p)
  {
    if !p.Finished? {
      var (r, h1) := Ask(env, h, CallAt(p));
      CountsOneMore(h, Event(CallAt(p), r));
      ResumeKeepsBudget(cfg, auth, p, r);
      DriveKeepsBudget(cfg, auth, env, h1, Resume(cfg, auth, p, r));
    }
  }

  /** One run makes at most three heartbeat rounds, two refreshes and one exchange. */
  lemma RecoveryIsShort(cfg: Config, auth: AuthSession, env: Oracle)
    ensures var h := Recover(cfg, auth, env, []).1; Beats(h) <= 3 && Refreshes(h) <= 2 && Exchanges(h) <= 1
  {
    DriveIsRecover(cfg, auth, env, []);
    DriveKeepsBudget(cfg, auth, env, [], Begin(cfg, auth));
  }

  // --- when an error is marked as a termination ---

  /** The call was a heartbeat or a registration, and it was refused as gone.
      (An error without a status may read as "not found" and as "gone"; a
      heartbeat is then taken for not found.) */
  predicate RefusedAsGone(e: Event) {
    && e.reply.Rejected? && IsGone(e.reply.error)
    && (e.call.Register? || (e.call.Heartbeat? && !IsNotFound(e.reply.error)))
  }

  predicate SawGone(h: seq<Event>) {
    exists i :: 0 <= i < |h| && RefusedAsGone(h[i])
  }

  lemma {:induction false} DriveMarksTermination(cfg: Config, auth: AuthSession, env: Oracle, h: seq<Event>, p: Point)
    requires SawGone(h) <==> p == Finished(TERMINATED)
    requires p.Finished? && p.outcome.Failed? && p.outcome.terminated ==> p.outcome == TERMINATED
    ensures var (outcome, h1) := Drive(cfg, auth, env, h, p);
            && (SawGone(h1) <==> outcome == TERMINATED)
            && (outcome.Failed? && outcome.terminated ==> outcome == TERMINATED)
    decreases Rank(p)
  {
    if !p.Finished? {
      var (r, h1) := Ask(env, h, CallAt(p));
      assert h1[|h|] == Event(CallAt(p), r);
      assert forall i :: 0 <= i < |h| ==> h1[i] == h[i];
      DriveMarksTermination(cfg, auth, env, h1, Resume(cfg, auth, p, r));
    }
  }

  /** An error is marked as a termination exactly when some heartbeat or
      registration of the run was refused as gone, and it is then not retried. */
  lemma TerminatedIffGone(cfg: Config, auth: AuthSession, env: Oracle)
    ensures var (outcome, h) := Recover(cfg, auth, env, []);
            && (outcome.Failed? && outcome.terminated <==> SawGone(h))
            && (SawGone(h) ==> outcome.nonRetryable)
  {
    DriveIsRecover(cfg, auth, env, []);
    DriveMarksTermination(cfg, auth, env, [], Begin(cfg, auth));
  }
}
