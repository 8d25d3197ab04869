/** Many processes, each running one heartbeat loop, share one auth profile file
    and one control plane.

    A process talks to the server through a refresh or exchange handler of
    RefreshServer, so a request, the handler's store calls, the answer and its
    loss are separate steps.  All steps of all processes and handlers
    interleave freely. */
module SharedProfile {
  import opened Results
  import opened Lineage
  import opened RefreshServer
  import opened AuthRecovery
  import opened AgentHeartbeat

  datatype Spot = Idle | Working(point: Point, awaits: Option<nat>) | Stopped

  datatype Process = Process(cfg: Config, auth: AuthSession, spot: Spot)

  /** `writes` lists the refresh tokens the profile file has held, oldest first. */
  datatype System = System(server: Server, processes: map<nat, Process>, profile: ProfileFile, writes: seq<Token>)

  datatype Action =
    | Serve(id: nat, now: int, usable: bool, signed: bool, ttl: int)
    | CleanUp(cutoff: int)
    | PresentWritten(id: nat, k: nat)
    | LogIn(id: nat, owner: string)
    | JoinFromProfile(pid: nat, cfg: Config)
    | JoinFromLogin(pid: nat, cfg: Config, id: nat)
    | StartBeat(pid: nat)
    | Answer(pid: nat, reply: Reply)
    | ReadProfile(pid: nat, readable: bool)
    | Request(pid: nat, id: nat, owner: string)
    | Receive(pid: nat, accessExpiresAt: nat, refreshExpiresAt: nat)
    | GiveUp(pid: nat)
    | Settle(pid: nat, saved: bool)

  function Put(s: System, pid: nat, q: Process): System {
    s.(processes := s.processes[pid := q])
  }

  /** The process takes the reply to the call it is at. */
  function Take(s: System, pid: nat, r: Reply): System
    requires pid in s.processes && s.processes[pid].spot.Working? && !s.processes[pid].spot.point.Finished?
  {
    var q := s.processes[pid];
    Put(s, pid, q.(spot := Working(Resume(q.cfg, q.auth, q.spot.point, r), None)))
  }

  predicate AtCall(s: System, pid: nat) {
    pid in s.processes && s.processes[pid].spot.Working? && !s.processes[pid].spot.point.Finished?
  }

  predicate AtServerCall(s: System, pid: nat) {
    AtCall(s, pid) && (s.processes[pid].spot.point.Refreshing? || s.processes[pid].spot.point.Exchanging?)
  }

  function SettleProcess(s: System, pid: nat, saved: bool): System
    requires pid in s.processes && s.processes[pid].spot.Working? && s.processes[pid].spot.point.Finished?
  {
    var q := s.processes[pid];
    match q.spot.point.outcome
    case Failed(nonRetryable, _) => Put(s, pid, q.(spot := if nonRetryable then Stopped else Idle))
    case Recovered(next, mode) =>
      var m := Adopt(q.cfg, Memory(q.auth.accessToken, q.auth.refreshToken, s.profile), next, mode, saved);
      var settled := Put(s, pid, Process(q.cfg, CurrentAuth(m.accessToken, m.refreshToken), Idle));
      if mode == Refreshed && q.cfg.hasProfilePath && saved then
        settled.(profile := m.profile, writes := s.writes + [next.refreshToken])
      else
        settled
  }

  /** A working process waits for the answer of handler `id`. */
  predicate Awaited(s: System, id: nat) {
    exists pid :: pid in s.processes && s.processes[pid].spot.Working? && s.processes[pid].spot.awaits == Some(id)
  }

  /** An action that is not possible changes nothing. */
  function Act(s: System, a: Action): System {
    match a
    case Serve(id, now, usable, signed, ttl) =>
      s.(server := Next(s.server, Advance(id, now, usable, signed, ttl)))
    case CleanUp(cutoff) =>
      s.(server := Next(s.server, Sweep(cutoff)))
    case PresentWritten(id, k) =>
      if k < |s.writes| then s.(server := Next(s.server, AcceptRefresh(id, s.writes[k]))) else s
    case LogIn(id, owner) =>
      s.(server := Next(s.server, AcceptLogin(id, owner)))
    case JoinFromProfile(pid, cfg) =>
      if pid !in s.processes && LoadFromProfile(cfg, s.profile).Some? then
        Put(s, pid, Process(cfg, Remembered(s.profile.session), Idle))
      else s
    case JoinFromLogin(pid, cfg, id) =>
      if pid !in s.processes && id in s.server.handlers && s.server.handlers[id].token == 0
         && s.server.handlers[id].phase.Answered? && !Awaited(s, id) then
        var session := s.server.handlers[id].phase.session;
        Put(s.(server := Next(s.server, Close(id))), pid, Process(cfg, CurrentAuth(session, session), Idle))
      else s
    case StartBeat(pid) =>
      if pid in s.processes && s.processes[pid].spot.Idle? then
        var q := s.processes[pid];
        Put(s, pid, q.(spot := Working(Begin(q.cfg, q.auth), None)))
      else s
    case Answer(pid, reply) =>
      if AtCall(s, pid) && (s.processes[pid].spot.point.Beating? || s.processes[pid].spot.point.Registering?) then
        Take(s, pid, reply)
      else s
    case ReadProfile(pid, readable) =>
      if AtCall(s, pid) && s.processes[pid].spot.point.Loading? then
        Take(s, pid, Content(if readable then s.profile else Unreadable))
      else s
    case Request(pid, id, owner) =>
      if AtServerCall(s, pid) && s.processes[pid].spot.awaits.None? && id !in s.server.handlers then
        var q := s.processes[pid];
        var move := if q.spot.point.Refreshing? then AcceptRefresh(id, q.spot.point.token) else AcceptLogin(id, owner);
        Put(s.(server := Next(s.server, move)), pid, q.(spot := Working(q.spot.point, Some(id))))
      else s
    case Receive(pid, accessExpiresAt, refreshExpiresAt) =>
      if AtServerCall(s, pid) && s.processes[pid].spot.awaits.Some? && s.processes[pid].spot.awaits.value in s.server.handlers then
        var id := s.processes[pid].spot.awaits.value;
        (match s.server.handlers[id].phase
         case Answered(session) =>
           Take(s.(server := Next(s.server, Close(id))), pid,
                Granted(AuthSession(session, accessExpiresAt, session, refreshExpiresAt)))
         case Refused => Take(s.(server := Next(s.server, Close(id))), pid, Rejected(Status(401)))
         case _ => s)
      else s
    case GiveUp(pid) =>
      if AtServerCall(s, pid) then Take(s, pid, Rejected(Plain(false, false, false))) else s
    case Settle(pid, saved) =>
      if pid in s.processes && s.processes[pid].spot.Working? && s.processes[pid].spot.point.Finished? then
        SettleProcess(s, pid, saved)
      else s
  }

  function Exec(s: System, actions: seq<Action>): System {
    if actions == [] then s else Act(Exec(s, actions[..|actions| - 1]), actions[|actions| - 1])
  }

  /** No process runs yet; the server has any past, and the profile holds a
      token it once issued, or nothing usable. */
  ghost predicate Initial(s: System) {
    && (exists moves: seq<Move> :: s.server == Run(moves))
    && s.server.handlers == map[]
    && s.processes == map[]
    && if s.profile.Profile? && s.profile.session.refreshToken != 0
       then Known(s.server.log, s.profile.session.refreshToken) && s.writes == [s.profile.session.refreshToken]
       else s.writes == []
  }

  // --- which tokens are private to one holder ---

  predicate FromServer(stage: Stage) {
    stage.AfterRefresh? || stage.AfterSecondRefresh? || stage.AfterExchange?
  }

  /** The token a process has been granted and has not yet adopted, or 0. */
  function Held(p: Point): Token {
    match p
    case Beating(stage, c) => if FromServer(stage) then c.refreshToken else 0
    case Registering(stage, c) => if FromServer(stage) then c.refreshToken else 0
    case Finished(Recovered(c, Refreshed)) => c.refreshToken
    case _ => 0
  }

  /** The token at this point that others may know as well, or 0. */
  function Seen(p: Point): Token {
    match p
    case Beating(stage, c) => if FromServer(stage) then 0 else c.refreshToken
    case Registering(stage, c) => if FromServer(stage) then 0 else c.refreshToken
    case Refreshing(_, token) => token
    case Finished(Recovered(c, mode)) => if mode == Refreshed then 0 else c.refreshToken
    case _ => 0
  }

  /** The server never grants a session without a refresh token. */
  predicate GrantIsWhole(p: Point) {
    match p
    case Beating(stage, c) => FromServer(stage) ==> c.refreshToken != 0
    case Registering(stage, c) => FromServer(stage) ==> c.refreshToken != 0
    case Finished(Recovered(c, Refreshed)) => c.refreshToken != 0
    case _ => true
  }

  function HeldBy(q: Process): Token {
    if q.spot.Working? then Held(q.spot.point) else 0
  }

  function SeenBy(q: Process): Token {
    if q.spot.Working? then Seen(q.spot.point) else 0
  }

  /** Nobody but a holder of `t` knows it, and it has not been exchanged. */
  ghost predicate Private(s: System, t: Token) {
    && Known(s.server.log, t)
    && Childless(s.server.log, t)
    && t !in s.writes
    && (forall pid :: pid in s.processes ==> s.processes[pid].auth.refreshToken != t && SeenBy(s.processes[pid]) != t)
    && (forall id :: id in s.server.handlers ==> s.server.handlers[id].token != t)
  }

  predicate KnownOrBlank(s: System, t: Token) {
    t == 0 || Known(s.server.log, t)
  }

  ghost predicate ProcessValid(s: System, pid: nat)
    requires pid in s.processes
  {
    var q := s.processes[pid];
    && KnownOrBlank(s, q.auth.refreshToken)
    && KnownOrBlank(s, SeenBy(q))
    && (HeldBy(q) != 0 ==> Private(s, HeldBy(q)))
    && (q.spot.Working? ==> GrantIsWhole(q.spot.point))
  }

  ghost predicate HandlerValid(s: System, id: nat)
    requires id in s.server.handlers
  {
    var h := s.server.handlers[id];
    && KnownOrBlank(s, h.token)
    && (h.phase.Answered? ==> Private(s, h.phase.session))
  }

  ghost predicate HoldersValid(s: System) {
    && (forall pid :: pid in s.processes ==> ProcessValid(s, pid))
    && (forall id :: id in s.server.handlers ==> HandlerValid(s, id))
  }

  /** No two holders hold the same token. */
  ghost predicate HoldersApart(s: System) {
    && (forall i, j :: i in s.server.handlers && j in s.server.handlers && i != j
                       && s.server.handlers[i].phase.Answered? && s.server.handlers[j].phase.Answered? ==>
                         s.server.handlers[i].phase.session != s.server.handlers[j].phase.session)
    && (forall p, q :: p in s.processes && q in s.processes && p != q && HeldBy(s.processes[p]) != 0 ==>
                         HeldBy(s.processes[p]) != HeldBy(s.processes[q]))
    && (forall i, p :: i in s.server.handlers && p in s.processes && s.server.handlers[i].phase.Answered? ==>
                         s.server.handlers[i].phase.session != HeldBy(s.processes[p]))
  }

  /** Whenever the profile went from one token of a login to another, it moved forward along the rotation chain. */
  ghost predicate WritesForward(log: seq<Issued>, writes: seq<Token>)
    requires WellFormed(log)
  {
    && (forall i :: 0 <= i < |writes| ==> Known(log, writes[i]))
    && (forall i, j :: 0 <= i < j < |writes| && Login(log, writes[i]) == Login(log, writes[j]) ==>
                         Rotated(log, writes[i], writes[j]))
  }

  ghost predicate ProfileValid(s: System) {
    s.profile.Profile? && s.profile.session.refreshToken != 0 ==> s.profile.session.refreshToken in s.writes
  }

  ghost predicate Inv(s: System) {
    && Valid(s.server)
    && ProfileValid(s)
    && WritesForward(s.server.log, s.writes)
    && HoldersValid(s)
    && HoldersApart(s)
  }

  // --- a process changes ---

  /** A token that process `pid` may come to see: it is no secret already. */
  ghost predicate Open(s: System, pid: nat, t: Token) {
    t == 0 || t in s.writes
    || (pid in s.processes && (t == s.processes[pid].auth.refreshToken || t == SeenBy(s.processes[pid])))
  }

  /** A handler or another process than `pid` holds the token. */
  ghost predicate HeldElsewhere(s: System, pid: nat, t: Token) {
    && t != 0
    && ((exists p :: p in s.processes && p != pid && HeldBy(s.processes[p]) == t)
        || (exists id :: id in s.server.handlers && s.server.handlers[id].phase.Answered? && s.server.handlers[id].phase.session == t))
  }

  lemma PutKeepsPrivate(s: System, pid: nat, q: Process, t: Token)
    requires Private(s, t) && t != q.auth.refreshToken && t != SeenBy(q)
    ensures Private(Put(s, pid, q), t)
  {
  }

  lemma OtherProcessStays(s: System, pid: nat, q: Process, p: nat)
    requires p in s.processes && p != pid && ProcessValid(s, p)
    requires !HeldElsewhere(s, pid, q.auth.refreshToken) && !HeldElsewhere(s, pid, SeenBy(q))
    ensures ProcessValid(Put(s, pid, q), p)
  {
    if HeldBy(s.processes[p]) != 0 {
      PutKeepsPrivate(s, pid, q, HeldBy(s.processes[p]));
    }
  }

  lemma HandlerStays(s: System, pid: nat, q: Process, id: nat)
    requires id in s.server.handlers && HandlerValid(s, id)
    requires !HeldElsewhere(s, pid, q.auth.refreshToken) && !HeldElsewhere(s, pid, SeenBy(q))
    ensures HandlerValid(Put(s, pid, q), id)
  {
    if s.server.handlers[id].phase.Answered? {
      assert s.server.handlers[id].phase.session != 0;
      PutKeepsPrivate(s, pid, q, s.server.handlers[id].phase.session);
    }
  }

  lemma PutKeepsHolders(s: System, pid: nat, q: Process)
    requires HoldersValid(s)
    requires !HeldElsewhere(s, pid, q.auth.refreshToken) && !HeldElsewhere(s, pid, SeenBy(q))
    requires ProcessValid(Put(s, pid, q), pid)
    ensures HoldersValid(Put(s, pid, q))
  {
    var r := Put(s, pid, q);
    forall p | p in r.processes
      ensures ProcessValid(r, p)
    {
      if p != pid {
        OtherProcessStays(s, pid, q, p);
      }
    }
    forall id | id in r.server.handlers
      ensures HandlerValid(r, id)
    {
      HandlerStays(s, pid, q, id);
    }
  }

  lemma PutKeepsApart(s: System, pid: nat, q: Process)
    requires HoldersApart(s) && !HeldElsewhere(s, pid, HeldBy(q))
    requires forall id :: id in s.server.handlers && s.server.handlers[id].phase.Answered? ==> s.server.handlers[id].phase.session != 0
    ensures HoldersApart(Put(s, pid, q))
  {
  }

  lemma SessionsAreTokens(s: System)
    requires HoldersValid(s)
    ensures forall id :: id in s.server.handlers && s.server.handlers[id].phase.Answered? ==> s.server.handlers[id].phase.session != 0
  {
    forall id | id in s.server.handlers && s.server.handlers[id].phase.Answered?
      ensures s.server.handlers[id].phase.session != 0
    {
      assert HandlerValid(s, id);
    }
  }

  lemma OpenIsNotHeld(s: System, pid: nat, t: Token)
    requires HoldersValid(s) && Open(s, pid, t)
    ensures !HeldElsewhere(s, pid, t) && (t != 0 ==> !Private(s, t))
  {
    forall p | p in s.processes && p != pid && t != 0
      ensures HeldBy(s.processes[p]) != t
    {
      assert ProcessValid(s, p);
    }
    forall id | id in s.server.handlers && s.server.handlers[id].phase.Answered?
      ensures s.server.handlers[id].phase.session != t
    {
      assert HandlerValid(s, id);
    }
  }

  lemma OpenIsKnown(s: System, pid: nat, t: Token)
    requires Inv(s) && Open(s, pid, t)
    ensures KnownOrBlank(s, t)
  {
    if pid in s.processes {
      assert ProcessValid(s, pid);
    }
  }

  lemma PutKeepsInv(s: System, pid: nat, q: Process)
    requires Inv(s)
    requires Open(s, pid, q.auth.refreshToken) && Open(s, pid, SeenBy(q)) && (q.spot.Working? ==> GrantIsWhole(q.spot.point))
    requires HeldBy(q) == 0 || (pid in s.processes && HeldBy(q) == HeldBy(s.processes[pid]))
    ensures Inv(Put(s, pid, q))
  {
    OpenIsKnown(s, pid, q.auth.refreshToken);
    OpenIsKnown(s, pid, SeenBy(q));
    OpenIsNotHeld(s, pid, q.auth.refreshToken);
    OpenIsNotHeld(s, pid, SeenBy(q));
    SessionsAreTokens(s);
    if HeldBy(q) != 0 {
      assert ProcessValid(s, pid);
      PutKeepsPrivate(s, pid, q, HeldBy(q));
    }
    PutKeepsHolders(s, pid, q);
    PutKeepsApart(s, pid, q);
  }

  /** A token that just left its only holder. */
  ghost predicate Released(s: System, t: Token) {
    && Private(s, t)
    && (forall id :: id in s.server.handlers && s.server.handlers[id].phase.Answered? ==> s.server.handlers[id].phase.session != t)
    && (forall p :: p in s.processes ==> HeldBy(s.processes[p]) != t)
  }

  /** A process is granted a token. */
  lemma GrantKeepsInv(s: System, pid: nat, q: Process)
    requires Inv(s) && Released(s, HeldBy(q))
    requires Open(s, pid, q.auth.refreshToken) && Open(s, pid, SeenBy(q)) && (q.spot.Working? ==> GrantIsWhole(q.spot.point))
    ensures Inv(Put(s, pid, q))
  {
    OpenIsKnown(s, pid, q.auth.refreshToken);
    OpenIsKnown(s, pid, SeenBy(q));
    OpenIsNotHeld(s, pid, q.auth.refreshToken);
    OpenIsNotHeld(s, pid, SeenBy(q));
    SessionsAreTokens(s);
    PutKeepsPrivate(s, pid, q, HeldBy(q));
    PutKeepsHolders(s, pid, q);
    PutKeepsApart(s, pid, q);
  }

  /** A process adopts a token, and from then on it is no secret. */
  lemma AdoptKeepsInv(s: System, pid: nat, q: Process)
    requires Inv(s) && Released(s, q.auth.refreshToken) && q.spot.Idle?
    ensures Inv(Put(s, pid, q))
  {
    SessionsAreTokens(s);
    PutKeepsHolders(s, pid, q);
    PutKeepsApart(s, pid, q);
  }

  // --- the server changes ---

  /** A handler that holds no token and works on one which is no secret. */
  ghost predicate Quiet(s: System, h: Handler) {
    !h.phase.Answered? && KnownOrBlank(s, h.token) && (h.token != 0 ==> !Private(s, h.token))
  }

  /** The handlers of `server` were there before, or hold nothing. */
  ghost predicate HandlersAreCalm(s: System, server: Server) {
    forall j :: j in server.handlers ==>
                  (j in s.server.handlers && server.handlers[j] == s.server.handlers[j]) || Quiet(s, server.handlers[j])
  }

  lemma CalmKeepsPrivate(s: System, server: Server, t: Token)
    requires server.log == s.server.log && HandlersAreCalm(s, server) && Private(s, t)
    ensures Private(s.(server := server), t)
  {
  }

  lemma CalmKeepsHolders(s: System, server: Server)
    requires HoldersValid(s) && server.log == s.server.log && HandlersAreCalm(s, server)
    ensures HoldersValid(s.(server := server))
  {
    var r := s.(server := server);
    forall p | p in r.processes
      ensures ProcessValid(r, p)
    {
      assert ProcessValid(s, p);
      if HeldBy(s.processes[p]) != 0 {
        CalmKeepsPrivate(s, server, HeldBy(s.processes[p]));
      }
    }
    forall j | j in r.server.handlers
      ensures HandlerValid(r, j)
    {
      var h := server.handlers[j];
      if h.phase.Answered? {
        assert HandlerValid(s, j);
        CalmKeepsPrivate(s, server, h.phase.session);
      } else if j in s.server.handlers && h == s.server.handlers[j] {
        assert HandlerValid(s, j);
      }
    }
  }

  lemma CalmKeepsApart(s: System, server: Server)
    requires HoldersApart(s) && HandlersAreCalm(s, server)
    ensures HoldersApart(s.(server := server))
  {
  }

  lemma CalmKeepsInv(s: System, server: Server)
    requires Inv(s) && Valid(server) && server.log == s.server.log && HandlersAreCalm(s, server)
    ensures Inv(s.(server := server))
  {
    CalmKeepsHolders(s, server);
    CalmKeepsApart(s, server);
  }

  lemma CloseKeepsInv(s: System, id: nat)
    requires Inv(s)
    ensures Inv(s.(server := Next(s.server, Close(id))))
  {
    NextKeepsValid(s.server, Close(id));
    CalmKeepsInv(s, Next(s.server, Close(id)));
  }

  lemma SweepKeepsInv(s: System, cutoff: int)
    requires Inv(s)
    ensures Inv(s.(server := Next(s.server, Sweep(cutoff))))
  {
    NextKeepsValid(s.server, Sweep(cutoff));
    CalmKeepsInv(s, Next(s.server, Sweep(cutoff)));
  }

  /** A handler steps into a phase other than `Answered`, on a token which is no secret. */
  lemma HandlerStepKeepsInv(s: System, id: nat, token: Token, phase: Phase, server: Server)
    requires Inv(s) && Valid(server)
    requires server.log == s.server.log && server.handlers == s.server.handlers[id := Handler(token, phase)]
    requires !phase.Answered? && KnownOrBlank(s, token) && (token != 0 ==> !Private(s, token))
    ensures Inv(s.(server := server))
  {
    assert Quiet(s, Handler(token, phase));
    CalmKeepsInv(s, server);
  }

  lemma AcceptKeepsInv(s: System, pid: nat, move: Move)
    requires Inv(s)
    requires move.AcceptLogin? || (move.AcceptRefresh? && Open(s, pid, move.token))
    ensures Inv(s.(server := Next(s.server, move)))
  {
    NextKeepsValid(s.server, move);
    if pid in s.processes {
      assert ProcessValid(s, pid);
    }
    if move.id !in s.server.handlers {
      if move.AcceptRefresh? {
        HandlerStepKeepsInv(s, move.id, move.token, Peeking, Next(s.server, move));
      } else {
        HandlerStepKeepsInv(s, move.id, 0, Issuing(move.owner), Next(s.server, move));
      }
    }
  }

  lemma LongerLogKeepsWrites(log: seq<Issued>, e: Issued, writes: seq<Token>)
    requires WellFormed(log) && WellFormed(log + [e]) && WritesForward(log, writes)
    ensures WritesForward(log + [e], writes)
  {
    forall i, j | 0 <= i < j < |writes| && Login(log + [e], writes[i]) == Login(log + [e], writes[j])
      ensures Rotated(log + [e], writes[i], writes[j])
    {
      IssueKeepsLineage(log, e, 0, writes[i]);
      IssueKeepsLineage(log, e, writes[i], writes[j]);
    }
  }

  /** The system after the handler was issued the next token. */
  function IssuedIn(s: System, id: nat, record: RefreshTokens.Record): System
    requires id in s.server.handlers
  {
    s.(server := IssueTo(s.server, id, record))
  }

  lemma IssueKeepsPrivate(s: System, id: nat, record: RefreshTokens.Record, t: Token)
    requires id in s.server.handlers && Private(s, t) && WellFormed(s.server.log)
    ensures Private(IssuedIn(s, id, record), t)
  {
    assert t != s.server.handlers[id].token;
  }

  /** Nobody has seen the token that is issued next. */
  lemma NextIsUnseen(s: System)
    requires HoldersValid(s) && WellFormed(s.server.log)
    ensures forall p :: p in s.processes ==>
              && s.processes[p].auth.refreshToken < |s.server.log| && SeenBy(s.processes[p]) < |s.server.log|
              && HeldBy(s.processes[p]) < |s.server.log|
    ensures forall j :: j in s.server.handlers ==>
              && s.server.handlers[j].token < |s.server.log|
              && (s.server.handlers[j].phase.Answered? ==> s.server.handlers[j].phase.session < |s.server.log|)
  {
    forall p | p in s.processes
      ensures s.processes[p].auth.refreshToken < |s.server.log| && SeenBy(s.processes[p]) < |s.server.log|
      ensures HeldBy(s.processes[p]) < |s.server.log|
    {
      assert ProcessValid(s, p);
    }
    forall j | j in s.server.handlers
      ensures s.server.handlers[j].token < |s.server.log|
      ensures s.server.handlers[j].phase.Answered? ==> s.server.handlers[j].phase.session < |s.server.log|
    {
      assert HandlerValid(s, j);
    }
  }

  lemma NextIsPrivate(s: System, id: nat, record: RefreshTokens.Record)
    requires HoldersValid(s) && id in s.server.handlers && WellFormed(s.server.log) && WritesForward(s.server.log, s.writes)
    ensures Private(IssuedIn(s, id, record), |s.server.log|)
  {
    NextIsUnseen(s);
    var n, log := |s.server.log|, IssuedIn(s, id, record).server.log;
    forall c | 0 < c < |log|
      ensures log[c].parent != n
    {
      assert c < n ==> log[c] == s.server.log[c] && Linked(s.server.log, c);
    }
  }

  lemma IssueKeepsHolders(s: System, id: nat, record: RefreshTokens.Record)
    requires HoldersValid(s) && id in s.server.handlers && WellFormed(s.server.log) && WritesForward(s.server.log, s.writes)
    ensures HoldersValid(IssuedIn(s, id, record))
  {
    var r := IssuedIn(s, id, record);
    NextIsPrivate(s, id, record);
    forall p | p in r.processes
      ensures ProcessValid(r, p)
    {
      assert ProcessValid(s, p);
      if HeldBy(s.processes[p]) != 0 {
        IssueKeepsPrivate(s, id, record, HeldBy(s.processes[p]));
      }
    }
    forall j | j in r.server.handlers
      ensures HandlerValid(r, j)
    {
      assert HandlerValid(s, j);
      if j != id && s.server.handlers[j].phase.Answered? {
        IssueKeepsPrivate(s, id, record, s.server.handlers[j].phase.session);
      }
    }
  }

  lemma IssueKeepsApart(s: System, id: nat, record: RefreshTokens.Record)
    requires HoldersApart(s) && HoldersValid(s) && id in s.server.handlers && WellFormed(s.server.log)
    ensures HoldersApart(IssuedIn(s, id, record))
  {
    NextIsUnseen(s);
  }

  lemma IssueStepKeepsInv(s: System, id: nat, record: RefreshTokens.Record)
    requires Inv(s) && id in s.server.handlers && s.server.handlers[id].phase.Issuing?
    requires record.subject == Text.Trim(s.server.handlers[id].phase.subject)
    ensures Inv(s.(server := IssueTo(s.server, id, record)))
  {
    IssueKeepsValid(s.server, id, record);
    IssueKeepsLog(s.server, id, record);
    LongerLogKeepsWrites(s.server.log, Issued(s.server.handlers[id].token, record.subject), s.writes);
    IssueKeepsHolders(s, id, record);
    IssueKeepsApart(s, id, record);
  }

  lemma ServeKeepsInv(s: System, id: nat, now: int, usable: bool, signed: bool, ttl: int)
    requires Inv(s)
    ensures Inv(s.(server := Next(s.server, Advance(id, now, usable, signed, ttl))))
  {
    var move := Advance(id, now, usable, signed, ttl);
    NextKeepsValid(s.server, move);
    if id in s.server.handlers {
      var h := s.server.handlers[id];
      var server := Next(s.server, move);
      assert HandlerValid(s, id);
      AdvanceShape(s.server, id, now, usable, signed, ttl);
      if server.log != s.server.log {
        IssueStepKeepsInv(s, id, RefreshTokens.IssueRecord(h.phase.subject, ttl, now).value);
      } else if server != s.server {
        var phase: Phase :| !phase.Answered? && server.handlers == s.server.handlers[id := Handler(h.token, phase)];
        HandlerStepKeepsInv(s, id, h.token, phase, server);
      }
    }
  }

  // --- the profile changes ---

  /** The profile file is replaced by a session that was never written and never exchanged. */
  lemma WriteKeepsForward(log: seq<Issued>, writes: seq<Token>, t: Token)
    requires LogValid(log) && WritesForward(log, writes)
    requires Known(log, t) && Childless(log, t) && t !in writes
    ensures WritesForward(log, writes + [t])
  {
    var longer := writes + [t];
    forall i, j | 0 <= i < j < |longer| && Login(log, longer[i]) == Login(log, longer[j])
      ensures Rotated(log, longer[i], longer[j])
    {
      if j == |writes| {
        assert writes[i] in writes;
        ChildlessIsNewest(log, writes[i], t);
      }
    }
  }

  /** The system after the profile was replaced. */
  function Written(s: System, file: ProfileFile): System
    requires file.Profile?
  {
    s.(profile := file, writes := s.writes + [file.session.refreshToken])
  }

  lemma WriteKeepsHolders(s: System, file: ProfileFile)
    requires HoldersValid(s) && file.Profile? && !Private(s, file.session.refreshToken)
    ensures HoldersValid(Written(s, file))
  {
    var r := Written(s, file);
    forall p | p in r.processes
      ensures ProcessValid(r, p)
    {
      assert ProcessValid(s, p);
    }
    forall id | id in r.server.handlers
      ensures HandlerValid(r, id)
    {
      assert HandlerValid(s, id);
    }
  }

  lemma WriteKeepsInv(s: System, file: ProfileFile)
    requires Inv(s) && file.Profile?
    requires var t := file.session.refreshToken; Known(s.server.log, t) && Childless(s.server.log, t) && t !in s.writes && !Private(s, t)
    ensures Inv(Written(s, file))
  {
    WriteKeepsForward(s.server.log, s.writes, file.session.refreshToken);
    WriteKeepsHolders(s, file);
  }

  /** Settling a refreshed session: the process first lets go of the token ... */
  lemma LetGo(s: System, pid: nat)
    requires Inv(s) && pid in s.processes && HeldBy(s.processes[pid]) != 0
    ensures var idle := Put(s, pid, s.processes[pid].(spot := Idle)); Inv(idle) && Released(idle, HeldBy(s.processes[pid]))
  {
    var q := s.processes[pid];
    assert ProcessValid(s, pid);
    PutKeepsInv(s, pid, q.(spot := Idle));
    PutKeepsPrivate(s, pid, q.(spot := Idle), HeldBy(q));
  }

  lemma PutTwice(s: System, pid: nat, first: Process, second: Process)
    ensures Put(Put(s, pid, first), pid, second) == Put(s, pid, second)
  {
  }

  lemma AdoptedIsNoSecret(s: System, pid: nat, q: Process)
    ensures !Private(Put(s, pid, q), q.auth.refreshToken)
  {
    assert Put(s, pid, q).processes[pid] == q;
  }

  /** ... then adopts it ... */
  lemma AdoptHeld(s: System, pid: nat, cfg: Config, auth: AuthSession)
    requires Inv(s) && pid in s.processes && HeldBy(s.processes[pid]) == auth.refreshToken != 0
    ensures var after := Put(s, pid, Process(cfg, auth, Idle));
            && Inv(after) && !Private(after, auth.refreshToken) && auth.refreshToken !in after.writes
            && Known(after.server.log, auth.refreshToken) && Childless(after.server.log, auth.refreshToken)
  {
    var released := Put(s, pid, s.processes[pid].(spot := Idle));
    var q := Process(cfg, auth, Idle);
    LetGo(s, pid);
    AdoptKeepsInv(released, pid, q);
    PutTwice(s, pid, s.processes[pid].(spot := Idle), q);
    AdoptedIsNoSecret(s, pid, q);
  }

  /** ... and writes it. */
  lemma SettleRefreshedKeepsInv(s: System, pid: nat, saved: bool)
    requires Inv(s) && pid in s.processes && s.processes[pid].spot.Working? && s.processes[pid].spot.point.Finished?
    requires s.processes[pid].spot.point.outcome.Recovered? && s.processes[pid].spot.point.outcome.mode == Refreshed
    ensures Inv(SettleProcess(s, pid, saved))
  {
    var q := s.processes[pid];
    var next := q.spot.point.outcome.session;
    assert ProcessValid(s, pid);
    AdoptHeld(s, pid, q.cfg, Remembered(next));
    if q.cfg.hasProfilePath && saved {
      WriteKeepsInv(Put(s, pid, Process(q.cfg, Remembered(next), Idle)), Profile(q.cfg.controlPlane, next));
    }
  }

  /** The tokens at the next point are those at this one, the process's own, or those in the reply. */
  lemma ResumeTokens(cfg: Config, auth: AuthSession, p: Point, r: Reply)
    requires !p.Finished? && GrantIsWhole(p)
    ensures var next := Resume(cfg, auth, p, r);
            && GrantIsWhole(next)
            && Seen(next) in {0, Seen(p), auth.refreshToken, if p.Loading? && LatestFromProfile(cfg, r, auth).Changed? then r.file.session.refreshToken else 0}
            && Held(next) in {0, Held(p), if (p.Refreshing? || p.Exchanging?) && SessionOf(r).Some? then r.session.refreshToken else 0}
  {
  }

  lemma TakeKeepsInv(s: System, pid: nat, r: Reply)
    requires Inv(s) && AtCall(s, pid)
    requires s.processes[pid].spot.point.Loading? && r.Content? && r.file.Profile? ==> r.file == s.profile
    requires AtServerCall(s, pid) ==> SessionOf(r).None?
    ensures Inv(Take(s, pid, r))
  {
    var q := s.processes[pid];
    assert ProcessValid(s, pid);
    ResumeTokens(q.cfg, q.auth, q.spot.point, r);
    PutKeepsInv(s, pid, q.(spot := Working(Resume(q.cfg, q.auth, q.spot.point, r), None)));
  }

  lemma ReceiveKeepsInv(s: System, pid: nat, accessExpiresAt: nat, refreshExpiresAt: nat)
    requires Inv(s)
    ensures Inv(Act(s, Receive(pid, accessExpiresAt, refreshExpiresAt)))
  {
    if AtServerCall(s, pid) && s.processes[pid].spot.awaits.Some? && s.processes[pid].spot.awaits.value in s.server.handlers {
      var q := s.processes[pid];
      var id := q.spot.awaits.value;
      var closed := s.(server := Next(s.server, Close(id)));
      assert HandlerValid(s, id);
      CloseKeepsInv(s, id);
      match s.server.handlers[id].phase
      case Answered(session) =>
        var r := Granted(AuthSession(session, accessExpiresAt, session, refreshExpiresAt));
        assert Released(closed, session);
        assert ProcessValid(s, pid);
        ResumeTokens(q.cfg, q.auth, q.spot.point, r);
        var after := q.(spot := Working(Resume(q.cfg, q.auth, q.spot.point, r), None));
        if HeldBy(after) == 0 {
          PutKeepsInv(closed, pid, after);
        } else {
          GrantKeepsInv(closed, pid, after);
        }
      case Refused => TakeKeepsInv(closed, pid, Rejected(Status(401)));
      case _ =>
    }
  }

  lemma SettleKeepsInv(s: System, pid: nat, saved: bool)
    requires Inv(s) && pid in s.processes && s.processes[pid].spot.Working? && s.processes[pid].spot.point.Finished?
    ensures Inv(SettleProcess(s, pid, saved))
  {
    var q := s.processes[pid];
    assert ProcessValid(s, pid);
    match q.spot.point.outcome
    case Failed(nonRetryable, _) => PutKeepsInv(s, pid, q.(spot := if nonRetryable then Stopped else Idle));
    case Recovered(next, mode) =>
      if mode == Refreshed {
        SettleRefreshedKeepsInv(s, pid, saved);
      } else {
        PutKeepsInv(s, pid, SettleProcess(s, pid, saved).processes[pid]);
      }
  }

  lemma JoinKeepsInv(s: System, pid: nat, cfg: Config, id: nat)
    requires Inv(s) && pid !in s.processes
    requires id in s.server.handlers && s.server.handlers[id].phase.Answered?
    ensures var session := s.server.handlers[id].phase.session;
            Inv(Put(s.(server := Next(s.server, Close(id))), pid, Process(cfg, CurrentAuth(session, session), Idle)))
  {
    var session := s.server.handlers[id].phase.session;
    assert HandlerValid(s, id);
    CloseKeepsInv(s, id);
    AdoptKeepsInv(s.(server := Next(s.server, Close(id))), pid, Process(cfg, CurrentAuth(session, session), Idle));
  }

  lemma RequestKeepsInv(s: System, pid: nat, id: nat, owner: string)
    requires Inv(s)
    ensures Inv(Act(s, Request(pid, id, owner)))
  {
    if AtServerCall(s, pid) && s.processes[pid].spot.awaits.None? && id !in s.server.handlers {
      var q := s.processes[pid];
      var move := if q.spot.point.Refreshing? then AcceptRefresh(id, q.spot.point.token) else AcceptLogin(id, owner);
      assert ProcessValid(s, pid);
      AcceptKeepsInv(s, pid, move);
      PutKeepsInv(s.(server := Next(s.server, move)), pid, q.(spot := Working(q.spot.point, Some(id))));
    }
  }

  /** The actions of the server, and of clients outside the heartbeat loops. */
  predicate AtServer(a: Action) {
    a.Serve? || a.CleanUp? || a.PresentWritten? || a.LogIn?
  }

  /** The actions that start a process or one of its heartbeats. */
  predicate Starts(a: Action) {
    a.JoinFromProfile? || a.JoinFromLogin? || a.StartBeat?
  }

  lemma ServerActKeepsInv(s: System, a: Action)
    requires Inv(s) && AtServer(a)
    ensures Inv(Act(s, a))
  {
    match a
    case Serve(id, now, usable, signed, ttl) => ServeKeepsInv(s, id, now, usable, signed, ttl);
    case CleanUp(cutoff) => SweepKeepsInv(s, cutoff);
    case PresentWritten(id, k) =>
      if k < |s.writes| {
        AcceptKeepsInv(s, 0, AcceptRefresh(id, s.writes[k]));
      }
    case LogIn(id, owner) => AcceptKeepsInv(s, 0, AcceptLogin(id, owner));
  }

  lemma JoinFromProfileKeepsInv(s: System, pid: nat, cfg: Config)
    requires Inv(s)
    ensures Inv(Act(s, JoinFromProfile(pid, cfg)))
  {
    if pid !in s.processes && LoadFromProfile(cfg, s.profile).Some? {
      PutKeepsInv(s, pid, Process(cfg, Remembered(s.profile.session), Idle));
    }
  }

  lemma JoinFromLoginKeepsInv(s: System, pid: nat, cfg: Config, id: nat)
    requires Inv(s)
    ensures Inv(Act(s, JoinFromLogin(pid, cfg, id)))
  {
    if pid !in s.processes && id in s.server.handlers && s.server.handlers[id].phase.Answered? {
      JoinKeepsInv(s, pid, cfg, id);
    }
  }

  lemma StartBeatKeepsInv(s: System, pid: nat)
    requires Inv(s)
    ensures Inv(Act(s, StartBeat(pid)))
  {
    if pid in s.processes && s.processes[pid].spot.Idle? {
      var q := s.processes[pid];
      PutKeepsInv(s, pid, q.(spot := Working(Begin(q.cfg, q.auth), None)));
    }
  }

  lemma StartKeepsInv(s: System, a: Action)
    requires Inv(s) && Starts(a)
    ensures Inv(Act(s, a))
  {
    match a
    case JoinFromProfile(pid, cfg) => JoinFromProfileKeepsInv(s, pid, cfg);
    case JoinFromLogin(pid, cfg, id) => JoinFromLoginKeepsInv(s, pid, cfg, id);
    case StartBeat(pid) => StartBeatKeepsInv(s, pid);
  }

  lemma AnswerKeepsInv(s: System, pid: nat, reply: Reply)
    requires Inv(s)
    ensures Inv(Act(s, Answer(pid, reply)))
  {
    if AtCall(s, pid) && (s.processes[pid].spot.point.Beating? || s.processes[pid].spot.point.Registering?) {
      TakeKeepsInv(s, pid, reply);
    }
  }

  lemma ReadProfileKeepsInv(s: System, pid: nat, readable: bool)
    requires Inv(s)
    ensures Inv(Act(s, ReadProfile(pid, readable)))
  {
    if AtCall(s, pid) && s.processes[pid].spot.point.Loading? {
      TakeKeepsInv(s, pid, Content(if readable then s.profile else Unreadable));
    }
  }

  lemma GiveUpKeepsInv(s: System, pid: nat)
    requires Inv(s)
    ensures Inv(Act(s, GiveUp(pid)))
  {
    if AtServerCall(s, pid) {
      TakeKeepsInv(s, pid, Rejected(Plain(false, false, false)));
    }
  }

  lemma SettleActKeepsInv(s: System, pid: nat, saved: bool)
    requires Inv(s)
    ensures Inv(Act(s, Settle(pid, saved)))
  {
    if pid in s.processes && s.processes[pid].spot.Working? && s.processes[pid].spot.point.Finished? {
      SettleKeepsInv(s, pid, saved);
    }
  }

  lemma StepKeepsInv(s: System, a: Action)
    requires Inv(s) && !AtServer(a) && !Starts(a)
    ensures Inv(Act(s, a))
  {
    match a
    case Answer(pid, reply) => AnswerKeepsInv(s, pid, reply);
    case ReadProfile(pid, readable) => ReadProfileKeepsInv(s, pid, readable);
    case Request(pid, id, owner) => RequestKeepsInv(s, pid, id, owner);
    case Receive(pid, accessExpiresAt, refreshExpiresAt) => ReceiveKeepsInv(s, pid, accessExpiresAt, refreshExpiresAt);
    case GiveUp(pid) => GiveUpKeepsInv(s, pid);
    case Settle(pid, saved) => SettleActKeepsInv(s, pid, saved);
  }

  lemma ActKeepsInv(s: System, a: Action)
    requires Inv(s)
    ensures Inv(Act(s, a))
  {
    if AtServer(a) {
      ServerActKeepsInv(s, a);
    } else if Starts(a) {
      StartKeepsInv(s, a);
    } else {
      StepKeepsInv(s, a);
    }
  }

  lemma {:induction false} ExecKeepsInv(s: System, actions: seq<Action>)
    requires Inv(s)
    ensures Inv(Exec(s, actions))
  {
    if actions != [] {
      ExecKeepsInv(s, actions[..|actions| - 1]);
      ActKeepsInv(Exec(s, actions[..|actions| - 1]), actions[|actions| - 1]);
    }
  }

  lemma InitialIsInv(s: System)
    requires Initial(s)
    ensures Inv(s)
  {
    var moves :| s.server == Run(moves);
    RunIsValid(moves);
  }

  /** The main result.  In every run of any number of processes, whenever the
      profile file holds two tokens of one login one after the other, the later
      one was obtained from the earlier one by rotation: the file never returns
      to an older token of a login, nor to the same one. */
  lemma ProfileMovesForward(s: System, actions: seq<Action>, i: nat, j: nat)
    requires Initial(s)
    requires var r := Exec(s, actions); i < j < |r.writes| && SameLogin(r.server.log, r.writes[i], r.writes[j])
    ensures var r := Exec(s, actions); Rotated(r.server.log, r.writes[i], r.writes[j])
  {
    InitialIsInv(s);
    ExecKeepsInv(s, actions);
  }
}
