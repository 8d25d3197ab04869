/** When the shared profile stays on one rotation chain for good: in every run of
    processes as the program starts them, and more generally exactly when every
    process that may write the profile starts from it and has no user key. */
module SharedProfileOneLogin {
  import opened Results
  import opened Lineage
  import opened RefreshServer
  import opened AuthRecovery
  import opened AgentHeartbeat
  import opened SharedProfile

  /** Every later token in the file was rotated from every earlier one. */
  ghost predicate OneChain(log: seq<Issued>, writes: seq<Token>)
  {
    && WellFormed(log)
    && (forall i :: 0 <= i < |writes| ==> Known(log, writes[i]))
    && forall i, j :: 0 <= i < j < |writes| ==> Rotated(log, writes[i], writes[j])
  }

  /** In this run every token the profile is given was rotated from all those before it. */
  ghost predicate KeepsOneChain(s: System, actions: seq<Action>) {
    OneChain(Exec(s, actions).server.log, Exec(s, actions).writes)
  }

  // --- how processes start ---

  datatype Start = FromProfile(cfg: Config) | FromLogin(cfg: Config)

  /** A process with a user key logs in and is given no profile path
      (cmd/shellin/auth_client.go). */
  function Resolve(controlPlane: nat, userKey: Token, sessionID: nat): Start {
    if userKey != 0 then FromLogin(Config(controlPlane, userKey, false, sessionID))
    else FromProfile(Config(controlPlane, 0, true, sessionID))
  }

  predicate IsResolved(start: Start) {
    start == Resolve(start.cfg.controlPlane, start.cfg.userKey, start.cfg.sessionID)
  }

  ghost function ProgramStarts(): iset<Start> {
    iset start: Start | IsResolved(start) :: start
  }

  /** Without a profile path nothing is written, without a session ID no heartbeat passes. */
  predicate MayWrite(cfg: Config) {
    cfg.hasProfilePath && cfg.sessionID != 0
  }

  /** If the process may write, it starts from the profile and can never log in. */
  predicate FollowsProfile(start: Start) {
    MayWrite(start.cfg) ==> start.FromProfile? && start.cfg.userKey == 0
  }

  ghost predicate StartsIn(starts: iset<Start>, a: Action) {
    && (a.JoinFromProfile? ==> FromProfile(a.cfg) in starts)
    && (a.JoinFromLogin? ==> FromLogin(a.cfg) in starts)
  }

  ghost predicate AllStartIn(starts: iset<Start>, actions: seq<Action>) {
    forall i :: 0 <= i < |actions| ==> StartsIn(starts, actions[i])
  }

  // --- processes that follow the profile ---

  /** All processes start so that they follow the profile. */
  ghost predicate AllFollow(starts: iset<Start>) {
    forall start :: start in starts ==> FollowsProfile(start)
  }

  ghost predicate OfLogin(s: System, root: Token, t: Token)
    requires WellFormed(s.server.log)
  {
    t == 0 || (Known(s.server.log, t) && Login(s.server.log, t) == root)
  }

  /** The handler a process awaits is its own, and if the process may write, it
      works on the token the process asked to refresh. */
  ghost predicate Routed(s: System, pid: nat)
    requires pid in s.processes
  {
    var q := s.processes[pid];
    q.spot.Working? && q.spot.awaits.Some? ==>
      var id := q.spot.awaits.value;
      && id in s.server.handlers
      && (MayWrite(q.cfg) ==> q.spot.point.Refreshing? && q.spot.point.token != 0 && s.server.handlers[id].token == q.spot.point.token)
      && (forall p :: p in s.processes && p != pid && s.processes[p].spot.Working? ==> s.processes[p].spot.awaits != Some(id))
  }

  /** A process that may write knows tokens of one login only, and never logs in. */
  ghost predicate OneLoginWriter(s: System, root: Token, q: Process)
    requires WellFormed(s.server.log)
  {
    && q.cfg.userKey == 0
    && OfLogin(s, root, q.auth.refreshToken)
    && OfLogin(s, root, SeenBy(q))
    && OfLogin(s, root, HeldBy(q))
    && (q.spot.Working? ==> !q.spot.point.Exchanging?)
    && (q.spot.Working? && q.spot.point.Refreshing? ==> q.spot.point.token != 0)
  }

  ghost predicate OneLoginState(s: System, root: Token, q: Process)
    requires WellFormed(s.server.log)
  {
    && (MayWrite(q.cfg) ==> OneLoginWriter(s, root, q))
    && (q.cfg.sessionID == 0 && q.spot.Working? ==> q.spot.point == Finished(RETRYABLE))
  }

  ghost predicate OneLoginProcess(s: System, root: Token, pid: nat)
    requires WellFormed(s.server.log) && pid in s.processes
  {
    OneLoginState(s, root, s.processes[pid]) && Routed(s, pid)
  }

  ghost predicate OneLogin(s: System, root: Token) {
    && WellFormed(s.server.log)
    && (forall i :: 0 <= i < |s.writes| ==> OfLogin(s, root, s.writes[i]))
    && (forall pid :: pid in s.processes ==> OneLoginProcess(s, root, pid))
  }

  lemma PutKeepsOneLogin(s: System, root: Token, pid: nat, q: Process)
    requires OneLogin(s, root)
    requires OneLoginState(s, root, q) && (q.spot.Working? ==> q.spot.awaits == None)
    ensures OneLogin(Put(s, pid, q), root)
  {
    var r := Put(s, pid, q);
    forall p | p in r.processes
      ensures OneLoginProcess(r, root, p)
    {
      if p != pid {
        assert OneLoginProcess(s, root, p);
      }
    }
  }

  lemma LongerLogKeepsLogin(s: System, root: Token, server: Server, t: Token)
    requires WellFormed(s.server.log) && WellFormed(server.log) && OfLogin(s, root, t)
    requires server.log == s.server.log || exists e: Issued :: server.log == s.server.log + [e]
    ensures OfLogin(s.(server := server), root, t)
  {
    if t != 0 && server.log != s.server.log {
      var e: Issued :| server.log == s.server.log + [e];
      IssueKeepsLineage(s.server.log, e, 0, t);
    }
  }

  /** A server step that closes no handler. */
  lemma ServerKeepsOneLogin(s: System, root: Token, server: Server)
    requires OneLogin(s, root) && WellFormed(server.log)
    requires server.log == s.server.log || exists e: Issued :: server.log == s.server.log + [e]
    requires forall id :: id in s.server.handlers ==> id in server.handlers && server.handlers[id].token == s.server.handlers[id].token
    ensures OneLogin(s.(server := server), root)
  {
    var r := s.(server := server);
    forall i | 0 <= i < |r.writes|
      ensures OfLogin(r, root, r.writes[i])
    {
      LongerLogKeepsLogin(s, root, server, s.writes[i]);
    }
    forall p | p in r.processes
      ensures OneLoginProcess(r, root, p)
    {
      var q := s.processes[p];
      assert OneLoginProcess(s, root, p);
      if MayWrite(q.cfg) {
        LongerLogKeepsLogin(s, root, server, q.auth.refreshToken);
        LongerLogKeepsLogin(s, root, server, SeenBy(q));
        LongerLogKeepsLogin(s, root, server, HeldBy(q));
      }
    }
  }

  lemma AdvanceKeepsOneLogin(s: System, root: Token, id: nat, now: int, usable: bool, signed: bool, ttl: int)
    requires Inv(s) && OneLogin(s, root)
    ensures OneLogin(s.(server := Next(s.server, Advance(id, now, usable, signed, ttl))), root)
  {
    var move := Advance(id, now, usable, signed, ttl);
    NextKeepsValid(s.server, move);
    if id in s.server.handlers {
      AdvanceShape(s.server, id, now, usable, signed, ttl);
      ServerKeepsOneLogin(s, root, Next(s.server, move));
    }
  }

  lemma ResumeWithoutKey(cfg: Config, auth: AuthSession, p: Point, r: Reply)
    requires !p.Finished? && !p.Exchanging? && cfg.userKey == 0
    ensures !Resume(cfg, auth, p, r).Exchanging?
    ensures Resume(cfg, auth, p, r).Refreshing? ==> Resume(cfg, auth, p, r).token != 0
  {
  }

  lemma TakeKeepsOneLogin(s: System, root: Token, pid: nat, r: Reply)
    requires OneLogin(s, root) && AtCall(s, pid) && ProfileValid(s) && GrantIsWhole(s.processes[pid].spot.point)
    requires s.processes[pid].spot.point.Loading? && r.Content? && r.file.Profile? ==> r.file == s.profile
    requires MayWrite(s.processes[pid].cfg) && AtServerCall(s, pid) && SessionOf(r).Some? ==> OfLogin(s, root, r.session.refreshToken)
    ensures OneLogin(Take(s, pid, r), root)
  {
    var q := s.processes[pid];
    assert OneLoginProcess(s, root, pid);
    ResumeTokens(q.cfg, q.auth, q.spot.point, r);
    if MayWrite(q.cfg) {
      ResumeWithoutKey(q.cfg, q.auth, q.spot.point, r);
    }
    PutKeepsOneLogin(s, root, pid, q.(spot := Working(Resume(q.cfg, q.auth, q.spot.point, r), None)));
  }

  /** A process sends its request to a handler nobody awaits yet. */
  lemma AwaitKeepsOneLogin(s: System, root: Token, pid: nat, id: nat)
    requires OneLogin(s, root) && AtServerCall(s, pid) && id in s.server.handlers && !Awaited(s, id)
    requires s.processes[pid].spot.point.Refreshing? ==> s.server.handlers[id].token == s.processes[pid].spot.point.token
    ensures OneLogin(Put(s, pid, s.processes[pid].(spot := Working(s.processes[pid].spot.point, Some(id)))), root)
  {
    var r := Put(s, pid, s.processes[pid].(spot := Working(s.processes[pid].spot.point, Some(id))));
    forall p | p in r.processes
      ensures OneLoginProcess(r, root, p)
    {
      assert OneLoginProcess(s, root, p);
    }
  }

  lemma NobodyAwaits(s: System, root: Token, id: nat)
    requires OneLogin(s, root) && id !in s.server.handlers
    ensures !Awaited(s, id)
  {
    forall p | p in s.processes && s.processes[p].spot.Working?
      ensures s.processes[p].spot.awaits != Some(id)
    {
      assert OneLoginProcess(s, root, p);
    }
  }

  lemma RequestKeepsOneLogin(s: System, root: Token, pid: nat, id: nat, owner: string)
    requires Inv(s) && OneLogin(s, root)
    ensures OneLogin(Act(s, Request(pid, id, owner)), root)
  {
    if AtServerCall(s, pid) && s.processes[pid].spot.awaits.None? && id !in s.server.handlers {
      var p := s.processes[pid].spot.point;
      var move := if p.Refreshing? then AcceptRefresh(id, p.token) else AcceptLogin(id, owner);
      NobodyAwaits(s, root, id);
      NextKeepsValid(s.server, move);
      ServerKeepsOneLogin(s, root, Next(s.server, move));
      AwaitKeepsOneLogin(s.(server := Next(s.server, move)), root, pid, id);
    }
  }

  /** The system once process `pid` has taken the answer of handler `id` off the wire. */
  function Collected(s: System, pid: nat, id: nat): System
    requires pid in s.processes && s.processes[pid].spot.Working?
  {
    var q := s.processes[pid];
    Put(s.(server := Next(s.server, Close(id))), pid, q.(spot := Working(q.spot.point, None)))
  }

  lemma CollectKeepsInv(s: System, pid: nat, id: nat)
    requires Inv(s) && AtServerCall(s, pid)
    ensures Inv(Collected(s, pid, id))
  {
    var closed := s.(server := Next(s.server, Close(id)));
    CloseKeepsInv(s, id);
    assert ProcessValid(closed, pid);
    PutKeepsInv(closed, pid, s.processes[pid].(spot := Working(s.processes[pid].spot.point, None)));
  }

  lemma CollectKeepsOneLogin(s: System, root: Token, pid: nat, id: nat)
    requires OneLogin(s, root) && AtServerCall(s, pid) && s.processes[pid].spot.awaits == Some(id)
    ensures OneLogin(Collected(s, pid, id), root)
  {
    var r := Collected(s, pid, id);
    assert OneLoginProcess(s, root, pid);
    forall p | p in r.processes
      ensures OneLoginProcess(r, root, p)
    {
      assert OneLoginProcess(s, root, p);
    }
  }

  /** A handler nobody awaits is closed. */
  lemma CloseKeepsOneLogin(s: System, root: Token, id: nat)
    requires OneLogin(s, root) && !Awaited(s, id)
    ensures OneLogin(s.(server := Next(s.server, Close(id))), root)
  {
    var r := s.(server := Next(s.server, Close(id)));
    forall p | p in r.processes
      ensures OneLoginProcess(r, root, p)
    {
      assert OneLoginProcess(s, root, p);
    }
  }

  /** The answer is a session of the same login, if the process may write. */
  lemma AnswerIsOfLogin(s: System, root: Token, pid: nat, id: nat)
    requires Inv(s) && OneLogin(s, root)
    requires AtServerCall(s, pid) && s.processes[pid].spot.awaits == Some(id)
    ensures id in s.server.handlers
    ensures MayWrite(s.processes[pid].cfg) && s.server.handlers[id].phase.Answered? ==> OfLogin(s, root, s.server.handlers[id].phase.session)
  {
    assert OneLoginProcess(s, root, pid);
    assert ClaimValid(s.server, id);
  }

  function ReplyOf(phase: Phase, accessExpiresAt: nat, refreshExpiresAt: nat): Reply {
    if phase.Answered? then Granted(AuthSession(phase.session, accessExpiresAt, phase.session, refreshExpiresAt))
    else Rejected(Status(401))
  }

  lemma ReceiveIsTake(s: System, pid: nat, id: nat, accessExpiresAt: nat, refreshExpiresAt: nat)
    requires AtServerCall(s, pid) && s.processes[pid].spot.awaits == Some(id) && id in s.server.handlers
    ensures var phase := s.server.handlers[id].phase;
            Act(s, Receive(pid, accessExpiresAt, refreshExpiresAt)) ==
            if phase.Answered? || phase.Refused? then
              Take(Collected(s, pid, id), pid, ReplyOf(phase, accessExpiresAt, refreshExpiresAt))
            else s
  {
    var phase := s.server.handlers[id].phase;
    if phase.Answered? || phase.Refused? {
      var reply := ReplyOf(phase, accessExpiresAt, refreshExpiresAt);
      var closed := s.(server := Next(s.server, Close(id)));
      assert Take(Collected(s, pid, id), pid, reply).processes == Take(closed, pid, reply).processes;
    }
  }

  lemma TakeCollected(s: System, root: Token, pid: nat, id: nat, r: Reply)
    requires Inv(s) && OneLogin(s, root) && AtServerCall(s, pid) && s.processes[pid].spot.awaits == Some(id)
    requires MayWrite(s.processes[pid].cfg) && SessionOf(r).Some? ==> OfLogin(s, root, r.session.refreshToken)
    ensures OneLogin(Take(Collected(s, pid, id), pid, r), root)
  {
    CollectKeepsInv(s, pid, id);
    CollectKeepsOneLogin(s, root, pid, id);
    assert ProcessValid(Collected(s, pid, id), pid);
    TakeKeepsOneLogin(Collected(s, pid, id), root, pid, r);
  }

  lemma ReceiveKeepsOneLogin(s: System, root: Token, pid: nat, accessExpiresAt: nat, refreshExpiresAt: nat)
    requires Inv(s) && OneLogin(s, root)
    ensures OneLogin(Act(s, Receive(pid, accessExpiresAt, refreshExpiresAt)), root)
  {
    if AtServerCall(s, pid) && s.processes[pid].spot.awaits.Some? {
      var id := s.processes[pid].spot.awaits.value;
      AnswerIsOfLogin(s, root, pid, id);
      ReceiveIsTake(s, pid, id, accessExpiresAt, refreshExpiresAt);
      if s.server.handlers[id].phase.Answered? || s.server.handlers[id].phase.Refused? {
        TakeCollected(s, root, pid, id, ReplyOf(s.server.handlers[id].phase, accessExpiresAt, refreshExpiresAt));
      }
    }
  }

  lemma ProfileKeepsOneLogin(s: System, root: Token, profile: ProfileFile, t: Token)
    requires OneLogin(s, root) && OfLogin(s, root, t)
    ensures OneLogin(s.(profile := profile, writes := s.writes + [t]), root)
  {
    var r := s.(profile := profile, writes := s.writes + [t]);
    forall p | p in r.processes
      ensures OneLoginProcess(r, root, p)
    {
      assert OneLoginProcess(s, root, p);
    }
  }

  lemma SettleKeepsOneLogin(s: System, root: Token, pid: nat, saved: bool)
    requires OneLogin(s, root)
    ensures OneLogin(Act(s, Settle(pid, saved)), root)
  {
    if pid in s.processes && s.processes[pid].spot.Working? && s.processes[pid].spot.point.Finished? {
      var q := s.processes[pid];
      var r := SettleProcess(s, pid, saved);
      assert OneLoginProcess(s, root, pid);
      PutKeepsOneLogin(s, root, pid, r.processes[pid]);
      if r.writes != s.writes {
        ProfileKeepsOneLogin(Put(s, pid, r.processes[pid]), root, r.profile, q.spot.point.outcome.session.refreshToken);
      }
    }
  }

  lemma ServerActKeepsOneLogin(s: System, root: Token, a: Action)
    requires Inv(s) && OneLogin(s, root) && AtServer(a)
    ensures OneLogin(Act(s, a), root)
  {
    match a
    case Serve(id, now, usable, signed, ttl) => AdvanceKeepsOneLogin(s, root, id, now, usable, signed, ttl);
    case CleanUp(cutoff) =>
      NextKeepsValid(s.server, Sweep(cutoff));
      ServerKeepsOneLogin(s, root, Next(s.server, Sweep(cutoff)));
    case PresentWritten(id, k) =>
      if k < |s.writes| {
        NextKeepsValid(s.server, AcceptRefresh(id, s.writes[k]));
        ServerKeepsOneLogin(s, root, Next(s.server, AcceptRefresh(id, s.writes[k])));
      }
    case LogIn(id, owner) =>
      NextKeepsValid(s.server, AcceptLogin(id, owner));
      ServerKeepsOneLogin(s, root, Next(s.server, AcceptLogin(id, owner)));
  }

  lemma JoinFromProfileKeepsOneLogin(s: System, root: Token, pid: nat, cfg: Config)
    requires Inv(s) && OneLogin(s, root) && FollowsProfile(FromProfile(cfg))
    ensures OneLogin(Act(s, JoinFromProfile(pid, cfg)), root)
  {
    if pid !in s.processes && LoadFromProfile(cfg, s.profile).Some? {
      PutKeepsOneLogin(s, root, pid, Process(cfg, Remembered(s.profile.session), Idle));
    }
  }

  lemma JoinFromLoginKeepsOneLogin(s: System, root: Token, pid: nat, cfg: Config, id: nat)
    requires Inv(s) && OneLogin(s, root) && FollowsProfile(FromLogin(cfg))
    ensures OneLogin(Act(s, JoinFromLogin(pid, cfg, id)), root)
  {
    if pid !in s.processes && id in s.server.handlers && s.server.handlers[id].phase.Answered? && !Awaited(s, id) {
      var session := s.server.handlers[id].phase.session;
      CloseKeepsOneLogin(s, root, id);
      PutKeepsOneLogin(s.(server := Next(s.server, Close(id))), root, pid, Process(cfg, CurrentAuth(session, session), Idle));
    }
  }

  lemma StartBeatKeepsOneLogin(s: System, root: Token, pid: nat)
    requires OneLogin(s, root)
    ensures OneLogin(Act(s, StartBeat(pid)), root)
  {
    if pid in s.processes && s.processes[pid].spot.Idle? {
      var q := s.processes[pid];
      assert OneLoginProcess(s, root, pid);
      PutKeepsOneLogin(s, root, pid, q.(spot := Working(Begin(q.cfg, q.auth), None)));
    }
  }

  lemma StartKeepsOneLogin(s: System, root: Token, starts: iset<Start>, a: Action)
    requires Inv(s) && OneLogin(s, root) && AllFollow(starts) && StartsIn(starts, a) && Starts(a)
    ensures OneLogin(Act(s, a), root)
  {
    match a
    case JoinFromProfile(pid, cfg) => JoinFromProfileKeepsOneLogin(s, root, pid, cfg);
    case JoinFromLogin(pid, cfg, id) => JoinFromLoginKeepsOneLogin(s, root, pid, cfg, id);
    case StartBeat(pid) => StartBeatKeepsOneLogin(s, root, pid);
  }

  lemma AnswerKeepsOneLogin(s: System, root: Token, pid: nat, reply: Reply)
    requires Inv(s) && OneLogin(s, root)
    ensures OneLogin(Act(s, Answer(pid, reply)), root)
  {
    if AtCall(s, pid) && (s.processes[pid].spot.point.Beating? || s.processes[pid].spot.point.Registering?) {
      assert ProcessValid(s, pid);
      TakeKeepsOneLogin(s, root, pid, reply);
    }
  }

  lemma ReadProfileKeepsOneLogin(s: System, root: Token, pid: nat, readable: bool)
    requires Inv(s) && OneLogin(s, root)
    ensures OneLogin(Act(s, ReadProfile(pid, readable)), root)
  {
    if AtCall(s, pid) && s.processes[pid].spot.point.Loading? {
      assert ProcessValid(s, pid);
      TakeKeepsOneLogin(s, root, pid, Content(if readable then s.profile else Unreadable));
    }
  }

  lemma GiveUpKeepsOneLogin(s: System, root: Token, pid: nat)
    requires Inv(s) && OneLogin(s, root)
    ensures OneLogin(Act(s, GiveUp(pid)), root)
  {
    if AtServerCall(s, pid) {
      assert ProcessValid(s, pid);
      TakeKeepsOneLogin(s, root, pid, Rejected(Plain(false, false, false)));
    }
  }

  lemma StepKeepsOneLogin(s: System, root: Token, a: Action)
    requires Inv(s) && OneLogin(s, root) && !AtServer(a) && !Starts(a)
    ensures OneLogin(Act(s, a), root)
  {
    match a
    case Answer(pid, reply) => AnswerKeepsOneLogin(s, root, pid, reply);
    case ReadProfile(pid, readable) => ReadProfileKeepsOneLogin(s, root, pid, readable);
    case Request(pid, id, owner) => RequestKeepsOneLogin(s, root, pid, id, owner);
    case Receive(pid, accessExpiresAt, refreshExpiresAt) => ReceiveKeepsOneLogin(s, root, pid, accessExpiresAt, refreshExpiresAt);
    case GiveUp(pid) => GiveUpKeepsOneLogin(s, root, pid);
    case Settle(pid, saved) => SettleKeepsOneLogin(s, root, pid, saved);
  }

  lemma ActKeepsOneLogin(s: System, root: Token, starts: iset<Start>, a: Action)
    requires Inv(s) && OneLogin(s, root) && AllFollow(starts) && StartsIn(starts, a)
    ensures OneLogin(Act(s, a), root)
  {
    if AtServer(a) {
      ServerActKeepsOneLogin(s, root, a);
    } else if Starts(a) {
      StartKeepsOneLogin(s, root, starts, a);
    } else {
      StepKeepsOneLogin(s, root, a);
    }
  }

  lemma {:induction false} ExecKeepsOneLogin(s: System, root: Token, starts: iset<Start>, actions: seq<Action>)
    requires Inv(s) && OneLogin(s, root) && AllFollow(starts) && AllStartIn(starts, actions)
    ensures Inv(Exec(s, actions)) && OneLogin(Exec(s, actions), root)
  {
    if actions != [] {
      var before := actions[..|actions| - 1];
      ExecKeepsOneLogin(s, root, starts, before);
      ActKeepsInv(Exec(s, before), actions[|actions| - 1]);
      ActKeepsOneLogin(Exec(s, before), root, starts, actions[|actions| - 1]);
    }
  }

  /** If every process that may write starts from the profile and has no user
      key, all tokens ever written lie forward on one chain, whatever the other
      processes do. */
  lemma StaysOnOneChain(s: System, starts: iset<Start>, actions: seq<Action>)
    requires Initial(s) && AllFollow(starts) && AllStartIn(starts, actions)
    ensures KeepsOneChain(s, actions)
  {
    InitialIsInv(s);
    var root := if s.writes == [] then 0 else Login(s.server.log, s.writes[0]);
    ExecKeepsOneLogin(s, root, starts, actions);
  }

  /** The main result: with processes as the program starts them, with and
      without user keys side by side, all tokens ever written lie forward on one
      chain, in every interleaving. */
  lemma ProgramStaysOnOneChain(s: System, actions: seq<Action>)
    requires Initial(s) && AllStartIn(ProgramStarts(), actions)
    ensures KeepsOneChain(s, actions)
  {
    StaysOnOneChain(s, ProgramStarts(), actions);
  }

  // --- any other start leaves the chain ---

  const ONE_LOGIN := Server([Issued(0, ""), Issued(0, "u")], map[1 := RefreshTokens.Record("u", 10)], map[])

  /** No process runs yet; the profile holds the one token issued. */
  function FreshProfile(cfg: Config): System {
    System(ONE_LOGIN, map[], Profile(cfg.controlPlane, AuthSession(1, 5, 1, 5)), [1])
  }

  lemma OneLoginIsReachable(cfg: Config)
    ensures Initial(FreshProfile(cfg))
  {
    var moves := [AcceptLogin(0, "u"), Advance(0, 0, true, true, 10), Close(0)];
    assert moves[..2] == [AcceptLogin(0, "u"), Advance(0, 0, true, true, 10)];
    assert moves[..2][..1] == [AcceptLogin(0, "u")];
    var accepted := Next(Boot(), AcceptLogin(0, "u"));
    assert Run([AcceptLogin(0, "u")]) == accepted;
    var issued := Next(accepted, Advance(0, 0, true, true, 10));
    assert Run(moves[..2]) == issued;
    assert Run(moves) == Next(issued, Close(0));
    assert Next(issued, Close(0)) == ONE_LOGIN;
  }

  /** The actions lead through the states. */
  lemma {:induction false} Trace(states: seq<System>, plan: seq<Action>)
    requires |states| == |plan| + 1 && forall k :: 0 <= k < |plan| ==> Act(states[k], plan[k]) == states[k + 1]
    ensures Exec(states[0], plan) == states[|plan|]
  {
    if plan != [] {
      Trace(states[..|plan|], plan[..|plan| - 1]);
    }
  }

  lemma {:induction false} ExecSplit(s: System, first: seq<Action>, rest: seq<Action>)
    ensures Exec(s, first + rest) == Exec(Exec(s, first), rest)
  {
    if rest == [] {
      assert first + rest == first;
    } else {
      assert (first + rest)[..|first + rest| - 1] == first + rest[..|rest| - 1];
      ExecSplit(s, first, rest[..|rest| - 1]);
    }
  }

  const TWO_LOGINS := Server([Issued(0, ""), Issued(0, "u"), Issued(0, "u")],
                             map[1 := RefreshTokens.Record("u", 10), 2 := RefreshTokens.Record("u", 10)],
                             map[])

  const LOGIN_PENDING := ONE_LOGIN.(handlers := map[0 := Handler(0, Issuing("u"))])
  const LOGIN_ANSWERED := TWO_LOGINS.(handlers := map[0 := Handler(0, Answered(2))])

  const SERVE := Serve(0, 0, true, true, 10)

  lemma LoginIsGranted()
    ensures Next(ONE_LOGIN, AcceptLogin(0, "u")) == LOGIN_PENDING
    ensures Next(LOGIN_PENDING, Advance(0, 0, true, true, 10)) == LOGIN_ANSWERED
    ensures Next(LOGIN_ANSWERED, Close(0)) == TWO_LOGINS
  {
    assert Text.Trim("u") == "u";
    assert Next(LOGIN_PENDING, Advance(0, 0, true, true, 10)).log == TWO_LOGINS.log;
    assert Next(LOGIN_ANSWERED, Close(0)).handlers == map[];
  }

  /** The fresh profile with one process. */
  function With(cfg: Config, server: Server, token: Token, spot: Spot): System {
    FreshProfile(cfg).(server := server, processes := map[0 := Process(cfg, AuthSession(token, 0, token, 0), spot)])
  }

  const UNAUTHORIZED := Rejected(Status(401))

  // --- a writer with a user key ---

  const LOGIN_GRANTED := AuthSession(2, 6, 2, 6)

  /** Its refresh gets lost and it cannot read the profile. */
  function RefreshLost(cfg: Config): seq<Action> {
    [JoinFromProfile(0, cfg), StartBeat(0), Answer(0, UNAUTHORIZED), GiveUp(0), ReadProfile(0, false)]
  }

  const KEY_USED := [Request(0, 0, "u"), SERVE, Receive(0, 6, 6), Answer(0, Passed), Settle(0, true)]

  function KeyedAt(cfg: Config, p: Point): System {
    With(cfg, ONE_LOGIN, 1, Working(p, None))
  }

  lemma KeyedBegins(cfg: Config)
    requires MayWrite(cfg)
    ensures Act(FreshProfile(cfg), JoinFromProfile(0, cfg)) == With(cfg, ONE_LOGIN, 1, Idle)
    ensures Act(With(cfg, ONE_LOGIN, 1, Idle), StartBeat(0)) == KeyedAt(cfg, Beating(First, AuthSession(1, 0, 1, 0)))
  {
  }

  lemma KeyedFalters(cfg: Config)
    requires MayWrite(cfg) && cfg.userKey != 0
    ensures Act(KeyedAt(cfg, Beating(First, AuthSession(1, 0, 1, 0))), Answer(0, UNAUTHORIZED)) == KeyedAt(cfg, Refreshing(false, 1))
    ensures Act(KeyedAt(cfg, Refreshing(false, 1)), GiveUp(0)) == KeyedAt(cfg, Loading(true))
    ensures Act(KeyedAt(cfg, Loading(true)), ReadProfile(0, false)) == KeyedAt(cfg, Exchanging)
  {
  }

  lemma RefreshIsLost(cfg: Config)
    requires MayWrite(cfg) && cfg.userKey != 0
    ensures Exec(FreshProfile(cfg), RefreshLost(cfg)) == KeyedAt(cfg, Exchanging)
  {
    KeyedBegins(cfg);
    KeyedFalters(cfg);
    Trace([FreshProfile(cfg), With(cfg, ONE_LOGIN, 1, Idle), KeyedAt(cfg, Beating(First, AuthSession(1, 0, 1, 0))),
           KeyedAt(cfg, Refreshing(false, 1)), KeyedAt(cfg, Loading(true)), KeyedAt(cfg, Exchanging)], RefreshLost(cfg));
  }

  lemma KeyIsAsked(cfg: Config)
    ensures Act(KeyedAt(cfg, Exchanging), Request(0, 0, "u")) == With(cfg, LOGIN_PENDING, 1, Working(Exchanging, Some(0)))
    ensures Act(With(cfg, LOGIN_PENDING, 1, Working(Exchanging, Some(0))), SERVE) == With(cfg, LOGIN_ANSWERED, 1, Working(Exchanging, Some(0)))
  {
    LoginIsGranted();
  }

  lemma KeyIsReceived(cfg: Config)
    requires MayWrite(cfg)
    ensures Act(With(cfg, LOGIN_ANSWERED, 1, Working(Exchanging, Some(0))), Receive(0, 6, 6))
         == With(cfg, TWO_LOGINS, 1, Working(Beating(AfterExchange, LOGIN_GRANTED), None))
  {
    LoginIsGranted();
  }

  lemma SessionPasses(cfg: Config, server: Server, token: Token, stage: Stage, next: AuthSession)
    requires FromServer(stage)
    ensures Act(With(cfg, server, token, Working(Beating(stage, next), None)), Answer(0, Passed))
         == With(cfg, server, token, Working(Finished(Recovered(next, UpdateMode.Refreshed)), None))
  {
  }

  lemma SessionIsWritten(cfg: Config, server: Server, token: Token, next: AuthSession)
    requires MayWrite(cfg)
    ensures var r := Act(With(cfg, server, token, Working(Finished(Recovered(next, UpdateMode.Refreshed)), None)), Settle(0, true));
            r.server == server && r.writes == [1, next.refreshToken]
  {
  }

  /** The key's session passes a heartbeat and is written. */
  lemma KeyIsUsed(cfg: Config)
    requires MayWrite(cfg)
    ensures Exec(KeyedAt(cfg, Exchanging), KEY_USED).server == TWO_LOGINS
    ensures Exec(KeyedAt(cfg, Exchanging), KEY_USED).writes == [1, 2]
  {
    var passed := With(cfg, TWO_LOGINS, 1, Working(Finished(Recovered(LOGIN_GRANTED, UpdateMode.Refreshed)), None));
    KeyIsAsked(cfg);
    KeyIsReceived(cfg);
    SessionPasses(cfg, TWO_LOGINS, 1, AfterExchange, LOGIN_GRANTED);
    SessionIsWritten(cfg, TWO_LOGINS, 1, LOGIN_GRANTED);
    Trace([KeyedAt(cfg, Exchanging), With(cfg, LOGIN_PENDING, 1, Working(Exchanging, Some(0))),
           With(cfg, LOGIN_ANSWERED, 1, Working(Exchanging, Some(0))),
           With(cfg, TWO_LOGINS, 1, Working(Beating(AfterExchange, LOGIN_GRANTED), None)), passed, Act(passed, Settle(0, true))], KEY_USED);
  }

  lemma TwoChains(r: System, t: Token)
    requires r.writes == [1, t] && Known(r.server.log, t) && t > 1 && r.server.log[t].parent in {0, 2}
    requires |r.server.log| > 2 && r.server.log[2].parent == 0
    ensures !OneChain(r.server.log, r.writes)
  {
    var log := r.server.log;
    if WellFormed(log) {
      assert !Descends(log, 1, 2);
      assert !Rotated(log, 1, t);
    }
    assert r.writes[0] == 1 && r.writes[1] == t;
  }

  lemma KeyLeavesTheChain(cfg: Config)
    requires MayWrite(cfg) && cfg.userKey != 0
    ensures Initial(FreshProfile(cfg)) && AllStartIn(iset{FromProfile(cfg)}, RefreshLost(cfg) + KEY_USED)
    ensures !KeepsOneChain(FreshProfile(cfg), RefreshLost(cfg) + KEY_USED)
  {
    OneLoginIsReachable(cfg);
    RefreshIsLost(cfg);
    KeyIsUsed(cfg);
    ExecSplit(FreshProfile(cfg), RefreshLost(cfg), KEY_USED);
    TwoChains(Exec(FreshProfile(cfg), RefreshLost(cfg) + KEY_USED), 2);
  }

  // --- a writer that starts from a login ---

  function LoggedIn(cfg: Config): seq<Action> {
    [LogIn(0, "u"), SERVE, JoinFromLogin(0, cfg, 0), StartBeat(0), Answer(0, UNAUTHORIZED)]
  }

  const TOKEN_ASKED := [Request(0, 0, "u"), SERVE, SERVE, SERVE, SERVE]
  const TOKEN_USED := [Receive(0, 6, 6), Answer(0, Passed), Settle(0, true)]

  const LOGIN_ROTATED := Server([Issued(0, ""), Issued(0, "u"), Issued(0, "u"), Issued(2, "u")],
                                map[1 := RefreshTokens.Record("u", 10), 3 := RefreshTokens.Record("u", 10)],
                                map[])

  const TOKEN_GRANTED := AuthSession(3, 6, 3, 6)

  /** The system while handler 0 refreshes token 2 for the process. */
  function Awaiting(cfg: Config, server: Server, phase: Phase): System {
    With(cfg, server.(handlers := map[0 := Handler(2, phase)]), 2, Working(Point.Refreshing(false, 2), Some(0)))
  }

  lemma LoginJoins(cfg: Config)
    ensures Act(FreshProfile(cfg), LogIn(0, "u")) == FreshProfile(cfg).(server := LOGIN_PENDING)
    ensures Act(FreshProfile(cfg).(server := LOGIN_PENDING), SERVE) == FreshProfile(cfg).(server := LOGIN_ANSWERED)
    ensures Act(FreshProfile(cfg).(server := LOGIN_ANSWERED), JoinFromLogin(0, cfg, 0)) == With(cfg, TWO_LOGINS, 2, Idle)
  {
    LoginIsGranted();
  }

  lemma LoginBeats(cfg: Config)
    requires MayWrite(cfg)
    ensures Act(With(cfg, TWO_LOGINS, 2, Idle), StartBeat(0)) == With(cfg, TWO_LOGINS, 2, Working(Beating(First, AuthSession(2, 0, 2, 0)), None))
    ensures Act(With(cfg, TWO_LOGINS, 2, Working(Beating(First, AuthSession(2, 0, 2, 0)), None)), Answer(0, UNAUTHORIZED))
         == With(cfg, TWO_LOGINS, 2, Working(Point.Refreshing(false, 2), None))
  {
  }

  lemma LoginRunsOut(cfg: Config)
    requires MayWrite(cfg)
    ensures Exec(FreshProfile(cfg), LoggedIn(cfg)) == With(cfg, TWO_LOGINS, 2, Working(Point.Refreshing(false, 2), None))
  {
    LoginJoins(cfg);
    LoginBeats(cfg);
    Trace([FreshProfile(cfg), FreshProfile(cfg).(server := LOGIN_PENDING), FreshProfile(cfg).(server := LOGIN_ANSWERED),
           With(cfg, TWO_LOGINS, 2, Idle), With(cfg, TWO_LOGINS, 2, Working(Beating(First, AuthSession(2, 0, 2, 0)), None)),
           With(cfg, TWO_LOGINS, 2, Working(Point.Refreshing(false, 2), None))], LoggedIn(cfg));
  }

  const SPENT := TWO_LOGINS.(store := map[1 := RefreshTokens.Record("u", 10)])

  lemma TokenIsChecked(cfg: Config)
    ensures Act(With(cfg, TWO_LOGINS, 2, Working(Point.Refreshing(false, 2), None)), Request(0, 0, "u")) == Awaiting(cfg, TWO_LOGINS, Peeking)
    ensures Act(Awaiting(cfg, TWO_LOGINS, Peeking), SERVE) == Awaiting(cfg, TWO_LOGINS, LookingUp("u"))
    ensures Act(Awaiting(cfg, TWO_LOGINS, LookingUp("u")), SERVE) == Awaiting(cfg, TWO_LOGINS, Consuming("u"))
  {
  }

  lemma TokenIsRotated(cfg: Config)
    ensures Act(Awaiting(cfg, TWO_LOGINS, Consuming("u")), SERVE) == Awaiting(cfg, SPENT, Issuing("u"))
    ensures Act(Awaiting(cfg, SPENT, Issuing("u")), SERVE) == Awaiting(cfg, LOGIN_ROTATED, Answered(3))
  {
    assert Text.Trim("u") == "u";
    assert TWO_LOGINS.store - {2} == SPENT.store;
    assert SPENT.store[3 := RefreshTokens.Record("u", 10)] == LOGIN_ROTATED.store;
  }

  lemma TokenIsAsked(cfg: Config)
    ensures Exec(With(cfg, TWO_LOGINS, 2, Working(Point.Refreshing(false, 2), None)), TOKEN_ASKED) == Awaiting(cfg, LOGIN_ROTATED, Answered(3))
  {
    TokenIsChecked(cfg);
    TokenIsRotated(cfg);
    Trace([With(cfg, TWO_LOGINS, 2, Working(Point.Refreshing(false, 2), None)), Awaiting(cfg, TWO_LOGINS, Peeking),
           Awaiting(cfg, TWO_LOGINS, LookingUp("u")), Awaiting(cfg, TWO_LOGINS, Consuming("u")), Awaiting(cfg, SPENT, Issuing("u")),
           Awaiting(cfg, LOGIN_ROTATED, Answered(3))], TOKEN_ASKED);
  }

  lemma TokenIsReceived(cfg: Config)
    requires MayWrite(cfg)
    ensures Act(Awaiting(cfg, LOGIN_ROTATED, Answered(3)), Receive(0, 6, 6))
         == With(cfg, LOGIN_ROTATED, 2, Working(Beating(AfterRefresh, TOKEN_GRANTED), None))
  {
    assert Next(LOGIN_ROTATED.(handlers := map[0 := Handler(2, Answered(3))]), Close(0)).handlers == map[];
  }

  lemma TokenIsUsed(cfg: Config)
    requires MayWrite(cfg)
    ensures Exec(Awaiting(cfg, LOGIN_ROTATED, Answered(3)), TOKEN_USED).server == LOGIN_ROTATED
    ensures Exec(Awaiting(cfg, LOGIN_ROTATED, Answered(3)), TOKEN_USED).writes == [1, 3]
  {
    var passed := With(cfg, LOGIN_ROTATED, 2, Working(Finished(Recovered(TOKEN_GRANTED, UpdateMode.Refreshed)), None));
    TokenIsReceived(cfg);
    SessionPasses(cfg, LOGIN_ROTATED, 2, AfterRefresh, TOKEN_GRANTED);
    SessionIsWritten(cfg, LOGIN_ROTATED, 2, TOKEN_GRANTED);
    Trace([Awaiting(cfg, LOGIN_ROTATED, Answered(3)), With(cfg, LOGIN_ROTATED, 2, Working(Beating(AfterRefresh, TOKEN_GRANTED), None)),
           passed, Act(passed, Settle(0, true))], TOKEN_USED);
  }

  function LoginRun(cfg: Config): seq<Action> {
    LoggedIn(cfg) + TOKEN_ASKED + TOKEN_USED
  }

  lemma LoginIsUsed(cfg: Config)
    requires MayWrite(cfg)
    ensures Exec(FreshProfile(cfg), LoginRun(cfg)).server == LOGIN_ROTATED
    ensures Exec(FreshProfile(cfg), LoginRun(cfg)).writes == [1, 3]
  {
    LoginRunsOut(cfg);
    TokenIsAsked(cfg);
    TokenIsUsed(cfg);
    ExecSplit(FreshProfile(cfg), LoggedIn(cfg), TOKEN_ASKED);
    ExecSplit(FreshProfile(cfg), LoggedIn(cfg) + TOKEN_ASKED, TOKEN_USED);
  }

  lemma LoginLeavesTheChain(cfg: Config)
    requires MayWrite(cfg)
    ensures Initial(FreshProfile(cfg)) && AllStartIn(iset{FromLogin(cfg)}, LoginRun(cfg))
    ensures !KeepsOneChain(FreshProfile(cfg), LoginRun(cfg))
  {
    OneLoginIsReachable(cfg);
    LoginIsUsed(cfg);
    TwoChains(Exec(FreshProfile(cfg), LoginRun(cfg)), 3);
  }

  // --- exactly when ---

  /** A start that does not follow the profile is enough for a run that leaves the chain. */
  lemma OtherStartLeavesTheChain(start: Start) returns (s: System, actions: seq<Action>)
    requires !FollowsProfile(start)
    ensures Initial(s) && AllStartIn(iset{start}, actions) && !KeepsOneChain(s, actions)
  {
    s := FreshProfile(start.cfg);
    if start.FromLogin? {
      LoginLeavesTheChain(start.cfg);
      actions := LoginRun(start.cfg);
    } else {
      KeyLeavesTheChain(start.cfg);
      actions := RefreshLost(start.cfg) + KEY_USED;
    }
  }

  /** For any set of ways to start: in every run of processes that start so, every
      token the profile is given was rotated from all those before it, if and
      only if each of them that may write starts from the profile without a user key. */
  lemma OneChainIffWritersFollow(starts: iset<Start>)
    ensures (forall s: System, actions: seq<Action> :: Initial(s) && AllStartIn(starts, actions) ==> KeepsOneChain(s, actions))
            <==> AllFollow(starts)
  {
    if AllFollow(starts) {
      forall s: System, actions: seq<Action> | Initial(s) && AllStartIn(starts, actions)
        ensures KeepsOneChain(s, actions)
      {
        StaysOnOneChain(s, starts, actions);
      }
    } else {
      var start: Start :| start in starts && !FollowsProfile(start);
      var s, actions := OtherStartLeavesTheChain(start);
      assert Initial(s) && AllStartIn(starts, actions);
    }
  }
}
