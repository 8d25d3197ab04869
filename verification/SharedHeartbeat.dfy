/** A process of SharedProfile runs the heartbeat loop of AgentHeartbeat: whatever
    other processes and handlers do in between, what happens from the start of a
    heartbeat to its settling is one beat of the loop. */
module SharedHeartbeat {
  import opened Results
  import opened Lineage
  import opened AuthRecovery
  import opened AgentHeartbeat
  import opened SharedProfile

  // --- a recovery from its replies ---

  /** A world that gives the replies in turn. */
  function Replay(replies: seq<Reply>): Oracle {
    (h: seq<Event>, call: Call) => if |h| < |replies| then replies[|h|] else Passed
  }

  /** Where the recovery is after the replies. */
  function PointAfter(cfg: Config, auth: AuthSession, replies: seq<Reply>): Point {
    if replies == [] then Begin(cfg, auth)
    else
      var p := PointAfter(cfg, auth, replies[..|replies| - 1]);
      if p.Finished? then p else Resume(cfg, auth, p, replies[|replies| - 1])
  }

  /** The recovery was not over before the last reply. */
  ghost predicate AllTaken(cfg: Config, auth: AuthSession, replies: seq<Reply>) {
    forall k :: 0 <= k < |replies| ==> !PointAfter(cfg, auth, replies[..k]).Finished?
  }

  lemma TakenOneMore(cfg: Config, auth: AuthSession, replies: seq<Reply>, r: Reply)
    requires AllTaken(cfg, auth, replies) && !PointAfter(cfg, auth, replies).Finished?
    ensures AllTaken(cfg, auth, replies + [r])
    ensures PointAfter(cfg, auth, replies + [r]) == Resume(cfg, auth, PointAfter(cfg, auth, replies), r)
  {
    var more := replies + [r];
    assert more[..|replies|] == replies;
    forall k | 0 <= k < |more|
      ensures !PointAfter(cfg, auth, more[..k]).Finished?
    {
      assert k < |replies| ==> more[..k] == replies[..k];
    }
  }

  lemma {:induction false} ReplayFollows(cfg: Config, auth: AuthSession, replies: seq<Reply>, k: nat, h: seq<Event>)
    requires AllTaken(cfg, auth, replies) && PointAfter(cfg, auth, replies).Finished? && k == |h| <= |replies|
    ensures Drive(cfg, auth, Replay(replies), h, PointAfter(cfg, auth, replies[..k])).0 == PointAfter(cfg, auth, replies).outcome
    decreases |replies| - k
  {
    if k == |replies| {
      assert replies[..k] == replies;
    } else {
      var p := PointAfter(cfg, auth, replies[..k]);
      assert replies[..k + 1][..k] == replies[..k];
      ReplayFollows(cfg, auth, replies, k + 1, h + [Event(CallAt(p), replies[k])]);
    }
  }

  lemma ReplayRecovers(cfg: Config, auth: AuthSession, replies: seq<Reply>)
    requires AllTaken(cfg, auth, replies) && PointAfter(cfg, auth, replies).Finished?
    ensures Recover(cfg, auth, Replay(replies), []).0 == PointAfter(cfg, auth, replies).outcome
  {
    assert replies[..0] == [];
    ReplayFollows(cfg, auth, replies, 0, []);
    DriveIsRecover(cfg, auth, Replay(replies), []);
  }

  // --- a heartbeat of one process among others ---

  /** The process is in its recovery, and got there by the replies. */
  ghost predicate Recovering(s: System, pid: nat, cfg: Config, auth: AuthSession, replies: seq<Reply>) {
    && pid in s.processes && s.processes[pid].cfg == cfg && s.processes[pid].auth == auth && s.processes[pid].spot.Working?
    && AllTaken(cfg, auth, replies) && s.processes[pid].spot.point == PointAfter(cfg, auth, replies)
  }

  predicate Settles(a: Action, pid: nat) {
    a.Settle? && a.pid == pid
  }

  /** Any action, of whomever, leaves the process where it is or brings it one reply further. */
  lemma ActTakesOneReply(s: System, pid: nat, a: Action) returns (reply: Option<Reply>)
    requires pid in s.processes && s.processes[pid].spot.Working? && !Settles(a, pid)
    ensures var q := s.processes[pid];
            && pid in Act(s, a).processes
            && var next := Act(s, a).processes[pid];
            && next.cfg == q.cfg && next.auth == q.auth && next.spot.Working?
            && match reply
               case None => next.spot.point == q.spot.point
               case Some(r) => !q.spot.point.Finished? && next.spot.point == Resume(q.cfg, q.auth, q.spot.point, r)
  {
    reply := None;
    match a
    case Answer(p, r) =>
      if p == pid && AtCall(s, pid) && (s.processes[pid].spot.point.Beating? || s.processes[pid].spot.point.Registering?) {
        reply := Some(r);
      }
    case ReadProfile(p, readable) =>
      if p == pid && AtCall(s, pid) && s.processes[pid].spot.point.Loading? {
        reply := Some(Content(if readable then s.profile else Unreadable));
      }
    case Receive(p, accessExpiresAt, refreshExpiresAt) =>
      if p == pid && AtServerCall(s, pid) && s.processes[pid].spot.awaits.Some? && s.processes[pid].spot.awaits.value in s.server.handlers {
        match s.server.handlers[s.processes[pid].spot.awaits.value].phase
        case Answered(session) => reply := Some(Granted(AuthSession(session, accessExpiresAt, session, refreshExpiresAt)));
        case Refused => reply := Some(Rejected(Status(401)));
        case _ =>
      }
    case GiveUp(p) =>
      if p == pid && AtServerCall(s, pid) {
        reply := Some(Rejected(Plain(false, false, false)));
      }
    case _ =>
  }

  lemma {:induction false} RunTakesReplies(s: System, pid: nat, cfg: Config, auth: AuthSession, actions: seq<Action>)
    returns (replies: seq<Reply>)
    requires Recovering(s, pid, cfg, auth, []) && forall i :: 0 <= i < |actions| ==> !Settles(actions[i], pid)
    ensures Recovering(Exec(s, actions), pid, cfg, auth, replies)
  {
    if actions == [] {
      replies := [];
    } else {
      var before := actions[..|actions| - 1];
      replies := RunTakesReplies(s, pid, cfg, auth, before);
      var reply := ActTakesOneReply(Exec(s, before), pid, actions[|actions| - 1]);
      if reply.Some? {
        TakenOneMore(cfg, auth, replies, reply.value);
        replies := replies + [reply.value];
      }
    }
  }

  /** What a beat of the loop remembers: the tokens of the process and the profile. */
  function MemoryOf(s: System, pid: nat): Memory
    requires pid in s.processes
  {
    Memory(s.processes[pid].auth.accessToken, s.processes[pid].auth.refreshToken, s.profile)
  }

  lemma SettleIsAdopt(s: System, pid: nat, saved: bool)
    requires pid in s.processes && s.processes[pid].spot.Working? && s.processes[pid].spot.point.Finished?
    ensures var q, r := s.processes[pid], Act(s, Settle(pid, saved));
            && pid in r.processes
            && match q.spot.point.outcome
               case Failed(nonRetryable, _) =>
                 MemoryOf(r, pid) == MemoryOf(s, pid) && r.processes[pid].spot == if nonRetryable then Stopped else Idle
               case Recovered(next, mode) =>
                 MemoryOf(r, pid) == Adopt(q.cfg, MemoryOf(s, pid), next, mode, saved) && r.processes[pid].spot == Idle
  {
  }

  /** From its start to its settling, with anything in between, a heartbeat of a
      process is one beat of the loop in some world: it changes the memory of the
      process and the profile as the beat does, and stops the process exactly when
      the beat stops the loop. */
  lemma HeartbeatIsBeat(s: System, pid: nat, actions: seq<Action>, saved: bool, retries: nat) returns (world: Oracle)
    requires pid in s.processes && s.processes[pid].spot.Idle? && s.processes[pid].auth == Remembered(s.processes[pid].auth)
    requires forall i :: 0 <= i < |actions| ==> !Settles(actions[i], pid)
    requires var t := Exec(Act(s, StartBeat(pid)), actions);
             pid in t.processes && t.processes[pid].spot.Working? && t.processes[pid].spot.point.Finished?
    ensures var t := Exec(Act(s, StartBeat(pid)), actions);
            var u := Act(t, Settle(pid, saved));
            var beat := Beat(s.processes[pid].cfg, Loop(MemoryOf(t, pid), retries, false), Tick(world, saved));
            && pid in u.processes && beat.memory == MemoryOf(u, pid)
            && (beat.stopped <==> u.processes[pid].spot.Stopped?)
            && MemoryOf(t, pid).accessToken == s.processes[pid].auth.accessToken
            && MemoryOf(t, pid).refreshToken == s.processes[pid].auth.refreshToken
  {
    var q, started := s.processes[pid], Act(s, StartBeat(pid));
    var replies := RunTakesReplies(started, pid, q.cfg, q.auth, actions);
    ReplayRecovers(q.cfg, q.auth, replies);
    SettleIsAdopt(Exec(started, actions), pid, saved);
    world := Replay(replies);
  }

  // --- the processes of a run ---

  ghost predicate AllRemembered(s: System) {
    forall pid :: pid in s.processes ==> s.processes[pid].auth == Remembered(s.processes[pid].auth)
  }

  lemma ActKeepsRemembered(s: System, a: Action)
    requires AllRemembered(s)
    ensures AllRemembered(Act(s, a))
  {
  }

  /** In every run all processes remember tokens only, as the beat requires. */
  lemma {:induction false} ProcessesRememberTokens(s: System, actions: seq<Action>)
    requires Initial(s)
    ensures AllRemembered(Exec(s, actions))
  {
    if actions != [] {
      ProcessesRememberTokens(s, actions[..|actions| - 1]);
      ActKeepsRemembered(Exec(s, actions[..|actions| - 1]), actions[|actions| - 1]);
    }
  }
}
