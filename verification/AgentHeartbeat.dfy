/** The heartbeat loop of one process (cmd/shellin/agent_registry_heartbeat.go). */
module AgentHeartbeat {
  import opened Lineage
  import opened Results
  import opened AuthRecovery
  import opened RecoveryTraces

  /** What the loop holds on to: the two tokens and, of the profile file, what it last contained. */
  datatype Memory = Memory(accessToken: Token, refreshToken: Token, profile: ProfileFile)

  /** The session the next recovery starts from: the expiry times are not kept. */
  function CurrentAuth(accessToken: Token, refreshToken: Token): AuthSession {
    AuthSession(accessToken, 0, refreshToken, 0)
  }

  function Remembered(next: AuthSession): AuthSession {
    CurrentAuth(next.accessToken, next.refreshToken)
  }

  /** The effect of a successful recovery; `saved` is whether the profile could be replaced. */
  function Adopt(cfg: Config, m: Memory, next: AuthSession, mode: UpdateMode, saved: bool): Memory {
    match mode
    case Unchanged => m
    case Reloaded => m.(accessToken := next.accessToken, refreshToken := next.refreshToken)
    case Refreshed =>
      Memory(next.accessToken, next.refreshToken,
             if cfg.hasProfilePath && saved then Profile(cfg.controlPlane, next) else m.profile)
  }

  /** One tick: the world during the recovery, and whether a save succeeds. */
  datatype Tick = Tick(world: Oracle, saved: bool)

  datatype Loop = Loop(memory: Memory, retries: nat, stopped: bool)

  /** What the recovery of one tick comes to. */
  function OutcomeOf(cfg: Config, m: Memory, t: Tick): Outcome {
    Recover(cfg, CurrentAuth(m.accessToken, m.refreshToken), t.world, []).0
  }

  function Beat(cfg: Config, l: Loop, t: Tick): Loop {
    if l.stopped then l
    else match OutcomeOf(cfg, l.memory, t)
         case Failed(nonRetryable, _) => Loop(l.memory, l.retries + 1, nonRetryable)
         case Recovered(next, mode) => Loop(Adopt(cfg, l.memory, next, mode, t.saved), 0, false)
  }

  function AllBeats(cfg: Config, l: Loop, ticks: seq<Tick>): Loop {
    if ticks == [] then l else Beat(cfg, AllBeats(cfg, l, ticks[..|ticks| - 1]), ticks[|ticks| - 1])
  }

  class ProfileStore {
    var file: ProfileFile

    constructor (file: ProfileFile)
      ensures this.file == file
    {
      this.file := file;
    }
  }

  class AgentRegistryHeartbeat {
    const cfg: Config
    const store: ProfileStore
    var accessToken: Token
    var refreshToken: Token

    constructor (cfg: Config, store: ProfileStore, initial: AuthSession)
      ensures this.cfg == cfg && this.store == store
      ensures State() == Memory(initial.accessToken, initial.refreshToken, store.file)
    {
      this.cfg := cfg;
      this.store := store;
      accessToken := initial.accessToken;
      refreshToken := initial.refreshToken;
    }

    ghost function State(): Memory
      reads this, store
    {
      Memory(accessToken, refreshToken, store.file)
    }

    method SetAuth(next: AuthSession)
      modifies this
      ensures accessToken == next.accessToken && refreshToken == next.refreshToken
    {
      accessToken := next.accessToken;
      refreshToken := next.refreshToken;
    }

    method PersistAuth(next: AuthSession, saved: bool)
      modifies this, store
      ensures State() == Adopt(cfg, old(State()), next, Refreshed, saved)
    {
      SetAuth(next);
      if cfg.hasProfilePath && saved {
        store.file := Profile(cfg.controlPlane, next);
      }
    }

    method ApplyAuthUpdate(next: AuthSession, mode: UpdateMode, saved: bool)
      modifies this, store
      ensures State() == Adopt(cfg, old(State()), next, mode, saved)
    {
      match mode
      case Reloaded => SetAuth(next);
      case Refreshed => PersistAuth(next, saved);
      case Unchanged =>
    }

    /** One turn of the loop. */
    method RunTick(retryCount: nat, tick: Tick) returns (retries: nat, stopped: bool)
      modifies this, store
      ensures Loop(State(), retries, stopped) == Beat(cfg, Loop(old(State()), retryCount, false), tick)
    {
      var outcome := Recover(cfg, CurrentAuth(accessToken, refreshToken), tick.world, []).0;
      match outcome {
        case Failed(nonRetryable, _) =>
          retries, stopped := retryCount + 1, nonRetryable;
        case Recovered(next, mode) =>
          retries, stopped := 0, false;
          ApplyAuthUpdate(next, mode, tick.saved);
      }
    }

    /** The loop over its ticks; it returns early when an error must not be retried. */
    method Run(ticks: seq<Tick>) returns (retryCount: nat, stopped: bool)
      modifies this, store
      ensures Loop(State(), retryCount, stopped) == AllBeats(cfg, Loop(old(State()), 0, false), ticks)
      ensures exists n: nat :: n <= |ticks| && (n < |ticks| ==> stopped)
                               && FailuresSinceSuccess(Outcomes(cfg, Loop(old(State()), 0, false), ticks[..n]), retryCount)
    {
      retryCount, stopped := 0, false;
      var i := 0;
      while i < |ticks| && !stopped
        invariant 0 <= i <= |ticks|
        invariant Loop(State(), retryCount, stopped) == AllBeats(cfg, Loop(old(State()), 0, false), ticks[..i])
        invariant i > 0 ==> !AllBeats(cfg, Loop(old(State()), 0, false), ticks[..i - 1]).stopped
      {
        assert ticks[..i + 1][..i] == ticks[..i];
        retryCount, stopped := RunTick(retryCount, ticks[i]);
        i := i + 1;
      }
      assert i > 0 ==> ticks[..i][..i - 1] == ticks[..i - 1];
      RetriesCountFailures(cfg, old(State()), ticks[..i]);
      StoppedStays(cfg, Loop(old(State()), 0, false), ticks, i);
    }
  }

  /** Nothing happens after the loop has returned. */
  lemma {:induction false} StoppedStays(cfg: Config, l: Loop, ticks: seq<Tick>, i: nat)
    requires i <= |ticks|
    requires i == |ticks| || AllBeats(cfg, l, ticks[..i]).stopped
    ensures AllBeats(cfg, l, ticks) == AllBeats(cfg, l, ticks[..i])
  {
    if i < |ticks| {
      assert ticks[..|ticks| - 1][..i] == ticks[..i];
      StoppedStays(cfg, l, ticks[..|ticks| - 1], i);
    } else {
      assert ticks[..i] == ticks;
    }
  }

  /** What the recovery of each tick comes to. */
  function Outcomes(cfg: Config, l: Loop, ticks: seq<Tick>): (r: seq<Outcome>)
    ensures |r| == |ticks|
  {
    if ticks == [] then []
    else
      var before, last := ticks[..|ticks| - 1], ticks[|ticks| - 1];
      Outcomes(cfg, l, before) + [OutcomeOf(cfg, AllBeats(cfg, l, before).memory, last)]
  }

  /** The number of failures since the last success. */
  ghost predicate FailuresSinceSuccess(outcomes: seq<Outcome>, n: nat) {
    && n <= |outcomes|
    && (forall i :: |outcomes| - n <= i < |outcomes| ==> outcomes[i].Failed?)
    && (n < |outcomes| ==> outcomes[|outcomes| - n - 1].Recovered?)
  }

  lemma OneOutcomeMore(outcomes: seq<Outcome>, n: nat, last: Outcome)
    requires FailuresSinceSuccess(outcomes, n)
    ensures FailuresSinceSuccess(outcomes + [last], if last.Failed? then n + 1 else 0)
  {
  }

  lemma BeatCounts(cfg: Config, l: Loop, t: Tick)
    requires !l.stopped
    ensures var outcome, next := OutcomeOf(cfg, l.memory, t), Beat(cfg, l, t);
            && next.retries == (if outcome.Failed? then l.retries + 1 else 0)
            && (next.stopped <==> outcome.Failed? && outcome.nonRetryable)
  {
  }

  lemma StoppedBefore(cfg: Config, l: Loop, ticks: seq<Tick>)
    requires ticks != [] && AllBeats(cfg, l, ticks[..|ticks| - 1]).stopped
    ensures AllBeats(cfg, l, ticks).stopped
  {
  }

  /** The retry count is the number of failures since the last success: so many
      of the last ticks failed, and the one before them, if any, succeeded.  The
      loop stops exactly when the last of them must not be retried. */
  lemma {:induction false} RetriesCountFailures(cfg: Config, m: Memory, ticks: seq<Tick>)
    requires ticks != [] ==> !AllBeats(cfg, Loop(m, 0, false), ticks[..|ticks| - 1]).stopped
    ensures var l, outcomes := AllBeats(cfg, Loop(m, 0, false), ticks), Outcomes(cfg, Loop(m, 0, false), ticks);
            && FailuresSinceSuccess(outcomes, l.retries)
            && (l.stopped <==> l.retries > 0 && outcomes[|ticks| - 1].nonRetryable)
  {
    if ticks != [] {
      var start, before, last := Loop(m, 0, false), ticks[..|ticks| - 1], ticks[|ticks| - 1];
      if before != [] && AllBeats(cfg, start, before[..|before| - 1]).stopped {
        StoppedBefore(cfg, start, before);
      }
      RetriesCountFailures(cfg, m, before);
      BeatCounts(cfg, AllBeats(cfg, start, before), last);
      OneOutcomeMore(Outcomes(cfg, start, before), AllBeats(cfg, start, before).retries,
                     OutcomeOf(cfg, AllBeats(cfg, start, before).memory, last));
    }
  }

  /** After a beat that succeeded the loop remembers the tokens of the session that
      was just let through, and the profile holds that session if the server granted
      it in this beat and it could be saved; else the profile is as before.  A beat
      that failed changes neither. */
  lemma BeatRemembersWhatPassed(cfg: Config, l: Loop, t: Tick)
    requires !l.stopped
    ensures var (outcome, h) := Recover(cfg, CurrentAuth(l.memory.accessToken, l.memory.refreshToken), t.world, []);
            var next := Beat(cfg, l, t).memory;
            match outcome
            case Failed(_, _) => next == l.memory
            case Recovered(c, _) =>
              && LetThrough(h, next.accessToken) && next.accessToken == c.accessToken && next.refreshToken == c.refreshToken
              && var k := BeforeRound(h, |h| - 1);
                 next.profile == if k >= 0 && h[k].reply == Granted(c) && cfg.hasProfilePath && t.saved
                                 then Profile(cfg.controlPlane, c) else l.memory.profile
  {
    RecoversIffLetThrough(cfg, CurrentAuth(l.memory.accessToken, l.memory.refreshToken), t.world);
  }

  /** What a reload makes of the profile.  Since the loop forgets expiry times, a
      usable profile counts as unchanged exactly when it holds the same tokens and no
      expiry times.  The profiles the loop itself writes carry the server's expiry
      times, so reloading one of them reports a change even when its tokens are the
      ones that just failed. */
  lemma ReloadSeesChange(cfg: Config, file: ProfileFile, accessToken: Token, refreshToken: Token)
    requires cfg.hasProfilePath
    ensures var seen := LatestFromProfile(cfg, Content(file), CurrentAuth(accessToken, refreshToken));
            && (seen == LoadFailed <==>
                  || file.Unreadable? || (file.controlPlane != 0 && file.controlPlane != cfg.controlPlane)
                  || file.session.accessToken == 0 || file.session.refreshToken == 0)
            && (seen != LoadFailed ==>
                  (seen == Same <==>
                     && file.session.accessToken == accessToken && file.session.refreshToken == refreshToken
                     && file.session.accessExpiresAt == 0 && file.session.refreshExpiresAt == 0))
            && (seen.Changed? ==> seen.session == file.session)
  {
  }
}
