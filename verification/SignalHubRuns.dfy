/** Every run of the hub: calls interleave under the lock, and the notices each
    call owes are made later, in any interleaving with other calls. */
module SignalHubRuns {
  import opened Results
  import opened SignalHub
  import opened Text

  datatype Event = Join(peer: Peer) | Leave(peer: Peer) | Deliver(call: nat)

  /** `pending[k]` are the notices call `k` still has to make; `made` are those made so far. */
  datatype Hub = Hub(sessions: map<Key, Session>, pending: seq<seq<Notice>>, made: seq<Notice>)

  function Next(h: Hub, e: Event): Hub {
    match e
    case Join(p) => Hub(AfterRegister(h.sessions, p), h.pending + [RegisterNotices(h.sessions, p)], h.made)
    case Leave(p) => Hub(AfterUnregister(h.sessions, p), h.pending + [UnregisterNotices(h.sessions, p)], h.made)
    case Deliver(k) =>
      if k < |h.pending| && h.pending[k] != [] then
        Hub(h.sessions, h.pending[k := h.pending[k][1..]], h.made + [h.pending[k][0]])
      else h
  }

  ghost function Run(events: seq<Event>): Hub {
    if events == [] then Hub(map[], [], []) else Next(Run(events[..|events| - 1]), events[|events| - 1])
  }

  /** The peers that registered. */
  ghost function Joined(events: seq<Event>): set<Peer> {
    if events == [] then {}
    else
      var last := events[|events| - 1];
      Joined(events[..|events| - 1]) + if last.Join? then {last.peer} else {}
  }

  /** The peers that unregistered while they were in their slot. */
  ghost function Left(events: seq<Event>): set<Peer> {
    if events == [] then {}
    else
      var before, last := events[..|events| - 1], events[|events| - 1];
      Left(before) + if last.Leave? && InSlot(Run(before).sessions, last.peer) then {last.peer} else {}
  }

  /** Only agents and viewers with a key register, each at most once. */
  ghost predicate Orderly(events: seq<Event>) {
    forall i :: 0 <= i < |events| && events[i].Join? ==>
      && !events[i].peer.role.OtherRole? && HasKey(events[i].peer)
      && events[i].peer !in Joined(events[..i])
  }

  // --- the notices owed or made ---

  ghost function Total(pending: seq<seq<Notice>>): multiset<Notice> {
    if pending == [] then multiset{} else Total(pending[..|pending| - 1]) + multiset(pending[|pending| - 1])
  }

  /** All notices, whether still owed or made. */
  ghost function Notices(h: Hub): multiset<Notice> {
    Total(h.pending) + multiset(h.made)
  }

  /** How often a notice closes `p`. */
  ghost function ClosesOf(notices: multiset<Notice>, p: Peer): nat {
    notices[Closed(p, AGENT_REPLACED)] + notices[Closed(p, VIEWER_REPLACED)] + notices[Closed(p, AGENT_DISCONNECTED)]
  }

  /** An agent is closed only with 4001, a viewer never. */
  ghost predicate RightCodes(notices: multiset<Notice>, p: Peer) {
    && (p.role.Agent? ==> notices[Closed(p, VIEWER_REPLACED)] == notices[Closed(p, AGENT_DISCONNECTED)] == 0)
    && (p.role.Viewer? ==> notices[Closed(p, AGENT_REPLACED)] == 0)
  }

  lemma {:induction false} TotalAfterOne(pending: seq<seq<Notice>>, k: nat)
    requires k < |pending| && pending[k] != []
    ensures Total(pending) == Total(pending[k := pending[k][1..]]) + multiset{pending[k][0]}
  {
    var last := |pending| - 1;
    var changed := pending[k := pending[k][1..]];
    if k == last {
      assert changed[..last] == pending[..last];
      assert pending[k] == [pending[k][0]] + pending[k][1..];
    } else {
      TotalAfterOne(pending[..last], k);
      assert changed[..last] == pending[..last][k := pending[k][1..]];
    }
  }

  lemma MoveOne<T>(from: multiset<T>, less: multiset<T>, to: seq<T>, x: T)
    requires from == less + multiset{x}
    ensures less + multiset(to + [x]) == from + multiset(to)
  {
  }

  /** Making a notice neither loses nor invents one. */
  lemma DeliverKeepsNotices(h: Hub, k: nat)
    ensures Next(h, Deliver(k)).sessions == h.sessions && Notices(Next(h, Deliver(k))) == Notices(h)
  {
    if k < |h.pending| && h.pending[k] != [] {
      TotalAfterOne(h.pending, k);
      MoveOne(Total(h.pending), Total(h.pending[k := h.pending[k][1..]]), h.made, h.pending[k][0]);
    }
  }

  /** A call adds exactly the notices it owes. */
  lemma NoticesOf(h: Hub, e: Event)
    ensures Notices(Next(h, e)) == Notices(h) + match e
                                                case Join(p) => multiset(RegisterNotices(h.sessions, p))
                                                case Leave(p) => multiset(UnregisterNotices(h.sessions, p))
                                                case Deliver(_) => multiset{}
  {
    var r := Next(h, e);
    match e
    case Deliver(k) => DeliverKeepsNotices(h, k);
    case _ =>
      assert r.pending[..|h.pending|] == h.pending;
  }

  // --- conservation of peers ---

  /** The fate of one peer: it is in its slot, or left by itself, or was
      displaced, and only then is it closed by the hub, exactly once. */
  ghost predicate Account(h: Hub, joined: set<Peer>, left: set<Peer>, p: Peer) {
    && (p in joined ==> HasKey(p) && !p.role.OtherRole?)
    && (InSlot(h.sessions, p) ==> p in joined && p !in left)
    && (p in left ==> p in joined)
    && ClosesOf(Notices(h), p) == (if p in joined && p !in left && !InSlot(h.sessions, p) && p.canClose then 1 else 0)
    && RightCodes(Notices(h), p)
  }

  ghost predicate Accounts(h: Hub, joined: set<Peer>, left: set<Peer>) {
    SlotsValid(h.sessions) && forall p :: Account(h, joined, left, p)
  }

  /** Whose slot `p` takes when it registers. */
  predicate Displaces(sessions: map<Key, Session>, p: Peer, q: Peer) {
    InSlot(sessions, q) && q != p && KeyOf(q) == KeyOf(p) && q.role == p.role
  }

  lemma RegisterDisplaces(sessions: map<Key, Session>, p: Peer, q: Peer)
    requires SlotsValid(sessions) && !p.role.OtherRole? && HasKey(p)
    ensures InSlot(AfterRegister(sessions, p), q) <==> q == p || (InSlot(sessions, q) && !Displaces(sessions, p, q))
  {
  }

  lemma RegisterAgentCloses(sessions: map<Key, Session>, p: Peer, q: Peer, code: nat)
    requires SlotsValid(sessions) && p.role.Agent? && HasKey(p)
    ensures multiset(RegisterNotices(sessions, p))[Closed(q, code)] ==
            if Displaces(sessions, p, q) && q.canClose && code == AGENT_REPLACED then 1 else 0
  {
  }

  lemma ClosesIn(replaced: Option<Peer>, closed: Option<Peer>, detached: Option<Peer>, code: nat, q: Peer, c: nat)
    ensures multiset(ReplacedNotice(replaced) + CloseNotice(closed, code) + DetachNotice(detached))[Closed(q, c)]
         == if closed == Some(q) && q.canClose && c == code then 1 else 0
  {
    var a, b, d := ReplacedNotice(replaced), CloseNotice(closed, code), DetachNotice(detached);
    assert multiset(a + b + d) == multiset(a) + multiset(b) + multiset(d);
  }

  lemma RegisterViewerCloses(sessions: map<Key, Session>, p: Peer, q: Peer, code: nat)
    requires SlotsValid(sessions) && p.role.Viewer? && HasKey(p)
    ensures multiset(RegisterNotices(sessions, p))[Closed(q, code)] ==
            if Displaces(sessions, p, q) && q.canClose && code == VIEWER_REPLACED then 1 else 0
  {
    var session := SessionAt(sessions, KeyOf(p));
    var displaced := Displaced(session.viewer, p);
    ClosesIn(displaced, displaced, if session.viewer.Some? then session.agent else None, VIEWER_REPLACED, q, code);
  }

  lemma RegisterCloses(sessions: map<Key, Session>, p: Peer, q: Peer)
    requires SlotsValid(sessions) && !p.role.OtherRole? && HasKey(p)
    ensures var owed := multiset(RegisterNotices(sessions, p));
            ClosesOf(owed, q) == (if Displaces(sessions, p, q) && q.canClose then 1 else 0) && RightCodes(owed, q)
  {
    forall code: nat | code in {AGENT_REPLACED, VIEWER_REPLACED, AGENT_DISCONNECTED}
      ensures multiset(RegisterNotices(sessions, p))[Closed(q, code)] ==
              if Displaces(sessions, p, q) && q.canClose && code == (if p.role.Agent? then AGENT_REPLACED else VIEWER_REPLACED) then 1 else 0
    {
      if p.role.Agent? {
        RegisterAgentCloses(sessions, p, q, code);
      } else {
        RegisterViewerCloses(sessions, p, q, code);
      }
    }
  }

  /** Whom `p` takes along when it unregisters from its slot. */
  predicate TakesAlong(sessions: map<Key, Session>, p: Peer, q: Peer) {
    InSlot(sessions, p) && p.role.Agent? && q.role.Viewer? && KeyOf(q) == KeyOf(p) && InSlot(sessions, q)
  }

  lemma UnregisterEmpties(sessions: map<Key, Session>, p: Peer, q: Peer)
    requires SlotsValid(sessions)
    requires InSlot(sessions, p) ==> HasKey(p)
    ensures InSlot(AfterUnregister(sessions, p), q) <==> q != p && InSlot(sessions, q) && !TakesAlong(sessions, p, q)
  {
  }

  lemma UnregisterCloses(sessions: map<Key, Session>, p: Peer, q: Peer)
    requires SlotsValid(sessions)
    requires InSlot(sessions, p) ==> HasKey(p)
    ensures var owed := multiset(UnregisterNotices(sessions, p));
            ClosesOf(owed, q) == (if TakesAlong(sessions, p, q) && q.canClose then 1 else 0) && RightCodes(owed, q)
  {
  }

  lemma AccountAfterJoin(h: Hub, joined: set<Peer>, left: set<Peer>, p: Peer, q: Peer)
    requires SlotsValid(h.sessions) && Account(h, joined, left, p) && Account(h, joined, left, q)
    requires !p.role.OtherRole? && HasKey(p) && p !in joined
    ensures Account(Next(h, Join(p)), joined + {p}, left, q)
  {
    NoticesOf(h, Join(p));
    RegisterDisplaces(h.sessions, p, q);
    RegisterCloses(h.sessions, p, q);
  }

  lemma AccountAfterLeave(h: Hub, joined: set<Peer>, left: set<Peer>, p: Peer, after: set<Peer>, q: Peer)
    requires SlotsValid(h.sessions) && Account(h, joined, left, p) && Account(h, joined, left, q)
    requires after == left + if InSlot(h.sessions, p) then {p} else {}
    ensures Account(Next(h, Leave(p)), joined, after, q)
  {
    NoticesOf(h, Leave(p));
    UnregisterEmpties(h.sessions, p, q);
    UnregisterCloses(h.sessions, p, q);
  }

  lemma SameAccount(h: Hub, after: Hub, joined: set<Peer>, left: set<Peer>, q: Peer)
    requires Account(h, joined, left, q) && after.sessions == h.sessions && Notices(after) == Notices(h)
    ensures Account(after, joined, left, q)
  {
  }

  lemma JoinKeepsAccounts(h: Hub, joined: set<Peer>, left: set<Peer>, p: Peer)
    requires Accounts(h, joined, left)
    requires !p.role.OtherRole? && HasKey(p) && p !in joined
    ensures Accounts(Next(h, Join(p)), joined + {p}, left)
  {
    RegisterKeepsSlots(h.sessions, p);
    assert Account(h, joined, left, p);
    forall q: Peer | Account(h, joined, left, q)
      ensures Account(Next(h, Join(p)), joined + {p}, left, q)
    {
      AccountAfterJoin(h, joined, left, p, q);
    }
  }

  lemma LeaveKeepsAccounts(h: Hub, joined: set<Peer>, left: set<Peer>, p: Peer, after: set<Peer>)
    requires Accounts(h, joined, left)
    requires after == left + if InSlot(h.sessions, p) then {p} else {}
    ensures Accounts(Next(h, Leave(p)), joined, after)
  {
    UnregisterKeepsSlots(h.sessions, p);
    assert Account(h, joined, left, p);
    forall q: Peer | Account(h, joined, left, q)
      ensures Account(Next(h, Leave(p)), joined, after, q)
    {
      AccountAfterLeave(h, joined, left, p, after, q);
    }
  }

  lemma DeliverKeepsAccounts(h: Hub, joined: set<Peer>, left: set<Peer>, k: nat)
    requires Accounts(h, joined, left)
    ensures Accounts(Next(h, Deliver(k)), joined, left)
  {
    DeliverKeepsNotices(h, k);
    forall q: Peer | Account(h, joined, left, q)
      ensures Account(Next(h, Deliver(k)), joined, left, q)
    {
      SameAccount(h, Next(h, Deliver(k)), joined, left, q);
    }
  }

  lemma OrderlyPrefix(events: seq<Event>)
    requires Orderly(events) && events != []
    ensures Orderly(events[..|events| - 1])
    ensures var last := events[|events| - 1];
            last.Join? ==> !last.peer.role.OtherRole? && HasKey(last.peer) && last.peer !in Joined(events[..|events| - 1])
  {
    var before := events[..|events| - 1];
    forall i | 0 <= i < |before| && before[i].Join?
      ensures before[i].peer !in Joined(before[..i])
    {
      assert before[..i] == events[..i] && before[i] == events[i];
    }
  }

  lemma {:induction false} RunKeepsAccounts(events: seq<Event>)
    requires Orderly(events)
    ensures Accounts(Run(events), Joined(events), Left(events))
  {
    if events == [] {
      forall p: Peer
        ensures Account(Run([]), {}, {}, p)
      {
      }
    } else {
      var before, last := events[..|events| - 1], events[|events| - 1];
      OrderlyPrefix(events);
      RunKeepsAccounts(before);
      assert Joined(events) == Joined(before) + if last.Join? then {last.peer} else {};
      assert !last.Join? ==> Joined(events) == Joined(before);
      assert !last.Leave? ==> Left(events) == Left(before);
      match last
      case Join(p) => JoinKeepsAccounts(Run(before), Joined(before), Left(before), p);
      case Leave(p) => LeaveKeepsAccounts(Run(before), Joined(before), Left(before), p, Left(events));
      case Deliver(k) => DeliverKeepsAccounts(Run(before), Joined(before), Left(before), k);
    }
  }

  ghost predicate WasDisplaced(events: seq<Event>, p: Peer) {
    p in Joined(events) && p !in Left(events) && !InSlot(Run(events).sessions, p)
  }

  /** Conservation: a registered peer is in its slot, or left by its own
      Unregister, or was displaced by exactly one event; the hub owes or made
      exactly one close to a displaced peer that can be closed, with the code of
      that event, and none to anybody else. */
  lemma HubConservesPeers(events: seq<Event>, p: Peer)
    requires Orderly(events)
    ensures var h := Run(events);
            && SlotsValid(h.sessions)
            && (InSlot(h.sessions, p) ==> p in Joined(events) && p !in Left(events))
            && Left(events) <= Joined(events)
            && TakeOvers(events, p) + Abandonments(events, p) == (if WasDisplaced(events, p) then 1 else 0)
            && ClosesOf(Notices(h), p) == (if WasDisplaced(events, p) && p.canClose then 1 else 0)
            && (forall code: nat :: Notices(h)[Closed(p, code)] == ClosesFor(events, p, code))
            && (p.canClose ==>
                  && Notices(h)[Closed(p, 4001)] == (if p.role.Agent? then TakeOvers(events, p) else 0)
                  && Notices(h)[Closed(p, 4002)] == (if p.role.Viewer? then TakeOvers(events, p) else 0)
                  && Notices(h)[Closed(p, 4003)] == Abandonments(events, p))
            && RightCodes(Notices(h), p)
  {
    RunKeepsAccounts(events);
    assert Account(Run(events), Joined(events), Left(events), p);
    DisplacedOnce(events, p);
    forall code: nat
      ensures Notices(Run(events))[Closed(p, code)] == ClosesFor(events, p, code)
    {
      CodesTellCauses(events, p, code);
    }
    forall q | q in Left(events)
      ensures q in Joined(events)
    {
      assert Account(Run(events), Joined(events), Left(events), q);
    }
  }

  /** A displaced peer's own Unregister, whenever it comes, changes nothing and notifies nobody. */
  lemma DisplacedLeavesSilently(events: seq<Event>, p: Peer)
    requires Orderly(events) && WasDisplaced(events, p)
    ensures AfterUnregister(Run(events).sessions, p) == Run(events).sessions
    ensures UnregisterNotices(Run(events).sessions, p) == []
  {
    HubConservesPeers(events, p);
    AbsentLeavesSilently(Run(events).sessions, p);
  }

  // --- what displaced a peer, and the code that tells it ---

  /** How often another peer took the slot of `p`. */
  ghost function TakeOvers(events: seq<Event>, p: Peer): nat {
    if events == [] then 0
    else
      var before, last := events[..|events| - 1], events[|events| - 1];
      TakeOvers(before, p) + if last.Join? && Displaces(Run(before).sessions, last.peer, p) then 1 else 0
  }

  /** How often the agent left while `p` was its viewer. */
  ghost function Abandonments(events: seq<Event>, p: Peer): nat {
    if events == [] then 0
    else
      var before, last := events[..|events| - 1], events[|events| - 1];
      Abandonments(before, p) + if last.Leave? && TakesAlong(Run(before).sessions, last.peer, p) then 1 else 0
  }

  function ReplacedCode(role: Role): nat {
    if role.Agent? then AGENT_REPLACED else VIEWER_REPLACED
  }

  /** The closes with one code that `p` is owed after the events: 4001 or 4002, by
      its role, for its slot being taken, 4003 for its agent leaving. */
  ghost function ClosesFor(events: seq<Event>, p: Peer, code: nat): nat {
    if !p.canClose then 0
    else if code == ReplacedCode(p.role) then TakeOvers(events, p)
    else if code == AGENT_DISCONNECTED then Abandonments(events, p)
    else 0
  }

  lemma RegisterClosesByCode(sessions: map<Key, Session>, p: Peer, q: Peer, code: nat)
    requires SlotsValid(sessions) && !p.role.OtherRole? && HasKey(p)
    ensures multiset(RegisterNotices(sessions, p))[Closed(q, code)] ==
            if Displaces(sessions, p, q) && q.canClose && code == ReplacedCode(q.role) then 1 else 0
  {
    if p.role.Agent? {
      RegisterAgentCloses(sessions, p, q, code);
    } else {
      RegisterViewerCloses(sessions, p, q, code);
    }
  }

  lemma UnregisterClosesByCode(sessions: map<Key, Session>, p: Peer, q: Peer, code: nat)
    requires SlotsValid(sessions)
    requires InSlot(sessions, p) ==> HasKey(p)
    ensures multiset(UnregisterNotices(sessions, p))[Closed(q, code)] ==
            if TakesAlong(sessions, p, q) && q.canClose && code == AGENT_DISCONNECTED then 1 else 0
  {
  }

  lemma {:induction false} CodesTellCauses(events: seq<Event>, p: Peer, code: nat)
    requires Orderly(events)
    ensures Notices(Run(events))[Closed(p, code)] == ClosesFor(events, p, code)
  {
    if events != [] {
      var before, last := events[..|events| - 1], events[|events| - 1];
      OrderlyPrefix(events);
      CodesTellCauses(before, p, code);
      RunKeepsAccounts(before);
      NoticesOf(Run(before), last);
      match last
      case Join(q) => RegisterClosesByCode(Run(before).sessions, q, p, code);
      case Leave(q) =>
        assert Account(Run(before), Joined(before), Left(before), q);
        UnregisterClosesByCode(Run(before).sessions, q, p, code);
      case Deliver(_) =>
    }
  }

  lemma {:induction false} DisplacedOnce(events: seq<Event>, p: Peer)
    requires Orderly(events)
    ensures TakeOvers(events, p) + Abandonments(events, p) == if WasDisplaced(events, p) then 1 else 0
  {
    if events != [] {
      var before, last := events[..|events| - 1], events[|events| - 1];
      OrderlyPrefix(events);
      DisplacedOnce(before, p);
      RunKeepsAccounts(before);
      assert Account(Run(before), Joined(before), Left(before), p);
      match last
      case Join(q) => RegisterDisplaces(Run(before).sessions, q, p);
      case Leave(q) =>
        assert Account(Run(before), Joined(before), Left(before), q);
        UnregisterEmpties(Run(before).sessions, q, p);
      case Deliver(_) =>
    }
  }

  // --- detaches owed to an agent ---

  /** A viewer leaves the viewer slot of the session in which agent `a` stays. */
  ghost predicate ViewerLeaves(before: map<Key, Session>, after: map<Key, Session>, a: Peer) {
    && Occupant(before, KeyOf(a), Agent) == Some(a) == Occupant(after, KeyOf(a), Agent)
    && Occupant(before, KeyOf(a), Viewer).Some?
    && Occupant(after, KeyOf(a), Viewer) != Occupant(before, KeyOf(a), Viewer)
  }

  ghost function Departures(events: seq<Event>, a: Peer): nat {
    if events == [] then 0
    else
      var before := events[..|events| - 1];
      Departures(before, a) + if ViewerLeaves(Run(before).sessions, Run(events).sessions, a) then 1 else 0
  }

  /** A viewer takes the slot of another viewer beside agent `a`. */
  predicate TakesOverBeside(sessions: map<Key, Session>, p: Peer, a: Peer) {
    && p.role.Viewer? && KeyOf(p) == KeyOf(a)
    && SessionAt(sessions, KeyOf(a)).agent == Some(a) && SessionAt(sessions, KeyOf(a)).viewer.Some?
  }

  lemma TakeOverIsDeparture(sessions: map<Key, Session>, p: Peer, a: Peer)
    requires SlotsValid(sessions) && !p.role.OtherRole? && HasKey(p) && !InSlot(sessions, p) && a.role.Agent?
    ensures ViewerLeaves(sessions, AfterRegister(sessions, p), a) <==> TakesOverBeside(sessions, p, a)
  {
  }

  lemma TakeOverIsDetached(sessions: map<Key, Session>, p: Peer, a: Peer)
    requires SlotsValid(sessions) && p.role.Viewer? && HasKey(p) && a.role.Agent? && a.canSend
    ensures multiset(RegisterNotices(sessions, p))[Detached(a)] == if TakesOverBeside(sessions, p, a) then 1 else 0
  {
    var session := SessionAt(sessions, KeyOf(p));
    var replaced, closed := ReplacedNotice(Displaced(session.viewer, p)), CloseNotice(Displaced(session.viewer, p), VIEWER_REPLACED);
    var detached := if session.viewer.Some? then DetachNotice(session.agent) else [];
    OnlyInLast(Detached(a), replaced, closed, detached);
  }

  lemma RegisterDetaches(sessions: map<Key, Session>, p: Peer, a: Peer)
    requires SlotsValid(sessions) && !p.role.OtherRole? && HasKey(p) && !InSlot(sessions, p) && a.role.Agent? && a.canSend
    ensures multiset(RegisterNotices(sessions, p))[Detached(a)] == if ViewerLeaves(sessions, AfterRegister(sessions, p), a) then 1 else 0
  {
    TakeOverIsDeparture(sessions, p, a);
    if p.role.Viewer? {
      TakeOverIsDetached(sessions, p, a);
    }
  }

  lemma OnlyInLast<T>(x: T, a: seq<T>, b: seq<T>, c: seq<T>)
    requires x !in a && x !in b
    ensures multiset(a + b + c)[x] == multiset(c)[x]
  {
    assert x !in multiset(a) && x !in multiset(b);
  }

  lemma UnregisterDetaches(sessions: map<Key, Session>, p: Peer, a: Peer)
    requires SlotsValid(sessions) && (InSlot(sessions, p) ==> HasKey(p)) && a.role.Agent? && a.canSend
    ensures multiset(UnregisterNotices(sessions, p))[Detached(a)] == if ViewerLeaves(sessions, AfterUnregister(sessions, p), a) then 1 else 0
  {
  }

  /** An agent is owed one detach for each viewer that left its session while it held the agent slot. */
  lemma {:induction false} DetachesMatchDepartures(events: seq<Event>, a: Peer)
    requires Orderly(events) && a.role.Agent? && a.canSend
    ensures Notices(Run(events))[Detached(a)] == Departures(events, a)
  {
    if events != [] {
      var before, last := events[..|events| - 1], events[|events| - 1];
      OrderlyPrefix(events);
      DetachesMatchDepartures(before, a);
      RunKeepsAccounts(before);
      NoticesOf(Run(before), last);
      match last
      case Join(p) =>
        assert Account(Run(before), Joined(before), Left(before), p);
        RegisterDetaches(Run(before).sessions, p, a);
      case Leave(p) =>
        assert Account(Run(before), Joined(before), Left(before), p);
        UnregisterDetaches(Run(before).sessions, p, a);
      case Deliver(_) =>
    }
  }

  // --- what viewers are told ---

  lemma ReplacedOnlyOnce(q: Peer, displaced: Option<Peer>, agent: Option<Peer>)
    ensures multiset(ReplacedNotice(displaced) + CloseNotice(displaced, VIEWER_REPLACED) + DetachNotice(agent))[Replaced(q)]
         == multiset(ReplacedNotice(displaced) + CloseNotice(displaced, VIEWER_REPLACED) + [])[Replaced(q)]
         == if displaced == Some(q) && q.canSend then 1 else 0
  {
    OnlyInFirst(Replaced(q), ReplacedNotice(displaced), CloseNotice(displaced, VIEWER_REPLACED), DetachNotice(agent));
    OnlyInFirst(Replaced(q), ReplacedNotice(displaced), CloseNotice(displaced, VIEWER_REPLACED), []);
  }

  lemma DisplacedIsDisplaces(sessions: map<Key, Session>, p: Peer, q: Peer)
    requires SlotsValid(sessions) && p.role.Viewer?
    ensures Displaced(SessionAt(sessions, KeyOf(p)).viewer, p) == Some(q) <==> Displaces(sessions, p, q)
  {
  }

  /** A viewer whose slot is taken is told so, and nobody else is. */
  lemma RegisterTells(sessions: map<Key, Session>, p: Peer, q: Peer)
    requires SlotsValid(sessions) && HasKey(p)
    ensures multiset(RegisterNotices(sessions, p))[Replaced(q)] ==
            if p.role.Viewer? && Displaces(sessions, p, q) && q.canSend then 1 else 0
  {
    if p.role.Viewer? {
      var session := SessionAt(sessions, KeyOf(p));
      ReplacedOnlyOnce(q, Displaced(session.viewer, p), session.agent);
      DisplacedIsDisplaces(sessions, p, q);
    }
  }

  lemma UnregisterTellsNobody(sessions: map<Key, Session>, p: Peer, q: Peer)
    ensures multiset(UnregisterNotices(sessions, p))[Replaced(q)] == 0
  {
  }

  lemma OnlyInFirst<T>(x: T, a: seq<T>, b: seq<T>, c: seq<T>)
    requires x !in b && x !in c
    ensures multiset(a + b + c)[x] == multiset(a)[x]
  {
    assert x !in multiset(b) && x !in multiset(c);
  }

  /** In every run a viewer is told as often as another one took its slot. */
  lemma {:induction false} ViewersAreTold(events: seq<Event>, p: Peer)
    requires Orderly(events) && p.role.Viewer? && p.canSend
    ensures Notices(Run(events))[Replaced(p)] == TakeOvers(events, p)
  {
    if events != [] {
      var before, last := events[..|events| - 1], events[|events| - 1];
      OrderlyPrefix(events);
      ViewersAreTold(before, p);
      RunKeepsAccounts(before);
      NoticesOf(Run(before), last);
      match last
      case Join(q) => RegisterTells(Run(before).sessions, q, p);
      case Leave(q) => UnregisterTellsNobody(Run(before).sessions, q, p);
      case Deliver(_) =>
    }
  }

  /** In every run, an agent and a viewer of one session that are both in their
      slots reach each other, and nobody else reaches either of them. */
  lemma PairsReachEachOther(events: seq<Event>, a: Peer, v: Peer)
    requires Orderly(events) && a.role.Agent? && v.role.Viewer?
    requires Trim(a.subject) == Trim(v.subject) && Trim(a.sessionID) == Trim(v.sessionID)
    requires InSlot(Run(events).sessions, a) && InSlot(Run(events).sessions, v)
    ensures ForwardTarget(Run(events).sessions, a) == Some(v) && ForwardTarget(Run(events).sessions, v) == Some(a)
    ensures forall p: Peer :: ForwardTarget(Run(events).sessions, p) == Some(v) ==> p.role.Agent? && KeyOf(p) == KeyOf(v)
    ensures forall p: Peer :: ForwardTarget(Run(events).sessions, p) == Some(a) ==> p.role.Viewer? && KeyOf(p) == KeyOf(a)
  {
    var sessions := Run(events).sessions;
    RunKeepsAccounts(events);
    assert Account(Run(events), Joined(events), Left(events), a);
    ForwardReachesTheOtherRole(sessions, a, v);
    ForwardReachesTheOtherRole(sessions, v, a);
    forall p: Peer
      ensures ForwardTarget(sessions, p) == Some(v) ==> p.role.Agent? && KeyOf(p) == KeyOf(v)
      ensures ForwardTarget(sessions, p) == Some(a) ==> p.role.Viewer? && KeyOf(p) == KeyOf(a)
    {
      ForwardReachesTheOtherRole(sessions, p, v);
      ForwardReachesTheOtherRole(sessions, p, a);
    }
  }
}
