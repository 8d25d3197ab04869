/** Pairing an agent with a viewer (controlplane/signal_hub.go).

    A call changes the sessions while it holds the lock and then, without the
    lock, sends and closes what it owes to other peers.  The methods return
    those notices, in the order in which they are made. */
module SignalHub {
  import opened Results
  import opened Text

  datatype Role = Agent | Viewer | OtherRole

  /** `id` is the identity of the peer; a peer may lack a Send or a Close function. */
  datatype Peer = Peer(id: nat, subject: string, sessionID: string, role: Role, canSend: bool, canClose: bool)

  datatype Key = Key(subject: string, sessionID: string)

  datatype Session = Session(agent: Option<Peer>, viewer: Option<Peer>)

  datatype Notice = Closed(peer: Peer, code: nat) | Replaced(peer: Peer) | Detached(peer: Peer)

  const AGENT_REPLACED := 4001
  const VIEWER_REPLACED := 4002
  const AGENT_DISCONNECTED := 4003

  function KeyOf(p: Peer): Key {
    Key(Trim(p.subject), Trim(p.sessionID))
  }

  predicate HasKey(p: Peer) {
    KeyOf(p).subject != "" && KeyOf(p).sessionID != ""
  }

  function SessionAt(sessions: map<Key, Session>, key: Key): Session {
    if key in sessions then sessions[key] else Session(None, None)
  }

  /** Who is in the slot of `role`. */
  function Occupant(sessions: map<Key, Session>, key: Key, role: Role): Option<Peer> {
    match role
    case Agent => SessionAt(sessions, key).agent
    case Viewer => SessionAt(sessions, key).viewer
    case OtherRole => None
  }

  predicate InSlot(sessions: map<Key, Session>, p: Peer) {
    Occupant(sessions, KeyOf(p), p.role) == Some(p)
  }

  function CloseNotice(p: Option<Peer>, code: nat): seq<Notice> {
    if p.Some? && p.value.canClose then [Closed(p.value, code)] else []
  }

  function ReplacedNotice(p: Option<Peer>): seq<Notice> {
    if p.Some? && p.value.canSend then [Replaced(p.value)] else []
  }

  function DetachNotice(p: Option<Peer>): seq<Notice> {
    if p.Some? && p.value.canSend then [Detached(p.value)] else []
  }

  /** The previous occupant, unless it is the same peer. */
  function Displaced(previous: Option<Peer>, p: Peer): Option<Peer> {
    if previous == Some(p) then None else previous
  }

  // --- the effect of a call ---

  function AfterRegister(sessions: map<Key, Session>, p: Peer): map<Key, Session> {
    var session := SessionAt(sessions, KeyOf(p));
    if !HasKey(p) then sessions
    else sessions[KeyOf(p) := match p.role
                              case Agent => session.(agent := Some(p))
                              case Viewer => session.(viewer := Some(p))
                              case OtherRole => session]
  }

  function RegisterNotices(sessions: map<Key, Session>, p: Peer): seq<Notice> {
    var session := SessionAt(sessions, KeyOf(p));
    if !HasKey(p) then []
    else match p.role
         case Agent => CloseNotice(Displaced(session.agent, p), AGENT_REPLACED)
         case Viewer =>
           ReplacedNotice(Displaced(session.viewer, p)) + CloseNotice(Displaced(session.viewer, p), VIEWER_REPLACED)
           + (if session.viewer.Some? then DetachNotice(session.agent) else [])
         case OtherRole => []
  }

  function AfterUnregister(sessions: map<Key, Session>, p: Peer): map<Key, Session> {
    if !HasKey(p) || KeyOf(p) !in sessions then sessions
    else
      var session := sessions[KeyOf(p)];
      var left := if !InSlot(sessions, p) then session
                  else if p.role.Agent? then Session(None, None)
                  else session.(viewer := None);
      if left == Session(None, None) then sessions - {KeyOf(p)} else sessions[KeyOf(p) := left]
  }

  function UnregisterNotices(sessions: map<Key, Session>, p: Peer): seq<Notice> {
    var session := SessionAt(sessions, KeyOf(p));
    if !HasKey(p) || !InSlot(sessions, p) then []
    else if p.role.Agent? then CloseNotice(session.viewer, AGENT_DISCONNECTED)
    else DetachNotice(session.agent)
  }

  /** Whom a message from `p` goes to. */
  function ForwardTarget(sessions: map<Key, Session>, p: Peer): Option<Peer> {
    if !HasKey(p) then None
    else match p.role
         case Agent => Occupant(sessions, KeyOf(p), Viewer)
         case Viewer => Occupant(sessions, KeyOf(p), Agent)
         case OtherRole => None
  }

  class SignalHub {
    var sessions: map<Key, Session>

    constructor ()
      ensures sessions == map[]
    {
      sessions := map[];
    }

    method Register(peer: Peer) returns (owed: seq<Notice>)
      modifies this
      ensures sessions == AfterRegister(old(sessions), peer)
      ensures owed == RegisterNotices(old(sessions), peer)
    {
      owed := [];
      var key := KeyOf(peer);
      if key.subject == "" || key.sessionID == "" {
        return;
      }
      var oldAgent, oldViewer, notifyAgentDetach: Option<Peer> := None, None, None;
      if key !in sessions {
        sessions := sessions[key := Session(None, None)];
      }
      var session := sessions[key];
      match peer.role {
        case Agent =>
          oldAgent := session.agent;
          session := session.(agent := Some(peer));
        case Viewer =>
          oldViewer := session.viewer;
          session := session.(viewer := Some(peer));
          if oldViewer.Some? {
            notifyAgentDetach := session.agent;
          }
        case OtherRole =>
      }
      sessions := sessions[key := session];

      if oldAgent.Some? && oldAgent.value != peer && oldAgent.value.canClose {
        owed := owed + [Closed(oldAgent.value, AGENT_REPLACED)];
      }
      if oldViewer.Some? && oldViewer.value != peer {
        if oldViewer.value.canSend {
          owed := owed + [Replaced(oldViewer.value)];
        }
        if oldViewer.value.canClose {
          owed := owed + [Closed(oldViewer.value, VIEWER_REPLACED)];
        }
      }
      if notifyAgentDetach.Some? && notifyAgentDetach.value.canSend {
        owed := owed + [Detached(notifyAgentDetach.value)];
      }
    }

    method Unregister(peer: Peer) returns (owed: seq<Notice>)
      modifies this
      ensures sessions == AfterUnregister(old(sessions), peer)
      ensures owed == UnregisterNotices(old(sessions), peer)
    {
      owed := [];
      var key := KeyOf(peer);
      if key.subject == "" || key.sessionID == "" {
        return;
      }
      if key !in sessions {
        return;
      }
      var notifyAgentDetach, closeViewer: Option<Peer> := None, None;
      var session := sessions[key];
      match peer.role {
        case Agent =>
          if session.agent == Some(peer) {
            closeViewer := session.viewer;
            session := Session(None, None);
          }
        case Viewer =>
          if session.viewer == Some(peer) {
            session := session.(viewer := None);
            notifyAgentDetach := session.agent;
          }
        case OtherRole =>
      }
      sessions := sessions[key := session];
      if session.agent.None? && session.viewer.None? {
        sessions := sessions - {key};
      }

      if notifyAgentDetach.Some? && notifyAgentDetach.value.canSend {
        owed := owed + [Detached(notifyAgentDetach.value)];
      }
      if closeViewer.Some? && closeViewer.value.canClose {
        owed := owed + [Closed(closeViewer.value, AGENT_DISCONNECTED)];
      }
    }

    /** The peer whose Send is called; the result of the call is that of Send. */
    method Forward(peer: Peer) returns (target: Option<Peer>)
      ensures target == (var t := ForwardTarget(sessions, peer); if t.Some? && t.value.canSend then t else None)
    {
      var key := KeyOf(peer);
      if key.subject == "" || key.sessionID == "" {
        return None;
      }
      target := None;
      if key in sessions {
        match peer.role {
          case Agent => target := sessions[key].viewer;
          case Viewer => target := sessions[key].agent;
          case OtherRole =>
        }
      }
      if target.None? || !target.value.canSend {
        return None;
      }
    }
  }

  // --- what the slots always satisfy ---

  /** No empty session is stored, and every peer is in the slot of its own session and role. */
  ghost predicate SlotsValid(sessions: map<Key, Session>) {
    forall key :: key in sessions ==>
      && sessions[key] != Session(None, None)
      && (sessions[key].agent.Some? ==> KeyOf(sessions[key].agent.value) == key && sessions[key].agent.value.role.Agent?)
      && (sessions[key].viewer.Some? ==> KeyOf(sessions[key].viewer.value) == key && sessions[key].viewer.value.role.Viewer?)
  }

  /** Registering keeps the slots valid exactly when the peer is an agent or a
      viewer, or its session is stored already, or its key is blank.  The one caller
      registers agents and viewers only (signaling/websocket.go). */
  lemma RegisterKeepsSlots(sessions: map<Key, Session>, p: Peer)
    requires SlotsValid(sessions)
    ensures SlotsValid(AfterRegister(sessions, p)) <==> !p.role.OtherRole? || KeyOf(p) in sessions || !HasKey(p)
  {
    var r := AfterRegister(sessions, p);
    if HasKey(p) && p.role.OtherRole? && KeyOf(p) !in sessions {
      assert r[KeyOf(p)] == Session(None, None);
    }
  }

  lemma UnregisterKeepsSlots(sessions: map<Key, Session>, p: Peer)
    requires SlotsValid(sessions)
    ensures SlotsValid(AfterUnregister(sessions, p))
  {
  }

  /** A message goes to a peer exactly when that peer is in its slot of the sender's
      own session, and one of them is an agent and the other a viewer. */
  lemma ForwardReachesTheOtherRole(sessions: map<Key, Session>, p: Peer, q: Peer)
    requires SlotsValid(sessions)
    ensures ForwardTarget(sessions, p) == Some(q) <==>
              && HasKey(p) && InSlot(sessions, q) && KeyOf(q) == KeyOf(p)
              && ((p.role.Agent? && q.role.Viewer?) || (p.role.Viewer? && q.role.Agent?))
  {
  }

  /** A viewer that is displaced is told so before it is closed, and the agent of
      the session is told last. */
  lemma DisplacedIsToldFirst(sessions: map<Key, Session>, p: Peer, q: Peer)
    requires HasKey(p) && p.role.Viewer? && SessionAt(sessions, KeyOf(p)).viewer == Some(q) && q != p
    ensures RegisterNotices(sessions, p) ==
              (if q.canSend then [Replaced(q)] else [])
              + (if q.canClose then [Closed(q, 4002)] else [])
              + (match SessionAt(sessions, KeyOf(p)).agent
                 case Some(a) => if a.canSend then [Detached(a)] else []
                 case None => [])
  {
  }

  /** A peer without a subject or session ID has no effect on anybody. */
  lemma BlankKeyDoesNothing(sessions: map<Key, Session>, p: Peer)
    requires Trim(p.subject) == "" || Trim(p.sessionID) == ""
    ensures AfterRegister(sessions, p) == sessions && RegisterNotices(sessions, p) == []
    ensures AfterUnregister(sessions, p) == sessions && UnregisterNotices(sessions, p) == []
    ensures ForwardTarget(sessions, p) == None
  {
  }

  /** A peer that is not in its slot can unregister without any effect. */
  lemma AbsentLeavesSilently(sessions: map<Key, Session>, p: Peer)
    requires SlotsValid(sessions) && !InSlot(sessions, p)
    ensures AfterUnregister(sessions, p) == sessions && UnregisterNotices(sessions, p) == []
  {
  }
}
