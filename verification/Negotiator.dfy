/** The agent's side of a WebRTC negotiation: candidates that arrive while an
    offer is out wait in a queue until the answer
    (cmd/shellin/webrtc_offer.go, webrtc_signal_handlers.go).

    The peer connection is reduced to its signaling state (section 3.2 of
    RFC 8829: stable and have-local-offer are the states an offerer passes
    through), whether it has a remote description, and a log of what was asked
    of it.  Every call to it may fail. */
module Negotiator {
  import opened Sequences

  type Candidate = nat

  datatype Signaling = Stable | HaveLocalOffer

  /** `Arrived` marks when a candidate message was handled, the others what the peer connection was asked and did. */
  datatype Entry = Offered | RolledBack | Answered | Arrived(candidate: Candidate) | Applied(candidate: Candidate)

  datatype Peer = Peer(pending: seq<Candidate>, signaling: Signaling, hasRemote: bool, log: seq<Entry>)

  const NEW_PEER := Peer([], Stable, false, [])

  /** Which of the steps of sending an offer succeed. */
  datatype OfferLuck = OfferLuck(rollback: bool, create: bool, setLocal: bool, sent: bool)

  function AllApplied(candidates: seq<Candidate>): seq<Entry> {
    if candidates == [] then [] else AllApplied(candidates[..|candidates| - 1]) + [Applied(candidates[|candidates| - 1])]
  }

  function RollBack(p: Peer): Peer {
    p.(signaling := Stable, log := p.log + [RolledBack])
  }

  /** The peer after sendOffer, and whether that succeeded. */
  function AfterOffer(p: Peer, luck: OfferLuck): (Peer, bool) {
    if p.signaling.HaveLocalOffer? && !luck.rollback then (p, false)
    else
      var cleared := (if p.signaling.HaveLocalOffer? then RollBack(p) else p).(pending := []);
      if !luck.create || !luck.setLocal then (cleared, false)
      else (cleared.(signaling := HaveLocalOffer, log := cleared.log + [Offered]), luck.sent)
  }

  function AfterReady(p: Peer, first: OfferLuck, second: OfferLuck): Peer {
    var (tried, ok) := AfterOffer(p, first);
    if ok then tried else AfterOffer(tried, second).0
  }

  function AfterDetach(p: Peer, rollback: bool): Peer {
    if p.signaling.HaveLocalOffer? && rollback then RollBack(p) else p
  }

  function AfterAnswer(p: Peer, hasSdp: bool, setRemote: bool): Peer {
    if !hasSdp || !p.signaling.HaveLocalOffer? || !setRemote then p
    else Peer([], Stable, true, p.log + [Answered] + AllApplied(p.pending))
  }

  function AfterCandidate(p: Peer, c: Candidate): Peer {
    if !p.hasRemote || p.signaling.HaveLocalOffer?
    then p.(pending := p.pending + [c], log := p.log + [Arrived(c)])
    else p.(log := p.log + [Arrived(c)] + [Applied(c)])
  }

  // --- the negotiator as it is written ---

  class WebrtcNegotiator {
    var pendingCandidates: seq<Candidate>
    var signaling: Signaling
    var hasRemote: bool
    ghost var log: seq<Entry>

    ghost function State(): Peer
      reads this
    {
      Peer(pendingCandidates, signaling, hasRemote, log)
    }

    constructor ()
      ensures State() == NEW_PEER
    {
      pendingCandidates, signaling, hasRemote, log := [], Stable, false, [];
    }

    method QueuePendingCandidate(c: Candidate)
      modifies this`pendingCandidates
      ensures pendingCandidates == old(pendingCandidates) + [c]
    {
      pendingCandidates := pendingCandidates + [c];
    }

    method AddICECandidate(c: Candidate)
      modifies this`log
      ensures log == old(log) + [Applied(c)]
    {
      log := log + [Applied(c)];
    }

    method FlushPendingCandidates()
      modifies this`pendingCandidates, this`log
      ensures pendingCandidates == [] && log == old(log) + AllApplied(old(pendingCandidates))
    {
      var candidates := pendingCandidates;
      pendingCandidates := [];
      for i := 0 to |candidates|
        invariant pendingCandidates == [] && log == old(log) + AllApplied(candidates[..i])
      {
        AddICECandidate(candidates[i]);
        assert candidates[..i + 1][..i] == candidates[..i];
      }
      assert candidates[..|candidates|] == candidates;
    }

    /** SetLocalDescription with a rollback. */
    method RollBackOffer(succeeds: bool) returns (ok: bool)
      modifies this`signaling, this`log
      ensures ok == succeeds
      ensures if ok then signaling == Stable && log == old(log) + [RolledBack] else signaling == old(signaling) && log == old(log)
    {
      if succeeds {
        signaling, log := Stable, log + [RolledBack];
      }
      return succeeds;
    }

    method ResetPendingOffer(rollback: bool)
      modifies this
      ensures State() == AfterDetach(old(State()), rollback)
    {
      if signaling != HaveLocalOffer {
        return;
      }
      var _ := RollBackOffer(rollback);
    }

    method SendOffer(luck: OfferLuck) returns (ok: bool)
      modifies this
      ensures (State(), ok) == AfterOffer(old(State()), luck)
    {
      if signaling == HaveLocalOffer {
        ok := RollBackOffer(luck.rollback);
        if !ok {
          return false;
        }
      }
      pendingCandidates := [];
      if !luck.create {
        return false;
      }
      if !luck.setLocal {
        return false;
      }
      signaling, log := HaveLocalOffer, log + [Offered];
      return luck.sent;
    }

    method HandleAnswer(hasSdp: bool, setRemote: bool)
      modifies this
      ensures State() == AfterAnswer(old(State()), hasSdp, setRemote)
    {
      if !hasSdp {
        return;
      }
      if signaling != HaveLocalOffer {
        return;
      }
      if !setRemote {
        return;
      }
      signaling, hasRemote, log := Stable, true, log + [Answered];
      FlushPendingCandidates();
    }

    /** `hasCandidate` is false when the message holds none. */
    method HandleCandidate(hasCandidate: bool, c: Candidate)
      modifies this
      ensures State() == if hasCandidate then AfterCandidate(old(State()), c) else old(State())
    {
      if !hasCandidate {
        return;
      }
      log := log + [Arrived(c)];
      if !hasRemote || signaling == HaveLocalOffer {
        QueuePendingCandidate(c);
        return;
      }
      AddICECandidate(c);
    }

    method HandleViewerReady(first: OfferLuck, second: OfferLuck) returns (reconnect: bool)
      modifies this
      ensures State() == AfterReady(old(State()), first, second)
      ensures reconnect <==> !AfterOffer(old(State()), first).1 && !AfterOffer(AfterOffer(old(State()), first).0, second).1
    {
      reconnect := false;
      var ok := SendOffer(first);
      if !ok {
        ok := SendOffer(second);
        reconnect := !ok;
      }
    }

    method HandleViewerDetach(rollback: bool) returns (reconnect: bool)
      modifies this
      ensures State() == AfterDetach(old(State()), rollback) && reconnect
    {
      ResetPendingOffer(rollback);
      return true;
    }
  }

  // --- what the log says ---

  function SignalingOf(log: seq<Entry>): Signaling {
    if log == [] then Stable
    else match log[|log| - 1]
         case Offered => HaveLocalOffer
         case RolledBack => Stable
         case Answered => Stable
         case _ => SignalingOf(log[..|log| - 1])
  }

  predicate HasRemoteOf(log: seq<Entry>) {
    Answered in log
  }

  /** The last offer was answered, and no offer or rollback has followed. */
  predicate InAnsweredRound(log: seq<Entry>) {
    log != [] && match log[|log| - 1]
                 case Answered => true
                 case Offered => false
                 case RolledBack => false
                 case _ => InAnsweredRound(log[..|log| - 1])
  }

  /** The candidates that arrived since the last offer, in order. */
  function ArrivedSinceOffer(log: seq<Entry>): seq<Candidate> {
    if log == [] then []
    else match log[|log| - 1]
         case Offered => []
         case Arrived(c) => ArrivedSinceOffer(log[..|log| - 1]) + [c]
         case _ => ArrivedSinceOffer(log[..|log| - 1])
  }

  /** The candidates that were applied since the last offer, in order. */
  function AppliedSinceOffer(log: seq<Entry>): seq<Candidate> {
    if log == [] then []
    else match log[|log| - 1]
         case Offered => []
         case Applied(c) => AppliedSinceOffer(log[..|log| - 1]) + [c]
         case _ => AppliedSinceOffer(log[..|log| - 1])
  }

  /** Entry `i`, if it applies a candidate, does so with a remote description and
      no offer out, and the candidate arrived since the last offer. */
  predicate AppliedInTime(log: seq<Entry>, i: nat)
    requires i < |log|
  {
    log[i].Applied? ==>
      HasRemoteOf(log[..i]) && SignalingOf(log[..i]) == Stable && log[i].candidate in ArrivedSinceOffer(log[..i])
  }

  ghost predicate AllInTime(log: seq<Entry>) {
    forall i :: 0 <= i < |log| ==> AppliedInTime(log, i)
  }

  ghost predicate Valid(p: Peer) {
    && p.signaling == SignalingOf(p.log) && p.hasRemote == HasRemoteOf(p.log) && AllInTime(p.log)
    && (p.signaling.HaveLocalOffer? ==> p.pending == ArrivedSinceOffer(p.log) && AppliedSinceOffer(p.log) == [])
    && (InAnsweredRound(p.log) ==> p.pending == [] && AppliedSinceOffer(p.log) == ArrivedSinceOffer(p.log))
  }

  lemma Append(log: seq<Entry>, e: Entry)
    requires AllInTime(log)
    requires e.Applied? ==> HasRemoteOf(log) && SignalingOf(log) == Stable && e.candidate in ArrivedSinceOffer(log)
    ensures var n := log + [e];
            && AllInTime(n)
            && n[..|n| - 1] == log && n[|n| - 1] == e
            && SignalingOf(n) == (if e.Offered? then HaveLocalOffer else if e.RolledBack? || e.Answered? then Stable else SignalingOf(log))
            && (HasRemoteOf(n) <==> HasRemoteOf(log) || e.Answered?)
            && (InAnsweredRound(n) <==> e.Answered? || (!e.Offered? && !e.RolledBack? && InAnsweredRound(log)))
            && ArrivedSinceOffer(n) == (if e.Offered? then [] else ArrivedSinceOffer(log) + if e.Arrived? then [e.candidate] else [])
            && AppliedSinceOffer(n) == (if e.Offered? then [] else AppliedSinceOffer(log) + if e.Applied? then [e.candidate] else [])
  {
    var n := log + [e];
    assert n[..|log|] == log;
    forall i | 0 <= i < |n|
      ensures AppliedInTime(n, i)
    {
      if i < |log| {
        assert n[..i] == log[..i] && AppliedInTime(log, i);
      }
    }
  }

  /** The log after the first `k` queued candidates were flushed. */
  ghost predicate Flushed(log: seq<Entry>, candidates: seq<Candidate>, k: nat)
    requires k <= |candidates|
  {
    && AllInTime(log) && InAnsweredRound(log) && SignalingOf(log) == Stable && HasRemoteOf(log)
    && ArrivedSinceOffer(log) == candidates && AppliedSinceOffer(log) == candidates[..k]
  }

  lemma FlushOneMore(log: seq<Entry>, candidates: seq<Candidate>, k: nat)
    requires k < |candidates| && Flushed(log, candidates, k)
    ensures Flushed(log + [Applied(candidates[k])], candidates, k + 1)
  {
    Append(log, Applied(candidates[k]));
  }

  lemma {:induction false} FlushKeepsValid(log: seq<Entry>, candidates: seq<Candidate>, k: nat)
    requires k <= |candidates| && Flushed(log, candidates, 0)
    ensures Flushed(log + AllApplied(candidates[..k]), candidates, k)
  {
    if k == 0 {
      assert log + [] == log;
    } else {
      assert candidates[..k][..k - 1] == candidates[..k - 1];
      assert log + AllApplied(candidates[..k]) == log + AllApplied(candidates[..k - 1]) + [Applied(candidates[k - 1])];
      FlushKeepsValid(log, candidates, k - 1);
      FlushOneMore(log + AllApplied(candidates[..k - 1]), candidates, k - 1);
    }
  }

  // --- every run ---

  /** A signal message, with how the calls it makes turn out. */
  datatype Event =
    | Answer(hasSdp: bool, setRemote: bool)
    | Candidate(candidate: Candidate)
    | ViewerReady(first: OfferLuck, second: OfferLuck)
    | Detach(rollback: bool)

  function Handle(p: Peer, e: Event): Peer {
    match e
    case Answer(hasSdp, setRemote) => AfterAnswer(p, hasSdp, setRemote)
    case Candidate(c) => AfterCandidate(p, c)
    case ViewerReady(first, second) => AfterReady(p, first, second)
    case Detach(rollback) => AfterDetach(p, rollback)
  }

  function RunFrom(p: Peer, events: seq<Event>): Peer {
    if events == [] then p else Handle(RunFrom(p, events[..|events| - 1]), events[|events| - 1])
  }

  function Run(events: seq<Event>): Peer {
    RunFrom(NEW_PEER, events)
  }

  lemma RollBackKeepsValid(p: Peer)
    requires Valid(p)
    ensures Valid(RollBack(p))
  {
    Append(p.log, RolledBack);
  }

  lemma OfferKeepsValid(p: Peer, luck: OfferLuck)
    requires Valid(p)
    ensures Valid(AfterOffer(p, luck).0)
  {
    if p.signaling.HaveLocalOffer? {
      RollBackKeepsValid(p);
    }
    var rolled := if p.signaling.HaveLocalOffer? then RollBack(p) else p;
    Append(rolled.log, Offered);
  }

  lemma AnswerKeepsValid(p: Peer, hasSdp: bool, setRemote: bool)
    requires Valid(p)
    ensures Valid(AfterAnswer(p, hasSdp, setRemote))
  {
    if p.signaling.HaveLocalOffer? {
      Append(p.log, Answered);
      FlushKeepsValid(p.log + [Answered], p.pending, |p.pending|);
      assert p.pending[..|p.pending|] == p.pending;
    }
  }

  lemma {:induction false} AnsweredRoundIsStable(log: seq<Entry>)
    requires InAnsweredRound(log)
    ensures HasRemoteOf(log) && SignalingOf(log) == Stable
  {
    if !log[|log| - 1].Answered? {
      AnsweredRoundIsStable(log[..|log| - 1]);
      assert Answered in log[..|log| - 1];
    }
  }

  lemma CandidateKeepsValid(p: Peer, c: Candidate)
    requires Valid(p)
    ensures Valid(AfterCandidate(p, c))
  {
    Append(p.log, Arrived(c));
    if InAnsweredRound(p.log) {
      AnsweredRoundIsStable(p.log);
    }
    if p.hasRemote && p.signaling.Stable? {
      Append(p.log + [Arrived(c)], Applied(c));
    }
  }

  lemma {:induction false} RunIsValid(events: seq<Event>)
    ensures Valid(Run(events))
  {
    if events != [] {
      var p, e := Run(events[..|events| - 1]), events[|events| - 1];
      RunIsValid(events[..|events| - 1]);
      match e
      case Answer(hasSdp, setRemote) => AnswerKeepsValid(p, hasSdp, setRemote);
      case Candidate(c) => CandidateKeepsValid(p, c);
      case ViewerReady(first, second) =>
        OfferKeepsValid(p, first);
        OfferKeepsValid(AfterOffer(p, first).0, second);
      case Detach(_) => RollBackKeepsValid(p);
    }
  }

  /** In every run a candidate is applied only with a remote description and no
      offer out, and only if it arrived since the last offer: a flush never
      applies what an earlier round left behind. */
  lemma CandidatesAreAppliedInTime(events: seq<Event>, i: nat)
    requires i < |Run(events).log| && Run(events).log[i].Applied?
    ensures var log := Run(events).log;
            HasRemoteOf(log[..i]) && SignalingOf(log[..i]) == Stable && log[i].candidate in ArrivedSinceOffer(log[..i])
  {
    RunIsValid(events);
    assert AppliedInTime(Run(events).log, i);
  }

  /** Once an offer is answered, and until the next offer or rollback, the
      candidates applied are those that arrived since the offer, in their order;
      while it is unanswered none is. */
  lemma AnsweredRoundAppliesArrivals(events: seq<Event>)
    ensures var p := Run(events);
            && (InAnsweredRound(p.log) ==> AppliedSinceOffer(p.log) == ArrivedSinceOffer(p.log) && p.pending == [])
            && (SignalingOf(p.log) == HaveLocalOffer ==> AppliedSinceOffer(p.log) == [] && p.pending == ArrivedSinceOffer(p.log))
  {
    RunIsValid(events);
  }

  // --- the queue when no offer is out ---

  lemma {:induction false} RunContinues(first: seq<Event>, events: seq<Event>)
    ensures Run(first + events) == RunFrom(Run(first), events)
  {
    if events == [] {
      assert first + events == first;
    } else {
      assert (first + events)[..|first + events| - 1] == first + events[..|events| - 1];
      RunContinues(first, events[..|events| - 1]);
    }
  }

  predicate NoViewerReady(events: seq<Event>) {
    forall i :: 0 <= i < |events| ==> !events[i].ViewerReady?
  }

  /** The candidates that the messages bring. */
  function Arrivals(events: seq<Event>): seq<Candidate> {
    if events == [] then []
    else
      var before, last := Arrivals(events[..|events| - 1]), events[|events| - 1];
      if last.Candidate? then before + [last.candidate] else before
  }

  /** What the peer connection is asked for candidates that arrive while no offer
      is out: each is applied at once, or none if there is no remote description. */
  function AppliedAtOnce(candidates: seq<Candidate>, hasRemote: bool): seq<Entry> {
    if candidates == [] then []
    else
      var before, c := AppliedAtOnce(candidates[..|candidates| - 1], hasRemote), candidates[|candidates| - 1];
      before + if hasRemote then [Arrived(c), Applied(c)] else [Arrived(c)]
  }

  lemma AppliedAtOnceMore(candidates: seq<Candidate>, c: Candidate, hasRemote: bool)
    ensures AppliedAtOnce(candidates + [c], hasRemote) ==
            AppliedAtOnce(candidates, hasRemote) + if hasRemote then [Arrived(c), Applied(c)] else [Arrived(c)]
  {
    assert (candidates + [c])[..|candidates|] == candidates;
  }

  /** While no offer is out and no viewer gets ready, what waits in the queue keeps
      waiting in front of it, and nothing is applied but arriving candidates. */
  lemma {:induction false} QueueWaits(p: Peer, events: seq<Event>)
    requires p.signaling.Stable? && NoViewerReady(events)
    ensures RunFrom(p, events) ==
            Peer(if p.hasRemote then p.pending else p.pending + Arrivals(events), Stable, p.hasRemote,
                 p.log + AppliedAtOnce(Arrivals(events), p.hasRemote))
  {
    if events == [] {
      assert p.pending + [] == p.pending && p.log + [] == p.log;
    } else {
      var before, last := events[..|events| - 1], events[|events| - 1];
      QueueWaits(p, before);
      if last.Candidate? {
        AppliedAtOnceMore(Arrivals(before), last.candidate, p.hasRemote);
        var step := if p.hasRemote then [Arrived(last.candidate), Applied(last.candidate)] else [Arrived(last.candidate)];
        Associate(p.log, AppliedAtOnce(Arrivals(before), p.hasRemote), step);
        Associate(p.pending, Arrivals(before), [last.candidate]);
        assert p.hasRemote ==> step == [Arrived(last.candidate)] + [Applied(last.candidate)];
        Associate(p.log + AppliedAtOnce(Arrivals(before), p.hasRemote), [Arrived(last.candidate)], [Applied(last.candidate)]);
      }
    }
  }

  /** A viewer that gets ready while no offer is out drops the whole queue, however its offers turn out. */
  lemma ReadyDropsQueue(p: Peer, first: OfferLuck, second: OfferLuck)
    requires p.signaling.Stable?
    ensures AfterReady(p, first, second).pending == []
  {
  }

  /** In every run: what is queued when an offer is rolled back, or was out of use
      already, waits through all messages until a viewer gets ready, is not applied
      meanwhile, and is dropped then. */
  lemma DetachLeavesQueue(events: seq<Event>, later: seq<Event>, rollback: bool, first: OfferLuck, second: OfferLuck)
    requires NoViewerReady(later) && (rollback || Run(events).signaling.Stable?)
    ensures var p, q := Run(events), Run(events + [Detach(rollback)] + later);
            && q.pending == (if p.hasRemote then p.pending else p.pending + Arrivals(later))
            && q.log == (if p.signaling.Stable? then p.log else p.log + [RolledBack]) + AppliedAtOnce(Arrivals(later), p.hasRemote)
            && Run(events + [Detach(rollback)] + later + [ViewerReady(first, second)]).pending == []
  {
    var detached := events + [Detach(rollback)];
    assert detached[..|events|] == events;
    RunContinues(detached, later);
    QueueWaits(Run(detached), later);
    var all := detached + later + [ViewerReady(first, second)];
    assert all[..|all| - 1] == detached + later;
    ReadyDropsQueue(Run(detached + later), first, second);
  }

  // --- a round that succeeds ---

  /** An offer goes out when no offer is in the way, or it can be rolled back, and
      the description is made and set; what was queued before is dropped. */
  lemma OfferGoesOut(p: Peer, luck: OfferLuck)
    requires p.signaling.Stable? || luck.rollback
    ensures var (after, ok) := AfterOffer(p, luck);
            && (ok <==> luck.create && luck.setLocal && luck.sent)
            && after.pending == [] && after.hasRemote == p.hasRemote
            && (after.signaling.HaveLocalOffer? <==> luck.create && luck.setLocal)
            && (luck.create && luck.setLocal ==>
                  after.log == p.log + (if p.signaling.Stable? then [] else [RolledBack]) + [Offered])
  {
  }

  /** However the first attempt turns out, a second one that can go out leaves the viewer with an offer. */
  lemma ReadyTriesAgain(p: Peer, first: OfferLuck, second: OfferLuck)
    requires second.rollback && second.create && second.setLocal
    ensures var after := AfterReady(p, first, second);
            after.signaling.HaveLocalOffer? && after.pending == [] && after.log != [] && after.log[|after.log| - 1] == Offered
  {
  }

  /** In every run: an answer with a description to an outstanding offer, if it can
      be set, ends the round; the candidates that arrived since the offer are applied
      behind it, in order, and none waits.  Any other answer changes nothing. */
  lemma AnswerAppliesQueue(events: seq<Event>, hasSdp: bool, setRemote: bool)
    ensures var p, q := Run(events), Run(events + [Answer(hasSdp, setRemote)]);
            if hasSdp && setRemote && p.signaling == HaveLocalOffer then
              && q.signaling == Stable && q.hasRemote && q.pending == []
              && q.log == p.log + [Answered] + AllApplied(ArrivedSinceOffer(p.log))
            else q == p
  {
    assert (events + [Answer(hasSdp, setRemote)])[..|events|] == events;
    RunIsValid(events);
  }

  predicate OnlyCandidates(events: seq<Event>) {
    forall i :: 0 <= i < |events| ==> events[i].Candidate?
  }

  lemma {:induction false} CandidatesQueue(p: Peer, events: seq<Event>)
    requires p.signaling.HaveLocalOffer? && OnlyCandidates(events)
    ensures var q := RunFrom(p, events);
            q.signaling.HaveLocalOffer? && q.hasRemote == p.hasRemote && q.pending == p.pending + Arrivals(events)
  {
    if events != [] {
      CandidatesQueue(p, events[..|events| - 1]);
    } else {
      assert p.pending + [] == p.pending;
    }
  }

  /** A whole round, from any state: the offer goes out, candidates arrive, the
      answer comes.  Exactly these candidates are applied, in their order, behind the
      answer, and from then on candidates are applied as they arrive. */
  lemma RoundApplies(p: Peer, luck: OfferLuck, second: OfferLuck, arriving: seq<Event>, later: seq<Event>)
    requires (p.signaling.Stable? || luck.rollback) && luck.create && luck.setLocal && luck.sent
    requires OnlyCandidates(arriving) && OnlyCandidates(later)
    ensures var offered := RunFrom(AfterReady(p, luck, second), arriving);
            var answered := AfterAnswer(offered, true, true);
            && answered == Peer([], Stable, true, offered.log + [Answered] + AllApplied(Arrivals(arriving)))
            && RunFrom(answered, later) ==
                 Peer([], Stable, true, answered.log + AppliedAtOnce(Arrivals(later), true))
  {
    OfferGoesOut(p, luck);
    var out := AfterReady(p, luck, second);
    CandidatesQueue(out, arriving);
    assert [] + Arrivals(arriving) == Arrivals(arriving);
    QueueWaits(AfterAnswer(RunFrom(out, arriving), true, true), later);
  }
}
