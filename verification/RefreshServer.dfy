/** The refresh handler (cmd/shellin-control-plane/auth_handlers.go), many
    instances of which run at once.

    A handler is broken at its calls into the token store, so handlers
    interleave between peeking, looking up the entitlement, consuming and
    issuing.  Each step carries the clock value the handler happened to read
    and the outcome of the calls outside the model, so nothing is assumed
    about clocks. */
module RefreshServer {
  import opened Results
  import opened Text
  import opened Lineage
  import opened RefreshTokens

  datatype Phase =
    | Peeking
    | LookingUp(subject: string)
    | Consuming(subject: string)
    | Issuing(subject: string)
    | Answered(session: Token)
    | Refused

  /** `token` is what the request presented: 0 for a login. */
  datatype Handler = Handler(token: Token, phase: Phase)

  /** `store` is the token store, keyed by token; `log` is its history. */
  datatype Server = Server(log: seq<Issued>, store: map<Token, Record>, handlers: map<nat, Handler>)

  datatype Move =
    | AcceptRefresh(id: nat, token: Token)
    | AcceptLogin(id: nat, owner: string)
    | Advance(id: nat, now: int, usable: bool, signed: bool, ttl: int)
    | Close(id: nat)
    | Sweep(cutoff: int)

  function Boot(): Server {
    Server([Issued(0, "")], map[], map[])
  }

  function WithHandler(s: Server, id: nat, token: Token, phase: Phase): Server {
    s.(handlers := s.handlers[id := Handler(token, phase)])
  }

  /** Store a fresh token and hand it to handler `id`. */
  function IssueTo(s: Server, id: nat, record: Record): Server
    requires id in s.handlers
  {
    var token := s.handlers[id].token;
    Server(s.log + [Issued(token, record.subject)],
           s.store[|s.log| := record],
           s.handlers[id := Handler(token, Answered(|s.log|))])
  }

  /** One store call of handler `id`. */
  function AdvanceHandler(s: Server, id: nat, now: int, usable: bool, signed: bool, ttl: int): Server
    requires id in s.handlers
  {
    var token := s.handlers[id].token;
    match s.handlers[id].phase
    case Peeking =>
      (match PeekIn(s.store, token, now)
       case Success(subject) => WithHandler(s, id, token, LookingUp(subject))
       case Failure(_) => WithHandler(s, id, token, Refused))
    case LookingUp(subject) =>
      WithHandler(s, id, token, if usable then Consuming(subject) else Refused)
    case Consuming(subject) =>
      var consumed := s.(store := s.store - {token});
      WithHandler(consumed, id, token, if PeekIn(s.store, token, now) == Success(subject) then Issuing(subject) else Refused)
    case Issuing(subject) =>
      (match IssueRecord(subject, ttl, now)
       case Success(record) =>
         if signed then IssueTo(s, id, record) else WithHandler(s, id, token, Refused)
       case Failure(_) => WithHandler(s, id, token, Refused))
    case Answered(_) => s
    case Refused => s
  }

  /** A move that is not possible changes nothing. */
  function Next(s: Server, m: Move): Server {
    match m
    case AcceptRefresh(id, token) =>
      if id in s.handlers then s else WithHandler(s, id, token, Peeking)
    case AcceptLogin(id, owner) =>
      if id in s.handlers then s else WithHandler(s, id, 0, Issuing(owner))
    case Advance(id, now, usable, signed, ttl) =>
      if id in s.handlers then AdvanceHandler(s, id, now, usable, signed, ttl) else s
    case Close(id) =>
      s.(handlers := s.handlers - {id})
    case Sweep(cutoff) =>
      s.(store := Unexpired(s.store, cutoff))
  }

  ghost function Run(moves: seq<Move>): Server {
    if moves == [] then Boot() else Next(Run(moves[..|moves| - 1]), moves[|moves| - 1])
  }

  /** Only the last call of a handler touches the log; the others move it to another phase. */
  lemma AdvanceShape(s: Server, id: nat, now: int, usable: bool, signed: bool, ttl: int)
    requires id in s.handlers
    ensures var r := AdvanceHandler(s, id, now, usable, signed, ttl);
            var h := s.handlers[id];
            if r.log != s.log then
              && h.phase.Issuing? && IssueRecord(h.phase.subject, ttl, now).Success?
              && r == IssueTo(s, id, IssueRecord(h.phase.subject, ttl, now).value)
            else
              r == s || exists phase: Phase :: !phase.Answered? && r.handlers == s.handlers[id := Handler(h.token, phase)]
  {
  }

  /** The server after `id` advanced once. */
  function Advanced(s: Server, id: nat, now: int, a: Attempt): Server {
    Next(s, Advance(id, now, a.usable, a.signed, a.ttl))
  }

  function Refreshing(s: Server, id: nat, token: Token, a: Attempt): Server {
    var peeked := Advanced(Next(s, AcceptRefresh(id, token)), id, a.peekNow, a);
    var consumed := Advanced(Advanced(peeked, id, a.peekNow, a), id, a.consumeNow, a);
    Advanced(consumed, id, a.issueNow, a)
  }

  /** A handler that was refused stays as it is. */
  lemma RefusedStays(s: Server, id: nat, now: int, a: Attempt)
    requires id in s.handlers && s.handlers[id].phase.Refused?
    ensures Advanced(s, id, now, a) == s
  {
  }

  lemma PeekStep(s: Server, id: nat, token: Token, a: Attempt)
    requires id !in s.handlers
    ensures Advanced(Next(s, AcceptRefresh(id, token)), id, a.peekNow, a) ==
            WithHandler(s, id, token, match PeekIn(s.store, token, a.peekNow)
                                      case Success(subject) => LookingUp(subject)
                                      case Failure(_) => Refused)
  {
  }

  lemma LookUpStep(s: Server, id: nat, token: Token, subject: string, now: int, a: Attempt)
    ensures Advanced(WithHandler(s, id, token, LookingUp(subject)), id, now, a) ==
            WithHandler(s, id, token, if a.usable then Consuming(subject) else Refused)
  {
  }

  lemma ConsumeStep(s: Server, id: nat, token: Token, subject: string, a: Attempt)
    ensures Advanced(WithHandler(s, id, token, Consuming(subject)), id, a.consumeNow, a) ==
            WithHandler(s.(store := s.store - {token}), id, token,
                        if PeekIn(s.store, token, a.consumeNow) == Success(subject) then Issuing(subject) else Refused)
  {
  }

  lemma IssueStep(s: Server, id: nat, token: Token, subject: string, a: Attempt)
    ensures var w := WithHandler(s, id, token, Issuing(subject));
            Advanced(w, id, a.issueNow, a) ==
            match IssueRecord(subject, a.ttl, a.issueNow)
            case Success(record) => if a.signed then IssueTo(w, id, record) else WithHandler(s, id, token, Refused)
            case Failure(_) => WithHandler(s, id, token, Refused)
  {
  }

  /** A handler whose four calls follow each other without another one in
      between is the refresh request of RefreshTokens. */
  lemma UninterruptedIsHandler(s: Server, id: nat, token: Token, a: Attempt)
    requires id !in s.handlers
    ensures var r := Refreshing(s, id, token, a);
            var (status, tokens) := AfterRefresh(s.store, token, Some(|s.log|), a);
            && r.store == tokens && id in r.handlers
            && r.handlers[id].phase == (if status == 200 then Answered(|s.log|) else Refused)
            && (status == 200 <==> r.log != s.log)
  {
    var refused, spent := WithHandler(s, id, token, Refused), s.(store := s.store - {token});
    PeekStep(s, id, token, a);
    RefusedStays(refused, id, a.peekNow, a);
    RefusedStays(refused, id, a.consumeNow, a);
    RefusedStays(refused, id, a.issueNow, a);
    match PeekIn(s.store, token, a.peekNow)
    case Failure(_) =>
    case Success(subject) =>
      LookUpStep(s, id, token, subject, a.peekNow, a);
      if a.usable {
        ConsumeStep(s, id, token, subject, a);
        RefusedStays(WithHandler(spent, id, token, Refused), id, a.issueNow, a);
        IssueStep(spent, id, token, subject, a);
      }
  }

  // --- what every interleaving keeps ---

  ghost predicate LogValid(log: seq<Issued>) {
    && WellFormed(log)
    && OneSuccessor(log)
    && forall t :: 0 < t < |log| ==> Trim(log[t].subject) == log[t].subject
  }

  /** A stored token has not been exchanged, and nobody holds the right to exchange it. */
  ghost predicate StoreValid(s: Server) {
    forall t :: t in s.store ==>
      && Known(s.log, t)
      && s.store[t].subject == s.log[t].subject
      && Childless(s.log, t)
  }

  /** Consuming a token gives its handler alone the right to issue a successor. */
  ghost predicate ClaimValid(s: Server, id: nat)
    requires id in s.handlers
  {
    var h := s.handlers[id];
    match h.phase
    case Issuing(subject) =>
      h.token != 0 ==>
        && Known(s.log, h.token)
        && h.token !in s.store
        && Childless(s.log, h.token)
        && subject == s.log[h.token].subject
        && (forall j :: j in s.handlers && j != id && s.handlers[j].phase.Issuing? ==> s.handlers[j].token != h.token)
    case Answered(session) => Known(s.log, session) && s.log[session].parent == h.token
    case Peeking => true
    case Refused => true
    case _ => Known(s.log, h.token)
  }

  ghost predicate Valid(s: Server) {
    && LogValid(s.log)
    && StoreValid(s)
    && forall id :: id in s.handlers ==> ClaimValid(s, id)
  }

  lemma IssueKeepsLog(s: Server, id: nat, record: Record)
    requires Valid(s) && id in s.handlers && s.handlers[id].phase.Issuing?
    requires record.subject == Trim(s.handlers[id].phase.subject)
    ensures LogValid(IssueTo(s, id, record).log)
    ensures forall t: Token :: Known(s.log, t) && t != s.handlers[id].token && Childless(s.log, t) ==>
                          Childless(IssueTo(s, id, record).log, t)
    ensures Childless(IssueTo(s, id, record).log, |s.log|)
  {
    var e := Issued(s.handlers[id].token, record.subject);
    TrimIsTrimmed(s.handlers[id].phase.subject);
    assert ClaimValid(s, id);
    assert MayIssue(s.log, e);
    IssueKeepsOrder(s.log, e);
  }

  lemma IssueKeepsValid(s: Server, id: nat, record: Record)
    requires Valid(s) && id in s.handlers && s.handlers[id].phase.Issuing?
    requires record.subject == Trim(s.handlers[id].phase.subject)
    ensures Valid(IssueTo(s, id, record))
  {
    var r := IssueTo(s, id, record);
    IssueKeepsLog(s, id, record);
    assert ClaimValid(s, id);
    forall j | j in r.handlers
      ensures ClaimValid(r, j)
    {
      assert ClaimValid(s, j);
    }
    forall t | t in r.store
      ensures Known(r.log, t) && r.store[t].subject == r.log[t].subject && Childless(r.log, t)
    {
      if t != |s.log| {
        assert Known(s.log, t) && Childless(s.log, t) && t != s.handlers[id].token;
      }
    }
  }

  lemma ConsumeKeepsValid(s: Server, id: nat, now: int, usable: bool, signed: bool, ttl: int)
    requires Valid(s) && id in s.handlers && s.handlers[id].phase.Consuming?
    ensures Valid(AdvanceHandler(s, id, now, usable, signed, ttl))
  {
    var r := AdvanceHandler(s, id, now, usable, signed, ttl);
    assert ClaimValid(s, id);
    forall j | j in r.handlers
      ensures ClaimValid(r, j)
    {
      assert ClaimValid(s, j);
    }
  }

  /** A step that touches neither the log nor the store. */
  lemma PhaseKeepsValid(s: Server, id: nat, phase: Phase)
    requires Valid(s) && id in s.handlers
    requires phase.Refused? || ((phase.LookingUp? || phase.Consuming?) && Known(s.log, s.handlers[id].token))
    ensures Valid(WithHandler(s, id, s.handlers[id].token, phase))
  {
    var r := WithHandler(s, id, s.handlers[id].token, phase);
    forall j | j in r.handlers
      ensures ClaimValid(r, j)
    {
      assert ClaimValid(s, j);
    }
  }

  lemma AdvanceKeepsValid(s: Server, id: nat, now: int, usable: bool, signed: bool, ttl: int)
    requires Valid(s) && id in s.handlers
    ensures Valid(AdvanceHandler(s, id, now, usable, signed, ttl))
  {
    var r := AdvanceHandler(s, id, now, usable, signed, ttl);
    assert ClaimValid(s, id);
    match s.handlers[id].phase
    case Peeking => PhaseKeepsValid(s, id, r.handlers[id].phase);
    case LookingUp(_) => PhaseKeepsValid(s, id, r.handlers[id].phase);
    case Consuming(_) => ConsumeKeepsValid(s, id, now, usable, signed, ttl);
    case Issuing(subject) =>
      if r.handlers[id].phase.Refused? {
        PhaseKeepsValid(s, id, Refused);
      } else {
        IssueKeepsValid(s, id, IssueRecord(subject, ttl, now).value);
      }
    case _ =>
  }

  lemma NextKeepsValid(s: Server, m: Move)
    requires Valid(s)
    ensures Valid(Next(s, m))
  {
    if m.Advance? {
      if m.id in s.handlers {
        AdvanceKeepsValid(s, m.id, m.now, m.usable, m.signed, m.ttl);
      }
    } else {
      var r := Next(s, m);
      forall j | j in r.handlers
        ensures ClaimValid(r, j)
      {
        if j in s.handlers {
          assert ClaimValid(s, j);
        }
      }
    }
  }

  lemma {:induction false} RunIsValid(moves: seq<Move>)
    ensures Valid(Run(moves))
  {
    if moves != [] {
      RunIsValid(moves[..|moves| - 1]);
      NextKeepsValid(Run(moves[..|moves| - 1]), moves[|moves| - 1]);
    }
  }

  /** Rotation is safe under every interleaving: a refresh token is exchanged
      at most once, and for a token of the same subject. */
  lemma AtMostOneSuccessor(moves: seq<Move>, a: Token, b: Token)
    requires var log := Run(moves).log; Known(log, a) && Known(log, b) && log[a].parent == log[b].parent != 0
    ensures var log := Run(moves).log; a == b && Known(log, log[a].parent) && log[log[a].parent].subject == log[a].subject
  {
    RunIsValid(moves);
  }

  /** `t` is stored, or consumed by a handler that has yet to issue its successor. */
  ghost predicate Outstanding(s: Server, t: Token) {
    t != 0 && (t in s.store || exists id :: id in s.handlers && s.handlers[id].token == t && s.handlers[id].phase.Issuing?)
  }

  ghost predicate SameLogin(log: seq<Issued>, a: Token, b: Token) {
    WellFormed(log) && Known(log, a) && Known(log, b) && Login(log, a) == Login(log, b)
  }

  /** The tokens of one login that are still good, plus the exchanges of them
      that are under way, never number more than one. */
  lemma OneLiveTokenPerLogin(moves: seq<Move>, a: Token, b: Token)
    requires Outstanding(Run(moves), a) && Outstanding(Run(moves), b) && SameLogin(Run(moves).log, a, b)
    ensures a == b
  {
    var s := Run(moves);
    RunIsValid(moves);
    OutstandingIsChildless(s, a);
    OutstandingIsChildless(s, b);
    ChildlessIsNewest(s.log, a, b);
    ChildlessIsNewest(s.log, b, a);
    DescendsIsOlder(s.log, a, b);
    DescendsIsOlder(s.log, b, a);
  }

  lemma OutstandingIsChildless(s: Server, t: Token)
    requires Valid(s) && Outstanding(s, t)
    ensures Known(s.log, t) && Childless(s.log, t)
  {
    if t !in s.store {
      var id :| id in s.handlers && s.handlers[id].token == t && s.handlers[id].phase.Issuing?;
      assert ClaimValid(s, id);
    }
  }
}
