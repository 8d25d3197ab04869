/** The history of refresh tokens the server has issued.

    Tokens are numbered in the order in which they are issued; number 0 is the
    blank token.  `log[t]` records for which token `t` was exchanged (0 for a
    login, which presents no token) and whose token it is.  Entry 0 is unused. */
module Lineage {

  type Token = nat

  datatype Issued = Issued(parent: Token, subject: string)

  predicate Known(log: seq<Issued>, t: Token) {
    0 < t < |log|
  }

  /** A token's predecessor was issued earlier and to the same subject. */
  ghost predicate Linked(log: seq<Issued>, t: Token)
    requires Known(log, t)
  {
    && log[t].parent < t
    && (log[t].parent != 0 ==> log[log[t].parent].subject == log[t].subject)
  }

  ghost predicate WellFormed(log: seq<Issued>) {
    && |log| > 0
    && forall t: Token :: Known(log, t) ==> Linked(log, t)
  }

  ghost predicate Childless(log: seq<Issued>, t: Token) {
    forall c :: 0 < c < |log| ==> log[c].parent != t
  }

  /** No token was exchanged twice. */
  ghost predicate OneSuccessor(log: seq<Issued>) {
    forall s, t :: 0 < s < |log| && 0 < t < |log| && log[s].parent == log[t].parent != 0 ==> s == t
  }

  /** The login from which `t` descends. */
  ghost function Login(log: seq<Issued>, t: Token): Token
    requires WellFormed(log) && Known(log, t)
    decreases t
  {
    if log[t].parent == 0 then t else Login(log, log[t].parent)
  }

  ghost predicate Descends(log: seq<Issued>, a: Token, b: Token)
    requires WellFormed(log) && Known(log, b)
    decreases b
  {
    a == b || (log[b].parent != 0 && Descends(log, a, log[b].parent))
  }

  /** `b` was obtained from `a` by one or more rotations. */
  ghost predicate Rotated(log: seq<Issued>, a: Token, b: Token)
    requires WellFormed(log) && Known(log, b)
  {
    a != b && Descends(log, a, b)
  }

  lemma {:induction false} DescendsIsOlder(log: seq<Issued>, a: Token, b: Token)
    requires WellFormed(log) && Known(log, a) && Known(log, b) && Descends(log, a, b)
    ensures a <= b
    ensures Login(log, a) == Login(log, b)
    ensures log[a].subject == log[b].subject
    decreases b
  {
    if a != b {
      DescendsIsOlder(log, a, log[b].parent);
    }
  }

  lemma {:induction false} LoginIsKnown(log: seq<Issued>, t: Token)
    requires WellFormed(log) && Known(log, t)
    ensures var r := Login(log, t); Known(log, r) && r <= t && log[r].parent == 0 && log[r].subject == log[t].subject
    decreases t
  {
    if log[t].parent != 0 {
      LoginIsKnown(log, log[t].parent);
    }
  }

  /** A proper descendant of `a` descends from a child of `a`. */
  lemma {:induction false} FirstStep(log: seq<Issued>, a: Token, b: Token) returns (c: Token)
    requires WellFormed(log) && Known(log, a) && Known(log, b) && Rotated(log, a, b)
    ensures Known(log, c) && log[c].parent == a && Descends(log, c, b)
    decreases b
  {
    if log[b].parent == a {
      c := b;
    } else {
      c := FirstStep(log, a, log[b].parent);
    }
  }

  /** If no token has two successors, the tokens of one login form one chain. */
  lemma {:induction false} OneLoginOneChain(log: seq<Issued>, a: Token, b: Token)
    requires WellFormed(log) && OneSuccessor(log) && Known(log, a) && Known(log, b)
    requires Login(log, a) == Login(log, b)
    ensures Descends(log, a, b) || Descends(log, b, a)
    decreases a + b, b < a
  {
    if a < b {
      LoginIsKnown(log, a);
      var p := log[b].parent;
      assert p != 0;
      OneLoginOneChain(log, a, p);
      if !Descends(log, a, p) {
        var c := FirstStep(log, p, a);
        assert c == b;
        DescendsIsOlder(log, b, a);
      }
    } else if b < a {
      OneLoginOneChain(log, b, a);
    }
  }

  /** A token that was never exchanged is the newest of its login. */
  lemma ChildlessIsNewest(log: seq<Issued>, a: Token, t: Token)
    requires WellFormed(log) && OneSuccessor(log) && Known(log, a) && Known(log, t)
    requires Childless(log, t) && Login(log, a) == Login(log, t)
    ensures Descends(log, a, t)
  {
    OneLoginOneChain(log, a, t);
    if a != t && Descends(log, t, a) {
      var c := FirstStep(log, t, a);
    }
  }

  /** A token may be issued to a login, or in exchange for a token that was never exchanged. */
  ghost predicate MayIssue(log: seq<Issued>, e: Issued) {
    e.parent != 0 ==> Known(log, e.parent) && Childless(log, e.parent) && log[e.parent].subject == e.subject
  }

  lemma IssueKeepsOrder(log: seq<Issued>, e: Issued)
    requires WellFormed(log) && OneSuccessor(log) && MayIssue(log, e)
    ensures WellFormed(log + [e]) && OneSuccessor(log + [e])
    ensures forall t: Token :: Known(log, t) && t != e.parent && Childless(log, t) ==> Childless(log + [e], t)
    ensures Childless(log + [e], |log|)
  {
    var longer := log + [e];
    forall t: Token | Known(longer, t)
      ensures Linked(longer, t)
    {
      if t < |log| {
        assert Known(log, t) && Linked(log, t);
      }
    }
    forall t: Token | Known(longer, t)
      ensures longer[t].parent < |log|
    {
      assert Linked(longer, t);
    }
  }

  /** Issuing a token leaves the lineage of the earlier ones alone. */
  lemma {:induction false} IssueKeepsLineage(log: seq<Issued>, e: Issued, a: Token, t: Token)
    requires WellFormed(log) && WellFormed(log + [e]) && Known(log, t)
    ensures Login(log + [e], t) == Login(log, t)
    ensures Descends(log + [e], a, t) == Descends(log, a, t)
    decreases t
  {
    if log[t].parent != 0 {
      IssueKeepsLineage(log, e, a, log[t].parent);
    }
  }
}
