/** The store of one-time refresh tokens (controlplane/refresh_tokens.go). */
module RefreshTokens {
  import opened Results
  import opened Text

  datatype Record = Record(subject: string, expiresAt: int)

  datatype TokenError = Blank | Unknown | Expired | NoSubject | NoLifetime | NoRandomness

  /** Whose token `key` is, if it is stored and not past its expiry. */
  function PeekIn<K>(tokens: map<K, Record>, key: K, now: int): Result<string, TokenError> {
    if key !in tokens then Failure(Unknown)
    else if now > tokens[key].expiresAt then Failure(Expired)
    else Success(tokens[key].subject)
  }

  /** The tokens that `Cleanup` keeps. */
  function Unexpired<K>(tokens: map<K, Record>, cutoff: int): map<K, Record> {
    map k | k in tokens && !(cutoff > tokens[k].expiresAt) :: tokens[k]
  }

  function IssueRecord(subject: string, ttl: int, now: int): Result<Record, TokenError> {
    if Trim(subject) == "" then Failure(NoSubject)
    else if ttl <= 0 then Failure(NoLifetime)
    else Success(Record(Trim(subject), now + ttl))
  }

  class RefreshTokenStore {
    const hash: string -> string
    var tokens: map<string, Record>

    constructor (hash: string -> string)
      ensures this.hash == hash && tokens == map[]
    {
      this.hash := hash;
      tokens := map[];
    }

    /** `random` is the outcome of drawing a fresh token; `now` was read before the lock was taken. */
    method Issue(subject: string, ttl: int, now: int, random: Option<string>)
      returns (r: Result<string, TokenError>)
      modifies this
      ensures r.Success? <==> Trim(subject) != "" && ttl > 0 && random.Some?
      ensures r.Success? ==> r.value == random.value
      ensures r.Success? ==> tokens == old(tokens)[hash(r.value) := Record(Trim(subject), now + ttl)]
      ensures r.Failure? ==> tokens == old(tokens)
    {
      var owner := Trim(subject);
      if owner == "" {
        return Failure(NoSubject);
      }
      if ttl <= 0 {
        return Failure(NoLifetime);
      }
      if random.None? {
        return Failure(NoRandomness);
      }
      tokens := tokens[hash(random.value) := Record(owner, now + ttl)];
      return Success(random.value);
    }

    method Peek(rawToken: string, now: int) returns (r: Result<string, TokenError>)
      ensures var h := hash(Trim(rawToken));
              && (r.Success? <==> Trim(rawToken) != "" && h in tokens && now <= tokens[h].expiresAt)
              && (r.Success? ==> r.value == tokens[h].subject)
      ensures r == if Trim(rawToken) == "" then Failure(Blank) else PeekIn(tokens, hash(Trim(rawToken)), now)
    {
      var token := Trim(rawToken);
      if token == "" {
        return Failure(Blank);
      }
      var tokenHash := hash(token);
      if tokenHash !in tokens {
        return Failure(Unknown);
      }
      var record := tokens[tokenHash];
      if now > record.expiresAt {
        return Failure(Expired);
      }
      return Success(record.subject);
    }

    /** Whatever the outcome, a presented token is gone afterwards. */
    method Consume(rawToken: string, now: int) returns (r: Result<string, TokenError>)
      modifies this
      ensures var h := hash(Trim(rawToken));
              && (r.Success? <==> Trim(rawToken) != "" && h in old(tokens) && now <= old(tokens)[h].expiresAt)
              && (r.Success? ==> r.value == old(tokens)[h].subject)
      ensures Trim(rawToken) == "" ==> r == Failure(Blank) && tokens == old(tokens)
      ensures Trim(rawToken) != "" ==>
                && r == PeekIn(old(tokens), hash(Trim(rawToken)), now)
                && tokens == old(tokens) - {hash(Trim(rawToken))}
    {
      var token := Trim(rawToken);
      if token == "" {
        return Failure(Blank);
      }
      var tokenHash := hash(token);
      if tokenHash !in tokens {
        return Failure(Unknown);
      }
      var record := tokens[tokenHash];
      tokens := tokens - {tokenHash};
      if now > record.expiresAt {
        return Failure(Expired);
      }
      return Success(record.subject);
    }

    method Cleanup(cutoff: int)
      modifies this
      ensures forall h :: h in tokens <==> h in old(tokens) && cutoff <= old(tokens)[h].expiresAt
      ensures forall h :: h in tokens ==> tokens[h] == old(tokens)[h]
      ensures tokens == Unexpired(old(tokens), cutoff)
    {
      var todo := tokens.Keys;
      while todo != {}
        invariant todo <= tokens.Keys <= old(tokens).Keys
        invariant forall h :: h in old(tokens) && h !in todo ==>
                                (h in tokens <==> !(cutoff > old(tokens)[h].expiresAt))
        invariant forall h :: h in tokens ==> tokens[h] == old(tokens)[h]
        decreases todo
      {
        var h :| h in todo;
        todo := todo - {h};
        if cutoff > tokens[h].expiresAt {
          tokens := tokens - {h};
        }
      }
    }
  }

  /** A token that is issued for `ttl` can be used up to and including the end of that time, as long as it is stored. */
  lemma IssuedTokenLasts<K>(tokens: map<K, Record>, key: K, subject: string, ttl: int, at: int, now: int)
    requires Trim(subject) != "" && ttl > 0
    ensures var issued := IssueRecord(subject, ttl, at);
            && issued.Success?
            && (PeekIn(tokens[key := issued.value], key, now) == Success(Trim(subject)) <==> now <= at + ttl)
            && (PeekIn(tokens[key := issued.value], key, now) == Failure(Expired) <==> now > at + ttl)
  {
  }

  /** A clean-up takes away exactly the tokens that are past their expiry, which are those a peek calls expired. */
  lemma CleanupRemovesExpired<K>(tokens: map<K, Record>, key: K, now: int)
    requires key in tokens
    ensures key !in Unexpired(tokens, now) <==> now > tokens[key].expiresAt
    ensures key !in Unexpired(tokens, now) <==> PeekIn(tokens, key, now) == Failure(Expired)
    ensures key in Unexpired(tokens, now) ==> PeekIn(Unexpired(tokens, now), key, now) == Success(tokens[key].subject)
  {
  }

  // --- the refresh handler ---

  /** The clocks of the three store calls, and how the entitlement lookup and the signing turn out. */
  datatype Attempt = Attempt(peekNow: int, consumeNow: int, issueNow: int, usable: bool, signed: bool, ttl: int)

  /** The status and the tokens after a refresh that presents `key` and is handed `drawn`. */
  function AfterRefresh<K>(tokens: map<K, Record>, key: K, drawn: Option<K>, a: Attempt): (nat, map<K, Record>) {
    match PeekIn(tokens, key, a.peekNow)
    case Failure(_) => (401, tokens)
    case Success(subject) =>
      if !a.usable then (401, tokens)
      else if PeekIn(tokens, key, a.consumeNow) != Success(subject) then (401, tokens - {key})
      else match IssueRecord(subject, a.ttl, a.issueNow)
           case Success(record) =>
             if a.signed && drawn.Some? then (200, (tokens - {key})[drawn.value := record]) else (500, tokens - {key})
           case Failure(_) => (500, tokens - {key})
  }

  /** The token is stored, in time for both of its checks, and its entitlement can be used. */
  predicate Spendable<K>(tokens: map<K, Record>, key: K, a: Attempt) {
    key in tokens && a.peekNow <= tokens[key].expiresAt && a.consumeNow <= tokens[key].expiresAt && a.usable
  }

  /** A new session can be made for the owner of the token. */
  predicate CanReissue<K>(tokens: map<K, Record>, key: K, drawn: Option<K>, a: Attempt)
    requires key in tokens
  {
    a.signed && a.ttl > 0 && Trim(tokens[key].subject) != "" && drawn.Some?
  }

  /** When a refresh succeeds, when it is refused, and when it fails after its token was spent. */
  lemma RefreshSucceedsIff<K>(tokens: map<K, Record>, key: K, drawn: Option<K>, a: Attempt)
    ensures var (status, after) := AfterRefresh(tokens, key, drawn, a);
            && (status == 401 <==> !Spendable(tokens, key, a))
            && (status == 200 <==> Spendable(tokens, key, a) && CanReissue(tokens, key, drawn, a))
            && (status == 500 <==> Spendable(tokens, key, a) && !CanReissue(tokens, key, drawn, a))
            && (status == 200 ==> drawn.value in after && after[drawn.value] == Record(Trim(tokens[key].subject), a.issueNow + a.ttl))
  {
  }

  /** One refresh request that no other one interrupts. */
  method HandleAuthRefresh(store: RefreshTokenStore, rawToken: string, a: Attempt, random: Option<string>)
    returns (status: nat, refreshToken: string)
    modifies store
    ensures Trim(rawToken) == "" ==> status == 401 && store.tokens == old(store.tokens)
    ensures Trim(rawToken) != "" ==>
              var drawn := if random.Some? then Some(store.hash(random.value)) else None;
              (status, store.tokens) == AfterRefresh(old(store.tokens), store.hash(Trim(rawToken)), drawn, a)
    ensures status == 200 ==> random == Some(refreshToken) && store.hash(refreshToken) in store.tokens
    ensures status == 200 || status == 401 || status == 500
    ensures var h := store.hash(Trim(rawToken));
            status == 200 <==>
              && Trim(rawToken) != "" && h in old(store.tokens)
              && a.peekNow <= old(store.tokens)[h].expiresAt && a.consumeNow <= old(store.tokens)[h].expiresAt
              && a.usable && a.signed && a.ttl > 0 && Trim(old(store.tokens)[h].subject) != "" && random.Some?
  {
    refreshToken := "";
    var peeked := store.Peek(rawToken, a.peekNow);
    if peeked.Failure? || !a.usable {
      return 401, "";
    }
    var subject := peeked.value;
    var consumed := store.Consume(rawToken, a.consumeNow);
    if consumed.Failure? || consumed.value != subject {
      return 401, "";
    }
    if !a.signed {
      return 500, "";
    }
    var issued := store.Issue(subject, a.ttl, a.issueNow, random);
    if issued.Failure? {
      return 500, "";
    }
    return 200, issued.value;
  }

  /** A stored token survives the refresh exactly when it is refused as expired or
      for its entitlement.  What is stored instead belongs to the same subject; a
      500 therefore ends a login. */
  lemma RefreshSpendsTheToken<K>(tokens: map<K, Record>, key: K, drawn: Option<K>, a: Attempt)
    requires drawn.Some? ==> drawn.value !in tokens && drawn.value != key
    ensures var (status, after) := AfterRefresh(tokens, key, drawn, a);
            && (forall k :: k in tokens && k != key ==> k in after && after[k] == tokens[k])
            && (key in tokens ==> (key in after <==> PeekIn(tokens, key, a.peekNow).Failure? || !a.usable))
            && (status == 200 ==> key in tokens && key !in after && after.Keys == tokens.Keys - {key} + {drawn.value}
                                  && after[drawn.value].subject == Trim(tokens[key].subject))
            && (status == 500 ==> key in tokens && after.Keys == tokens.Keys - {key})
            && (status == 401 ==> after.Keys == tokens.Keys || after.Keys == tokens.Keys - {key})
            && (key in after ==> status == 401 && after == tokens)
  {
    var (status, after) := AfterRefresh(tokens, key, drawn, a);
    assert status != 200 ==> after == tokens || after == tokens - {key};
  }
}
