/** The limiter of failed logins per client address and the handlers around it
    (cmd/shellin-control-plane/auth_rate_limiter.go, auth_handlers.go). */
module AuthRateLimiter {

  type Records = map<string, seq<int>>

  /** Those of the first `n` attempts that are after the cutoff, in order. */
  function UnexpiredUpTo(attempts: seq<int>, cutoff: int, n: nat): (r: seq<int>)
    requires n <= |attempts|
    ensures |r| <= n
  {
    if n == 0 then []
    else
      var kept := UnexpiredUpTo(attempts, cutoff, n - 1);
      if attempts[n - 1] > cutoff then kept + [attempts[n - 1]] else kept
  }

  /** The attempts after the cutoff, in order. */
  function Unexpired(attempts: seq<int>, cutoff: int): (r: seq<int>)
    ensures |r| <= |attempts|
  {
    UnexpiredUpTo(attempts, cutoff, |attempts|)
  }

  function Get(records: Records, key: string): seq<int> {
    if key in records then records[key] else []
  }

  function Pruned(records: Records, cutoff: int): Records {
    map key | key in records && Unexpired(records[key], cutoff) != [] :: Unexpired(records[key], cutoff)
  }

  lemma PrunedGet(records: Records, cutoff: int, key: string)
    ensures Get(Pruned(records, cutoff), key) == Unexpired(Get(records, key), cutoff)
  {
  }

  /** Only the addresses outside `todo` are pruned yet. */
  ghost function PrunedBut(records: Records, cutoff: int, todo: set<string>): Records {
    map key | key in records && (key in todo || Unexpired(records[key], cutoff) != []) ::
      if key in todo then records[key] else Unexpired(records[key], cutoff)
  }

  lemma PrunedButEnds(records: Records, cutoff: int)
    ensures PrunedBut(records, cutoff, records.Keys) == records
    ensures PrunedBut(records, cutoff, {}) == Pruned(records, cutoff)
  {
  }

  lemma PruneOneMore(records: Records, cutoff: int, todo: set<string>, key: string)
    requires key in todo && key in records
    ensures var kept, soFar := Unexpired(records[key], cutoff), PrunedBut(records, cutoff, todo);
            PrunedBut(records, cutoff, todo - {key}) == if kept == [] then soFar - {key} else soFar[key := kept]
  {
  }

  /** The records after a failure. */
  function Recorded(records: Records, window: int, key: string, now: int): Records {
    Pruned(records, now - window)[key := Unexpired(Get(records, key), now - window) + [now]]
  }

  // --- the limiter as it is stored ---

  /** A slice: the first `len` cells of a buffer it may share capacity with. */
  datatype Slice = Slice(buf: array<int>, len: nat)

  ghost predicate Holds(slice: Slice, attempts: seq<int>)
    reads slice.buf
  {
    slice.len <= slice.buf.Length && slice.buf[..slice.len] == attempts
  }

  /** Moves the unexpired attempts to the front of their own buffer. */
  method CompactInPlace(buf: array<int>, len: nat, cutoff: int) returns (kept: nat)
    requires len <= buf.Length
    modifies buf
    ensures kept <= len && buf[..kept] == Unexpired(old(buf[..len]), cutoff)
  {
    kept := 0;
    ghost var attempts := buf[..len];
    for i := 0 to len
      invariant kept <= i
      invariant buf[..kept] == UnexpiredUpTo(attempts, cutoff, i)
      invariant forall j :: i <= j < len ==> buf[j] == attempts[j]
    {
      if buf[i] > cutoff {
        buf[kept] := buf[i];
        kept := kept + 1;
      }
    }
  }

  method CopyInto(to: array<int>, from: array<int>, len: nat)
    requires len <= from.Length && len <= to.Length && to != from
    modifies to
    ensures to[..len] == from[..len]
  {
    for i := 0 to len
      invariant to[..i] == from[..i]
    {
      to[i] := from[i];
    }
  }

  class AuthFailureLimiter {
    const limit: int
    const window: int
    var records: map<string, Slice>
    /** The attempts of every address. */
    ghost var contents: Records

    constructor (limit: int, window: int)
      ensures Valid() && contents == map[] && this.limit == limit && this.window == window
    {
      this.limit, this.window := limit, window;
      records, contents := map[], map[];
    }

    ghost function Buffers(): set<object>
      reads this
    {
      set key | key in records :: records[key].buf
    }

    /** No two addresses share a buffer. */
    ghost predicate Valid()
      reads this, Buffers()
    {
      && records.Keys == contents.Keys
      && (forall key :: key in records ==> Holds(records[key], contents[key]))
      && (forall k, l :: k in records && l in records && k != l ==> records[k].buf != records[l].buf)
    }

    method PruneLocked(now: int)
      requires Valid()
      modifies this`records, this`contents, Buffers()
      ensures Valid() && Buffers() <= old(Buffers())
      ensures contents == Pruned(old(contents), now - window)
    {
      var cutoff := now - window;
      var todo := records.Keys;
      ghost var buffers := Buffers();
      PrunedButEnds(contents, cutoff);
      while todo != {}
        invariant todo <= records.Keys <= old(records).Keys
        invariant Valid() && Buffers() <= buffers
        invariant contents == PrunedBut(old(contents), cutoff, todo)
        decreases todo
      {
        var key :| key in todo;
        PruneOneMore(old(contents), cutoff, todo, key);
        todo := todo - {key};
        PruneOne(key, cutoff);
      }
    }

    /** Compacts the attempts of one address in their buffer and forgets the address if none is left. */
    method PruneOne(key: string, cutoff: int)
      requires Valid() && key in records
      modifies this`records, this`contents, Buffers()
      ensures Valid() && Buffers() <= old(Buffers())
      ensures var kept := Unexpired(old(contents)[key], cutoff);
              contents == if kept == [] then old(contents) - {key} else old(contents)[key := kept]
    {
      var attempts := records[key];
      var kept := CompactInPlace(attempts.buf, attempts.len, cutoff);
      if kept == 0 {
        records, contents := records - {key}, contents - {key};
      } else {
        StoreSlice(key, Slice(attempts.buf, kept), attempts.buf[..kept]);
      }
    }

    method Allow(key: string, now: int) returns (allowed: bool)
      requires Valid()
      modifies this`records, this`contents, Buffers()
      ensures Valid() && Buffers() <= old(Buffers())
      ensures contents == Pruned(old(contents), now - window)
      ensures allowed <==> |Unexpired(Get(old(contents), key), now - window)| < limit
    {
      PruneLocked(now);
      return (if key in records then records[key].len else 0) < limit;
    }

    method RecordFailure(key: string, now: int)
      requires Valid()
      modifies this`records, this`contents, Buffers()
      ensures Valid() && fresh(Buffers() - old(Buffers()))
      ensures contents == Recorded(old(contents), window, key, now)
    {
      PruneLocked(now);
      PrunedGet(old(contents), now - window, key);
      AppendTo(key, now);
    }

    /** Go's append: into the spare capacity if there is any, else into a larger copy. */
    method AppendTo(key: string, now: int)
      requires Valid()
      modifies this`records, this`contents, Buffers()
      ensures Valid() && fresh(Buffers() - old(Buffers()))
      ensures contents == old(contents)[key := Get(old(contents), key) + [now]]
    {
      if key in records && records[key].len < records[key].buf.Length {
        var attempts := records[key];
        attempts.buf[attempts.len] := now;
        assert attempts.buf[..attempts.len] == contents[key];
        StoreSlice(key, Slice(attempts.buf, attempts.len + 1), contents[key] + [now]);
      } else {
        var len := if key in records then records[key].len else 0;
        var buf := new int[2 * len + 1];
        if key in records {
          CopyInto(buf, records[key].buf, len);
        }
        buf[len] := now;
        assert buf[..len] == Get(contents, key);
        StoreSlice(key, Slice(buf, len + 1), Get(contents, key) + [now]);
      }
    }

    method StoreSlice(key: string, slice: Slice, ghost attempts: seq<int>)
      requires records.Keys == contents.Keys && Holds(slice, attempts)
      requires forall k :: k in records && k != key ==> Holds(records[k], contents[k]) && records[k].buf != slice.buf
      requires forall k, l :: k in records && l in records && k != l ==> records[k].buf != records[l].buf
      modifies this`records, this`contents
      ensures Valid() && Buffers() <= old(Buffers()) + {slice.buf}
      ensures contents == old(contents)[key := attempts]
    {
      records, contents := records[key := slice], contents[key := attempts];
    }

    method Reset(key: string)
      requires Valid()
      modifies this`records, this`contents
      ensures Valid() && Buffers() <= old(Buffers())
      ensures contents == old(contents) - {key}
    {
      records, contents := records - {key}, contents - {key};
    }
  }

  // --- the credential handlers ---

  /** The records after a login attempt: refused at `allowedAt`, failed at `failedAt`, or successful. */
  ghost function AfterAttempt(records: Records, limit: int, window: int, key: string, allowedAt: int, failedAt: int, accepted: bool): Records {
    var pruned := Pruned(records, allowedAt - window);
    if |Unexpired(Get(records, key), allowedAt - window)| >= limit then pruned
    else if accepted then pruned - {key}
    else Recorded(pruned, window, key, failedAt)
  }

  /** `usable` says whether the user key is known and its entitlement usable. */
  method HandleAuthExchange(limiter: AuthFailureLimiter, key: string, allowedAt: int, failedAt: int, usable: bool, issued: bool)
    returns (status: nat)
    requires limiter.Valid()
    modifies limiter, limiter.Buffers()
    ensures limiter.Valid() && fresh(limiter.Buffers() - old(limiter.Buffers()))
    ensures limiter.contents == AfterAttempt(old(limiter.contents), limiter.limit, limiter.window, key, allowedAt, failedAt, usable)
    ensures status == if |Unexpired(Get(old(limiter.contents), key), allowedAt - limiter.window)| >= limiter.limit then 429
                      else if !usable then 401 else if !issued then 500 else 200
  {
    var allowed := limiter.Allow(key, allowedAt);
    if !allowed {
      return 429;
    }
    if !usable {
      limiter.RecordFailure(key, failedAt);
      return 401;
    }
    limiter.Reset(key);
    return if issued then 200 else 500;
  }

  /** `consumed` says whether the login key was taken, `usable` whether its subject has a usable entitlement. */
  method HandleDeviceLogin(limiter: AuthFailureLimiter, key: string, allowedAt: int, failedAt: int, consumed: bool, usable: bool, issued: bool)
    returns (status: nat)
    requires limiter.Valid()
    modifies limiter, limiter.Buffers()
    ensures limiter.Valid() && fresh(limiter.Buffers() - old(limiter.Buffers()))
    ensures limiter.contents ==
            AfterAttempt(old(limiter.contents), limiter.limit, limiter.window, key, allowedAt, failedAt, consumed && usable)
    ensures status == if |Unexpired(Get(old(limiter.contents), key), allowedAt - limiter.window)| >= limiter.limit then 429
                      else if !consumed || !usable then 401 else if !issued then 500 else 200
  {
    var allowed := limiter.Allow(key, allowedAt);
    if !allowed {
      return 429;
    }
    if !consumed {
      limiter.RecordFailure(key, failedAt);
      return 401;
    }
    if !usable {
      limiter.RecordFailure(key, failedAt);
      return 401;
    }
    limiter.Reset(key);
    return if issued then 200 else 500;
  }
}
