/** The agent registry as it is stored: maps of maps that never hold an empty
    inner map (controlplane/agent_registry*.go).  Every method is proved to do
    what RegistrySpec says on the flat maps. */
module AgentRegistry {
  import opened Results
  import opened Text
  import opened RegistrySpec

  type Nested<V> = map<string, map<string, V>>

  predicate Has<V>(m: Nested<V>, id: AgentId) {
    id.subject in m && id.sessionID in m[id.subject]
  }

  /** The map of maps `m` has the entries of the flat map `flat`. */
  ghost predicate Entries<V>(m: Nested<V>, flat: map<AgentId, V>) {
    && (forall id :: id in flat <==> Has(m, id))
    && (forall id :: Has(m, id) ==> flat[id] == m[id.subject][id.sessionID])
  }

  ghost predicate NoEmpty<V>(m: Nested<V>) {
    forall subject :: subject in m ==> m[subject] != map[]
  }

  /** `m` stands for `flat`. */
  ghost predicate Means<V>(m: Nested<V>, flat: map<AgentId, V>) {
    Entries(m, flat) && NoEmpty(m)
  }

  function Inner<V>(m: Nested<V>, subject: string): map<string, V> {
    if subject in m then m[subject] else map[]
  }

  /** Only one map of maps without empty inner maps stands for a flat map. */
  lemma MeaningIsUnique<V>(a: Nested<V>, b: Nested<V>, flat: map<AgentId, V>)
    requires Means(a, flat) && Means(b, flat)
    ensures a == b
  {
    forall subject | subject in a
      ensures subject in b && a[subject] == b[subject]
    {
      SameInner(a, b, flat, subject);
    }
    forall subject | subject in b
      ensures subject in a
    {
      SameInner(b, a, flat, subject);
    }
  }

  lemma SameInner<V>(a: Nested<V>, b: Nested<V>, flat: map<AgentId, V>, subject: string)
    requires Means(a, flat) && Means(b, flat) && subject in a
    ensures subject in b && a[subject] == b[subject]
  {
    forall k: string
      ensures Has(a, AgentId(subject, k)) <==> Has(b, AgentId(subject, k))
      ensures Has(a, AgentId(subject, k)) ==> a[subject][k] == b[subject][k]
    {
      assert AgentId(subject, k) in flat <==> Has(a, AgentId(subject, k));
    }
    var sessionID :| sessionID in a[subject];
    assert Has(a, AgentId(subject, sessionID));
    forall k: string
      ensures k in a[subject] <==> k in b[subject]
    {
      assert Has(a, AgentId(subject, k)) <==> Has(b, AgentId(subject, k));
    }
  }

  lemma PutMeans<V>(m: Nested<V>, flat: map<AgentId, V>, id: AgentId, v: V)
    requires Entries(m, flat) && NoEmpty(m - {id.subject})
    ensures Means(m[id.subject := Inner(m, id.subject)[id.sessionID := v]], flat[id := v])
  {
    var r := m[id.subject := Inner(m, id.subject)[id.sessionID := v]];
    assert id.sessionID in r[id.subject];
    forall i: AgentId
      ensures Has(r, i) <==> i == id || Has(m, i)
    {
    }
    forall subject | subject in r
      ensures r[subject] != map[]
    {
      if subject != id.subject {
        assert subject in m - {id.subject};
      }
    }
  }

  /** Replacing an inner map by a part of it removes the other entries of that subject. */
  lemma ReplaceInnerMeans<V>(m: Nested<V>, flat: map<AgentId, V>, subject: string, inner: map<string, V>, less: map<AgentId, V>)
    requires Means(m, flat)
    requires forall k :: k in inner ==> k in Inner(m, subject) && inner[k] == Inner(m, subject)[k]
    requires forall id :: id in less <==> id in flat && (id.subject == subject ==> id.sessionID in inner)
    requires forall id :: id in less ==> less[id] == flat[id]
    ensures Means(if inner == map[] then m - {subject} else m[subject := inner], less)
  {
    var r := if inner == map[] then m - {subject} else m[subject := inner];
    forall id: AgentId
      ensures Has(r, id) <==> Has(m, id) && (id.subject == subject ==> id.sessionID in inner)
    {
    }
  }

  lemma DropMeans<V>(m: Nested<V>, flat: map<AgentId, V>, id: AgentId)
    requires Means(m, flat)
    ensures var inner := Inner(m, id.subject) - {id.sessionID};
            Means(if inner == map[] then m - {id.subject} else m[id.subject := inner], flat - {id})
  {
    var inner := Inner(m, id.subject) - {id.sessionID};
    forall i: AgentId
      ensures i in flat - {id} <==> i in flat && (i.subject == id.subject ==> i.sessionID in inner)
    {
      assert i in flat <==> Has(m, i);
    }
    ReplaceInnerMeans(m, flat, id.subject, inner, flat - {id});
  }

  /** An inner map is as large as the set of flat entries under its subject. */
  lemma InnerSize(m: Nested<AgentStatus>, flat: map<AgentId, AgentStatus>, subject: string)
    requires Means(m, flat)
    ensures |Inner(m, subject)| == |SessionsOf(flat, subject)|
  {
    var keys := Inner(m, subject).Keys;
    forall id: AgentId
      ensures id in SessionsOf(flat, subject) <==> id.subject == subject && id.sessionID in keys
    {
      assert id in flat <==> Has(m, id);
    }
    SameSize(keys, SessionsOf(flat, subject), subject);
    assert |Inner(m, subject)| == |keys|;
  }

  lemma {:induction false} SameSize(keys: set<string>, ids: set<AgentId>, subject: string)
    requires forall id: AgentId :: id in ids <==> id.subject == subject && id.sessionID in keys
    ensures |keys| == |ids|
    decreases keys
  {
    if keys == {} {
      assert ids == {};
    } else {
      var k :| k in keys;
      var id := AgentId(subject, k);
      assert id in ids;
      SameSize(keys - {k}, ids - {id}, subject);
    }
  }

  // --- deleting in a loop ---

  function Kept<V>(inner: map<string, V>, drop: V -> bool): map<string, V> {
    map k | k in inner && !drop(inner[k]) :: inner[k]
  }

  method DeleteFrom<V>(inner: map<string, V>, drop: V -> bool) returns (r: map<string, V>)
    ensures r == Kept(inner, drop)
  {
    r := inner;
    var keys := inner.Keys;
    while keys != {}
      invariant keys <= r.Keys <= inner.Keys
      invariant forall k :: k in inner && k !in keys ==> (k in r <==> !drop(inner[k]))
      invariant forall k :: k in r ==> r[k] == inner[k]
      decreases keys
    {
      var sessionID :| sessionID in keys;
      keys := keys - {sessionID};
      if drop(r[sessionID]) {
        r := r - {sessionID};
      }
    }
  }

  /** Only the subjects outside `todo` are cleaned yet. */
  ghost function CleanedBut<V>(m: Nested<V>, drop: V -> bool, todo: set<string>): Nested<V> {
    map s | s in m && (s in todo || Kept(m[s], drop) != map[]) :: if s in todo then m[s] else Kept(m[s], drop)
  }

  lemma CleanedOneMore<V>(m: Nested<V>, drop: V -> bool, todo: set<string>, s: string)
    requires s in todo && s in m
    ensures CleanedBut(m, drop, todo)[s] == m[s]
    ensures var kept, soFar := Kept(m[s], drop), CleanedBut(m, drop, todo);
            CleanedBut(m, drop, todo - {s}) == if kept == map[] then soFar - {s} else soFar[s := kept]
  {
  }

  lemma CleanedMeans<V>(m: Nested<V>, drop: V -> bool, flat: map<AgentId, V>)
    requires Means(m, flat)
    ensures CleanedBut(m, drop, m.Keys) == m
    ensures Means(CleanedBut(m, drop, {}), map id | id in flat && !drop(flat[id]) :: flat[id])
  {
    var kept, r := map id | id in flat && !drop(flat[id]) :: flat[id], CleanedBut(m, drop, {});
    forall id: AgentId
      ensures id in kept <==> Has(r, id)
      ensures Has(r, id) ==> kept[id] == r[id.subject][id.sessionID]
    {
      assert id in flat <==> Has(m, id);
      assert Has(m, id) && !drop(m[id.subject][id.sessionID]) ==> id.sessionID in Kept(m[id.subject], drop);
    }
  }

  /** Delete the entries for which `drop` holds, and the inner maps that become empty. */
  method DeleteWhere<V>(m: Nested<V>, drop: V -> bool, ghost flat: map<AgentId, V>) returns (r: Nested<V>)
    requires Means(m, flat)
    ensures Means(r, map id | id in flat && !drop(flat[id]) :: flat[id])
  {
    CleanedMeans(m, drop, flat);
    r := m;
    var todo := m.Keys;
    while todo != {}
      invariant todo <= m.Keys && r == CleanedBut(m, drop, todo)
      decreases todo
    {
      var subject :| subject in todo;
      CleanedOneMore(m, drop, todo, subject);
      todo := todo - {subject};
      var inner := DeleteFrom(r[subject], drop);
      if |inner| == 0 {
        r := r - {subject};
      } else {
        r := r[subject := inner];
      }
    }
  }

  // --- listings ---

  predicate NewestFirst(s: seq<AgentStatus>) {
    forall i, j :: 0 <= i < j < |s| ==> s[i].lastSeenAt >= s[j].lastSeenAt
  }

  lemma InsertKeepsOrder(r: seq<AgentStatus>, item: AgentStatus, k: nat)
    requires NewestFirst(r) && k <= |r|
    requires forall j :: 0 <= j < k ==> r[j].lastSeenAt >= item.lastSeenAt
    requires k < |r| ==> r[k].lastSeenAt <= item.lastSeenAt
    ensures NewestFirst(r[..k] + [item] + r[k..])
  {
    var s := r[..k] + [item] + r[k..];
    forall i | 0 <= i < |s|
      ensures s[i] == if i < k then r[i] else if i == k then item else r[i - 1]
    {
    }
  }

  method InsertNewestFirst(r: seq<AgentStatus>, item: AgentStatus) returns (s: seq<AgentStatus>)
    requires NewestFirst(r)
    ensures NewestFirst(s) && multiset(s) == multiset(r) + multiset{item}
  {
    var k := 0;
    while k < |r| && r[k].lastSeenAt >= item.lastSeenAt
      invariant 0 <= k <= |r|
      invariant forall j :: 0 <= j < k ==> r[j].lastSeenAt >= item.lastSeenAt
    {
      k := k + 1;
    }
    InsertKeepsOrder(r, item, k);
    s := r[..k] + [item] + r[k..];
    assert r == r[..k] + r[k..];
  }

  method SortNewestFirst(s: seq<AgentStatus>) returns (r: seq<AgentStatus>)
    ensures multiset(r) == multiset(s) && NewestFirst(r)
  {
    r := [];
    for i := 0 to |s|
      invariant multiset(r) == multiset(s[..i]) && NewestFirst(r)
    {
      assert s[..i + 1] == s[..i] + [s[i]];
      r := InsertNewestFirst(r, s[i]);
    }
    assert s[..|s|] == s;
  }

  /** Every status carries the ID it is stored under. */
  ghost predicate Named(live: map<AgentId, AgentStatus>) {
    forall id :: id in live ==> live[id].subject == id.subject && live[id].sessionID == id.sessionID
  }

  /** `out` holds the status of every session in `ids`, once. */
  ghost predicate Lists(out: seq<AgentStatus>, live: map<AgentId, AgentStatus>, ids: set<AgentId>) {
    && |out| == |ids|
    && (forall id :: id in ids ==> id in live && live[id] in out)
    && (forall item :: item in out ==> var id := AgentId(item.subject, item.sessionID); id in ids && id in live && live[id] == item)
  }

  /** The same for the session IDs of one inner map. */
  ghost predicate ListsInner(out: seq<AgentStatus>, inner: map<string, AgentStatus>, keys: set<string>) {
    && |out| == |keys|
    && (forall k :: k in keys ==> k in inner && inner[k] in out)
    && (forall item :: item in out ==> item.sessionID in keys && item.sessionID in inner && inner[item.sessionID] == item)
  }

  /** `keys` are the session IDs of `inner` that are not stale. */
  ghost predicate IsFreshOf(inner: map<string, AgentStatus>, keys: set<string>, staleAfter: int, now: int) {
    keys <= inner.Keys && forall k :: k in inner ==> (k in keys <==> !IsStale(inner[k].lastSeenAt, now, staleAfter))
  }

  lemma ListedOneMore(out: seq<AgentStatus>, inner: map<string, AgentStatus>, keys: set<string>, k: string)
    requires ListsInner(out, inner, keys) && k in inner && k !in keys && inner[k].sessionID == k
    ensures ListsInner(out + [inner[k]], inner, keys + {k})
  {
  }

  lemma ListedIsFresh(m: Nested<AgentStatus>, live: map<AgentId, AgentStatus>, subject: string, staleAfter: int, now: int,
                      out: seq<AgentStatus>, keys: set<string>, sorted: seq<AgentStatus>)
    requires Means(m, live) && Named(live) && Trim(subject) != ""
    requires ListsInner(out, Inner(m, Trim(subject)), keys) && IsFreshOf(Inner(m, Trim(subject)), keys, staleAfter, now)
    requires multiset(sorted) == multiset(out)
    ensures Lists(sorted, live, FreshOf(live, subject, staleAfter, now))
  {
    var s, ids := Trim(subject), FreshOf(live, subject, staleAfter, now);
    forall id: AgentId
      ensures id in live <==> Has(m, id)
      ensures id in ids <==> id.subject == s && id.sessionID in keys
    {
    }
    SameSize(keys, ids, s);
    assert |sorted| == |multiset(sorted)| == |out|;
    forall item: AgentStatus
      ensures item in sorted <==> item in out
    {
      assert item in sorted <==> item in multiset(sorted);
    }
    forall item | item in out
      ensures item.subject == s && AgentId(s, item.sessionID) in live && live[AgentId(s, item.sessionID)] == item
    {
      assert Has(m, AgentId(s, item.sessionID));
    }
  }

  /** The tombstones `after` are those of `before` and, stamped `now`, those of the session IDs `gone`. */
  ghost predicate Tombstoned(before: map<AgentId, int>, after: map<AgentId, int>, subject: string, gone: set<string>, now: int) {
    && (forall id :: id in after <==> id in before || (id.subject == subject && id.sessionID in gone))
    && (forall id :: id in after ==> after[id] == if id.subject == subject && id.sessionID in gone then now else before[id])
  }

  lemma TombstonedOneMore(before: map<AgentId, int>, after: map<AgentId, int>, subject: string, gone: set<string>, now: int, k: string)
    requires Tombstoned(before, after, subject, gone, now)
    ensures Tombstoned(before, after[AgentId(subject, k) := now], subject, gone + {k}, now)
  {
  }

  lemma RemoveOneMore<K, V>(m: map<K, V>, gone: set<K>, k: K)
    ensures (m - gone) - {k} == m - (gone + {k})
  {
  }

  lemma TerminatedAll(m: Nested<AgentStatus>, r: Registry, subject: string, staleAfter: int, now: int, gone: set<string>, dead: map<AgentId, int>)
    requires Means(m, r.live) && Trim(subject) != "" && IsFreshOf(Inner(m, Trim(subject)), gone, staleAfter, now)
    requires Tombstoned(r.dead, dead, Trim(subject), gone, now)
    ensures Apply(r, Op.TerminateAll(subject, staleAfter, now)).dead == dead
    ensures var inner := Inner(m, Trim(subject)) - gone;
            Means(if inner == map[] then m - {Trim(subject)} else m[Trim(subject) := inner],
                  Apply(r, Op.TerminateAll(subject, staleAfter, now)).live)
  {
    forall id: AgentId
      ensures Ends(r, id, subject, staleAfter, now) <==> id.subject == Trim(subject) && id.sessionID in gone
    {
      assert id in r.live <==> Has(m, id);
    }
    assert Apply(r, Op.TerminateAll(subject, staleAfter, now)).dead == dead;
    LiveAfterTerminateAll(m, r, subject, staleAfter, now, gone);
  }

  lemma LiveAfterTerminateAll(m: Nested<AgentStatus>, r: Registry, subject: string, staleAfter: int, now: int, gone: set<string>)
    requires Means(m, r.live) && Trim(subject) != ""
    requires forall id :: Ends(r, id, subject, staleAfter, now) <==> id.subject == Trim(subject) && id.sessionID in gone
    ensures var inner := Inner(m, Trim(subject)) - gone;
            Means(if inner == map[] then m - {Trim(subject)} else m[Trim(subject) := inner],
                  Apply(r, Op.TerminateAll(subject, staleAfter, now)).live)
  {
    var less, inner := Apply(r, Op.TerminateAll(subject, staleAfter, now)).live, Inner(m, Trim(subject)) - gone;
    forall id: AgentId
      ensures id in less <==> id in r.live && (id.subject == Trim(subject) ==> id.sessionID in inner)
    {
      assert id in r.live <==> Has(m, id);
    }
    ReplaceInnerMeans(m, r.live, Trim(subject), inner, less);
  }

  class AgentRegistry {
    var items: Nested<AgentStatus>
    var terminated: Nested<int>
    ghost var meaning: Registry

    constructor ()
      ensures Valid() && meaning == EMPTY
    {
      items := map[];
      terminated := map[];
      meaning := EMPTY;
    }

    ghost predicate Valid()
      reads this
    {
      Means(items, meaning.live) && Means(terminated, meaning.dead) && Named(meaning.live)
    }

    predicate IsTerminatedLocked(id: AgentId)
      reads this
    {
      id.subject in terminated && id.sessionID in terminated[id.subject]
    }

    method MarkTerminatedLocked(id: AgentId, now: int)
      requires Means(terminated, meaning.dead)
      modifies this`terminated, this`meaning
      ensures meaning == old(meaning).(dead := old(meaning).dead[id := now])
      ensures Means(terminated, meaning.dead)
    {
      PutMeans(terminated, meaning.dead, id, now);
      var subjectItems := Inner(terminated, id.subject);
      terminated := terminated[id.subject := subjectItems[id.sessionID := now]];
      meaning := meaning.(dead := meaning.dead[id := now]);
    }

    /** The inner map of a subject, stored empty if it is not there yet. */
    method EnsureSubjectItemsLocked(subject: string) returns (subjectItems: map<string, AgentStatus>)
      requires Valid()
      modifies this`items
      ensures subject in items && subjectItems == items[subject] == Inner(old(items), subject)
      ensures items == old(items)[subject := subjectItems]
      ensures Entries(items, meaning.live) && NoEmpty(items - {subject})
    {
      if subject !in items {
        items := items[subject := map[]];
      }
      subjectItems := items[subject];
      forall id: AgentId
        ensures Has(items, id) <==> Has(old(items), id)
      {
      }
    }

    /** Writes a status into the inner map of its subject, which is stored already. */
    method PutLocked(id: AgentId, item: AgentStatus)
      requires id.subject in items && Entries(items, meaning.live) && NoEmpty(items - {id.subject})
      requires Named(meaning.live) && Means(terminated, meaning.dead)
      requires item.subject == id.subject && item.sessionID == id.sessionID
      modifies this`items, this`meaning
      ensures Valid() && meaning == old(meaning).(live := old(meaning).live[id := item])
    {
      PutMeans(items, meaning.live, id, item);
      items := items[id.subject := items[id.subject][id.sessionID := item]];
      meaning := meaning.(live := meaning.live[id := item]);
    }

    /** Registers a session under a subject whose inner map is stored already. */
    method UpsertAgentSessionLocked(id: AgentId, agentLabel: string, transport: string, now: int) returns (item: AgentStatus, created: bool)
      requires id.subject in items && Entries(items, meaning.live) && NoEmpty(items - {id.subject})
      requires Named(meaning.live) && Means(terminated, meaning.dead)
      modifies this`items, this`meaning
      ensures Valid()
      ensures created <==> id !in old(meaning).live
      ensures item == Refreshed(old(meaning), id, agentLabel, transport, now)
      ensures meaning == old(meaning).(live := old(meaning).live[id := item])
    {
      assert id in meaning.live <==> Has(items, id);
      var subjectItems := items[id.subject];
      created := id.sessionID !in subjectItems;
      var createdAt := if created then now else subjectItems[id.sessionID].createdAt;
      item := AgentStatus(id.subject, id.sessionID, Trim(agentLabel), Trim(transport), createdAt, now);
      PutLocked(id, item);
    }

    method Upsert(subject: string, sessionID: string, agentLabel: string, transport: string, now: int)
      returns (r: Result<AgentStatus, RegistryError>)
      requires Valid()
      modifies this
      ensures Valid()
      ensures var op := Op.Upsert(subject, sessionID, agentLabel, transport, now);
              && meaning == Apply(old(meaning), op)
              && match Refusal(old(meaning), op)
                 case Some(e) => r == Failure(e)
                 case None => IdOf(subject, sessionID) in meaning.live && r == Success(meaning.live[IdOf(subject, sessionID)])
    {
      var id := IdOf(subject, sessionID);
      if id.subject == "" || id.sessionID == "" || Trim(transport) == "" {
        return Failure(InvalidRequest);
      }
      assert id in meaning.dead <==> Has(terminated, id);
      if IsTerminatedLocked(id) {
        return Failure(Terminated);
      }
      var _ := EnsureSubjectItemsLocked(id.subject);
      var item, _ := UpsertAgentSessionLocked(id, agentLabel, transport, now);
      return Success(item);
    }

    method UpsertLimited(subject: string, sessionID: string, agentLabel: string, transport: string, maxSessions: int, now: int)
      returns (r: Result<(AgentStatus, bool), RegistryError>)
      requires Valid()
      modifies this
      ensures Valid()
      ensures var op := Op.UpsertLimited(subject, sessionID, agentLabel, transport, maxSessions, now);
              && meaning == Apply(old(meaning), op)
              && match Refusal(old(meaning), op)
                 case Some(e) => r == Failure(e)
                 case None =>
                   && IdOf(subject, sessionID) in meaning.live
                   && r == Success((meaning.live[IdOf(subject, sessionID)], IdOf(subject, sessionID) !in old(meaning).live))
    {
      var id := IdOf(subject, sessionID);
      if id.subject == "" || id.sessionID == "" || Trim(transport) == "" {
        return Failure(InvalidRequest);
      }
      if maxSessions <= 0 {
        return Failure(InvalidRequest);
      }
      assert id in meaning.dead <==> Has(terminated, id);
      if IsTerminatedLocked(id) {
        return Failure(Terminated);
      }
      r := UpsertWithin(id, agentLabel, transport, maxSessions, now);
    }

    /** The locked section of UpsertLimited, once the session is known not to be tombstoned. */
    method UpsertWithin(id: AgentId, agentLabel: string, transport: string, maxSessions: int, now: int)
      returns (r: Result<(AgentStatus, bool), RegistryError>)
      requires Valid() && maxSessions > 0
      modifies this
      ensures Valid()
      ensures if id !in old(meaning).live && |SessionsOf(old(meaning).live, id.subject)| >= maxSessions
              then r == Failure(LimitReached) && meaning == old(meaning)
              else var item := Refreshed(old(meaning), id, agentLabel, transport, now);
                   && r == Success((item, id !in old(meaning).live))
                   && meaning == old(meaning).(live := old(meaning).live[id := item])
    {
      InnerSize(items, meaning.live, id.subject);
      assert id in meaning.live <==> Has(items, id);
      var subjectItems := EnsureSubjectItemsLocked(id.subject);
      if id.sessionID !in subjectItems && |subjectItems| >= maxSessions {
        assert forall s :: s in items && s != id.subject ==> s in items - {id.subject};
        return Failure(LimitReached);
      }
      var item, created := UpsertAgentSessionLocked(id, agentLabel, transport, now);
      return Success((item, created));
    }

    method Touch(subject: string, sessionID: string, agentLabel: string, now: int) returns (found: bool)
      requires Valid()
      modifies this
      ensures Valid()
      ensures meaning == Apply(old(meaning), Op.Touch(subject, sessionID, agentLabel, now))
      ensures found <==> HasId(IdOf(subject, sessionID)) && IdOf(subject, sessionID) in old(meaning).live
    {
      var id := IdOf(subject, sessionID);
      if id.subject == "" || id.sessionID == "" {
        return false;
      }
      assert id in meaning.live <==> Has(items, id);
      if id.subject !in items || id.sessionID !in items[id.subject] {
        return false;
      }
      var current := items[id.subject][id.sessionID];
      if Trim(agentLabel) != "" {
        current := current.(agentLabel := Trim(agentLabel));
      }
      current := current.(lastSeenAt := now);
      assert forall s :: s in items - {id.subject} ==> s in items;
      PutLocked(id, current);
      return true;
    }

    /** Stores what a deletion left of an inner map, or drops the subject when nothing is left. */
    method StoreLocked(subject: string, subjectItems: map<string, AgentStatus>, ghost next: Registry)
      requires Means(if subjectItems == map[] then items - {subject} else items[subject := subjectItems], next.live)
      requires Means(terminated, next.dead) && Named(next.live)
      modifies this`items, this`meaning
      ensures Valid() && meaning == next
    {
      if |subjectItems| == 0 {
        items := items - {subject};
      } else {
        items := items[subject := subjectItems];
      }
      meaning := next;
    }

    /** The deletion that Terminate and Remove share. */
    method DeleteLocked(id: AgentId) returns (found: bool)
      requires Valid()
      modifies this`items, this`meaning
      ensures Valid()
      ensures meaning == old(meaning).(live := old(meaning).live - {id})
      ensures found <==> id in old(meaning).live
    {
      assert id in meaning.live <==> Has(items, id);
      if id.subject !in items || id.sessionID !in items[id.subject] {
        assert meaning.live - {id} == meaning.live;
        return false;
      }
      DropMeans(items, meaning.live, id);
      StoreLocked(id.subject, items[id.subject] - {id.sessionID}, meaning.(live := meaning.live - {id}));
      return true;
    }

    method Terminate(subject: string, sessionID: string, now: int) returns (found: bool)
      requires Valid()
      modifies this
      ensures Valid()
      ensures meaning == Apply(old(meaning), Op.Terminate(subject, sessionID, now))
      ensures found <==> HasId(IdOf(subject, sessionID)) && IdOf(subject, sessionID) in old(meaning).live
    {
      var id := IdOf(subject, sessionID);
      if id.subject == "" || id.sessionID == "" {
        return false;
      }
      MarkTerminatedLocked(id, now);
      found := DeleteLocked(id);
    }

    method Remove(subject: string, sessionID: string) returns (found: bool)
      requires Valid()
      modifies this
      ensures Valid()
      ensures meaning == Apply(old(meaning), Op.Remove(subject, sessionID)) && terminated == old(terminated)
      ensures found <==> HasId(IdOf(subject, sessionID)) && IdOf(subject, sessionID) in old(meaning).live
    {
      var id := IdOf(subject, sessionID);
      if id.subject == "" || id.sessionID == "" {
        return false;
      }
      found := DeleteLocked(id);
    }

    method ListBySubject(subject: string, staleAfter: int, now: int) returns (out: seq<AgentStatus>)
      requires Valid()
      ensures Lists(out, meaning.live, FreshOf(meaning.live, subject, staleAfter, now))
      ensures forall i, j :: 0 <= i < j < |out| ==> out[i].lastSeenAt >= out[j].lastSeenAt
    {
      var trimmed := Trim(subject);
      if trimmed == "" {
        return [];
      }
      var subjectItems := Inner(items, trimmed);
      NamedInner(trimmed);
      out := [];
      var todo := subjectItems.Keys;
      ghost var listed: set<string> := {};
      while todo != {}
        invariant todo <= subjectItems.Keys && listed !! todo
        invariant ListsInner(out, subjectItems, listed)
        invariant forall k :: k in subjectItems && k !in todo ==>
                                (k in listed <==> !IsStale(subjectItems[k].lastSeenAt, now, staleAfter))
        decreases todo
      {
        var sessionID :| sessionID in todo;
        todo := todo - {sessionID};
        if IsStale(subjectItems[sessionID].lastSeenAt, now, staleAfter) {
          continue;
        }
        ListedOneMore(out, subjectItems, listed, sessionID);
        out := out + [subjectItems[sessionID]];
        listed := listed + {sessionID};
      }
      ghost var unsorted := out;
      out := SortNewestFirst(out);
      ListedIsFresh(items, meaning.live, subject, staleAfter, now, unsorted, listed, out);
    }

    lemma NamedInner(subject: string)
      requires Valid()
      ensures forall k :: k in Inner(items, subject) ==> Inner(items, subject)[k].sessionID == k
    {
      forall k | k in Inner(items, subject)
        ensures Inner(items, subject)[k].sessionID == k
      {
        assert Has(items, AgentId(subject, k));
      }
    }

    /** The loop of TerminateAll: marks every fresh session of a subject and takes it out of the inner map. */
    method TerminateFreshLocked(subject: string, staleAfter: int, now: int)
      returns (out: seq<AgentStatus>, subjectItems: map<string, AgentStatus>, ghost gone: set<string>)
      requires Valid()
      modifies this`terminated, this`meaning
      ensures meaning.live == old(meaning).live && Means(terminated, meaning.dead)
      ensures IsFreshOf(Inner(items, subject), gone, staleAfter, now)
      ensures subjectItems == Inner(items, subject) - gone && ListsInner(out, Inner(items, subject), gone)
      ensures Tombstoned(old(meaning).dead, meaning.dead, subject, gone, now)
    {
      ghost var before := Inner(items, subject);
      NamedInner(subject);
      subjectItems := Inner(items, subject);
      out := [];
      var todo := subjectItems.Keys;
      gone := {};
      while todo != {}
        invariant todo <= before.Keys && gone !! todo
        invariant meaning.live == old(meaning).live && Means(terminated, meaning.dead)
        invariant subjectItems == before - gone && ListsInner(out, before, gone)
        invariant forall k :: k in before && k !in todo ==> (k in gone <==> !IsStale(before[k].lastSeenAt, now, staleAfter))
        invariant Tombstoned(old(meaning).dead, meaning.dead, subject, gone, now)
        decreases todo
      {
        var sessionID :| sessionID in todo;
        todo := todo - {sessionID};
        var item := subjectItems[sessionID];
        if IsStale(item.lastSeenAt, now, staleAfter) {
          continue;
        }
        ListedOneMore(out, before, gone, sessionID);
        out := out + [item];
        TombstonedOneMore(old(meaning).dead, meaning.dead, subject, gone, now, sessionID);
        MarkTerminatedLocked(AgentId(subject, sessionID), now);
        RemoveOneMore(before, gone, sessionID);
        subjectItems := subjectItems - {sessionID};
        gone := gone + {sessionID};
      }
    }

    method TerminateAll(subject: string, staleAfter: int, now: int) returns (out: seq<AgentStatus>)
      requires Valid()
      modifies this
      ensures Valid()
      ensures meaning == Apply(old(meaning), Op.TerminateAll(subject, staleAfter, now))
      ensures Lists(out, old(meaning).live, FreshOf(old(meaning).live, subject, staleAfter, now))
      ensures forall i, j :: 0 <= i < j < |out| ==> out[i].lastSeenAt >= out[j].lastSeenAt
    {
      var trimmed := Trim(subject);
      if trimmed == "" {
        return [];
      }
      var subjectItems;
      ghost var gone;
      out, subjectItems, gone := TerminateFreshLocked(trimmed, staleAfter, now);
      TerminatedAll(items, old(meaning), subject, staleAfter, now, gone, meaning.dead);
      assert Named(Apply(old(meaning), Op.TerminateAll(subject, staleAfter, now)).live);
      ghost var unsorted := out;
      out := SortNewestFirst(out);
      ListedIsFresh(items, meaning.live, subject, staleAfter, now, unsorted, gone, out);
      StoreLocked(trimmed, subjectItems, Apply(old(meaning), Op.TerminateAll(subject, staleAfter, now)));
    }

    method Lookup(subject: string, sessionID: string, staleAfter: int, now: int) returns (r: Option<AgentStatus>)
      requires Valid()
      ensures r == Found(meaning, IdOf(subject, sessionID), staleAfter, now)
    {
      var id := IdOf(subject, sessionID);
      assert id in meaning.live <==> Has(items, id);
      if id.subject == "" || id.sessionID == "" {
        return None;
      }
      if id.subject !in items || id.sessionID !in items[id.subject] {
        return None;
      }
      var item := items[id.subject][id.sessionID];
      if IsStale(item.lastSeenAt, now, staleAfter) {
        return None;
      }
      return Some(item);
    }

    method Cleanup(staleAfter: int, now: int)
      requires Valid()
      modifies this
      ensures Valid()
      ensures meaning == Apply(old(meaning), Op.Cleanup(staleAfter, now))
    {
      items := DeleteWhere(items, (item: AgentStatus) => IsStale(item.lastSeenAt, now, staleAfter), meaning.live);
      terminated := DeleteWhere(terminated, (terminatedAt: int) => terminatedAt < now - RETENTION, meaning.dead);
      meaning := Apply(meaning, Op.Cleanup(staleAfter, now));
    }
  }
}
