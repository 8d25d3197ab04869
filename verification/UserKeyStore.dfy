/** Entitlements by user key, with one index by subject and one by transaction
    (controlplane/userkey_store.go, entitlement.go). */
module UserKeyStore {
  import opened Results
  import opened Text

  datatype Entitlement = Entitlement(
    subject: string,
    maxSessions: int,
    active: bool,
    productID: string,
    originalTransactionID: string,
    expiresAt: Option<int>,
    updatedAt: int)

  datatype StoreError =
    | MissingKey | MissingTransaction | InvalidEntitlement
    | DuplicateKey | DuplicateSubject | DuplicateTransaction | UnknownTransaction

  type Items = map<string, Entitlement>
  type Index = map<string, string>

  function Normalize(e: Entitlement, now: int): Option<Entitlement> {
    if Trim(e.subject) == "" || e.maxSessions <= 0 then None
    else Some(e.(subject := Trim(e.subject), productID := Trim(e.productID),
                 originalTransactionID := Trim(e.originalTransactionID), updatedAt := now))
  }

  /** Exactly those entitlements are stored; their texts are trimmed, the time is set, and nothing else changes. */
  lemma NormalizeIff(e: Entitlement, now: int)
    ensures Normalize(e, now) == if Trim(e.subject) != "" && e.maxSessions > 0
                                 then Some(Entitlement(Trim(e.subject), e.maxSessions, e.active, Trim(e.productID),
                                                       Trim(e.originalTransactionID), e.expiresAt, now))
                                 else None
  {
  }

  predicate IsNormal(e: Entitlement) {
    e.subject != "" && e.maxSessions > 0 && Trimmed(e.subject) && Trimmed(e.productID) && Trimmed(e.originalTransactionID)
  }

  /** What normalizing returns is normal, and normalizing it again changes nothing. */
  lemma NormalizedIsNormal(e: Entitlement, now: int)
    requires Normalize(e, now).Some?
    ensures var normal := Normalize(e, now).value; IsNormal(normal) && Normalize(normal, now) == Some(normal)
  {
    TrimIsTrimmed(e.subject);
    TrimIsTrimmed(e.productID);
    TrimIsTrimmed(e.originalTransactionID);
  }

  // --- what the indexes say ---

  /** `index` maps exactly the nonblank `name`s of the records back to their keys. */
  ghost predicate IsIndex(items: Items, index: Index, name: Entitlement -> string) {
    && (forall k :: k in items && name(items[k]) != "" ==> name(items[k]) in index && index[name(items[k])] == k)
    && (forall n :: n in index ==> n != "" && index[n] in items && name(items[index[n]]) == n)
  }

  const SUBJECT: Entitlement -> string := (e: Entitlement) => e.subject
  const TRANSACTION: Entitlement -> string := (e: Entitlement) => e.originalTransactionID

  /** The records leave no choice for an index. */
  lemma IndexIsDetermined(items: Items, a: Index, b: Index, name: Entitlement -> string)
    requires IsIndex(items, a, name) && IsIndex(items, b, name)
    ensures a == b
  {
    forall n | n in a
      ensures n in b && b[n] == a[n]
    {
    }
  }

  /** The only record whose `name` is `n`. */
  ghost predicate IsOnly(items: Items, name: Entitlement -> string, n: string, k: string) {
    k in items && name(items[k]) == n && forall l :: l in items && name(items[l]) == n ==> l == k
  }

  lemma IndexedIsOnly(items: Items, index: Index, name: Entitlement -> string, n: string)
    requires IsIndex(items, index, name) && n != ""
    ensures n in index ==> IsOnly(items, name, n, index[n])
    ensures n !in index ==> forall k :: k in items ==> name(items[k]) != n
  {
  }

  /** Storing a record, forgetting its old name and entering its new one, keeps an index. */
  lemma StoreKeepsIndex(items: Items, index: Index, name: Entitlement -> string, k: string, e: Entitlement)
    requires IsIndex(items, index, name)
    requires name(e) in index ==> index[name(e)] == k
    ensures IsIndex(items[k := e], Renamed(items, index, name, k, e), name)
  {
    var r, after := Renamed(items, index, name, k, e), items[k := e];
    forall l | l in after && name(after[l]) != ""
      ensures name(after[l]) in r && r[name(after[l])] == l
    {
    }
  }

  function Renamed(items: Items, index: Index, name: Entitlement -> string, k: string, e: Entitlement): Index {
    var forgotten := if k in items && name(items[k]) != "" && name(items[k]) != name(e) then index - {name(items[k])} else index;
    if name(e) != "" then forgotten[name(e) := k] else forgotten
  }

  // --- the store ---

  /** Some other record has this nonblank name already. */
  ghost predicate Taken(items: Items, name: Entitlement -> string, n: string, k: string) {
    n != "" && exists l :: l in items && l != k && name(items[l]) == n
  }

  lemma TakenIffIndexed(items: Items, index: Index, name: Entitlement -> string, n: string, k: string)
    requires IsIndex(items, index, name)
    ensures Taken(items, name, n, k) <==> n != "" && n in index && index[n] != k
  {
  }

  /** Why the record `e` cannot be stored under `k`, if it cannot. */
  ghost function Conflict(items: Items, k: string, e: Entitlement, failIfExists: bool): Option<StoreError> {
    if failIfExists && k in items then Some(DuplicateKey)
    else if Taken(items, SUBJECT, e.subject, k) then Some(DuplicateSubject)
    else if Taken(items, TRANSACTION, e.originalTransactionID, k) then Some(DuplicateTransaction)
    else None
  }

  /** A normal record conflicts exactly with a record under the same key, if that
      must not be, and with records under other keys that have its subject or its
      transaction. */
  lemma ConflictIff(items: Items, k: string, e: Entitlement, failIfExists: bool)
    requires e.subject != ""
    ensures Conflict(items, k, e, failIfExists).None? <==>
              && (failIfExists ==> k !in items)
              && (forall l :: l in items && l != k ==>
                    items[l].subject != e.subject
                    && (e.originalTransactionID != "" ==> items[l].originalTransactionID != e.originalTransactionID))
  {
  }

  /** Why a record given with its key cannot be stored, if it cannot. */
  ghost function Refusal(items: Items, hash: string -> string, rawKey: string, e: Entitlement, now: int, failIfExists: bool): Option<StoreError> {
    if Trim(rawKey) == "" then Some(MissingKey)
    else match Normalize(e, now)
         case None => Some(InvalidEntitlement)
         case Some(normal) => Conflict(items, hash(Trim(rawKey)), normal, failIfExists)
  }

  /** No record under another key has the subject of `e`, or its transaction if it names one. */
  ghost predicate IsFree(items: Items, k: string, e: Entitlement) {
    forall l :: l in items && l != k ==>
      items[l].subject != Trim(e.subject)
      && (Trim(e.originalTransactionID) != "" ==> items[l].originalTransactionID != Trim(e.originalTransactionID))
  }

  /** A record is stored exactly when it is given a key, names a subject, allows a
      session, and its key, subject and transaction are free. */
  lemma AcceptedIff(items: Items, hash: string -> string, rawKey: string, e: Entitlement, now: int, failIfExists: bool)
    ensures Refusal(items, hash, rawKey, e, now, failIfExists).None? <==>
              && Trim(rawKey) != "" && Trim(e.subject) != "" && e.maxSessions > 0
              && (failIfExists ==> hash(Trim(rawKey)) !in items) && IsFree(items, hash(Trim(rawKey)), e)
  {
    NormalizeIff(e, now);
    if Normalize(e, now).Some? {
      ConflictIff(items, hash(Trim(rawKey)), Normalize(e, now).value, failIfExists);
    }
  }

  /** The entitlement that is stored for a transaction ID: it takes the ID if it names no other. */
  function ForTransaction(originalTransactionID: string, e: Entitlement): Entitlement {
    if Trim(e.originalTransactionID) == "" then e.(originalTransactionID := Trim(originalTransactionID)) else e
  }

  /** The new record carries the transaction it is found by, unless it names another one. */
  lemma StoredTransaction(originalTransactionID: string, e: Entitlement, now: int)
    ensures var stored := Normalize(ForTransaction(originalTransactionID, e), now);
            && (stored.Some? <==> Trim(e.subject) != "" && e.maxSessions > 0)
            && (stored.Some? ==>
                  && stored.value.originalTransactionID ==
                       (if Trim(e.originalTransactionID) == "" then Trim(originalTransactionID) else Trim(e.originalTransactionID))
                  && stored.value.(originalTransactionID := "") == Normalize(e, now).value.(originalTransactionID := ""))
  {
    TrimIsTrimmed(originalTransactionID);
  }

  /** `k` is the one record that carries the transaction, and it is replaced unless there is a conflict. */
  ghost predicate ReplacesOnly(before: Items, after: Items, tx: string, k: string, e: Entitlement, r: Option<StoreError>) {
    && IsOnly(before, TRANSACTION, tx, k) && r == Conflict(before, k, e, false)
    && after == if r.None? then before[k := e] else before
  }

  class UserKeyStore {
    const hash: string -> string
    var items: Items
    var subjectToID: Index
    var originalTxToID: Index

    constructor (hash: string -> string)
      ensures Valid() && items == map[]
    {
      this.hash := hash;
      items, subjectToID, originalTxToID := map[], map[], map[];
    }

    ghost predicate Valid()
      reads this
    {
      && (forall k :: k in items ==> IsNormal(items[k]))
      && IsIndex(items, subjectToID, SUBJECT)
      && IsIndex(items, originalTxToID, TRANSACTION)
    }

    /** Either nothing changes, or exactly the record under `keyHash`. */
    method UpsertLocked(keyHash: string, e: Entitlement, failIfExists: bool) returns (r: Option<StoreError>)
      requires Valid() && IsNormal(e)
      modifies this
      ensures Valid()
      ensures r == Conflict(old(items), keyHash, e, failIfExists)
      ensures items == if r.None? then old(items)[keyHash := e] else old(items)
      ensures r.Some? ==> subjectToID == old(subjectToID) && originalTxToID == old(originalTxToID)
    {
      if keyHash in items && failIfExists {
        return Some(DuplicateKey);
      }
      TakenIffIndexed(items, subjectToID, SUBJECT, e.subject, keyHash);
      if e.subject in subjectToID && subjectToID[e.subject] != keyHash {
        return Some(DuplicateSubject);
      }
      TakenIffIndexed(items, originalTxToID, TRANSACTION, e.originalTransactionID, keyHash);
      if e.originalTransactionID != "" {
        if e.originalTransactionID in originalTxToID && originalTxToID[e.originalTransactionID] != keyHash {
          return Some(DuplicateTransaction);
        }
      }
      StoreLocked(keyHash, e);
      return None;
    }

    /** Both indexes follow the record. */
    method StoreLocked(keyHash: string, e: Entitlement)
      requires Valid() && IsNormal(e)
      requires e.subject in subjectToID ==> subjectToID[e.subject] == keyHash
      requires e.originalTransactionID in originalTxToID ==> originalTxToID[e.originalTransactionID] == keyHash
      modifies this
      ensures Valid() && items == old(items)[keyHash := e]
    {
      StoreKeepsIndex(items, subjectToID, SUBJECT, keyHash, e);
      StoreKeepsIndex(items, originalTxToID, TRANSACTION, keyHash, e);
      WriteLocked(keyHash, e);
    }

    /** The writes of an upsert. */
    method WriteLocked(keyHash: string, e: Entitlement)
      requires e.subject != ""
      modifies this
      ensures items == old(items)[keyHash := e]
      ensures subjectToID == Renamed(old(items), old(subjectToID), SUBJECT, keyHash, e)
      ensures originalTxToID == Renamed(old(items), old(originalTxToID), TRANSACTION, keyHash, e)
    {
      if keyHash in items {
        var existing := items[keyHash];
        if existing.subject != "" && existing.subject != e.subject {
          subjectToID := subjectToID - {existing.subject};
        }
        if existing.originalTransactionID != "" && existing.originalTransactionID != e.originalTransactionID {
          originalTxToID := originalTxToID - {existing.originalTransactionID};
        }
      }
      items := items[keyHash := e];
      subjectToID := subjectToID[e.subject := keyHash];
      if e.originalTransactionID != "" {
        originalTxToID := originalTxToID[e.originalTransactionID := keyHash];
      }
    }

    /** Add refuses a key that is there already, Upsert replaces its record. */
    method Put(rawKey: string, e: Entitlement, now: int, failIfExists: bool) returns (r: Option<StoreError>)
      requires Valid()
      modifies this
      ensures Valid()
      ensures r == Refusal(old(items), hash, rawKey, e, now, failIfExists)
      ensures r.Some? ==> items == old(items) && subjectToID == old(subjectToID) && originalTxToID == old(originalTxToID)
      ensures r.None? ==> items == old(items)[hash(Trim(rawKey)) := Normalize(e, now).value]
    {
      var key := Trim(rawKey);
      if key == "" {
        return Some(MissingKey);
      }
      var normal := Normalize(e, now);
      if normal.None? {
        return Some(InvalidEntitlement);
      }
      NormalizedIsNormal(e, now);
      r := UpsertLocked(hash(key), normal.value, failIfExists);
    }

    method Add(rawKey: string, e: Entitlement, now: int) returns (r: Option<StoreError>)
      requires Valid()
      modifies this
      ensures Valid()
      ensures r == Refusal(old(items), hash, rawKey, e, now, true)
      ensures r.Some? ==> items == old(items) && subjectToID == old(subjectToID) && originalTxToID == old(originalTxToID)
      ensures r.None? ==> hash(Trim(rawKey)) !in old(items) && items == old(items)[hash(Trim(rawKey)) := Normalize(e, now).value]
      ensures r.None? <==>
                && Trim(rawKey) != "" && Trim(e.subject) != "" && e.maxSessions > 0
                && hash(Trim(rawKey)) !in old(items) && IsFree(old(items), hash(Trim(rawKey)), e)
    {
      AcceptedIff(items, hash, rawKey, e, now, true);
      r := Put(rawKey, e, now, true);
    }

    method Upsert(rawKey: string, e: Entitlement, now: int) returns (r: Option<StoreError>)
      requires Valid()
      modifies this
      ensures Valid()
      ensures r == Refusal(old(items), hash, rawKey, e, now, false)
      ensures r.Some? ==> items == old(items) && subjectToID == old(subjectToID) && originalTxToID == old(originalTxToID)
      ensures r.None? ==> items == old(items)[hash(Trim(rawKey)) := Normalize(e, now).value]
      ensures r.None? <==>
                Trim(rawKey) != "" && Trim(e.subject) != "" && e.maxSessions > 0 && IsFree(old(items), hash(Trim(rawKey)), e)
    {
      AcceptedIff(items, hash, rawKey, e, now, false);
      r := Put(rawKey, e, now, false);
    }

    /** Replaces the record that carries the transaction, whose new record may carry another one. */
    method UpsertByOriginalTransactionID(originalTransactionID: string, e: Entitlement, now: int) returns (r: Option<StoreError>)
      requires Valid()
      modifies this
      ensures Valid()
      ensures r.Some? ==> items == old(items) && subjectToID == old(subjectToID) && originalTxToID == old(originalTxToID)
      ensures var tx, normal := Trim(originalTransactionID), Normalize(ForTransaction(originalTransactionID, e), now);
              if tx == "" then r == Some(MissingTransaction)
              else if normal.None? then r == Some(InvalidEntitlement)
              else if r == Some(UnknownTransaction) then forall k :: k in old(items) ==> old(items)[k].originalTransactionID != tx
              else exists k :: ReplacesOnly(old(items), items, tx, k, normal.value, r)
    {
      var tx := Trim(originalTransactionID);
      if tx == "" {
        return Some(MissingTransaction);
      }
      var normal := Normalize(ForTransaction(originalTransactionID, e), now);
      if normal.None? {
        return Some(InvalidEntitlement);
      }
      NormalizedIsNormal(ForTransaction(originalTransactionID, e), now);
      r := UpsertIndexed(tx, normal.value);
    }

    /** Replaces the record that the index names for a transaction. */
    method UpsertIndexed(tx: string, e: Entitlement) returns (r: Option<StoreError>)
      requires Valid() && IsNormal(e) && tx != ""
      modifies this
      ensures Valid()
      ensures r.Some? ==> items == old(items) && subjectToID == old(subjectToID) && originalTxToID == old(originalTxToID)
      ensures if r == Some(UnknownTransaction) then forall k :: k in old(items) ==> old(items)[k].originalTransactionID != tx
              else exists k :: ReplacesOnly(old(items), items, tx, k, e, r)
    {
      IndexedIsOnly(items, originalTxToID, TRANSACTION, tx);
      if tx !in originalTxToID {
        return Some(UnknownTransaction);
      }
      ghost var k := originalTxToID[tx];
      r := UpsertLocked(originalTxToID[tx], e, false);
      assert ReplacesOnly(old(items), items, tx, k, e, r);
    }

    method Lookup(rawKey: string) returns (r: Option<Entitlement>)
      ensures r == if hash(Trim(rawKey)) in items then Some(items[hash(Trim(rawKey))]) else None
    {
      var keyHash := hash(Trim(rawKey));
      return if keyHash in items then Some(items[keyHash]) else None;
    }

    /** The indexed lookup finds what a scan of all records would find. */
    method LookupBySubject(subject: string) returns (r: Option<Entitlement>)
      requires Valid()
      ensures match r
              case Some(e) => exists k :: IsOnly(items, SUBJECT, Trim(subject), k) && items[k] == e
              case None => forall k :: k in items ==> items[k].subject != Trim(subject)
    {
      var trimmed := Trim(subject);
      if trimmed == "" {
        return None;
      }
      IndexedIsOnly(items, subjectToID, SUBJECT, trimmed);
      if trimmed !in subjectToID {
        return None;
      }
      return Some(items[subjectToID[trimmed]]);
    }

    method LookupByOriginalTransactionID(originalTransactionID: string) returns (r: Option<Entitlement>)
      requires Valid()
      ensures match r
              case Some(e) => exists k :: IsOnly(items, TRANSACTION, Trim(originalTransactionID), k) && items[k] == e
              case None => Trim(originalTransactionID) == ""
                           || forall k :: k in items ==> items[k].originalTransactionID != Trim(originalTransactionID)
    {
      var tx := Trim(originalTransactionID);
      if tx == "" {
        return None;
      }
      IndexedIsOnly(items, originalTxToID, TRANSACTION, tx);
      if tx !in originalTxToID {
        return None;
      }
      return Some(items[originalTxToID[tx]]);
    }
  }
}
