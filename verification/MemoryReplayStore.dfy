/** The in-process replay store: a map of entries, each handed to its owner through a lease.

    Clock readings and random owner ids are parameters. An entry's identity is its owner id, which no two
    entries share, so comparing owners is comparing entry objects. `Reg()` is the abstract register the
    store stands for; every operation changes it as the abstract operation does, as far as live entries go. */
module MemoryReplayStore {
  import opened Wrappers
  import opened ReplayRegister

  const MAX_SAFE_INTEGER := 0x1F_FFFF_FFFF_FFFF

  /** The promise shared by the waiters of one entry: resolved at most once, with a response or with null. */
  datatype Promise = Unresolved | Resolved(answer: Option<Response>)

  datatype MemoryReplayEntry =
    MemoryReplayEntry(requestHash: Hash, owner: Owner, expiresAtMs: int, response: Option<Response>, consumed: bool)
  {
    function Abstract(): Entry {
      Entry(requestHash, owner,
            if response.None? then Pending else if consumed then Consumed else Completed(response.value),
            expiresAtMs)
    }
  }

  ghost function RegOf(entries: map<Key, MemoryReplayEntry>): Register {
    map key | key in entries :: entries[key].Abstract()
  }

  lemma ForgettingExpiredIsInvisible(entries: map<Key, MemoryReplayEntry>, key: Key, now: int)
    requires key in entries && now >= entries[key].expiresAtMs
    ensures SameView(RegOf(entries - {key}), RegOf(entries), now)
  {
  }

  lemma ForgettingPendingIsAbort(entries: map<Key, MemoryReplayEntry>, key: Key, now: int)
    requires key in entries && entries[key].response.None?
    ensures SameView(RegOf(entries - {key}), ReplayRegister.Abort(RegOf(entries), now, key, entries[key].owner).0, now)
  {
    if now >= entries[key].expiresAtMs { ForgettingExpiredIsInvisible(entries, key, now); }
  }

  lemma PublishingIsComplete(entries: map<Key, MemoryReplayEntry>, key: Key, response: Response, ttlMs: int, now: int)
    requires key in entries && entries[key].response.None? && !entries[key].consumed && now < entries[key].expiresAtMs
    ensures ReplayRegister.Complete(RegOf(entries), now, key, entries[key].owner, response, ttlMs)
      == (RegOf(entries[key := entries[key].(expiresAtMs := now + ttlMs, response := Some(response))]), true)
  {
    var after := entries[key := entries[key].(expiresAtMs := now + ttlMs, response := Some(response))];
    var done := ReplayRegister.Complete(RegOf(entries), now, key, entries[key].owner, response, ttlMs).0;
    assert RegOf(after).Keys == done.Keys;
    assert forall k :: k in done ==> RegOf(after)[k] == done[k];
    assert RegOf(after) == done;
  }

  lemma MarkingIsConsume(entries: map<Key, MemoryReplayEntry>, key: Key, now: int)
    requires key in entries && entries[key].response.Some? && now < entries[key].expiresAtMs
    ensures Consume(RegOf(entries), now, key) == (RegOf(entries[key := entries[key].(consumed := true)]), true)
  {
    var after := entries[key := entries[key].(consumed := true)];
    var done := Consume(RegOf(entries), now, key).0;
    assert RegOf(after).Keys == done.Keys;
    assert forall k :: k in done ==> RegOf(after)[k] == done[k];
    assert RegOf(after) == done;
  }

  lemma CreatingIsAcquire(
    entries: map<Key, MemoryReplayEntry>, key: Key, requestHash: Hash, owner: Owner, ttlMs: int, now: int)
    requires key in entries ==> now >= entries[key].expiresAtMs
    ensures ReplayRegister.Acquire(RegOf(entries), now, key, requestHash, owner, ttlMs)
      == (RegOf((entries - {key})[key := MemoryReplayEntry(requestHash, owner, now + ttlMs, None, false)]), Owned)
  {
    var after := RegOf((entries - {key})[key := MemoryReplayEntry(requestHash, owner, now + ttlMs, None, false)]);
    var acquired := ReplayRegister.Acquire(RegOf(entries), now, key, requestHash, owner, ttlMs).0;
    assert after.Keys == acquired.Keys;
    assert forall k :: k in after ==> after[k] == acquired[k];
    assert after == acquired;
  }

  /** Every entry is at its owner's home. */
  ghost predicate AtHome(entries: map<Key, MemoryReplayEntry>, home: map<Owner, Key>) {
    forall key :: key in entries ==> entries[key].owner in home && home[entries[key].owner] == key
  }

  /** Nobody waits for an entry that is gone. */
  ghost predicate AllHeld(
    entries: map<Key, MemoryReplayEntry>, home: map<Owner, Key>, ready: map<Owner, Promise>)
  {
    forall owner :: owner in ready && ready[owner] == Unresolved ==>
      owner in home && home[owner] in entries && entries[home[owner]].owner == owner
  }

  datatype AcquireResult =
    | Lease(lease: OwnerLease)
    | Answered(claim: Claim)
    | Waiting(owner: Owner)
    | Busy
    | InvalidTtl

  class InMemoryTwimlReplayStore {
    var entries: map<Key, MemoryReplayEntry>
    var ready: map<Owner, Promise>
    ghost var unsettled: set<Owner>
    ghost var published: map<Owner, Response>
    ghost var home: map<Owner, Key>

    ghost predicate Valid()
      reads this
    {
      && unsettled <= ready.Keys
      && (forall key :: key in entries ==>
            var entry := entries[key];
            && entry.owner in ready
            && (entry.response.None? <==> entry.owner in unsettled)
            && (entry.response.None? ==> ready[entry.owner] == Unresolved)
            && (entry.response.Some? ==> ready[entry.owner] == Resolved(entry.response))
            && (entry.consumed ==> entry.response.Some?))
      && AtHome(entries, home) && (forall owner :: owner in home ==> owner in ready)
      && (forall owner :: owner in ready && ready[owner].Resolved? && ready[owner].answer.Some? ==>
            owner in published && published[owner] == ready[owner].answer.value)
      && published.Keys <= ready.Keys - unsettled
      && AllHeld(entries, home, ready)
    }

    ghost function Reg(): Register
      reads this
    {
      RegOf(entries)
    }

    constructor ()
      ensures Valid() && Reg() == map[] && ready == map[] && published == map[]
    {
      entries, ready, unsettled, published, home := map[], map[], {}, map[], map[];
    }

    /** Resolving a promise a second time has no effect. */
    method Resolve(owner: Owner, answer: Option<Response>)
      requires owner in ready
      modifies this`ready
      ensures ready == if old(ready)[owner] == Unresolved then old(ready)[owner := Resolved(answer)] else old(ready)
    {
      if ready[owner] == Unresolved { ready := ready[owner := Resolved(answer)]; }
    }

    /** Deletes a key's entry and tells its waiters that no response will come. */
    method Forget(key: Key)
      requires Valid() && key in entries
      modifies this`entries, this`ready
      ensures Valid() && entries == old(entries) - {key} && ready.Keys == old(ready).Keys
    {
      var owner := entries[key].owner;
      entries := entries - {key};
      Resolve(owner, None);
    }

    method Create(key: Key, requestHash: Hash, ttlMs: int, now: int, owner: Owner) returns (lease: OwnerLease)
      requires Valid() && owner !in ready && key !in entries && 0 < ttlMs
      modifies this
      ensures Valid() && published == old(published) && unsettled == old(unsettled) + {owner}
      ensures entries == old(entries)[key := MemoryReplayEntry(requestHash, owner, now + ttlMs, None, false)]
      ensures fresh(lease) && lease.Issued(this) && !lease.settled
      ensures lease.key == key && lease.owner == owner && lease.ttlMs == ttlMs
    {
      Insert(key, MemoryReplayEntry(requestHash, owner, now + ttlMs, None, false));
      lease := new OwnerLease(key, owner, ttlMs);
    }

    method Insert(key: Key, entry: MemoryReplayEntry)
      requires Valid() && entry.owner !in ready && key !in entries && entry.response.None? && !entry.consumed
      modifies this
      ensures Valid() && published == old(published) && unsettled == old(unsettled) + {entry.owner}
      ensures entries == old(entries)[key := entry] && entry.owner in ready
      ensures entry.owner in home && home[entry.owner] == key
    {
      home := home[entry.owner := key];
      ready := ready[entry.owner := Unresolved];
      entries := entries[key := entry];
      unsettled := unsettled + {entry.owner};
    }

    method Vacate(key: Key)
      requires Valid()
      modifies this`entries, this`ready
      ensures Valid() && entries == old(entries) - {key} && ready.Keys == old(ready).Keys
    {
      if key in entries { Forget(key); }
    }

    /** Takes the place of an expired entry, or of none. */
    method Renew(key: Key, requestHash: Hash, ttlMs: int, now: int, owner: Owner) returns (lease: OwnerLease)
      requires Valid() && owner !in ready && 0 < ttlMs && (key in entries ==> now >= entries[key].expiresAtMs)
      modifies this
      ensures Valid() && published == old(published) && unsettled == old(unsettled) + {owner}
      ensures (Reg(), Owned) == ReplayRegister.Acquire(old(Reg()), now, key, requestHash, owner, ttlMs)
      ensures fresh(lease) && lease.Issued(this) && !lease.settled
      ensures lease.key == key && lease.owner == owner && lease.ttlMs == ttlMs
    {
      CreatingIsAcquire(entries, key, requestHash, owner, ttlMs, now);
      Vacate(key);
      lease := Create(key, requestHash, ttlMs, now, owner);
    }

    /** The owner's lease settles without a response. */
    method GiveUp(owner: Owner)
      requires Valid() && owner in ready && forall key :: key in entries ==> entries[key].owner != owner
      modifies this`ready, this`unsettled
      ensures Valid() && ready.Keys == old(ready).Keys && unsettled == old(unsettled) - {owner}
    {
      unsettled := unsettled - {owner};
      Resolve(owner, None);
    }

    method Publish(key: Key, response: Response, expiresAtMs: int)
      requires Valid() && key in entries && entries[key].response.None?
      modifies this
      ensures Valid() && ready.Keys == old(ready).Keys && home == old(home)
      ensures entries == old(entries)[key := old(entries)[key].(expiresAtMs := expiresAtMs, response := Some(response))]
      ensures unsettled == old(unsettled) - {old(entries)[key].owner}
      ensures published == old(published)[old(entries)[key].owner := response]
    {
      var owner := entries[key].owner;
      entries := entries[key := entries[key].(expiresAtMs := expiresAtMs, response := Some(response))];
      unsettled := unsettled - {owner};
      published := published[owner := response];
      Resolve(owner, Some(response));
    }

    /** `checkedAtMs` and `createdAtMs` are the two clock readings; `owner` is the random UUID. */
    method Acquire(
      key: Key, requestHash: Hash, ttlMs: int, aborted: bool, checkedAtMs: int, createdAtMs: int, owner: Owner)
      returns (result: AcquireResult)
      requires Valid() && owner !in ready && checkedAtMs <= createdAtMs
      modifies this
      ensures Valid() && published == old(published)
      ensures aborted ==> result == Busy
      ensures !aborted && !(1 <= ttlMs <= 9_007_199_254_740_991) ==> result == InvalidTtl
      ensures result == Busy || result == InvalidTtl ==> Reg() == old(Reg()) && unsettled == old(unsettled)
      ensures !aborted && 0 < ttlMs <= MAX_SAFE_INTEGER && key in old(entries) ==>
        checkedAtMs < old(entries)[key].expiresAtMs && old(entries)[key].requestHash != requestHash ==>
        result == Answered(Conflict)
      ensures forall r :: result == Answered(Replayed(r)) ==>
                && key in old(entries) && old(entries)[key].requestHash == requestHash
                && old(entries)[key].response == Some(r)
      ensures result.Waiting? ==>
        key in entries && entries[key].requestHash == requestHash && entries[key].owner == result.owner
      ensures !aborted && 0 < ttlMs <= MAX_SAFE_INTEGER ==>
        var at := if Live(old(Reg()), key, checkedAtMs) then checkedAtMs else createdAtMs;
        var (reg, claim) := ReplayRegister.Acquire(old(Reg()), at, key, requestHash, owner, ttlMs);
        && SameView(Reg(), reg, at)
        && match claim {
             case Owned =>
               && result.Lease? && fresh(result.lease) && result.lease.Issued(this)
               && (result.lease.key, result.lease.owner, result.lease.ttlMs) == (key, owner, ttlMs)
               && !result.lease.settled && unsettled == old(unsettled) + {owner}
             case Wait => key in Reg() && result == Waiting(Reg()[key].owner) && unsettled == old(unsettled)
             case _ => result == Answered(claim) && unsettled == old(unsettled)
           }
    {
      if aborted { return Busy; }
      if !(0 < ttlMs <= MAX_SAFE_INTEGER) { return InvalidTtl; }
      if key !in entries || checkedAtMs >= entries[key].expiresAtMs {
        var lease := Renew(key, requestHash, ttlMs, createdAtMs, owner);
        return Lease(lease);
      }
      var current := entries[key];
      if current.requestHash != requestHash { return Answered(Conflict); }
      if current.consumed { return Answered(AlreadyConsumed); }
      if current.response.Some? { return Answered(Replayed(current.response.value)); }
      return Waiting(current.owner);
    }

    /** The end of a wait: `resolved` says the promise won the race against the timer and the abort signal.
        A waiter only ever receives the one response that its entry published. */
    method FinishWait(owner: Owner, resolved: bool, aborted: bool) returns (result: AcquireResult)
      requires Valid() && owner in ready
      ensures result.Busy? || (owner in published && result == Answered(Replayed(published[owner])))
      ensures result.Busy? <== aborted || !resolved
      ensures !aborted && resolved && ready[owner].Resolved? && ready[owner].answer.Some? ==> !result.Busy?
    {
      var response: Option<Response> := None;
      if resolved && ready[owner].Resolved? { response := ready[owner].answer; }
      if aborted { return Busy; }
      if response.Some? { return Answered(Replayed(response.value)); }
      return Busy;
    }

    method MarkConsumed(key: Key, now: int) returns (ok: bool)
      requires Valid()
      modifies this`entries, this`ready
      ensures Valid()
      ensures var (reg, done) := Consume(old(Reg()), now, key); ok == done && SameView(Reg(), reg, now)
    {
      if key !in entries { return false; }
      if now >= entries[key].expiresAtMs {
        ForgetExpired(key, now);
        return false;
      }
      if entries[key].response.None? { return false; }
      MarkingIsConsume(entries, key, now);
      Mark(key);
      return true;
    }

    method ForgetExpired(key: Key, now: int)
      requires Valid() && key in entries && now >= entries[key].expiresAtMs
      modifies this`entries, this`ready
      ensures Valid() && SameView(Reg(), old(Reg()), now)
    {
      ForgettingExpiredIsInvisible(entries, key, now);
      Forget(key);
    }

    method Mark(key: Key)
      requires Valid() && key in entries && entries[key].response.Some?
      modifies this`entries
      ensures Valid() && entries == old(entries)[key := old(entries)[key].(consumed := true)]
    {
      entries := entries[key := entries[key].(consumed := true)];
    }

    /** Pruning removes exactly the expired entries: a stutter of the abstract register. */
    method Prune(now: int)
      requires Valid()
      modifies this`entries, this`ready
      ensures Valid()
      ensures SameView(Reg(), old(Reg()), now) && forall key :: key in Reg() ==> Live(Reg(), key, now)
    {
      var keys := entries.Keys;
      while keys != {}
        invariant Valid()
        invariant keys <= entries.Keys <= old(entries).Keys
        invariant forall key :: key in entries ==> entries[key] == old(entries)[key]
        invariant forall key :: key in old(entries) ==>
                    (key in entries <==> key in keys || now < old(entries)[key].expiresAtMs)
        decreases keys
      {
        var key :| key in keys;
        keys := keys - {key};
        var entry := entries[key];
        if now >= entry.expiresAtMs { Forget(key); }
      }
    }
  }

  class OwnerLease {
    const key: Key
    const owner: Owner
    const ttlMs: int
    var settled: bool

    constructor (key: Key, owner: Owner, ttlMs: int)
      ensures this.key == key && this.owner == owner && this.ttlMs == ttlMs && !settled
    {
      this.key, this.owner, this.ttlMs, settled := key, owner, ttlMs, false;
    }

    /** This lease came from `store`: it is settled exactly when the store says so, and only its own key
        can hold its entry. */
    ghost predicate Issued(store: InMemoryTwimlReplayStore)
      reads this, store
    {
      && 0 < ttlMs
      && owner in store.ready
      && (settled <==> owner !in store.unsettled)
      && owner in store.home && store.home[owner] == key
    }

    /** An unsettled lease completes exactly as the abstract register does; a settled one changes nothing. */
    method Complete(store: InMemoryTwimlReplayStore, response: Response, now: int) returns (ok: bool)
      requires store.Valid() && Issued(store)
      modifies this, store
      ensures store.Valid() && Issued(store) && settled && store.unsettled == old(store.unsettled) - {owner}
      ensures old(settled) ==> ok && store.Reg() == old(store.Reg()) && store.published == old(store.published)
      ensures !old(settled) ==>
        var (reg, done) := ReplayRegister.Complete(old(store.Reg()), now, key, owner, response, ttlMs);
        && ok == done && SameView(store.Reg(), reg, now)
        && store.published == if ok then old(store.published)[owner := response] else old(store.published)
    {
      if settled { return true; }
      var held := key in store.entries && store.entries[key].owner == owner;
      if !held || now >= store.entries[key].expiresAtMs {
        assert ReplayRegister.Complete(store.Reg(), now, key, owner, response, ttlMs) == (store.Reg(), false);
        Discard(store, now);
        return false;
      }
      settled := true;
      PublishingIsComplete(store.entries, key, response, ttlMs, now);
      store.Publish(key, response, now + ttlMs);
      return true;
    }

    /** The entry is gone, or has expired and goes now. */
    method Discard(store: InMemoryTwimlReplayStore, now: int)
      requires store.Valid() && Issued(store) && !settled
      requires key in store.entries && store.entries[key].owner == owner ==> now >= store.entries[key].expiresAtMs
      modifies this, store
      ensures store.Valid() && Issued(store) && settled && store.unsettled == old(store.unsettled) - {owner}
      ensures SameView(store.Reg(), old(store.Reg()), now) && store.published == old(store.published)
    {
      settled := true;
      if key in store.entries && store.entries[key].owner == owner {
        ForgettingExpiredIsInvisible(store.entries, key, now);
        store.Forget(key);
      }
      store.GiveUp(owner);
    }

    /** Settled or not, an abort is the abstract abort: it never removes a published entry, nor another owner's. */
    method Abort(store: InMemoryTwimlReplayStore, now: int)
      requires store.Valid() && Issued(store)
      modifies this, store
      ensures store.Valid() && Issued(store) && settled && store.unsettled == old(store.unsettled) - {owner}
      ensures store.published == old(store.published)
      ensures SameView(store.Reg(), ReplayRegister.Abort(old(store.Reg()), now, key, owner).0, now)
    {
      if settled { return; }
      if key in store.entries && store.entries[key].owner == owner {
        ForgettingPendingIsAbort(store.entries, key, now);
        store.Forget(key);
      }
      settled := true;
      store.GiveUp(owner);
    }
  }
}
