/** The voice session store: four maps and an expiry cursor, kept in agreement by every operation.

    Clock readings, random session names and the keyed digest are parameters. `Abs()` is the pair of maps that
    matter; the per-user index and the inverse of the pending replacements are derived data, and `Valid()` says
    that they are exact. */
module VoiceSessionStore {
  import opened Wrappers
  import opened LiveKeys
  import opened VoiceSessions

  const EXPIRY_PRUNE_BUDGET := 64

  datatype Issued = Issued(identity: Identity, token: Digest, expMs: int)
  datatype ReserveResult = Granted(issued: Issued) | Refused(reason: Refusal)

  /** The per-user index is the slots grouped by user, with no empty group. */
  ghost predicate IndexOk(slots: map<Ref, Slot>, byUser: map<User, set<Ref>>) {
    && (forall r :: r in slots ==> slots[r].identity.userId in byUser && r in byUser[slots[r].identity.userId])
    && (forall u :: u in byUser ==> byUser[u] != {})
    && (forall u, r :: u in byUser && r in byUser[u] ==> r in slots && slots[r].identity.userId == u)
  }

  /** `byPrior` is the inverse of the pending replacements. */
  ghost predicate InverseOk(pending: map<Ref, Pending>, byPrior: map<Ref, Ref>) {
    && (forall r :: r in pending ==> pending[r].priorRef in byPrior && byPrior[pending[r].priorRef] == r)
    && (forall p :: p in byPrior ==> byPrior[p] in pending && pending[byPrior[p]].priorRef == p)
  }

  ghost predicate KeysAgree(keys: KeyLog<Ref>, slots: map<Ref, Slot>) {
    keys.Valid() && forall r :: keys.Has(r) <==> r in slots
  }

  function Unindexed(byUser: map<User, set<Ref>>, user: User, ref: Ref): map<User, set<Ref>> {
    if user !in byUser then byUser
    else if byUser[user] - {ref} == {} then byUser - {user}
    else byUser[user := byUser[user] - {ref}]
  }

  function Indexed(byUser: map<User, set<Ref>>, user: User, ref: Ref): map<User, set<Ref>> {
    byUser[user := (if user in byUser then byUser[user] else {}) + {ref}]
  }

  lemma IndexRemove(slots: map<Ref, Slot>, byUser: map<User, set<Ref>>, ref: Ref)
    requires IndexOk(slots, byUser) && ref in slots
    ensures IndexOk(slots - {ref}, Unindexed(byUser, slots[ref].identity.userId, ref))
  {
    var user := slots[ref].identity.userId;
    var less := Unindexed(byUser, user, ref);
    forall r | r in slots - {ref}
      ensures slots[r].identity.userId in less && r in less[slots[r].identity.userId] {
      if slots[r].identity.userId == user { assert r in byUser[user] - {ref}; }
    }
  }

  lemma IndexAdd(slots: map<Ref, Slot>, byUser: map<User, set<Ref>>, slot: Slot)
    requires IndexOk(slots, byUser)
    requires slot.identity.sessionRef in slots ==>
      slots[slot.identity.sessionRef].identity.userId == slot.identity.userId
    ensures IndexOk(
      slots[slot.identity.sessionRef := slot], Indexed(byUser, slot.identity.userId, slot.identity.sessionRef))
  {
    var ref, user := slot.identity.sessionRef, slot.identity.userId;
    var more, index := slots[ref := slot], Indexed(byUser, user, ref);
    forall u, r | u in index && r in index[u] ensures r in more && more[r].identity.userId == u {
      if !(u == user && r == ref) { assert u in byUser && r in byUser[u]; }
    }
  }

  lemma KeysRemove(keys: KeyLog<Ref>, slots: map<Ref, Slot>, ref: Ref)
    requires KeysAgree(keys, slots)
    ensures KeysAgree(keys.Remove(ref), slots - {ref})
  {
    LiveKeys.RemoveKeeps(keys, ref);
  }

  lemma KeysAdd(keys: KeyLog<Ref>, slots: map<Ref, Slot>, ref: Ref, slot: Slot)
    requires KeysAgree(keys, slots)
    ensures KeysAgree(keys.Add(ref), slots[ref := slot])
  {
    LiveKeys.AddKeeps(keys, ref);
  }

  lemma KeysMove(keys: KeyLog<Ref>, slots: map<Ref, Slot>, cursor: nat)
    requires KeysAgree(keys, slots) && cursor <= |keys.cells|
    ensures KeysAgree(keys.(cursor := cursor), slots)
  {
    var moved := keys.(cursor := cursor);
    forall r ensures moved.Has(r) <==> r in slots { assert keys.Has(r) <==> r in slots; }
  }

  lemma InverseAdd(pending: map<Ref, Pending>, byPrior: map<Ref, Ref>, ref: Ref, p: Pending)
    requires InverseOk(pending, byPrior) && ref !in pending && p.priorRef !in byPrior
    ensures InverseOk(pending[ref := p], byPrior[p.priorRef := ref])
  {
  }

  lemma InverseRemove(pending: map<Ref, Pending>, byPrior: map<Ref, Ref>, ref: Ref)
    requires InverseOk(pending, byPrior) && ref in pending
    ensures InverseOk(pending - {ref}, byPrior - {pending[ref].priorRef})
  {
  }

  lemma LeftAreLive(before: Sessions, user: User, time: int, removed: set<Ref>)
    requires forall r ::
      r in Remove(before, removed).slots && before.slots[r].identity.userId == user ==> time < before.slots[r].slotExpMs
    ensures AllDropped(before.slots, user, time, removed)
  {
  }

  /** A granted reservation is the entry of its new slot. */
  lemma ReserveIs(
    s: Sessions, limits: Limits, target: Option<Ref>, identity: Identity, time: int, token: Digest, slot: Slot)
    requires slot == NewSlot(s, limits, target, identity, time, token) && (target.Some? ==> target.value in s.slots)
    ensures slot.identity == identity
    ensures VoiceSessions.Reserve(s, limits, target, identity, time, token) == Entered(s, target, slot)
  {
  }

  function Entered(s: Sessions, target: Option<Ref>, slot: Slot): Sessions
    requires target.Some? ==> target.value in s.slots
  {
    if target.None? then Sessions(s.slots[slot.identity.sessionRef := slot], s.pending)
    else Swapped(s, target.value, slot)
  }

  /** The slots with the prior swapped for a new slot and set aside under it. */
  function Swapped(s: Sessions, prior: Ref, slot: Slot): Sessions
    requires prior in s.slots
  {
    var left, ref := Remove(s, {prior}), slot.identity.sessionRef;
    Sessions(left.slots[ref := slot], left.pending[ref := Pending(prior, s.slots[prior])])
  }

  class VoiceSessionStore {
    const limits: Limits
    const sign: (Ref, int) -> Digest
    const safetyIdentifier: User -> string
    var slots: map<Ref, Slot>
    var slotKeys: KeyLog<Ref>
    var slotsByUser: map<User, set<Ref>>
    var pendingSupersedes: map<Ref, Pending>
    var replacementByPrior: map<Ref, Ref>

    ghost predicate Valid()
      reads this
    {
      && limits.Valid() && KeysAgree(slotKeys, slots)
      && IndexOk(slots, slotsByUser) && InverseOk(pendingSupersedes, replacementByPrior) && Coherent(Abs())
    }

    function Abs(): Sessions
      reads this
    {
      Sessions(slots, pendingSupersedes)
    }

    constructor (limits: Limits, sign: (Ref, int) -> Digest, safetyIdentifier: User -> string)
      requires limits.Valid()
      ensures Valid() && Abs() == Sessions(map[], map[]) && this.limits == limits && this.sign == sign
    {
      this.limits, this.sign, this.safetyIdentifier := limits, sign, safetyIdentifier;
      slots, slotKeys, slotsByUser := map[], KeyLog([], 0), map[];
      pendingSupersedes, replacementByPrior := map[], map[];
    }

    method ClearPending(ref: Ref)
      requires InverseOk(pendingSupersedes, replacementByPrior)
      modifies this`pendingSupersedes, this`replacementByPrior
      ensures InverseOk(pendingSupersedes, replacementByPrior)
      ensures pendingSupersedes == Remove(old(Abs()), {ref}).pending
    {
      if ref in pendingSupersedes {
        var prior := pendingSupersedes[ref].priorRef;
        pendingSupersedes := pendingSupersedes - {ref};
        replacementByPrior := replacementByPrior - {prior};
      }
      if ref in replacementByPrior {
        var replacement := replacementByPrior[ref];
        replacementByPrior := replacementByPrior - {ref};
        pendingSupersedes := pendingSupersedes - {replacement};
      }
    }

    method RemoveSlot(ref: Ref)
      requires Valid()
      modifies this
      ensures Valid() && Abs() == Remove(old(Abs()), {ref})
    {
      RemoveKeepsCoherent(Abs(), {ref});
      if ref in slots {
        var user := slots[ref].identity.userId;
        KeysRemove(slotKeys, slots, ref);
        IndexRemove(slots, slotsByUser, ref);
        slots := slots - {ref};
        slotKeys := slotKeys.Remove(ref);
        var userSlots := slotsByUser[user] - {ref};
        slotsByUser := if userSlots == {} then slotsByUser - {user} else slotsByUser[user := userSlots];
      }
      assert slots == old(slots) - {ref};
      ClearPending(ref);
    }

    /** Stores a slot under its own name; a slot that is already there keeps its place and its user. */
    method AddSlot(slot: Slot)
      requires KeysAgree(slotKeys, slots) && IndexOk(slots, slotsByUser)
      requires slot.identity.sessionRef in slots ==>
        slots[slot.identity.sessionRef].identity.userId == slot.identity.userId
      modifies this`slots, this`slotKeys, this`slotsByUser
      ensures KeysAgree(slotKeys, slots) && IndexOk(slots, slotsByUser)
      ensures slots == old(slots)[slot.identity.sessionRef := slot]
    {
      var ref, user := slot.identity.sessionRef, slot.identity.userId;
      KeysAdd(slotKeys, slots, ref, slot);
      IndexAdd(slots, slotsByUser, slot);
      slots := slots[ref := slot];
      slotKeys := slotKeys.Add(ref);
      var userSlots := if user in slotsByUser then slotsByUser[user] else {};
      slotsByUser := slotsByUser[user := userSlots + {ref}];
    }

    /** One removal of a pruning pass that began in `before` and has removed `removed` so far. */
    method DropExpired(
      ref: Ref, time: int, ghost before: Sessions, ghost removed: set<Ref>) returns (ghost more: set<Ref>)
      requires Valid() && Abs() == Remove(before, removed) && ref in slots && time >= slots[ref].slotExpMs
      requires removed <= ExpiredAt(before.slots, time)
      modifies this
      ensures Valid() && more == removed + {ref} && Abs() == Remove(before, more) && slots == old(slots) - {ref}
      ensures more <= ExpiredAt(before.slots, time)
    {
      more := removed + {ref};
      RemoveUnion(before, removed, {ref});
      RemoveSlot(ref);
    }

    /** Stores a slot under a name that no slot and no set-aside prior has. */
    method Place(slot: Slot)
      requires Valid() && slot.identity.sessionRef !in slots && !IsPrior(pendingSupersedes, slot.identity.sessionRef)
      modifies this`slots, this`slotKeys, this`slotsByUser
      ensures Valid() && Abs() == Sessions(old(slots)[slot.identity.sessionRef := slot], pendingSupersedes)
    {
      PlaceKeepsCoherent(Abs(), slot);
      AddSlot(slot);
    }

    /** Sets a removed slot aside as the prior of `ref`. */
    method SetAside(ref: Ref, prior: Slot)
      requires Valid() && ref in slots && ref !in pendingSupersedes && prior.identity.sessionRef !in slots
      requires !IsPrior(pendingSupersedes, prior.identity.sessionRef)
      requires prior.identity.userId == slots[ref].identity.userId
      modifies this`pendingSupersedes, this`replacementByPrior
      ensures Valid()
      ensures Abs() == Sessions(slots, old(pendingSupersedes)[ref := Pending(prior.identity.sessionRef, prior)])
    {
      var priorRef := prior.identity.sessionRef;
      SetAsideKeepsCoherent(Abs(), ref, prior);
      InverseAdd(pendingSupersedes, replacementByPrior, ref, Pending(priorRef, prior));
      pendingSupersedes := pendingSupersedes[ref := Pending(priorRef, prior)];
      replacementByPrior := replacementByPrior[priorRef := ref];
    }

    /** Removes every expired slot of one user. */
    method PruneUser(user: User, time: int) returns (ghost removed: set<Ref>)
      requires Valid()
      modifies this
      ensures Valid() && Abs() == Remove(old(Abs()), removed)
      ensures removed <= ExpiredAt(old(slots), time)
      ensures forall r :: r in slots && slots[r].identity.userId == user ==> time < slots[r].slotExpMs
    {
      removed := {};
      RemoveNothing(Abs());
      if user !in slotsByUser { return; }
      var rest := slotsByUser[user];
      while rest != {}
        invariant Valid() && Abs() == Remove(old(Abs()), removed) && rest <= slots.Keys
        invariant removed <= ExpiredAt(old(slots), time)
        invariant forall r :: r in slots && slots[r].identity.userId == user && r !in rest ==> time < slots[r].slotExpMs
        decreases rest
      {
        var ref :| ref in rest;
        rest := rest - {ref};
        if time >= slots[ref].slotExpMs { removed := DropExpired(ref, time, old(Abs()), removed); }
      }
    }

    /** Moves the cursor to the next slot, starting again once at the end. */
    method NextKey() returns (ref: Ref)
      requires Valid() && slots != map[]
      modifies this`slotKeys
      ensures Valid() && ref in slots && Abs() == old(Abs())
    {
      while true
        invariant Valid()
        decreases if slotKeys.Seek(slotKeys.cursor) == |slotKeys.cells| then 1 else 0
      {
        var at := slotKeys.Seek(slotKeys.cursor);
        if at < |slotKeys.cells| {
          ref := slotKeys.cells[at].value;
          assert slotKeys.Has(ref);
          KeysMove(slotKeys, slots, at + 1);
          slotKeys := slotKeys.(cursor := at + 1);
          return;
        }
        ghost var some :| some in slots;
        RestartFindsAKey(slotKeys, some);
        KeysMove(slotKeys, slots, 0);
        slotKeys := slotKeys.Restart();
      }
    }

    /** The cursor walks over at most a fixed number of slots, starting again at the end; it always stops. */
    method PruneSome(time: int) returns (ghost removed: set<Ref>)
      requires Valid()
      modifies this
      ensures Valid() && Abs() == Remove(old(Abs()), removed)
      ensures removed <= ExpiredAt(old(slots), time)
    {
      removed := {};
      RemoveNothing(Abs());
      var inspected := 0;
      while slots != map[] && inspected < EXPIRY_PRUNE_BUDGET
        invariant Valid() && Abs() == Remove(old(Abs()), removed)
        invariant removed <= ExpiredAt(old(slots), time)
      {
        removed := InspectNext(time, old(Abs()), removed);
        inspected := inspected + 1;
      }
    }

    method InspectNext(time: int, ghost before: Sessions, ghost removed: set<Ref>) returns (ghost more: set<Ref>)
      requires Valid() && Abs() == Remove(before, removed) && slots != map[] && removed <= ExpiredAt(before.slots, time)
      modifies this
      ensures Valid() && Abs() == Remove(before, more) && more <= ExpiredAt(before.slots, time)
    {
      var ref := NextKey();
      more := removed;
      if time >= slots[ref].slotExpMs { more := DropExpired(ref, time, before, removed); }
    }

    method PruneBoth(user: User, time: int) returns (ghost removed: set<Ref>)
      requires Valid()
      modifies this
      ensures Valid() && Abs() == Remove(old(Abs()), removed)
      ensures removed <= ExpiredAt(old(slots), time)
      ensures forall r :: r in slots && slots[r].identity.userId == user ==> time < slots[r].slotExpMs
    {
      ghost var first := PruneUser(user, time);
      ghost var second := PruneSome(time);
      removed := first + second;
      RemoveUnion(old(Abs()), first, second);
    }

    method Prune(time: int) returns (ghost removed: set<Ref>)
      requires Valid()
      modifies this
      ensures Valid() && Abs() == Remove(old(Abs()), removed)
      ensures removed <= ExpiredAt(old(slots), time)
    {
      removed := PruneSome(time);
    }

    method Decide(user: User, target: Option<Ref>) returns (reason: Option<Refusal>)
      requires Valid()
      ensures reason == Refuse(Abs(), limits, user, target)
    {
      if target.Some? {
        if target.value !in slots || slots[target.value].identity.userId != user || target.value in pendingSupersedes {
          return Some(InvalidSupersedes);
        }
      }
      CountIsIndex(slots, slotsByUser, user);
      var active := (if user in slotsByUser then |slotsByUser[user]| else 0) - (if target.Some? then 1 else 0);
      if active >= limits.cap { return Some(CapExceeded); }
      if |slots| - (if target.Some? then 1 else 0) >= limits.maxTracked { return Some(SessionStoreCapacity); }
      return None;
    }

    /** After pruning, a reservation is refused or granted exactly as the value-level rules say; an unexpired
        prior of the same user is swapped for the new slot and set aside. `ref` is the random session name. */
    method Reserve(user: User, mode: Mode, supersedes: Option<Ref>, time: int, ref: Ref)
      returns (result: ReserveResult, ghost removed: set<Ref>)
      requires Valid() && ref !in slots && !IsPrior(pendingSupersedes, ref)
      modifies this
      ensures Valid() && removed <= ExpiredAt(old(slots), time)
      ensures AllDropped(old(slots), user, time, removed)
      ensures var s, target := Remove(old(Abs()), removed), Target(supersedes);
        match Refuse(s, limits, user, target) {
          case Some(reason) => result == Refused(reason) && Abs() == s
          case None =>
            var identity, expMs := Identity(ref, user, safetyIdentifier(user), mode), time + limits.ttlMs;
            && (target.Some? ==> time < s.slots[target.value].slotExpMs)
            && result == Granted(Issued(identity, sign(ref, expMs), expMs))
            && Abs() == VoiceSessions.Reserve(s, limits, target, identity, time, sign(ref, expMs))
        }
      ensures var s, target := Remove(old(Abs()), removed), if supersedes == Some("") then None else supersedes;
        result.Granted? <==>
          && (target.Some? ==> Replaceable(s, user, target.value))
          && UserHasRoom(s, limits, user, target) && StoreHasRoom(s, limits, target)
    {
      removed := PruneBoth(user, time);
      LeftAreLive(old(Abs()), user, time, removed);
      NotPriorAfterRemove(old(Abs()), removed, ref);
      var target := Target(supersedes);
      RefusalIs(Abs(), limits, user, target);
      var reason := Decide(user, target);
      if reason.Some? { return Refused(reason.value), removed; }
      result := Grant(target, Identity(ref, user, safetyIdentifier(user), mode), time);
    }

    method Grant(target: Option<Ref>, identity: Identity, time: int) returns (result: ReserveResult)
      requires Valid() && identity.sessionRef !in slots && !IsPrior(pendingSupersedes, identity.sessionRef)
      requires target.Some? ==>
        && target.value in slots && slots[target.value].identity.userId == identity.userId
        && target.value !in pendingSupersedes
      modifies this
      ensures Valid()
      ensures var expMs := time + limits.ttlMs;
        && result == Granted(Issued(identity, sign(identity.sessionRef, expMs), expMs))
        && Abs() == VoiceSessions.Reserve(old(Abs()), limits, target, identity, time, sign(identity.sessionRef, expMs))
    {
      var expMs := time + limits.ttlMs;
      var token := sign(identity.sessionRef, expMs);
      Admit(target, identity, time, token);
      return Granted(Issued(identity, token, expMs));
    }

    method Admit(target: Option<Ref>, identity: Identity, time: int, token: Digest)
      requires Valid() && identity.sessionRef !in slots && !IsPrior(pendingSupersedes, identity.sessionRef)
      requires target.Some? ==>
        && target.value in slots && slots[target.value].identity.userId == identity.userId
        && target.value !in pendingSupersedes
      modifies this
      ensures Valid() && Abs() == VoiceSessions.Reserve(old(Abs()), limits, target, identity, time, token)
    {
      var slot := NewSlot(Abs(), limits, target, identity, time, token);
      ghost var after := VoiceSessions.Reserve(Abs(), limits, target, identity, time, token);
      ReserveIs(Abs(), limits, target, identity, time, token, slot);
      Enter(target, identity, slot, after);
    }

    method Enter(target: Option<Ref>, identity: Identity, slot: Slot, ghost after: Sessions)
      requires Valid() && identity.sessionRef !in slots && !IsPrior(pendingSupersedes, identity.sessionRef)
      requires target.Some? ==>
        && target.value in slots && slots[target.value].identity.userId == identity.userId
        && target.value !in pendingSupersedes
      requires slot.identity == identity && after == Entered(Abs(), target, slot)
      modifies this
      ensures Valid() && Abs() == after
    {
      if target.None? { Place(slot); } else { Swap(target.value, slot); }
    }

    /** The prior makes room for the new slot and is set aside. */
    method Swap(prior: Ref, slot: Slot)
      requires Valid() && slot.identity.sessionRef !in slots && !IsPrior(pendingSupersedes, slot.identity.sessionRef)
      requires prior in slots && slots[prior].identity.userId == slot.identity.userId && prior !in pendingSupersedes
      modifies this
      ensures Valid() && Abs() == Swapped(old(Abs()), prior, slot)
    {
      var before := slots[prior];
      RemoveSlot(prior);
      NotPriorAfterRemove(old(Abs()), {prior}, slot.identity.sessionRef);
      SlotIsNotPrior(old(Abs()), prior);
      NotPriorAfterRemove(old(Abs()), {prior}, prior);
      Place(slot);
      SetAside(slot.identity.sessionRef, before);
    }

    /** `token` and `exp` are `None` when they do not parse. A token opens its session once, before it expires. */
    method Consume(ref: Ref, token: Option<Digest>, exp: Option<nat>, now: int) returns (identity: Option<Identity>)
      requires Valid()
      modifies this
      ensures Valid()
      ensures identity.Some? <==>
        && token.Some? && exp.Some? && token.value == sign(ref, exp.value)
        && ref in old(slots) && old(slots)[ref].token.Some? && old(slots)[ref].tokenExpMs == exp.value > now
      ensures identity.Some? ==>
        identity.value == old(slots)[ref].identity && Abs() == VoiceSessions.Consume(old(Abs()), limits, ref, now)
      ensures identity.Some? ==>
        && pendingSupersedes == old(pendingSupersedes) && old(slots)[ref].token.Some? && now < exp.value
        && slots == old(slots)[ref := Slot(identity.value, exp.value, now + limits.maxSessionDurationMs, None)]
      ensures identity.None? ==> Abs() == old(Abs())
    {
      if token.None? || exp.None? { return None; }
      if token.value != sign(ref, exp.value) { return None; }
      if ref !in slots || slots[ref].token.None? || slots[ref].tokenExpMs != exp.value || now >= exp.value {
        return None;
      }
      identity := Some(slots[ref].identity);
      Spend(ref, now);
    }

    method Spend(ref: Ref, now: int)
      requires Valid() && ref in slots
      modifies this`slots, this`slotKeys, this`slotsByUser
      ensures Valid() && Abs() == VoiceSessions.Consume(old(Abs()), limits, ref, now)
    {
      Replace(ref, slots[ref].(token := None, slotExpMs := now + limits.maxSessionDurationMs));
    }

    /** Overwrites a slot with one of the same identity. */
    method Replace(ref: Ref, slot: Slot)
      requires Valid() && ref in slots && slot.identity == slots[ref].identity
      modifies this`slots, this`slotKeys, this`slotsByUser
      ensures Valid() && Abs() == Sessions(old(slots)[ref := slot], pendingSupersedes)
    {
      UpdateKeepsCoherent(Abs(), ref, slot);
      AddSlot(slot);
    }

    method CommitSupersede(ref: Ref)
      requires Valid()
      modifies this
      ensures Valid() && Abs() == VoiceSessions.CommitSupersede(old(Abs()), ref)
      ensures ref in old(pendingSupersedes) && ref in old(slots) && old(slots)[ref].token.Some? ==>
        slots == old(slots)[ref := old(slots)[ref].(slotExpMs := old(slots)[ref].tokenExpMs)]
    {
      if ref in pendingSupersedes {
        var prior := pendingSupersedes[ref].priorRef;
        InverseRemove(pendingSupersedes, replacementByPrior, ref);
        CommitKeepsCoherent(Abs(), ref);
        pendingSupersedes := pendingSupersedes - {ref};
        replacementByPrior := replacementByPrior - {prior};
        if ref in slots && slots[ref].token.Some? {
          AddSlot(slots[ref].(slotExpMs := slots[ref].tokenExpMs));
        }
        return;
      }
      CommitKeepsCoherent(Abs(), ref);
      ClearPending(ref);
    }

    method RollbackSupersede(ref: Ref, now: int)
      requires Valid()
      modifies this
      ensures Valid() && Abs() == VoiceSessions.RollbackSupersede(old(Abs()), ref, now)
    {
      var pending := if ref in pendingSupersedes then Some(pendingSupersedes[ref]) else None;
      RemoveSlot(ref);
      if pending.None? || now >= pending.value.prior.slotExpMs || pending.value.priorRef in slots { return; }
      NotPriorAfterRemove(old(Abs()), {ref}, pending.value.priorRef);
      Place(pending.value.prior);
    }

    method Release(ref: Ref)
      requires Valid()
      modifies this
      ensures Valid() && Abs() == Remove(old(Abs()), {ref})
    {
      RemoveSlot(ref);
    }
  }

  /** After its replacement is removed, or if it never was one, a name is no longer a prior. */
  lemma NotPriorAfterRemove(s: Sessions, refs: set<Ref>, name: Ref)
    requires Coherent(s)
    requires !IsPrior(s.pending, name) || exists r :: r in refs && r in s.pending && s.pending[r].priorRef == name
    ensures !IsPrior(Remove(s, refs).pending, name)
  {
    forall r | r in Remove(s, refs).pending ensures s.pending[r].priorRef != name {}
  }

  lemma SlotIsNotPrior(s: Sessions, ref: Ref)
    requires Coherent(s) && ref in s.slots
    ensures !IsPrior(s.pending, ref)
  {
  }

  lemma RemoveNothing(s: Sessions)
    ensures Remove(s, {}) == s
  {
    assert Remove(s, {}).slots == s.slots && Remove(s, {}).pending == s.pending;
  }

  lemma RemoveUnion(s: Sessions, a: set<Ref>, b: set<Ref>)
    ensures Remove(Remove(s, a), b) == Remove(s, a + b)
  {
    assert Remove(Remove(s, a), b).slots == Remove(s, a + b).slots;
    assert Remove(Remove(s, a), b).pending == Remove(s, a + b).pending;
  }

  lemma CountIsIndex(slots: map<Ref, Slot>, byUser: map<User, set<Ref>>, user: User)
    requires IndexOk(slots, byUser)
    ensures |UserRefs(slots, user)| == if user in byUser then |byUser[user]| else 0
  {
    if user in byUser {
      assert UserRefs(slots, user) == byUser[user];
    } else {
      assert UserRefs(slots, user) == {};
    }
  }
}
