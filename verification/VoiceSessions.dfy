/** Voice session slots and speculative replacement, as values: what each call does to the slots and to the
    replacements that are still pending. The store class is proved against these functions. */
module VoiceSessions {
  import opened Wrappers
  import opened LiveKeys
  import opened Sets

  type Ref = string
  type User = string
  type Digest = seq<int>

  datatype Mode = PushToTalk | Continuous

  datatype Identity = Identity(sessionRef: Ref, userId: User, safetyIdentifier: string, mode: Mode)

  /** `token` is gone once it was consumed. */
  datatype Slot = Slot(identity: Identity, tokenExpMs: int, slotExpMs: int, token: Option<Digest>)

  datatype Pending = Pending(priorRef: Ref, prior: Slot)

  datatype Sessions = Sessions(slots: map<Ref, Slot>, pending: map<Ref, Pending>)

  datatype Limits = Limits(cap: int, maxTracked: int, ttlMs: int, maxSessionDurationMs: int) {
    predicate Valid() { 1 <= cap <= 20 && 1 <= maxTracked <= 100_000 }
  }

  datatype Refusal = CapExceeded | InvalidSupersedes | SessionStoreCapacity

  function UserRefs(slots: map<Ref, Slot>, user: User): set<Ref> {
    set ref | ref in slots && slots[ref].identity.userId == user
  }

  /** Removing slots also drops every pending replacement that names them on either side. */
  function Remove(s: Sessions, refs: set<Ref>): Sessions {
    Sessions(s.slots - refs, map r | r in s.pending && r !in refs && s.pending[r].priorRef !in refs :: s.pending[r])
  }

  /** The session to replace, if the request names one: an empty name counts as none. */
  function Target(supersedes: Option<Ref>): Option<Ref> {
    if supersedes == Some("") then None else supersedes
  }

  function Refuse(s: Sessions, limits: Limits, user: User, target: Option<Ref>): Option<Refusal> {
    var spare := if target.Some? then 1 else 0;
    if target.Some?
       && !(&& target.value in s.slots && s.slots[target.value].identity.userId == user
            && target.value !in s.pending)
      then Some(InvalidSupersedes)
    else if |UserRefs(s.slots, user)| - spare >= limits.cap then Some(CapExceeded)
    else if |s.slots| - spare >= limits.maxTracked then Some(SessionStoreCapacity)
    else None
  }

  /** A session that the user may replace: one of the user's, and not itself a replacement still pending. */
  predicate Replaceable(s: Sessions, user: User, target: Ref) {
    target in s.slots && s.slots[target].identity.userId == user && target !in s.pending
  }

  /** A replacement borrows the place of the session that it replaces. */
  predicate UserHasRoom(s: Sessions, limits: Limits, user: User, target: Option<Ref>) {
    |UserRefs(s.slots, user)| < limits.cap || (target.Some? && |UserRefs(s.slots, user)| == limits.cap)
  }

  predicate StoreHasRoom(s: Sessions, limits: Limits, target: Option<Ref>) {
    |s.slots| < limits.maxTracked || (target.Some? && |s.slots| == limits.maxTracked)
  }

  /** Which refusal there is, and that there is none when everything fits. */
  lemma RefusalIs(s: Sessions, limits: Limits, user: User, target: Option<Ref>)
    ensures var fits := target.Some? ==> Replaceable(s, user, target.value);
      && (Refuse(s, limits, user, target) == Some(InvalidSupersedes) <==> !fits)
      && (Refuse(s, limits, user, target) == Some(CapExceeded) <==> fits && !UserHasRoom(s, limits, user, target))
      && (Refuse(s, limits, user, target) == Some(SessionStoreCapacity) <==>
            fits && UserHasRoom(s, limits, user, target) && !StoreHasRoom(s, limits, target))
  {
  }

  function NewSlot(
    s: Sessions, limits: Limits, target: Option<Ref>, identity: Identity, time: int, token: Digest): Slot
  {
    var expMs := time + limits.ttlMs;
    var prior := if target.Some? && target.value in s.slots then s.slots[target.value].slotExpMs else expMs;
    Slot(identity, expMs, if expMs < prior then prior else expMs, Some(token))
  }

  /** A granted reservation, after pruning: the slot of `target` is swapped for the new one and kept aside. */
  function Reserve(
    s: Sessions, limits: Limits, target: Option<Ref>, identity: Identity, time: int, token: Digest): Sessions
    requires target.Some? ==> target.value in s.slots
  {
    var slot := NewSlot(s, limits, target, identity, time, token);
    if target.None? then s.(slots := s.slots[identity.sessionRef := slot])
    else
      var rest := Remove(s, {target.value});
      Sessions(rest.slots[identity.sessionRef := slot],
               rest.pending[identity.sessionRef := Pending(target.value, s.slots[target.value])])
  }

  predicate CanConsume(s: Sessions, ref: Ref, expMs: int, now: int) {
    ref in s.slots && s.slots[ref].token.Some? && s.slots[ref].tokenExpMs == expMs && now < expMs
  }

  function Consume(s: Sessions, limits: Limits, ref: Ref, now: int): Sessions
    requires ref in s.slots
  {
    s.(slots := s.slots[ref := s.slots[ref].(token := None, slotExpMs := now + limits.maxSessionDurationMs)])
  }

  function CommitSupersede(s: Sessions, ref: Ref): Sessions {
    if ref in s.pending then
      Sessions(if ref in s.slots && s.slots[ref].token.Some?
                 then s.slots[ref := s.slots[ref].(slotExpMs := s.slots[ref].tokenExpMs)] else s.slots,
               s.pending - {ref})
    else s.(pending := Remove(s, {ref}).pending)
  }

  function RollbackSupersede(s: Sessions, ref: Ref, now: int): Sessions {
    var rest := Remove(s, {ref});
    if ref !in s.pending || now >= s.pending[ref].prior.slotExpMs || s.pending[ref].priorRef in rest.slots then rest
    else rest.(slots := rest.slots[s.pending[ref].priorRef := s.pending[ref].prior])
  }

  // ----- Every run of the store -----

  /** The sessions that a pruning pass at `time` may remove. */
  function ExpiredAt(slots: map<Ref, Slot>, time: int): set<Ref> {
    set ref | ref in slots && time >= slots[ref].slotExpMs
  }

  /** Every expired slot of the user is among those removed. */
  ghost predicate AllDropped(slots: map<Ref, Slot>, user: User, time: int, removed: set<Ref>) {
    forall r :: r in slots && slots[r].identity.userId == user && time >= slots[r].slotExpMs ==> r in removed
  }

  /** `pruned` is what the pruning pass of a call happened to remove. */
  datatype Call =
    | ReserveCall(user: User, target: Option<Ref>, identity: Identity, time: int, token: Digest, pruned: set<Ref>)
    | ConsumeCall(ref: Ref, expMs: int, now: int)
    | CommitCall(ref: Ref)
    | RollbackCall(ref: Ref, now: int)
    | ReleaseCall(ref: Ref)
    | PruneCall(time: int, pruned: set<Ref>)

  /** A session that was opened with its token and has not been ended since; its time is up at `until`. */
  datatype Live = Live(userId: User, until: int)

  /** The history: `minted` are the session names ever issued, `consumed` the tokens used so far, in order, `live` the
      sessions opened and not ended, and `latest` the latest time that any call has read from the clock. */
  datatype World = World(s: Sessions, minted: set<Ref>, consumed: seq<Ref>, live: map<Ref, Live>, latest: int)

  /** New session names are random; pruning only removes expired slots, and at a reservation all those of the user. */
  ghost predicate Enabled(w: World, call: Call) {
    match call
    case ReserveCall(user, _, identity, time, _, pruned) =>
      && identity.sessionRef !in w.minted && identity.userId == user
      && pruned <= ExpiredAt(w.s.slots, time) && AllDropped(w.s.slots, user, time, pruned)
    case PruneCall(time, pruned) => pruned <= ExpiredAt(w.s.slots, time)
    case _ => true
  }

  function Max(a: int, b: int): int { if a < b then b else a }

  function Step(limits: Limits, w: World, call: Call): World {
    match call
    case ReserveCall(user, target, identity, time, token, pruned) =>
      var s, latest := Remove(w.s, pruned), Max(w.latest, time);
      if Refuse(s, limits, user, target).Some? then w.(s := s, latest := latest)
      else w.(s := Reserve(s, limits, target, identity, time, token), minted := w.minted + {identity.sessionRef},
              live := if target.Some? then w.live - {target.value} else w.live, latest := latest)
    case ConsumeCall(ref, expMs, now) =>
      if !CanConsume(w.s, ref, expMs, now) then w.(latest := Max(w.latest, now))
      else
        var live := Live(w.s.slots[ref].identity.userId, now + limits.maxSessionDurationMs);
        w.(s := Consume(w.s, limits, ref, now), consumed := w.consumed + [ref], live := w.live[ref := live],
           latest := Max(w.latest, now))
    case CommitCall(ref) => w.(s := CommitSupersede(w.s, ref))
    case RollbackCall(ref, now) =>
      w.(s := RollbackSupersede(w.s, ref, now), live := w.live - {ref}, latest := Max(w.latest, now))
    case ReleaseCall(ref) => w.(s := Remove(w.s, {ref}), live := w.live - {ref})
    case PruneCall(time, pruned) => w.(s := Remove(w.s, pruned), latest := Max(w.latest, time))
  }

  ghost predicate Legal(limits: Limits, w: World, calls: seq<Call>)
    decreases |calls|
  {
    calls == [] || (Enabled(w, calls[0]) && Legal(limits, Step(limits, w, calls[0]), calls[1..]))
  }

  function Run(limits: Limits, w: World, calls: seq<Call>): World
    decreases |calls|
  {
    if calls == [] then w else Run(limits, Step(limits, w, calls[0]), calls[1..])
  }

  const EMPTY := World(Sessions(map[], map[]), {}, [], map[], 0)

  // ----- What every call keeps -----

  /** Replacements: in the slots, of their prior's user, one per prior, and the prior itself set aside. */
  ghost predicate Coherent(s: Sessions) {
    && (forall r :: r in s.slots ==> s.slots[r].identity.sessionRef == r)
    && (forall r :: r in s.pending ==>
          && r in s.slots
          && s.pending[r].priorRef !in s.slots
          && s.pending[r].prior.identity.sessionRef == s.pending[r].priorRef
          && s.pending[r].prior.identity.userId == s.slots[r].identity.userId)
    && (forall a, b :: a in s.pending && b in s.pending && s.pending[a].priorRef == s.pending[b].priorRef ==> a == b)
  }

  ghost predicate WithinCaps(slots: map<Ref, Slot>, limits: Limits) {
    |slots| <= limits.maxTracked && forall user :: |UserRefs(slots, user)| <= limits.cap
  }

  ghost predicate IsPrior(pending: map<Ref, Pending>, ref: Ref) {
    exists r :: r in pending && pending[r].priorRef == ref
  }

  /** A name that was issued and is neither a slot nor set aside as a prior. */
  ghost predicate Dead(w: World, ref: Ref) {
    ref in w.minted && ref !in w.s.slots && !IsPrior(w.s.pending, ref)
  }

  /** Wherever the slot of a consumed token still is, it holds no token. */
  ghost predicate Spent(w: World) {
    && (forall r :: r in w.s.slots && r in w.consumed ==> w.s.slots[r].token.None?)
    && (forall r :: r in w.s.pending && w.s.pending[r].priorRef in w.consumed ==> w.s.pending[r].prior.token.None?)
    && (forall i, j :: 0 <= i < j < |w.consumed| ==> w.consumed[i] != w.consumed[j])
  }

  ghost predicate Known(w: World) {
    && w.s.slots.Keys <= w.minted
    && (forall r :: r in w.s.pending ==> w.s.pending[r].priorRef in w.minted)
    && (forall r :: r in w.consumed ==> r in w.minted)
  }

  ghost predicate Inv(limits: Limits, w: World) {
    Coherent(w.s) && WithinCaps(w.s.slots, limits) && Spent(w) && Known(w)
  }

  lemma FewerSlotsStayWithinCaps(slots: map<Ref, Slot>, fewer: map<Ref, Slot>, limits: Limits)
    requires WithinCaps(slots, limits) && fewer.Keys <= slots.Keys
    requires forall r :: r in fewer ==> fewer[r].identity.userId == slots[r].identity.userId
    ensures WithinCaps(fewer, limits)
  {
    SubsetSize(fewer.Keys, slots.Keys);
    forall user ensures |UserRefs(fewer, user)| <= limits.cap {
      SubsetSize(UserRefs(fewer, user), UserRefs(slots, user));
    }
  }

  /** Exchanging one slot for another of the same user changes no count. */
  lemma SwapSizes(slots: map<Ref, Slot>, out: Ref, in_: Ref, slot: Slot, user: User)
    requires out in slots && in_ !in slots && slot.identity.userId == slots[out].identity.userId
    ensures var swapped := (slots - {out})[in_ := slot];
      |swapped| == |slots| && |UserRefs(swapped, user)| == |UserRefs(slots, user)|
  {
    var swapped := (slots - {out})[in_ := slot];
    assert swapped.Keys == slots.Keys - {out} + {in_};
    SwapRefs(slots, out, in_, slot, user);
  }

  lemma SwapRefs(slots: map<Ref, Slot>, out: Ref, in_: Ref, slot: Slot, user: User)
    requires out in slots && in_ !in slots && slot.identity.userId == slots[out].identity.userId
    ensures |UserRefs((slots - {out})[in_ := slot], user)| == |UserRefs(slots, user)|
  {
    var swapped := (slots - {out})[in_ := slot];
    if slot.identity.userId == user {
      assert UserRefs(swapped, user) == UserRefs(slots, user) - {out} + {in_};
    } else {
      assert UserRefs(swapped, user) == UserRefs(slots, user);
    }
  }

  lemma AddRefs(slots: map<Ref, Slot>, ref: Ref, slot: Slot, user: User)
    requires ref !in slots
    ensures UserRefs(slots[ref := slot], user) ==
      if slot.identity.userId == user then UserRefs(slots, user) + {ref} else UserRefs(slots, user)
  {
  }

  lemma AddSizes(slots: map<Ref, Slot>, ref: Ref, slot: Slot, user: User)
    requires ref !in slots
    ensures |slots[ref := slot]| == |slots| + 1
    ensures |UserRefs(slots[ref := slot], user)| ==
      |UserRefs(slots, user)| + (if slot.identity.userId == user then 1 else 0)
  {
    AddRefs(slots, ref, slot, user);
    assert slots[ref := slot].Keys == slots.Keys + {ref};
    assert ref !in UserRefs(slots, user);
  }

  lemma RemoveKeepsCoherent(s: Sessions, refs: set<Ref>)
    requires Coherent(s)
    ensures Coherent(Remove(s, refs))
  {
  }

  lemma PlaceKeepsCoherent(s: Sessions, slot: Slot)
    requires Coherent(s) && !IsPrior(s.pending, slot.identity.sessionRef)
    requires slot.identity.sessionRef in s.slots ==>
      slot.identity.userId == s.slots[slot.identity.sessionRef].identity.userId
    ensures Coherent(s.(slots := s.slots[slot.identity.sessionRef := slot]))
  {
    forall r | r in s.pending ensures s.pending[r].priorRef != slot.identity.sessionRef {}
  }

  lemma SetAsideKeepsCoherent(s: Sessions, ref: Ref, prior: Slot)
    requires Coherent(s) && ref in s.slots && ref !in s.pending && prior.identity.sessionRef !in s.slots
    requires !IsPrior(s.pending, prior.identity.sessionRef) && prior.identity.userId == s.slots[ref].identity.userId
    ensures Coherent(s.(pending := s.pending[ref := Pending(prior.identity.sessionRef, prior)]))
  {
    forall r | r in s.pending ensures s.pending[r].priorRef != prior.identity.sessionRef {}
  }

  lemma UpdateKeepsCoherent(s: Sessions, ref: Ref, slot: Slot)
    requires Coherent(s) && ref in s.slots && slot.identity == s.slots[ref].identity
    ensures Coherent(s.(slots := s.slots[ref := slot]))
  {
  }

  lemma CommitKeepsCoherent(s: Sessions, ref: Ref)
    requires Coherent(s)
    ensures Coherent(CommitSupersede(s, ref))
  {
  }

  lemma RemoveKeeps(limits: Limits, w: World, refs: set<Ref>)
    requires Inv(limits, w)
    ensures Inv(limits, w.(s := Remove(w.s, refs)))
  {
    FewerSlotsStayWithinCaps(w.s.slots, w.s.slots - refs, limits);
  }

  lemma ReserveKeepsCaps(
    limits: Limits, s: Sessions, user: User, target: Option<Ref>, identity: Identity, time: int, token: Digest)
    requires WithinCaps(s.slots, limits) && identity.sessionRef !in s.slots && identity.userId == user
    requires Refuse(s, limits, user, target).None?
    ensures WithinCaps(Reserve(s, limits, target, identity, time, token).slots, limits)
  {
    var t := Reserve(s, limits, target, identity, time, token);
    var slot := NewSlot(s, limits, target, identity, time, token);
    if target.Some? {
      SwapSizes(s.slots, target.value, identity.sessionRef, slot, user);
      forall u
        ensures |UserRefs(t.slots, u)| <= limits.cap
      {
        SwapSizes(s.slots, target.value, identity.sessionRef, slot, u);
      }
    } else {
      AddSizes(s.slots, identity.sessionRef, slot, user);
      forall u ensures |UserRefs(t.slots, u)| <= limits.cap { AddSizes(s.slots, identity.sessionRef, slot, u); }
    }
  }

  lemma PlaceSlotKeeps(limits: Limits, w: World, slot: Slot)
    requires Coherent(w.s) && Spent(w) && Known(w) && slot.identity.sessionRef !in w.minted
    ensures var ref := slot.identity.sessionRef;
      var t := w.(s := w.s.(slots := w.s.slots[ref := slot]), minted := w.minted + {ref});
      Coherent(t.s) && Spent(t) && Known(t)
  {
  }

  lemma SetAsideKeeps(w: World, ref: Ref, prior: Slot)
    requires Coherent(w.s) && Spent(w) && Known(w) && ref in w.s.slots && ref !in w.s.pending
    requires prior.identity.sessionRef !in w.s.slots && prior.identity.sessionRef in w.minted
    requires !IsPrior(w.s.pending, prior.identity.sessionRef) && prior.identity.userId == w.s.slots[ref].identity.userId
    requires prior.identity.sessionRef in w.consumed ==> prior.token.None?
    ensures var t := w.(s := w.s.(pending := w.s.pending[ref := Pending(prior.identity.sessionRef, prior)]));
      Coherent(t.s) && Spent(t) && Known(t)
  {
    var priorRef := prior.identity.sessionRef;
    forall r | r in w.s.pending ensures w.s.pending[r].priorRef != priorRef {}
  }

  lemma ReserveKeeps(
    limits: Limits, w: World, user: User, target: Option<Ref>, identity: Identity, time: int, token: Digest)
    requires Inv(limits, w) && identity.sessionRef !in w.minted && identity.userId == user
    requires Refuse(w.s, limits, user, target).None?
    ensures var after := Reserve(w.s, limits, target, identity, time, token);
      Inv(limits, w.(s := after, minted := w.minted + {identity.sessionRef}))
  {
    ReserveKeepsCaps(limits, w.s, user, target, identity, time, token);
    var ref, slot := identity.sessionRef, NewSlot(w.s, limits, target, identity, time, token);
    if target.None? {
      PlaceSlotKeeps(limits, w, slot);
    } else {
      RemoveKeeps(limits, w, {target.value});
      var u := w.(s := Remove(w.s, {target.value}));
      PlaceSlotKeeps(limits, u, slot);
      var v := u.(s := u.s.(slots := u.s.slots[ref := slot]), minted := w.minted + {ref});
      SetAsideKeeps(v, ref, w.s.slots[target.value]);
    }
  }

  /** The cap that a replacement borrowed from its prior is exactly what the prior needs to come back. */
  lemma RollbackKeeps(limits: Limits, w: World, ref: Ref, now: int)
    requires Inv(limits, w)
    ensures Inv(limits, w.(s := RollbackSupersede(w.s, ref, now)))
  {
    RemoveKeeps(limits, w, {ref});
    var s, t := w.s, RollbackSupersede(w.s, ref, now);
    if t != Remove(s, {ref}) {
      var p := s.pending[ref];
      assert t.slots == (s.slots - {ref})[p.priorRef := p.prior];
      SwapSizes(s.slots, ref, p.priorRef, p.prior, "");
      forall u ensures |UserRefs(t.slots, u)| <= limits.cap { SwapSizes(s.slots, ref, p.priorRef, p.prior, u); }
    }
  }

  lemma UpdateKeepsSpent(w: World, ref: Ref, slot: Slot)
    requires Spent(w) && Known(w) && ref in w.s.slots && (slot.token.None? || slot.token == w.s.slots[ref].token)
    ensures var t := w.(s := w.s.(slots := w.s.slots[ref := slot])); Spent(t) && Known(t)
  {
  }

  lemma UpdateKeeps(limits: Limits, w: World, ref: Ref, slot: Slot)
    requires Inv(limits, w) && ref in w.s.slots && slot.identity == w.s.slots[ref].identity
    requires slot.token.None? || slot.token == w.s.slots[ref].token
    ensures Inv(limits, w.(s := w.s.(slots := w.s.slots[ref := slot])))
  {
    UpdateKeepsCoherent(w.s, ref, slot);
    UpdateKeepsSpent(w, ref, slot);
    FewerSlotsStayWithinCaps(w.s.slots, w.s.slots[ref := slot], limits);
  }

  lemma ConsumeKeeps(limits: Limits, w: World, ref: Ref, now: int)
    requires Inv(limits, w) && ref in w.s.slots && w.s.slots[ref].token.Some?
    ensures Inv(limits, w.(s := Consume(w.s, limits, ref, now), consumed := w.consumed + [ref]))
  {
    var slot := w.s.slots[ref].(token := None, slotExpMs := now + limits.maxSessionDurationMs);
    UpdateKeeps(limits, w, ref, slot);
    assert ref !in w.consumed;
  }

  lemma CommitKeeps(limits: Limits, w: World, ref: Ref)
    requires Inv(limits, w)
    ensures Inv(limits, w.(s := CommitSupersede(w.s, ref)))
  {
    if ref in w.s.pending && w.s.slots[ref].token.Some? {
      UpdateKeeps(limits, w, ref, w.s.slots[ref].(slotExpMs := w.s.slots[ref].tokenExpMs));
    }
  }

  /** Every call keeps the whole invariant. */
  lemma StepKeeps(limits: Limits, w: World, call: Call)
    requires Inv(limits, w) && Enabled(w, call)
    ensures Inv(limits, Step(limits, w, call))
  {
    match call
    case ReserveCall(user, target, identity, time, token, pruned) =>
      RemoveKeeps(limits, w, pruned);
      var u := w.(s := Remove(w.s, pruned));
      if Refuse(u.s, limits, user, target).None? { ReserveKeeps(limits, u, user, target, identity, time, token); }
    case ConsumeCall(ref, expMs, now) =>
      if CanConsume(w.s, ref, expMs, now) { ConsumeKeeps(limits, w, ref, now); }
    case CommitCall(ref) => CommitKeeps(limits, w, ref);
    case RollbackCall(ref, now) => RollbackKeeps(limits, w, ref, now);
    case ReleaseCall(ref) => RemoveKeeps(limits, w, {ref});
    case PruneCall(_, pruned) => RemoveKeeps(limits, w, pruned);
  }

  lemma {:induction false} RunKeeps(limits: Limits, w: World, calls: seq<Call>)
    requires Inv(limits, w) && Legal(limits, w, calls)
    ensures Inv(limits, Run(limits, w, calls))
    decreases |calls|
  {
    if calls != [] {
      StepKeeps(limits, w, calls[0]);
      RunKeeps(limits, Step(limits, w, calls[0]), calls[1..]);
    }
  }

  lemma EmptyHoldsInv(limits: Limits)
    requires limits.Valid()
    ensures Inv(limits, EMPTY)
  {
    forall user ensures |UserRefs(EMPTY.s.slots, user)| <= limits.cap { assert UserRefs(EMPTY.s.slots, user) == {}; }
  }

  /** Over every run from the empty store: caps, coherence, and each token consumed at most once. */
  lemma EveryRun(limits: Limits, calls: seq<Call>)
    requires limits.Valid() && Legal(limits, EMPTY, calls)
    ensures var w := Run(limits, EMPTY, calls);
      && Coherent(w.s) && WithinCaps(w.s.slots, limits)
      && forall i, j :: 0 <= i < j < |w.consumed| ==> w.consumed[i] != w.consumed[j]
  {
    EmptyHoldsInv(limits);
    RunKeeps(limits, EMPTY, calls);
  }

  lemma RemoveKeepsDead(w: World, refs: set<Ref>, ref: Ref)
    requires Dead(w, ref)
    ensures Dead(w.(s := Remove(w.s, refs)), ref)
  {
    forall r | r in Remove(w.s, refs).pending ensures w.s.pending[r].priorRef != ref {}
  }

  lemma ReserveKeepsDead(
    limits: Limits, w: World, user: User, target: Option<Ref>, identity: Identity, time: int, token: Digest, ref: Ref)
    requires Dead(w, ref) && identity.sessionRef !in w.minted && Refuse(w.s, limits, user, target).None?
    ensures var after := Reserve(w.s, limits, target, identity, time, token);
      Dead(w.(s := after, minted := w.minted + {identity.sessionRef}), ref)
  {
    var t := Reserve(w.s, limits, target, identity, time, token);
    forall r | r in t.pending ensures t.pending[r].priorRef != ref {
      if r != identity.sessionRef && r in w.s.pending { assert w.s.pending[r].priorRef != ref; }
    }
  }

  lemma StepKeepsDead(limits: Limits, w: World, call: Call, ref: Ref)
    requires Inv(limits, w) && Enabled(w, call) && Dead(w, ref)
    ensures Dead(Step(limits, w, call), ref)
  {
    match call
    case ReserveCall(user, target, identity, time, token, pruned) =>
      RemoveKeepsDead(w, pruned, ref);
      var u := w.(s := Remove(w.s, pruned));
      if Refuse(u.s, limits, user, target).None? {
        ReserveKeepsDead(limits, u, user, target, identity, time, token, ref);
      }
    case ConsumeCall(_, _, _) =>
    case CommitCall(r) => RemoveKeepsDead(w, {r}, ref);
    case RollbackCall(r, _) => RemoveKeepsDead(w, {r}, ref);
    case ReleaseCall(r) => RemoveKeepsDead(w, {r}, ref);
    case PruneCall(_, pruned) => RemoveKeepsDead(w, pruned, ref);
  }

  /** A session that is neither a slot nor a prior never returns. */
  lemma {:induction false} DeadStaysDead(limits: Limits, w: World, calls: seq<Call>, ref: Ref)
    requires Inv(limits, w) && Legal(limits, w, calls) && Dead(w, ref)
    ensures Dead(Run(limits, w, calls), ref)
    decreases |calls|
  {
    if calls != [] {
      StepKeeps(limits, w, calls[0]);
      StepKeepsDead(limits, w, calls[0], ref);
      DeadStaysDead(limits, Step(limits, w, calls[0]), calls[1..], ref);
    }
  }

  /** A prior whose replacement was committed, or that was released while its replacement was pending, is dead. */
  lemma CommittedOrReleasedPriorIsDead(limits: Limits, w: World, ref: Ref)
    requires Inv(limits, w) && ref in w.s.pending
    ensures Dead(Step(limits, w, CommitCall(ref)), w.s.pending[ref].priorRef)
    ensures Dead(Step(limits, w, ReleaseCall(w.s.pending[ref].priorRef)), w.s.pending[ref].priorRef)
  {
  }

  /** Superseding and rolling back at once: the slots and the pending replacements are what pruning had left if
      the prior has not expired by then, and lack just the prior if it has. */
  lemma RollbackUndoesSupersede(
    limits: Limits, w: World, user: User, prior: Ref, identity: Identity, time: int, token: Digest, later: int)
    requires Inv(limits, w) && identity.sessionRef !in w.minted && identity.userId == user
    requires Refuse(w.s, limits, user, Some(prior)).None?
    ensures
      var s := RollbackSupersede(Reserve(w.s, limits, Some(prior), identity, time, token), identity.sessionRef, later);
      if later < w.s.slots[prior].slotExpMs then s == w.s else s == Sessions(w.s.slots - {prior}, w.s.pending)
  {
    var ref := identity.sessionRef;
    var mid := Reserve(w.s, limits, Some(prior), identity, time, token);
    assert mid.pending[ref] == Pending(prior, w.s.slots[prior]);
    RemovingBoth(w, prior, ref, mid.slots[ref]);
  }

  /** The new session takes its own slot and pending replacement away and no other. */
  lemma RemovingBoth(w: World, prior: Ref, ref: Ref, slot: Slot)
    requires Coherent(w.s) && Known(w) && ref !in w.minted && prior in w.s.slots && prior !in w.s.pending
    ensures var gone := Remove(w.s, {prior});
      var mid := Sessions(gone.slots[ref := slot], gone.pending[ref := Pending(prior, w.s.slots[prior])]);
      Remove(mid, {ref}) == Sessions(w.s.slots - {prior}, w.s.pending)
  {
    var gone := Remove(w.s, {prior});
    assert gone.pending == w.s.pending;
    var mid := Sessions(gone.slots[ref := slot], gone.pending[ref := Pending(prior, w.s.slots[prior])]);
    assert Remove(mid, {ref}).slots == w.s.slots - {prior};
    assert Remove(mid, {ref}).pending == w.s.pending;
  }
}
