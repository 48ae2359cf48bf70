/** How long a voice session keeps its slot: a session that was opened keeps it for the whole session duration, so that
    the caps bound the sessions that are going on; a reservation keeps it at least as long as its token can be used. */
module VoiceLifetimes {
  import opened Wrappers
  import opened Sets
  import opened VoiceSessions

  // ----- Sessions that are going on -----

  ghost predicate LiveSlot(w: World, ref: Ref) {
    && ref in w.live && ref in w.s.slots && w.s.slots[ref].identity.userId == w.live[ref].userId
    && w.s.slots[ref].slotExpMs == w.live[ref].until && w.s.slots[ref].token.None?
  }

  /** As long as no call has read a time at which its own is up, an opened session has its slot. */
  ghost predicate LiveOk(w: World) {
    && w.live.Keys <= w.minted
    && forall ref :: ref in w.live && w.latest < w.live[ref].until ==> LiveSlot(w, ref)
  }

  lemma RemoveKeepsLive(w: World, refs: set<Ref>, live: map<Ref, Live>, latest: int)
    requires LiveOk(w) && w.latest <= latest && live.Keys <= w.live.Keys
    requires forall ref :: ref in live ==> live[ref] == w.live[ref] && (ref in refs ==> live[ref].until <= latest)
    ensures LiveOk(w.(s := Remove(w.s, refs), live := live, latest := latest))
  {
    var t := w.(s := Remove(w.s, refs), live := live, latest := latest);
    forall ref | ref in t.live && t.latest < t.live[ref].until ensures LiveSlot(t, ref) { assert LiveSlot(w, ref); }
  }

  /** Pruning at a time removes no session whose time is not up by then. */
  lemma PruneKeepsLive(w: World, refs: set<Ref>, time: int)
    requires LiveOk(w) && refs <= ExpiredAt(w.s.slots, time)
    ensures LiveOk(w.(s := Remove(w.s, refs), latest := Max(w.latest, time)))
  {
    var latest := Max(w.latest, time);
    forall ref | ref in w.live && ref in refs ensures w.live[ref].until <= latest {
      if w.latest < w.live[ref].until { assert LiveSlot(w, ref); }
    }
    RemoveKeepsLive(w, refs, w.live, latest);
  }

  /** Another slot may come or change. */
  lemma StoreKeepsLive(w: World, ref: Ref, slot: Slot, pending: map<Ref, Pending>, minted: set<Ref>)
    requires LiveOk(w) && (ref in w.live ==> w.live[ref].until <= w.latest) && w.minted <= minted
    ensures LiveOk(w.(s := Sessions(w.s.slots[ref := slot], pending), minted := minted))
  {
    var t := w.(s := Sessions(w.s.slots[ref := slot], pending), minted := minted);
    forall r | r in t.live && t.latest < t.live[r].until ensures LiveSlot(t, r) { assert LiveSlot(w, r); }
  }

  lemma ReserveKeepsLive(
    limits: Limits, w: World, user: User, target: Option<Ref>, identity: Identity, time: int, token: Digest)
    requires Known(w) && LiveOk(w) && identity.sessionRef !in w.minted
    requires target.Some? ==> target.value in w.s.slots
    ensures
      var live := if target.Some? then w.live - {target.value} else w.live;
      LiveOk(w.(s := Reserve(w.s, limits, target, identity, time, token),
                minted := w.minted + {identity.sessionRef}, live := live))
  {
    var ref, slot := identity.sessionRef, NewSlot(w.s, limits, target, identity, time, token);
    var minted := w.minted + {ref};
    if target.None? {
      StoreKeepsLive(w, ref, slot, w.s.pending, minted);
    } else {
      var live := w.live - {target.value};
      RemoveKeepsLive(w, {target.value}, live, w.latest);
      var u := w.(s := Remove(w.s, {target.value}), live := live);
      StoreKeepsLive(u, ref, slot, u.s.pending[ref := Pending(target.value, w.s.slots[target.value])], minted);
    }
  }

  lemma ConsumeKeepsLive(limits: Limits, w: World, ref: Ref, now: int)
    requires Known(w) && LiveOk(w) && ref in w.s.slots
    ensures
      var live := Live(w.s.slots[ref].identity.userId, now + limits.maxSessionDurationMs);
      LiveOk(w.(s := Consume(w.s, limits, ref, now), consumed := w.consumed + [ref], live := w.live[ref := live],
                latest := Max(w.latest, now)))
  {
    var live := Live(w.s.slots[ref].identity.userId, now + limits.maxSessionDurationMs);
    var t := w.(s := Consume(w.s, limits, ref, now), consumed := w.consumed + [ref], live := w.live[ref := live],
                latest := Max(w.latest, now));
    forall r | r in t.live && t.latest < t.live[r].until ensures LiveSlot(t, r) {
      if r != ref { assert LiveSlot(w, r); }
    }
  }

  lemma CommitKeepsLive(w: World, ref: Ref)
    requires LiveOk(w)
    ensures LiveOk(w.(s := CommitSupersede(w.s, ref)))
  {
    var t := w.(s := CommitSupersede(w.s, ref));
    forall r | r in t.live && t.latest < t.live[r].until ensures LiveSlot(t, r) { assert LiveSlot(w, r); }
  }

  lemma RollbackKeepsLive(w: World, ref: Ref, now: int)
    requires Coherent(w.s) && LiveOk(w)
    ensures LiveOk(w.(s := RollbackSupersede(w.s, ref, now), live := w.live - {ref}, latest := Max(w.latest, now)))
  {
    var latest := Max(w.latest, now);
    RemoveKeepsLive(w, {ref}, w.live - {ref}, latest);
    var u := w.(s := Remove(w.s, {ref}), live := w.live - {ref}, latest := latest);
    if RollbackSupersede(w.s, ref, now) != u.s {
      var p := w.s.pending[ref];
      forall r | r in u.live && u.latest < u.live[r].until ensures r != p.priorRef { assert LiveSlot(w, r); }
      StoreKeepsLive(u, p.priorRef, p.prior, u.s.pending, u.minted);
    }
  }

  lemma StepKeepsLive(limits: Limits, w: World, call: Call)
    requires Inv(limits, w) && LiveOk(w) && Enabled(w, call)
    ensures LiveOk(Step(limits, w, call))
  {
    match call
    case ReserveCall(user, target, identity, time, token, pruned) =>
      PruneKeepsLive(w, pruned, time);
      var u := w.(s := Remove(w.s, pruned), latest := Max(w.latest, time));
      RemoveKeeps(limits, w, pruned);
      if Refuse(u.s, limits, user, target).None? { ReserveKeepsLive(limits, u, user, target, identity, time, token); }
    case ConsumeCall(ref, expMs, now) =>
      if CanConsume(w.s, ref, expMs, now) {
        ConsumeKeepsLive(limits, w, ref, now);
      } else {
        RemoveNone(w, Max(w.latest, now));
      }
    case CommitCall(ref) => CommitKeepsLive(w, ref);
    case RollbackCall(ref, now) => RollbackKeepsLive(w, ref, now);
    case ReleaseCall(ref) => RemoveKeepsLive(w, {ref}, w.live - {ref}, w.latest);
    case PruneCall(time, pruned) => PruneKeepsLive(w, pruned, time);
  }

  lemma RemoveNone(w: World, latest: int)
    requires LiveOk(w) && w.latest <= latest
    ensures LiveOk(w.(latest := latest))
  {
    var t := w.(latest := latest);
    forall ref | ref in t.live && t.latest < t.live[ref].until ensures LiveSlot(t, ref) { assert LiveSlot(w, ref); }
  }

  lemma {:induction false} RunKeepsLive(limits: Limits, w: World, calls: seq<Call>)
    requires Inv(limits, w) && LiveOk(w) && Legal(limits, w, calls)
    ensures Inv(limits, Run(limits, w, calls)) && LiveOk(Run(limits, w, calls))
    decreases |calls|
  {
    if calls != [] {
      StepKeeps(limits, w, calls[0]);
      StepKeepsLive(limits, w, calls[0]);
      RunKeepsLive(limits, Step(limits, w, calls[0]), calls[1..]);
    }
  }

  /** The user's sessions that were opened, have not been ended, and whose time is not up. */
  function GoingOn(live: map<Ref, Live>, user: User, at: int): set<Ref> {
    set ref | ref in live && live[ref].userId == user && at < live[ref].until
  }

  /** Over every run: at no time since the latest call does a user have more sessions going on than the cap. A session
      goes on for the session duration from the time that its token was consumed, whatever is pruned meanwhile. */
  lemma GoingOnIsWithinCap(limits: Limits, calls: seq<Call>, user: User, at: int)
    requires limits.Valid() && Legal(limits, EMPTY, calls) && Run(limits, EMPTY, calls).latest <= at
    ensures |GoingOn(Run(limits, EMPTY, calls).live, user, at)| <= limits.cap
  {
    EmptyHoldsInv(limits);
    RunKeepsLive(limits, EMPTY, calls);
    var w := Run(limits, EMPTY, calls);
    forall ref | ref in GoingOn(w.live, user, at) ensures ref in UserRefs(w.s.slots, user) { assert LiveSlot(w, ref); }
    SubsetSize(GoingOn(w.live, user, at), UserRefs(w.s.slots, user));
  }

  // ----- One slot -----

  /** The call does not end the session, nor open it, nor commit its replacement. */
  predicate Spares(call: Call, ref: Ref) {
    match call
    case ReserveCall(_, target, identity, _, _, _) => target != Some(ref) && identity.sessionRef != ref
    case ConsumeCall(r, _, _) => r != ref
    case CommitCall(r) => r != ref
    case RollbackCall(r, _) => r != ref
    case ReleaseCall(r) => r != ref
    case PruneCall(_, _) => true
  }

  /** The call reads no time at or behind this one, if it prunes at all. */
  predicate Before(call: Call, time: int) {
    (call.ReserveCall? || call.PruneCall? ==> call.time < time)
  }

  lemma SlotSurvives(limits: Limits, w: World, call: Call, ref: Ref)
    requires Inv(limits, w) && Enabled(w, call) && ref in w.s.slots && Spares(call, ref)
    requires Before(call, w.s.slots[ref].slotExpMs)
    ensures ref in Step(limits, w, call).s.slots && Step(limits, w, call).s.slots[ref] == w.s.slots[ref]
  {
    match call
    case ReserveCall(_, _, _, time, _, pruned) => assert ref !in pruned;
    case RollbackCall(r, now) => assert r in w.s.pending ==> w.s.pending[r].priorRef != ref;
    case _ =>
  }

  /** Nothing else takes a slot away before its expiry, in any continuation. */
  lemma {:induction false} SlotStays(limits: Limits, w: World, calls: seq<Call>, ref: Ref)
    requires Inv(limits, w) && Legal(limits, w, calls) && ref in w.s.slots
    requires forall call :: call in calls ==> Spares(call, ref) && Before(call, w.s.slots[ref].slotExpMs)
    ensures ref in Run(limits, w, calls).s.slots && Run(limits, w, calls).s.slots[ref] == w.s.slots[ref]
    decreases |calls|
  {
    if calls != [] {
      StepKeeps(limits, w, calls[0]);
      assert calls[0] in calls;
      SlotSurvives(limits, w, calls[0], ref);
      SlotStays(limits, Step(limits, w, calls[0]), calls[1..], ref);
    }
  }

  /** And the user's next reservation at or after the expiry finds it gone. */
  lemma SlotIsGoneAfter(
    limits: Limits, w: World, user: User, target: Option<Ref>, identity: Identity, time: int, token: Digest,
    pruned: set<Ref>, ref: Ref)
    requires Inv(limits, w) && Enabled(w, ReserveCall(user, target, identity, time, token, pruned))
    requires ref in w.s.slots && w.s.slots[ref].identity.userId == user && w.s.slots[ref].slotExpMs <= time
    ensures ref !in Step(limits, w, ReserveCall(user, target, identity, time, token, pruned)).s.slots
  {
    assert ref in pruned;
  }

  /** Consumed at `now`, a session keeps its slot until `now` and the session duration, and no longer. */
  lemma ConsumedSlotLasts(
    limits: Limits, w: World, ref: Ref, expMs: int, now: int, calls: seq<Call>, end: int)
    requires Inv(limits, w) && CanConsume(w.s, ref, expMs, now) && end == now + limits.maxSessionDurationMs
    requires Legal(limits, Step(limits, w, ConsumeCall(ref, expMs, now)), calls)
    requires forall call :: call in calls ==> Spares(call, ref) && Before(call, end)
    ensures var t := Run(limits, Step(limits, w, ConsumeCall(ref, expMs, now)), calls);
      && ref in t.s.slots && t.s.slots[ref].identity == w.s.slots[ref].identity && t.s.slots[ref].token.None?
      && t.s.slots[ref].slotExpMs == end
  {
    StepKeeps(limits, w, ConsumeCall(ref, expMs, now));
    SlotStays(limits, Step(limits, w, ConsumeCall(ref, expMs, now)), calls, ref);
  }

  /** Until when a reservation at `time` has its slot: as long as its token, or as its prior if that is longer. */
  function ReservedUntil(s: Sessions, limits: Limits, target: Option<Ref>, time: int): int {
    if target.Some? && target.value in s.slots && time + limits.ttlMs < s.slots[target.value].slotExpMs
      then s.slots[target.value].slotExpMs
    else time + limits.ttlMs
  }

  lemma ReservedSlot(
    limits: Limits, s: Sessions, target: Option<Ref>, identity: Identity, time: int, token: Digest)
    requires target.Some? ==> target.value in s.slots
    ensures var slots := Reserve(s, limits, target, identity, time, token).slots;
      && identity.sessionRef in slots
      && slots[identity.sessionRef] ==
           Slot(identity, time + limits.ttlMs, ReservedUntil(s, limits, target, time), Some(token))
  {
  }

  /** A reservation keeps its slot until then. */
  lemma ReservedSlotLasts(limits: Limits, w: World, call: Call, calls: seq<Call>)
    requires Inv(limits, w) && call.ReserveCall? && Enabled(w, call)
    requires Refuse(Remove(w.s, call.pruned), limits, call.user, call.target).None?
    requires Legal(limits, Step(limits, w, call), calls)
    requires forall c :: c in calls ==>
      && Spares(c, call.identity.sessionRef)
      && Before(c, ReservedUntil(Remove(w.s, call.pruned), limits, call.target, call.time))
    ensures var slots := Run(limits, Step(limits, w, call), calls).s.slots;
      && call.identity.sessionRef in slots
      && slots[call.identity.sessionRef] ==
           Slot(call.identity, call.time + limits.ttlMs,
                ReservedUntil(Remove(w.s, call.pruned), limits, call.target, call.time), Some(call.token))
  {
    ReservedSlot(limits, Remove(w.s, call.pruned), call.target, call.identity, call.time, call.token);
    StepKeeps(limits, w, call);
    SlotStays(limits, Step(limits, w, call), calls, call.identity.sessionRef);
  }

  /** So for its whole lifetime its token can be consumed, unless something has ended the reservation. */
  lemma ReservedTokenLasts(limits: Limits, w: World, call: Call, calls: seq<Call>, now: int)
    requires Inv(limits, w) && call.ReserveCall? && Enabled(w, call)
    requires Refuse(Remove(w.s, call.pruned), limits, call.user, call.target).None?
    requires Legal(limits, Step(limits, w, call), calls) && now < call.time + limits.ttlMs
    requires forall c :: c in calls ==> Spares(c, call.identity.sessionRef) && Before(c, call.time + limits.ttlMs)
    ensures
      CanConsume(Run(limits, Step(limits, w, call), calls).s, call.identity.sessionRef, call.time + limits.ttlMs, now)
  {
    ReservedSlotLasts(limits, w, call, calls);
  }

  /** A committed replacement that is not consumed yet keeps its slot until its own token expires. */
  lemma CommittedSlotLasts(limits: Limits, w: World, ref: Ref, calls: seq<Call>)
    requires Inv(limits, w) && ref in w.s.pending && w.s.slots[ref].token.Some?
    requires Legal(limits, Step(limits, w, CommitCall(ref)), calls)
    requires forall call :: call in calls ==> Spares(call, ref) && Before(call, w.s.slots[ref].tokenExpMs)
    ensures var t := Run(limits, Step(limits, w, CommitCall(ref)), calls);
      ref in t.s.slots && t.s.slots[ref] == w.s.slots[ref].(slotExpMs := w.s.slots[ref].tokenExpMs)
  {
    StepKeeps(limits, w, CommitCall(ref));
    SlotStays(limits, Step(limits, w, CommitCall(ref)), calls, ref);
  }
}
