/** The abstract webhook-replay register that the in-memory store and the Redis scripts both implement.

    A key holds at most one entry. An entry is created pending by one owner, may be completed once with
    a response, may then be consumed, and is gone once the clock reaches its expiry. Every operation
    treats an expired entry as absent, so dropping expired entries is invisible to it. */
module ReplayRegister {
  import opened Wrappers

  type Key = string
  type Hash = string
  type Owner = nat
  type CallId = nat

  /** The published TwiML document: a stream URL with its call id and expiry, signed over both. */
  datatype Response = Twiml(callId: CallId, expMs: int)

  datatype Phase = Pending | Completed(response: Response) | Consumed

  datatype Entry = Entry(hash: Hash, owner: Owner, phase: Phase, expiresAtMs: int)

  type Register = map<Key, Entry>

  /** What an acquire attempt learns. `Wait` is the state in which a store keeps waiting for the owner. */
  datatype Claim = Owned | Replayed(response: Response) | AlreadyConsumed | Conflict | Wait

  predicate Live(reg: Register, key: Key, now: int) {
    key in reg && now < reg[key].expiresAtMs
  }

  /** Two registers that no caller can tell apart at time `now`. */
  ghost predicate SameView(a: Register, b: Register, now: int) {
    forall key :: (Live(a, key, now) <==> Live(b, key, now)) && (Live(a, key, now) ==> a[key] == b[key])
  }

  function Observe(entry: Entry, hash: Hash): Claim {
    if entry.hash != hash then Conflict
    else match entry.phase
      case Consumed => AlreadyConsumed
      case Completed(response) => Replayed(response)
      case Pending => Wait
  }

  function Acquire(reg: Register, now: int, key: Key, hash: Hash, owner: Owner, ttl: int): (r: (Register, Claim)) {
    if Live(reg, key, now) then (reg, Observe(reg[key], hash))
    else (reg[key := Entry(hash, owner, Pending, now + ttl)], Owned)
  }

  function Complete(
    reg: Register, now: int, key: Key, owner: Owner, response: Response, ttl: int): (r: (Register, bool))
  {
    if !Live(reg, key, now) || reg[key].owner != owner then (reg, false)
    else match reg[key].phase
      case Completed(published) => (reg, published == response)
      case Consumed => (reg, false)
      case Pending => (reg[key := reg[key].(phase := Completed(response), expiresAtMs := now + ttl)], true)
  }

  function Abort(reg: Register, now: int, key: Key, owner: Owner): (r: (Register, bool)) {
    if Live(reg, key, now) && reg[key].owner == owner && reg[key].phase.Pending? then (reg - {key}, true)
    else (reg, false)
  }

  function Consume(reg: Register, now: int, key: Key): (r: (Register, bool)) {
    if !Live(reg, key, now) then (reg, false)
    else match reg[key].phase
      case Pending => (reg, false)
      case Consumed => (reg, true)
      case Completed(_) => (reg[key := reg[key].(phase := Consumed)], true)
  }

  /** What each answer to an acquire tells about the register: another hash is always a conflict, and a response is
      only repeated to the hash that it was published under. */
  lemma AcquireAnswers(reg: Register, now: int, key: Key, hash: Hash, owner: Owner, ttl: int)
    ensures var (after, claim) := Acquire(reg, now, key, hash, owner, ttl);
      && (claim == Owned <==> key !in reg || reg[key].expiresAtMs <= now)
      && (claim == Owned ==> after == reg[key := Entry(hash, owner, Pending, now + ttl)])
      && (claim != Owned ==>
            && after == reg
            && (claim == Conflict <==> reg[key].hash != hash)
            && (claim == Wait <==> reg[key].hash == hash && reg[key].phase == Pending)
            && (claim == AlreadyConsumed <==> reg[key].hash == hash && reg[key].phase == Consumed)
            && (forall r :: claim == Replayed(r) <==> reg[key].hash == hash && reg[key].phase == Completed(r)))
  {
  }

  /** A complete answers yes exactly when the key then holds this owner's very response, a consume when it is then
      consumed, and an abort exactly when it took the owner's pending entry away; a no changes nothing. */
  lemma AnswersTellTheState(reg: Register, now: int, key: Key, owner: Owner, response: Response, ttl: int)
    requires 0 < ttl
    ensures var (after, done) := Complete(reg, now, key, owner, response, ttl);
      && (done <==> Live(after, key, now) && after[key].owner == owner && after[key].phase == Completed(response))
      && (done && reg[key].phase == Pending ==>
            after == reg[key := Entry(reg[key].hash, owner, Completed(response), now + ttl)])
      && (!done || reg[key].phase != Pending ==> after == reg)
    ensures var (after, done) := Abort(reg, now, key, owner);
      && (done <==>
            key in reg && now < reg[key].expiresAtMs && reg[key].owner == owner && reg[key].phase == Pending)
      && after == (if done then reg - {key} else reg)
    ensures var (after, done) := Consume(reg, now, key);
      && (done <==> Live(after, key, now) && after[key].phase == Consumed)
      && (done ==>
            && reg[key].phase != Pending
            && after == reg[key := Entry(reg[key].hash, reg[key].owner, Consumed, reg[key].expiresAtMs)])
      && (!done ==> after == reg && (key in reg && now < reg[key].expiresAtMs ==> reg[key].phase == Pending))
  {
  }

  // ----- Whole histories of the register -----

  datatype Op =
    | AcquireOp(key: Key, hash: Hash, owner: Owner, ttl: int)
    | CompleteOp(key: Key, owner: Owner, response: Response, ttl: int)
    | AbortOp(key: Key, owner: Owner)
    | ConsumeOp(key: Key)
    | TickOp(delta: nat)

  datatype Timed = Timed(reg: Register, now: int, usedOwners: set<Owner>)

  /** Owners are random UUIDs: an acquire that creates an entry never reuses one. */
  predicate Enabled(s: Timed, op: Op) {
    match op
    case AcquireOp(_, _, owner, ttl) => owner !in s.usedOwners && 0 < ttl
    case CompleteOp(_, _, _, ttl) => 0 < ttl
    case _ => true
  }

  function Apply(s: Timed, op: Op): Timed {
    match op
    case AcquireOp(key, hash, owner, ttl) =>
      Timed(Acquire(s.reg, s.now, key, hash, owner, ttl).0, s.now, s.usedOwners + {owner})
    case CompleteOp(key, owner, response, ttl) => s.(reg := Complete(s.reg, s.now, key, owner, response, ttl).0)
    case AbortOp(key, owner) => s.(reg := Abort(s.reg, s.now, key, owner).0)
    case ConsumeOp(key) => s.(reg := Consume(s.reg, s.now, key).0)
    case TickOp(delta) => s.(now := s.now + delta)
  }

  predicate LegalRun(s: Timed, ops: seq<Op>)
    decreases |ops|
  {
    ops == [] || (Enabled(s, ops[0]) && LegalRun(Apply(s, ops[0]), ops[1..]))
  }

  function Run(s: Timed, ops: seq<Op>): Timed
    decreases |ops|
  {
    if ops == [] then s else Run(Apply(s, ops[0]), ops[1..])
  }

  ghost predicate OwnersKnown(s: Timed) {
    forall key :: key in s.reg ==> s.reg[key].owner in s.usedOwners
  }

  function Rank(phase: Phase): nat {
    match phase case Pending => 0 case Completed(_) => 1 case Consumed => 2
  }

  /** How one entry lifetime may change: same hash and owner, phase only forward, a published response
      never replaced, and never shortened once published. */
  predicate Advances(before: Entry, after: Entry) {
    && before.hash == after.hash
    && before.owner == after.owner
    && Rank(before.phase) <= Rank(after.phase)
    && (before.phase.Completed? && after.phase.Completed? ==> before.phase.response == after.phase.response)
    && (!before.phase.Pending? ==> after.expiresAtMs == before.expiresAtMs)
  }

  /** What one owner's entry can become over any continuation: it either advances in place, or its
      lifetime is over and its owner never appears in the register again. */
  ghost predicate Evolves(s: Timed, t: Timed, key: Key)
    requires key in s.reg
  {
    || (key in t.reg && Advances(s.reg[key], t.reg[key]))
    || (forall k :: k in t.reg ==> t.reg[k].owner != s.reg[key].owner)
  }

  /** Distinct keys hold distinct owners, and every owner is one that was used. */
  ghost predicate WellFormed(s: Timed) {
    && OwnersKnown(s)
    && forall a, b :: a in s.reg && b in s.reg && s.reg[a].owner == s.reg[b].owner ==> a == b
  }

  lemma ApplyKeepsWellFormed(s: Timed, op: Op)
    requires WellFormed(s) && Enabled(s, op)
    ensures WellFormed(Apply(s, op)) && s.usedOwners <= Apply(s, op).usedOwners && s.now <= Apply(s, op).now
  {
  }

  lemma OneStepEvolves(s: Timed, op: Op, key: Key)
    requires WellFormed(s) && Enabled(s, op) && key in s.reg
    ensures Evolves(s, Apply(s, op), key)
  {
    var t := Apply(s, op);
    if !(key in t.reg && t.reg[key].owner == s.reg[key].owner) {
      forall k | k in t.reg ensures t.reg[k].owner != s.reg[key].owner {}
    }
  }

  /** Once an owner is used and absent from the register, no run brings it back. */
  lemma {:induction false} GoneOwnerStaysGone(s: Timed, ops: seq<Op>, owner: Owner)
    requires WellFormed(s) && LegalRun(s, ops) && owner in s.usedOwners
    requires forall k :: k in s.reg ==> s.reg[k].owner != owner
    ensures forall k :: k in Run(s, ops).reg ==> Run(s, ops).reg[k].owner != owner
    decreases |ops|
  {
    if ops != [] {
      ApplyKeepsWellFormed(s, ops[0]);
      GoneOwnerStaysGone(Apply(s, ops[0]), ops[1..], owner);
    }
  }

  /** Over every run the entry of one owner only moves pending -> completed -> consumed, keeps one immutable
      published response, and once it is gone no late complete or abort of that owner touches the register. */
  lemma {:induction false} EntryLifetime(s: Timed, ops: seq<Op>, key: Key)
    requires WellFormed(s) && LegalRun(s, ops) && key in s.reg
    ensures Evolves(s, Run(s, ops), key)
    decreases |ops|
  {
    if ops != [] {
      var t := Apply(s, ops[0]);
      OneStepEvolves(s, ops[0], key);
      ApplyKeepsWellFormed(s, ops[0]);
      if key in t.reg && Advances(s.reg[key], t.reg[key]) {
        EntryLifetime(t, ops[1..], key);
      } else {
        GoneOwnerStaysGone(t, ops[1..], s.reg[key].owner);
      }
    }
  }

  /** A published response survives every run that ends before it expires: whatever completes, aborts,
      acquires or consumes arrive in the meantime, the key still belongs to the same owner, with the same
      response or consumed. In particular an abort after a lost reply to complete never unpublishes it. */
  lemma {:induction false} PublishedSurvives(s: Timed, ops: seq<Op>, key: Key)
    requires WellFormed(s) && LegalRun(s, ops)
    requires key in s.reg && !s.reg[key].phase.Pending?
    requires Run(s, ops).now < s.reg[key].expiresAtMs
    ensures key in Run(s, ops).reg && Advances(s.reg[key], Run(s, ops).reg[key])
    decreases |ops|
  {
    if ops != [] {
      var t := Apply(s, ops[0]);
      ApplyKeepsWellFormed(s, ops[0]);
      RunIsMonotone(t, ops[1..]);
      assert t.now < s.reg[key].expiresAtMs;
      assert key in t.reg && Advances(s.reg[key], t.reg[key]);
      PublishedSurvives(t, ops[1..], key);
    }
  }

  /** A claim excludes everybody else for its whole lifetime: whatever the others do, until the owner completes or
      aborts it the entry stays, and an acquire by anyone is told to wait, or of a conflict if its hash is another. */
  lemma {:induction false} ClaimExcludes(s: Timed, ops: seq<Op>, key: Key, hash: Hash, owner: Owner, ttl: int)
    requires LegalRun(s, ops) && OwnersKnown(s)
    requires key in s.reg && s.reg[key].phase == Pending && Run(s, ops).now < s.reg[key].expiresAtMs
    requires forall op :: op in ops ==>
      && !(op.CompleteOp? && op.key == key && op.owner == s.reg[key].owner)
      && !(op.AbortOp? && op.key == key && op.owner == s.reg[key].owner)
    ensures key in Run(s, ops).reg && Run(s, ops).reg[key] == s.reg[key]
    ensures Acquire(Run(s, ops).reg, Run(s, ops).now, key, hash, owner, ttl).1 ==
      if hash == s.reg[key].hash then Wait else Conflict
    decreases |ops|
  {
    if ops != [] {
      var t := Apply(s, ops[0]);
      RunIsMonotone(t, ops[1..]);
      assert s.now <= t.now;
      assert ops[0] in ops;
      assert key in t.reg && t.reg[key] == s.reg[key];
      ClaimExcludes(t, ops[1..], key, hash, owner, ttl);
    }
  }

  lemma {:induction false} RunIsMonotone(s: Timed, ops: seq<Op>)
    ensures s.now <= Run(s, ops).now
    decreases |ops|
  {
    if ops != [] { RunIsMonotone(Apply(s, ops[0]), ops[1..]); }
  }

  /** Every operation answers alike on registers with the same view and keeps the views the same: a store
      may drop expired entries at any moment. */
  lemma OperationsSeeOnlyTheView(a: Register, b: Register, now: int, op: Op)
    requires SameView(a, b, now) && (op.AcquireOp? || op.CompleteOp? ==> 0 < op.ttl)
    ensures match op
      case AcquireOp(key, hash, owner, ttl) =>
        var (ra, ca), (rb, cb) := Acquire(a, now, key, hash, owner, ttl), Acquire(b, now, key, hash, owner, ttl);
        ca == cb && SameView(ra, rb, now)
      case CompleteOp(key, owner, response, ttl) =>
        var (ra, ca) := Complete(a, now, key, owner, response, ttl);
        var (rb, cb) := Complete(b, now, key, owner, response, ttl);
        ca == cb && SameView(ra, rb, now)
      case AbortOp(key, owner) =>
        var (ra, ca), (rb, cb) := Abort(a, now, key, owner), Abort(b, now, key, owner);
        ca == cb && SameView(ra, rb, now)
      case ConsumeOp(key) =>
        var (ra, ca), (rb, cb) := Consume(a, now, key), Consume(b, now, key);
        ca == cb && SameView(ra, rb, now)
      case TickOp(delta) => SameView(a, b, now + delta)
  {
    if op.TickOp? {
      var later := now + op.delta;
      forall key ensures (Live(a, key, later) <==> Live(b, key, later)) && (Live(a, key, later) ==> a[key] == b[key]) {
        assert Live(a, key, now) <==> Live(b, key, now);
      }
    }
  }
}
