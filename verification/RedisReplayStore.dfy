/** The shared replay store: four atomic scripts over a keyed database with expiry, and the client side of a
    lease whose commands may lose their reply or never run.

    A database value is the decoded record; Redis hides a key once the clock reaches its expiry. */
module RedisReplayStore {
  import opened Wrappers
  import opened ReplayRegister

  datatype Status = PendingStatus | CompletedStatus | ConsumedStatus

  datatype RedisReplayRecord = RedisReplayRecord(hash: Hash, owner: Owner, status: Status, response: Option<Response>)

  datatype Stored = Stored(record: RedisReplayRecord, expiresAtMs: int)

  /** A record the scripts write: a response exactly when completed. */
  predicate Proper(record: RedisReplayRecord) {
    record.response.Some? <==> record.status == CompletedStatus
  }

  function AbstractPhase(record: RedisReplayRecord): Phase {
    match record.status
    case PendingStatus => Pending
    case ConsumedStatus => Consumed
    case CompletedStatus => if record.response.Some? then Completed(record.response.value) else Pending
  }

  function Abstract(stored: Stored): Entry {
    Entry(stored.record.hash, stored.record.owner, AbstractPhase(stored.record), stored.expiresAtMs)
  }

  /** What a waiting or reserving client concludes from a record it read. */
  function Classify(record: RedisReplayRecord, requestHash: Hash): (claim: Claim)
    ensures Proper(record) ==> claim == Observe(Abstract(Stored(record, 0)), requestHash)
    ensures claim == Conflict <==> record.hash != requestHash
    ensures claim.Replayed? ==> record.response == Some(claim.response)
  {
    if record.hash != requestHash then Conflict
    else if record.status == ConsumedStatus then AlreadyConsumed
    else if record.status == CompletedStatus && record.response.Some? then Replayed(record.response.value)
    else Wait
  }

  class RedisServer {
    var db: map<Key, Stored>

    ghost predicate Valid()
      reads this
    {
      forall key :: key in db ==> Proper(db[key].record)
    }

    ghost function Reg(): Register
      reads this
    {
      map key | key in db :: Abstract(db[key])
    }

    constructor ()
      ensures Valid() && Reg() == map[]
    {
      db := map[];
    }

    function Get(key: Key, now: int): (found: Option<RedisReplayRecord>)
      reads this
      ensures found.Some? <==> Live(Reg(), key, now)
      ensures found.Some? ==> key in db && found.value == db[key].record
    {
      if key in db && now < db[key].expiresAtMs then Some(db[key].record) else None
    }

    function Pttl(key: Key, now: int): int
      reads this
    {
      if key in db && now < db[key].expiresAtMs then db[key].expiresAtMs - now else -2
    }

    method SetPx(key: Key, record: RedisReplayRecord, ttlMs: int, now: int)
      modifies this
      ensures db == old(db)[key := Stored(record, now + ttlMs)]
    {
      db := db[key := Stored(record, now + ttlMs)];
    }

    /** No reply means the caller owns the key. */
    method ReserveScript(
      key: Key, hash: Hash, owner: Owner, ttlMs: int, now: int) returns (current: Option<RedisReplayRecord>)
      requires Valid() && 0 < ttlMs
      modifies this
      ensures Valid()
      ensures var (reg, claim) := Acquire(old(Reg()), now, key, hash, owner, ttlMs);
              && Reg() == reg
              && (current.None? <==> claim == Owned)
              && (current.Some? ==> Classify(current.value, hash) == claim)
    {
      current := Get(key, now);
      if current.Some? { return; }
      SetPx(key, RedisReplayRecord(hash, owner, PendingStatus, None), ttlMs, now);
    }

    method CompleteScript(key: Key, owner: Owner, response: Response, ttlMs: int, now: int) returns (reply: int)
      requires Valid() && 0 < ttlMs
      modifies this
      ensures Valid()
      ensures var (reg, done) := Complete(old(Reg()), now, key, owner, response, ttlMs);
              Reg() == reg && reply == (if done then 1 else 0)
    {
      var current := Get(key, now);
      if current.None? { return 0; }
      var record := current.value;
      if record.owner != owner { return 0; }
      if record.status == CompletedStatus {
        if record.response != Some(response) { return 0; }
        return 1;
      }
      if record.status != PendingStatus { return 0; }
      if Pttl(key, now) <= 0 { return 0; }
      SetPx(key, RedisReplayRecord(record.hash, record.owner, CompletedStatus, Some(response)), ttlMs, now);
      return 1;
    }

    method AbortScript(key: Key, owner: Owner, now: int) returns (reply: int)
      requires Valid()
      modifies this
      ensures Valid()
      ensures var (reg, done) := Abort(old(Reg()), now, key, owner); Reg() == reg && reply == (if done then 1 else 0)
    {
      var current := Get(key, now);
      if current.None? { return 0; }
      if current.value.owner != owner || current.value.status != PendingStatus { return 0; }
      db := db - {key};
      return 1;
    }

    /** Rewriting the record with the remaining time keeps its expiry. */
    method ConsumeScript(key: Key, now: int) returns (reply: int)
      requires Valid()
      modifies this
      ensures Valid()
      ensures var (reg, done) := Consume(old(Reg()), now, key); Reg() == reg && reply == (if done then 1 else 0)
    {
      var current := Get(key, now);
      if current.None? { return 0; }
      var record := current.value;
      if record.status == ConsumedStatus { return 1; }
      if record.status != CompletedStatus { return 0; }
      var ttl := Pttl(key, now);
      if ttl <= 0 { return 0; }
      SetPx(key, RedisReplayRecord(record.hash, record.owner, ConsumedStatus, None), ttl, now);
      return 1;
    }
  }

  /** The polling loop, over the readings it takes before its deadline: it stops at the first one that decides. */
  method AwaitPublication(readings: seq<Option<RedisReplayRecord>>, requestHash: Hash) returns (claim: Option<Claim>)
    ensures exists i ::
      && 0 <= i <= |readings|
      && (forall j :: 0 <= j < i ==> readings[j].Some? && Classify(readings[j].value, requestHash) == Wait)
      && (claim.None? ==> i == |readings| || readings[i].None?)
      && (claim.Some? ==> i < |readings| && readings[i].Some? && claim.value != Wait
                          && claim.value == Classify(readings[i].value, requestHash))
    ensures claim.Some? && claim.value.Replayed? ==>
      exists i :: && 0 <= i < |readings| && readings[i].Some? && readings[i].value.hash == requestHash
                  && readings[i].value.response == Some(claim.value.response)
  {
    for i := 0 to |readings|
      invariant forall j :: 0 <= j < i ==> readings[j].Some? && Classify(readings[j].value, requestHash) == Wait
    {
      if readings[i].None? { return None; }
      var answer := Classify(readings[i].value, requestHash);
      if answer != Wait { return Some(answer); }
    }
    return None;
  }

  /** A command either runs and its reply arrives, runs and its reply is lost, or does not run before the
      client stops waiting. */
  datatype Delivery = Answered | ReplyLost | NotRun

  class RedisOwnerLease {
    const key: Key
    const owner: Owner
    const ttlMs: int
    var settled: bool

    constructor (key: Key, owner: Owner, ttlMs: int)
      requires 0 < ttlMs
      ensures this.key == key && this.owner == owner && this.ttlMs == ttlMs && !settled
    {
      this.key, this.owner, this.ttlMs, settled := key, owner, ttlMs, false;
    }

    /** Success is reported only when the register accepted this response; a lost reply leaves the lease open. */
    method Complete(server: RedisServer, response: Response, now: int, delivery: Delivery) returns (ok: bool)
      requires server.Valid() && 0 < ttlMs
      modifies this, server
      ensures server.Valid()
      ensures old(settled) ==> ok && settled && server.Reg() == old(server.Reg())
      ensures !old(settled) ==>
        var (reg, done) := ReplayRegister.Complete(old(server.Reg()), now, key, owner, response, ttlMs);
        && server.Reg() == (if delivery == NotRun then old(server.Reg()) else reg)
        && ok == settled == (done && delivery == Answered)
    {
      if settled { return true; }
      if delivery == NotRun { return false; }
      var reply := server.CompleteScript(key, owner, response, ttlMs, now);
      if delivery == ReplyLost || reply != 1 { return false; }
      settled := true;
      return true;
    }

    /** Failures of the abort command are swallowed. */
    method Abort(server: RedisServer, now: int, delivery: Delivery)
      requires server.Valid()
      modifies this, server
      ensures server.Valid() && settled
      ensures server.Reg() ==
        if old(settled) || delivery == NotRun then old(server.Reg())
        else ReplayRegister.Abort(old(server.Reg()), now, key, owner).0
    {
      if settled { return; }
      settled := true;
      if delivery != NotRun { var _ := server.AbortScript(key, owner, now); }
    }
  }

  /** A lost reply to complete followed by an abort never unpublishes: after both commands the response is
      still there, under its owner, until its own expiry. */
  method CompleteThenAbort(server: RedisServer, lease: RedisOwnerLease, response: Response, now: int, later: int)
    requires server.Valid() && 0 < lease.ttlMs && !lease.settled && now <= later < now + lease.ttlMs
    requires Live(server.Reg(), lease.key, now) && server.Reg()[lease.key].owner == lease.owner
    requires server.Reg()[lease.key].phase == Pending
    modifies lease, server
    ensures server.Valid()
    ensures Live(server.Reg(), lease.key, later)
    ensures server.Reg()[lease.key] ==
      old(server.Reg()[lease.key]).(phase := Completed(response), expiresAtMs := now + lease.ttlMs)
  {
    var ok := lease.Complete(server, response, now, ReplyLost);
    lease.Abort(server, later, Answered);
  }
}
