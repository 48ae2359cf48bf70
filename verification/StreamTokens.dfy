/** Single-use stream tokens: issued, reserved while a socket upgrade is under way, then committed or restored. */
module StreamTokens {
  import opened Wrappers
  import opened ReplayRegister

  type Digest = seq<int>
  type ReservationId = nat

  datatype CallIdentity = CallIdentity(
    from: string, to: string, twilioCallSid: string, accountSid: Option<string>, replayKey: Option<Key>)

  datatype TokenEntry = TokenEntry(expMs: int, identity: CallIdentity, reservation: Option<ReservationId>)

  type Tokens = map<CallId, TokenEntry>

  datatype Reservation = Reservation(callId: CallId, id: ReservationId, identity: CallIdentity)

  predicate CanReserve(tokens: Tokens, callId: CallId, expMs: int, now: int) {
    callId in tokens && tokens[callId].expMs == expMs && tokens[callId].reservation.None? && now < expMs
  }

  predicate CanCommit(tokens: Tokens, callId: CallId, id: ReservationId, now: int) {
    callId in tokens && tokens[callId].reservation == Some(id) && now < tokens[callId].expMs
  }

  function Reserved(tokens: Tokens, callId: CallId, id: ReservationId): Tokens
    requires callId in tokens
  {
    tokens[callId := tokens[callId].(reservation := Some(id))]
  }

  function Restored(tokens: Tokens, callId: CallId, id: ReservationId, now: int): Tokens {
    if callId !in tokens || tokens[callId].reservation != Some(id) then tokens
    else if now >= tokens[callId].expMs then tokens - {callId}
    else tokens[callId := tokens[callId].(reservation := None)]
  }

  function Pruned(tokens: Tokens, now: int): Tokens {
    map callId | callId in tokens && now < tokens[callId].expMs :: tokens[callId]
  }

  class StreamTokenStore {
    const ttlMs: int
    const sign: (CallId, int) -> Digest
    var issued: Tokens
    ghost var minted: set<CallId>
    ghost var committed: set<CallId>
    ghost var reservations: set<ReservationId>

    /** A committed call id is never tracked again, so it commits at most once in the life of the store. */
    ghost predicate Valid()
      reads this
    {
      && issued.Keys <= minted && committed <= minted && issued.Keys !! committed
      && (forall c :: c in issued && issued[c].reservation.Some? ==> issued[c].reservation.value in reservations)
      && (forall a, b | a in issued && b in issued && issued[a].reservation.Some? ::
            issued[a].reservation == issued[b].reservation ==> a == b)
    }

    constructor (ttlMs: int, sign: (CallId, int) -> Digest)
      ensures Valid() && issued == map[] && committed == {} && this.ttlMs == ttlMs && this.sign == sign
    {
      this.ttlMs, this.sign := ttlMs, sign;
      issued, minted, committed, reservations := map[], {}, {}, {};
    }

    /** `callId` is the random UUID. */
    method Issue(identity: CallIdentity, now: int, callId: CallId) returns (token: Digest, expMs: int)
      requires Valid() && callId !in minted
      modifies this
      ensures Valid() && committed == old(committed) && reservations == old(reservations)
      ensures minted == old(minted) + {callId}
      ensures issued == old(issued)[callId := TokenEntry(now + ttlMs, identity, None)]
      ensures expMs == now + ttlMs && token == sign(callId, expMs)
    {
      expMs := now + ttlMs;
      issued := issued[callId := TokenEntry(expMs, identity, None)];
      minted := minted + {callId};
      token := sign(callId, expMs);
    }

    /** `token` and `exp` are `None` when they do not parse as hex digest and safe integer. */
    method Reserve(callId: CallId, token: Option<Digest>, exp: Option<nat>, now: int, id: ReservationId)
      returns (reservation: Option<Reservation>)
      requires Valid() && id !in reservations
      modifies this`issued, this`reservations
      ensures Valid()
      ensures reservation.Some? <==>
        && callId in old(issued) && old(issued)[callId].reservation == None
        && exp == Some(old(issued)[callId].expMs) && now < old(issued)[callId].expMs
        && token == Some(sign(callId, old(issued)[callId].expMs))
      ensures reservation.Some? ==> CanReserve(old(issued), callId, exp.value, now)
      ensures reservation.Some? ==>
        && reservation.value == Reservation(callId, id, old(issued)[callId].identity)
        && issued == Reserved(old(issued), callId, id) && reservations == old(reservations) + {id}
      ensures reservation.None? ==> issued == old(issued) && reservations == old(reservations)
    {
      if token.None? || exp.None? { return None; }
      if callId !in issued { return None; }
      var entry := issued[callId];
      if entry.expMs != exp.value || entry.reservation.Some? || now >= exp.value { return None; }
      if token.value != sign(callId, exp.value) { return None; }
      issued := issued[callId := entry.(reservation := Some(id))];
      reservations := reservations + {id};
      return Some(Reservation(callId, id, entry.identity));
    }

    method Commit(reservation: Reservation, now: int) returns (identity: Option<CallIdentity>)
      requires Valid()
      modifies this`issued, this`committed
      ensures Valid()
      ensures identity.Some? <==> CanCommit(old(issued), reservation.callId, reservation.id, now)
      ensures identity.Some? <==>
        && reservation.callId in old(issued) && now < old(issued)[reservation.callId].expMs
        && old(issued)[reservation.callId].reservation == Some(reservation.id)
      ensures identity.Some? ==>
        && reservation.callId !in old(committed) && committed == old(committed) + {reservation.callId}
        && issued == old(issued) - {reservation.callId} && identity.value == old(issued)[reservation.callId].identity
      ensures identity.None? ==> issued == old(issued) && committed == old(committed)
    {
      if reservation.callId !in issued { return None; }
      var entry := issued[reservation.callId];
      if entry.reservation != Some(reservation.id) || now >= entry.expMs { return None; }
      issued := issued - {reservation.callId};
      committed := committed + {reservation.callId};
      return Some(entry.identity);
    }

    method Restore(reservation: Reservation, now: int)
      requires Valid()
      modifies this`issued
      ensures Valid() && issued == Restored(old(issued), reservation.callId, reservation.id, now)
      ensures old(issued) - {reservation.callId} == issued - {reservation.callId}
      ensures
        && reservation.callId in old(issued)
        && old(issued)[reservation.callId].reservation == Some(reservation.id) ==>
        if now < old(issued)[reservation.callId].expMs then
          issued == old(issued)[reservation.callId := old(issued)[reservation.callId].(reservation := None)]
        else issued == old(issued) - {reservation.callId}
    {
      if reservation.callId !in issued { return; }
      var entry := issued[reservation.callId];
      if entry.reservation != Some(reservation.id) { return; }
      if now >= entry.expMs {
        issued := issued - {reservation.callId};
        return;
      }
      issued := issued[reservation.callId := entry.(reservation := None)];
    }

    method Release(callId: CallId)
      requires Valid()
      modifies this`issued
      ensures Valid() && issued == old(issued) - {callId}
    {
      issued := issued - {callId};
    }

    method Prune(now: int)
      requires Valid()
      modifies this`issued
      ensures Valid() && issued == Pruned(old(issued), now)
      ensures forall c :: c in issued <==> c in old(issued) && now < old(issued)[c].expMs
      ensures forall c :: c in issued ==> issued[c] == old(issued)[c]
    {
      var rest := issued.Keys;
      while rest != {}
        invariant Valid() && rest <= issued.Keys <= old(issued).Keys
        invariant forall c :: c in issued ==> issued[c] == old(issued)[c]
        invariant forall c :: c in old(issued) ==> (c in issued <==> c in rest || now < old(issued)[c].expMs)
        decreases rest
      {
        var callId :| callId in rest;
        rest := rest - {callId};
        if now >= issued[callId].expMs { issued := issued - {callId}; }
      }
    }
  }

  /** An upgrade that is aborted leaves the token exactly as it was, so the client may try again until it expires. */
  lemma RestoreUndoesReserve(tokens: Tokens, callId: CallId, expMs: int, id: ReservationId, now: int, later: int)
    requires CanReserve(tokens, callId, expMs, now)
    ensures Restored(Reserved(tokens, callId, id), callId, id, later) ==
            (if later < expMs then tokens else tokens - {callId})
  {
    assert tokens[callId].(reservation := None) == tokens[callId];
  }
}
