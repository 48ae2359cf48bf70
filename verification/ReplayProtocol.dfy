/** The webhook handler joined to the replay register and the token store, as a machine over its atomic steps.

    Requests interleave freely. A register command is a message that runs at most once, at any later time,
    and its reply may be lost; a client may stop waiting at any moment. The clock only moves forward. A token
    can be presented only after it was disclosed, which is what the keyed digest guarantees. */
module ReplayProtocol {
  import opened Wrappers
  import opened ReplayRegister
  import opened StreamTokens

  /** `processLocal` is the in-memory register, whose consume runs in the same turn as the commit. With a shared
      register a consume command may take a while: at most `consumeWithinMs` until it has run or is lost, or any
      time at all. */
  datatype Config = Config(replayTtlMs: int, tokenTtlMs: int, processLocal: bool, consumeWithinMs: Option<nat>) {
    predicate Valid() { 0 < tokenTtlMs <= replayTtlMs }

    /** By how much an entry outlives the token it was published with, at least. */
    function SlackMs(): int { replayTtlMs - tokenTtlMs }

    /** No consume command runs later than its own entry lasts. */
    predicate ConsumesInTime() {
      processLocal || (consumeWithinMs.Some? && consumeWithinMs.value <= SlackMs())
    }
  }

  datatype Pc =
    | Reserving
    | Waiting(on: Owner)
    | Owning
    | Issued(response: Response)
    | Completing(response: Response)
    | Acked(response: Response)
    | Answering(response: Response)
    | Done

  datatype Request = Request(key: Key, hash: Hash)

  datatype Message =
    | ReserveMsg(key: Key, hash: Hash, owner: Owner)
    | CompleteMsg(key: Key, owner: Owner, response: Response)
    | AbortMsg(key: Key, owner: Owner)
    | ConsumeMsg(key: Key, callId: CallId, sentMs: int)

  datatype IssueRecord = IssueRecord(owner: Owner, key: Key, expMs: int)
  datatype Publication = Publication(key: Key, owner: Owner, response: Response)
  /** A response that was sent to a request of this key and hash. */
  datatype Disclosure = Disclosure(key: Key, hash: Hash, response: Response)
  datatype CommitRecord = CommitRecord(key: Key, callId: CallId, atMs: int, expMs: int)

  /** `issues`, `published`, `disclosed` and `commits` are the history; the rest is what the code holds. */
  datatype State = State(
    now: int,
    reg: Register,
    tokens: Tokens,
    requests: map<Owner, Request>,
    pcs: map<Owner, Pc>,
    net: set<Message>,
    issues: map<CallId, IssueRecord>,
    published: set<Publication>,
    disclosed: set<Disclosure>,
    commits: seq<CommitRecord>)

  datatype Action =
    | Begin(owner: Owner, key: Key, hash: Hash)
    | RunReserve(owner: Owner, replied: bool)
    | Poll(owner: Owner)
    | Wake(owner: Owner, publication: Publication)
    | Issue(owner: Owner, callId: CallId, identity: CallIdentity)
    | SendComplete(owner: Owner)
    | RunComplete(owner: Owner, response: Response, replied: bool)
    | Abandon(owner: Owner)
    | Respond(owner: Owner)
    | RunAbort(key: Key, owner: Owner)
    | ReserveToken(callId: CallId, id: ReservationId)
    | RestoreToken(callId: CallId, id: ReservationId)
    | CommitToken(callId: CallId, id: ReservationId)
    | RunConsume(key: Key, callId: CallId, sentMs: int)
    | PruneTokens
    | DropExpired(key: Key)
    | Lose(message: Message)
    | Tick(delta: nat)

  function Initial(now: int): State {
    State(now, map[], map[], map[], map[], {}, map[], {}, {}, [])
  }

  predicate At(s: State, owner: Owner) { owner in s.requests && owner in s.pcs }

  function ReserveOf(s: State, owner: Owner): Message
    requires At(s, owner)
  {
    ReserveMsg(s.requests[owner].key, s.requests[owner].hash, owner)
  }

  /** Every consume command on its way still may be at this time. */
  ghost predicate NoConsumeOverdue(c: Config, net: set<Message>, time: int) {
    c.consumeWithinMs.Some? ==> forall m :: m in net && m.ConsumeMsg? ==> time <= m.sentMs + c.consumeWithinMs.value
  }

  ghost predicate Enabled(c: Config, s: State, a: Action) {
    match a
    case Begin(owner, _, _) => owner !in s.requests
    case RunReserve(owner, _) => At(s, owner) && ReserveOf(s, owner) in s.net
    case Poll(owner) => At(s, owner) && s.pcs[owner].Waiting?
    case Wake(owner, p) =>
      At(s, owner) && s.pcs[owner].Waiting? && p in s.published && p.owner == s.pcs[owner].on
    case Issue(owner, callId, identity) =>
      && At(s, owner) && s.pcs[owner].Owning? && callId !in s.issues
      && identity.replayKey == Some(s.requests[owner].key)
    case SendComplete(owner) => At(s, owner) && s.pcs[owner].Issued?
    case RunComplete(owner, response, _) =>
      At(s, owner) && CompleteMsg(s.requests[owner].key, owner, response) in s.net
    case Abandon(owner) => At(s, owner) && !s.pcs[owner].Done?
    case Respond(owner) => At(s, owner) && (s.pcs[owner].Acked? || s.pcs[owner].Answering?)
    case RunAbort(key, owner) => AbortMsg(key, owner) in s.net
    case ReserveToken(callId, id) =>
      && callId in s.tokens && CanReserve(s.tokens, callId, s.tokens[callId].expMs, s.now)
      && exists d :: d in s.disclosed && d.response.callId == callId
    case RestoreToken(callId, id) => true
    case CommitToken(callId, id) => CanCommit(s.tokens, callId, id, s.now)
    case RunConsume(key, callId, sentMs) => ConsumeMsg(key, callId, sentMs) in s.net
    case PruneTokens => true
    case DropExpired(key) => !Live(s.reg, key, s.now)
    case Lose(message) => true
    case Tick(delta) => NoConsumeOverdue(c, s.net, s.now + delta)
  }

  function SetPc(s: State, owner: Owner, pc: Pc): State
    requires At(s, owner)
  {
    s.(pcs := s.pcs[owner := pc])
  }

  /** What a request does next once the register has answered its claim; `holder` owns the entry. */
  function AfterClaim(claim: Claim, holder: Owner): Pc {
    match claim
    case Owned => Owning
    case Wait => Waiting(holder)
    case Replayed(response) => Answering(response)
    case _ => Done
  }

  function CommitKey(s: State, callId: CallId): Key
    requires callId in s.tokens
  {
    s.tokens[callId].identity.replayKey.GetOr("")
  }

  // ----- One function for each step -----

  function BeginStep(s: State, owner: Owner, key: Key, hash: Hash): State {
    s.(requests := s.requests[owner := Request(key, hash)], pcs := s.pcs[owner := Reserving],
       net := s.net + {ReserveMsg(key, hash, owner)})
  }

  function ReserveStep(c: Config, s: State, owner: Owner, replied: bool): State
    requires At(s, owner)
  {
    var q := s.requests[owner];
    var (reg, claim) := Acquire(s.reg, s.now, q.key, q.hash, owner, c.replayTtlMs);
    var t := s.(reg := reg, net := s.net - {ReserveOf(s, owner)});
    var holder := if q.key in s.reg then s.reg[q.key].owner else owner;
    if replied && s.pcs[owner].Reserving? then SetPc(t, owner, AfterClaim(claim, holder)) else t
  }

  function PollStep(s: State, owner: Owner): State
    requires At(s, owner)
  {
    var q := s.requests[owner];
    SetPc(s, owner, if Live(s.reg, q.key, s.now) then AfterClaim(Observe(s.reg[q.key], q.hash), s.reg[q.key].owner)
                    else Done)
  }

  function IssueStep(c: Config, s: State, owner: Owner, callId: CallId, identity: CallIdentity): State
    requires At(s, owner)
  {
    var expMs := s.now + c.tokenTtlMs;
    SetPc(s.(tokens := Pruned(s.tokens, s.now)[callId := TokenEntry(expMs, identity, None)],
             issues := s.issues[callId := IssueRecord(owner, s.requests[owner].key, expMs)]),
          owner, Issued(Twiml(callId, expMs)))
  }

  function SendCompleteStep(s: State, owner: Owner): State
    requires At(s, owner) && s.pcs[owner].Issued?
  {
    var response := s.pcs[owner].response;
    SetPc(s.(net := s.net + {CompleteMsg(s.requests[owner].key, owner, response)}), owner, Completing(response))
  }

  /** The complete script itself, before anyone learns its reply. */
  function CompleteEffect(c: Config, s: State, owner: Owner, response: Response): (State, bool)
    requires At(s, owner)
  {
    var key := s.requests[owner].key;
    var (reg, done) := Complete(s.reg, s.now, key, owner, response, c.replayTtlMs);
    (s.(reg := reg, net := s.net - {CompleteMsg(key, owner, response)},
        published := if done then s.published + {Publication(key, owner, response)} else s.published),
     done)
  }

  function CompleteStep(c: Config, s: State, owner: Owner, response: Response, replied: bool): State
    requires At(s, owner)
  {
    var (t, done) := CompleteEffect(c, s, owner, response);
    if !(replied && s.pcs[owner] == Completing(response)) then t
    else if done then SetPc(t, owner, Acked(response))
    else SetPc(t.(net := t.net + {AbortMsg(s.requests[owner].key, owner)}), owner, Done)
  }

  /** Giving up: a token is released only if completion was never attempted, and the claim is aborted. */
  function AbandonStep(s: State, owner: Owner): State
    requires At(s, owner)
  {
    var key, pc := s.requests[owner].key, s.pcs[owner];
    var t := if pc.Issued? then s.(tokens := s.tokens - {pc.response.callId}) else s;
    var aborts := pc.Reserving? || pc.Owning? || pc.Issued? || pc.Completing?;
    SetPc(if aborts then t.(net := t.net + {AbortMsg(key, owner)}) else t, owner, Done)
  }

  function RespondStep(s: State, owner: Owner): State
    requires At(s, owner) && (s.pcs[owner].Acked? || s.pcs[owner].Answering?)
  {
    var q := s.requests[owner];
    SetPc(s.(disclosed := s.disclosed + {Disclosure(q.key, q.hash, s.pcs[owner].response)}), owner, Done)
  }

  function AbortStep(s: State, key: Key, owner: Owner): State {
    s.(reg := Abort(s.reg, s.now, key, owner).0, net := s.net - {AbortMsg(key, owner)})
  }

  function CommitStep(c: Config, s: State, callId: CallId): State
    requires callId in s.tokens
  {
    var key := CommitKey(s, callId);
    var t := s.(tokens := s.tokens - {callId},
                commits := s.commits + [CommitRecord(key, callId, s.now, s.tokens[callId].expMs)]);
    if c.processLocal then t.(reg := Consume(s.reg, s.now, key).0)
    else t.(net := s.net + {ConsumeMsg(key, callId, s.now)})
  }

  function ConsumeStep(s: State, key: Key, callId: CallId, sentMs: int): State {
    s.(reg := Consume(s.reg, s.now, key).0, net := s.net - {ConsumeMsg(key, callId, sentMs)})
  }

  ghost function Step(c: Config, s: State, a: Action): State
    requires Enabled(c, s, a)
  {
    match a
    case Begin(owner, key, hash) => BeginStep(s, owner, key, hash)
    case RunReserve(owner, replied) => ReserveStep(c, s, owner, replied)
    case Poll(owner) => PollStep(s, owner)
    case Wake(owner, p) => SetPc(s, owner, Answering(p.response))
    case Issue(owner, callId, identity) => IssueStep(c, s, owner, callId, identity)
    case SendComplete(owner) => SendCompleteStep(s, owner)
    case RunComplete(owner, response, replied) => CompleteStep(c, s, owner, response, replied)
    case Abandon(owner) => AbandonStep(s, owner)
    case Respond(owner) => RespondStep(s, owner)
    case RunAbort(key, owner) => AbortStep(s, key, owner)
    case ReserveToken(callId, id) => s.(tokens := Reserved(s.tokens, callId, id))
    case RestoreToken(callId, id) => s.(tokens := Restored(s.tokens, callId, id, s.now))
    case CommitToken(callId, id) => CommitStep(c, s, callId)
    case RunConsume(key, callId, sentMs) => ConsumeStep(s, key, callId, sentMs)
    case PruneTokens => s.(tokens := Pruned(s.tokens, s.now))
    case DropExpired(key) => s.(reg := s.reg - {key})
    case Lose(message) => s.(net := s.net - {message})
    case Tick(delta) => s.(now := s.now + delta)
  }

  ghost predicate LegalRun(c: Config, s: State, run: seq<Action>)
    decreases |run|
  {
    run == [] || (Enabled(c, s, run[0]) && LegalRun(c, Step(c, s, run[0]), run[1..]))
  }

  ghost function After(c: Config, s: State, run: seq<Action>): State
    requires LegalRun(c, s, run)
    decreases |run|
  {
    if run == [] then s else After(c, Step(c, s, run[0]), run[1..])
  }

  // ----- The invariant, one predicate for each part of the state it ties together -----

  /** `response` carries the token that `owner` issued. */
  ghost predicate IssuedFor(
    requests: map<Owner, Request>, issues: map<CallId, IssueRecord>, owner: Owner, response: Response)
  {
    && owner in requests
    && response.callId in issues
    && issues[response.callId] == IssueRecord(owner, requests[owner].key, response.expMs)
  }

  /** `response` was issued by a request for the same key and with the same hash. */
  ghost predicate IssuedLike(
    requests: map<Owner, Request>, issues: map<CallId, IssueRecord>, q: Request, response: Response)
  {
    && response.callId in issues && issues[response.callId].owner in requests
    && requests[issues[response.callId].owner] == q
  }

  ghost predicate NeverSent(net: set<Message>, published: set<Publication>, owner: Owner) {
    && (forall m :: m in net && m.CompleteMsg? ==> m.owner != owner)
    && (forall p :: p in published ==> p.owner != owner)
  }

  ghost predicate RequestsOk(pcs: map<Owner, Pc>, requests: map<Owner, Request>, net: set<Message>,
                             published: set<Publication>, issues: map<CallId, IssueRecord>) {
    && pcs.Keys == requests.Keys
    && forall o :: o in pcs ==> RequestInv(pcs[o], o, requests, net, published, issues)
  }

  ghost predicate RequestInv(pc: Pc, owner: Owner, requests: map<Owner, Request>, net: set<Message>,
                             published: set<Publication>, issues: map<CallId, IssueRecord>) {
    match pc
    case Reserving => NeverSent(net, published, owner)
    case Waiting(on) =>
      NeverSent(net, published, owner) && owner in requests && on in requests && requests[on] == requests[owner]
    case Owning => NeverSent(net, published, owner)
    case Issued(response) => NeverSent(net, published, owner) && IssuedFor(requests, issues, owner, response)
    case Completing(response) => IssuedFor(requests, issues, owner, response)
    case Acked(response) =>
      && IssuedFor(requests, issues, owner, response)
      && Publication(requests[owner].key, owner, response) in published
    case Answering(response) =>
      && owner in requests && Revealed(published, requests[owner].key, response.callId, response.expMs)
      && IssuedLike(requests, issues, requests[owner], response)
    case Done => true
  }

  ghost predicate MessagesOk(net: set<Message>, pcs: map<Owner, Pc>, requests: map<Owner, Request>,
                             issues: map<CallId, IssueRecord>, published: set<Publication>, reg: Register) {
    forall m :: m in net ==> MessageInv(m, net, pcs, requests, issues, published, reg)
  }

  ghost predicate MessageInv(m: Message, net: set<Message>, pcs: map<Owner, Pc>, requests: map<Owner, Request>,
                             issues: map<CallId, IssueRecord>, published: set<Publication>, reg: Register) {
    match m
    case ReserveMsg(key, hash, owner) =>
      && owner in requests && requests[owner] == Request(key, hash)
      && owner in pcs && (pcs[owner].Reserving? || pcs[owner].Done?)
      && NeverSent(net, published, owner)
      && (key in reg ==> reg[key].owner != owner)
    case CompleteMsg(key, owner, response) =>
      && IssuedFor(requests, issues, owner, response) && requests[owner].key == key
      && owner in pcs && (pcs[owner] == Completing(response) || pcs[owner].Done?)
      && (forall p :: p in published ==> p.owner != owner)
      && (forall n :: n in net && n.CompleteMsg? && n.owner == owner ==> n == m)
    case AbortMsg(key, owner) => owner in requests && requests[owner].key == key
    case ConsumeMsg(_, _, _) => true
  }

  ghost predicate HasCommit(commits: seq<CommitRecord>, key: Key) {
    exists j :: 0 <= j < |commits| && commits[j].key == key
  }

  /** A consume command exists only with a shared register, and was sent when its own token was committed. */
  ghost predicate ConsumesOk(c: Config, net: set<Message>, commits: seq<CommitRecord>, tokens: Tokens,
                             issues: map<CallId, IssueRecord>, published: set<Publication>, now: int) {
    && NoConsumeOverdue(c, net, now)
    && forall m :: m in net && m.ConsumeMsg? ==>
         !c.processLocal && HasCommit(commits, m.key) && ConsumeInv(m, tokens, issues, published)
  }

  ghost predicate ConsumeInv(m: Message, tokens: Tokens, issues: map<CallId, IssueRecord>, published: set<Publication>)
    requires m.ConsumeMsg?
  {
    && m.callId !in tokens && m.callId in issues && m.sentMs < issues[m.callId].expMs
    && Revealed(published, m.key, m.callId, issues[m.callId].expMs)
  }

  ghost predicate EntriesOk(
    reg: Register, requests: map<Owner, Request>, published: set<Publication>, commits: seq<CommitRecord>)
  {
    forall key :: key in reg ==> EntryInv(key, reg[key], requests, published, commits)
  }

  ghost predicate EntryInv(
    key: Key, e: Entry, requests: map<Owner, Request>, published: set<Publication>, commits: seq<CommitRecord>)
  {
    && e.owner in requests && requests[e.owner] == Request(key, e.hash)
    && (e.phase.Pending? ==> forall p :: p in published ==> p.owner != e.owner)
    && (e.phase.Completed? ==> Publication(key, e.owner, e.phase.response) in published)
    && (e.phase.Consumed? ==> HasCommit(commits, key) && exists p :: p in published && p.owner == e.owner)
  }

  ghost predicate PublicationsOk(c: Config, published: set<Publication>, requests: map<Owner, Request>,
                                 issues: map<CallId, IssueRecord>, reg: Register, now: int) {
    forall p :: p in published ==> PublicationInv(c, p, published, requests, issues, reg, now)
  }

  /** Until when a published token is backed by its entry: its own expiry and the slack. */
  function BackedUntil(c: Config, p: Publication): int { p.response.expMs + c.SlackMs() }

  /** A published token is backed by its own entry for as long as it is unexpired, and for the slack after that. */
  ghost predicate PublicationInv(c: Config, p: Publication, published: set<Publication>, requests: map<Owner, Request>,
                                 issues: map<CallId, IssueRecord>, reg: Register, now: int) {
    && IssuedFor(requests, issues, p.owner, p.response) && p.key == requests[p.owner].key
    && (forall q :: q in published && q.owner == p.owner ==> q == p)
    && (now < BackedUntil(c, p) ==>
          && p.key in reg && BackedUntil(c, p) <= reg[p.key].expiresAtMs
          && reg[p.key].owner == p.owner && !reg[p.key].phase.Pending?)
  }

  ghost predicate Revealed(published: set<Publication>, key: Key, callId: CallId, expMs: int) {
    exists p :: p in published && p.key == key && p.response == Twiml(callId, expMs)
  }

  ghost predicate IssuesOk(c: Config, issues: map<CallId, IssueRecord>, now: int) {
    forall i :: i in issues ==> issues[i].expMs <= now + c.tokenTtlMs
  }

  ghost predicate TokensOk(tokens: Tokens, issues: map<CallId, IssueRecord>, published: set<Publication>) {
    forall i :: i in tokens ==>
      && i in issues && tokens[i].expMs == issues[i].expMs && tokens[i].identity.replayKey == Some(issues[i].key)
      && (tokens[i].reservation.Some? ==> Revealed(published, issues[i].key, i, tokens[i].expMs))
  }

  /** When consumes are in time an entry is consumed only by the token it published. */
  ghost predicate ConsumedOk(c: Config, tokens: Tokens, published: set<Publication>, reg: Register) {
    c.ConsumesInTime() ==>
      forall p :: p in published && p.response.callId in tokens && p.key in reg && reg[p.key].owner == p.owner ==>
        !reg[p.key].phase.Consumed?
  }

  ghost predicate DisclosedOk(
    disclosed: set<Disclosure>, published: set<Publication>, requests: map<Owner, Request>,
    issues: map<CallId, IssueRecord>)
  {
    forall d :: d in disclosed ==>
      && Revealed(published, d.key, d.response.callId, d.response.expMs)
      && IssuedLike(requests, issues, Request(d.key, d.hash), d.response)
  }

  ghost predicate CommitsOk(commits: seq<CommitRecord>, tokens: Tokens, issues: map<CallId, IssueRecord>,
                            published: set<Publication>, now: int) {
    && (forall j :: 0 <= j < |commits| ==>
          && commits[j].callId in issues && commits[j].callId !in tokens
          && commits[j].atMs < commits[j].expMs && commits[j].atMs <= now
          && Revealed(published, commits[j].key, commits[j].callId, commits[j].expMs))
    && (forall i, j ::
          0 <= i < j < |commits| && commits[i].key == commits[j].key ==> commits[i].expMs <= commits[j].atMs)
  }

  ghost predicate Inv(c: Config, s: State) {
    && RequestsOk(s.pcs, s.requests, s.net, s.published, s.issues)
    && MessagesOk(s.net, s.pcs, s.requests, s.issues, s.published, s.reg)
    && ConsumesOk(c, s.net, s.commits, s.tokens, s.issues, s.published, s.now)
    && EntriesOk(s.reg, s.requests, s.published, s.commits)
    && PublicationsOk(c, s.published, s.requests, s.issues, s.reg, s.now)
    && IssuesOk(c, s.issues, s.now)
    && TokensOk(s.tokens, s.issues, s.published)
    && ConsumedOk(c, s.tokens, s.published, s.reg)
    && DisclosedOk(s.disclosed, s.published, s.requests, s.issues)
    && CommitsOk(s.commits, s.tokens, s.issues, s.published, s.now)
  }

  // ----- Building blocks: what one kind of change keeps -----

  ghost predicate NoOpenCommand(net: set<Message>, owner: Owner) {
    forall m :: m in net && (m.ReserveMsg? || m.CompleteMsg?) ==> m.owner != owner
  }

  lemma SetPcKeeps(c: Config, s: State, owner: Owner, pc: Pc)
    requires Inv(c, s) && At(s, owner) && RequestInv(pc, owner, s.requests, s.net, s.published, s.issues)
    requires pc.Done? || NoOpenCommand(s.net, owner)
    ensures Inv(c, SetPc(s, owner, pc))
  {
    var t := SetPc(s, owner, pc);
    assert RequestsOk(t.pcs, t.requests, t.net, t.published, t.issues);
    forall m | m in t.net ensures MessageInv(m, t.net, t.pcs, t.requests, t.issues, t.published, t.reg) {
      assert MessageInv(m, s.net, s.pcs, s.requests, s.issues, s.published, s.reg);
    }
  }

  /** A request that waits, owns or has issued has no reserve or complete command under way. */
  lemma QuietRequest(c: Config, s: State, owner: Owner)
    requires Inv(c, s) && At(s, owner) && (s.pcs[owner].Waiting? || s.pcs[owner].Owning? || s.pcs[owner].Issued?)
    ensures NoOpenCommand(s.net, owner) && NeverSent(s.net, s.published, owner)
  {
    assert RequestInv(s.pcs[owner], owner, s.requests, s.net, s.published, s.issues);
    forall m | m in s.net && (m.ReserveMsg? || m.CompleteMsg?) ensures m.owner != owner {
      assert MessageInv(m, s.net, s.pcs, s.requests, s.issues, s.published, s.reg);
    }
  }

  /** Adding an abort or a consume command, or losing any command, disturbs no other command. */
  lemma ChangeNetKeeps(c: Config, s: State, net: set<Message>)
    requires Inv(c, s) && ConsumesOk(c, net, s.commits, s.tokens, s.issues, s.published, s.now)
    requires forall m :: m in net && m !in s.net ==>
      m.ConsumeMsg? || (m.AbortMsg? && m.owner in s.requests && s.requests[m.owner].key == m.key)
    ensures Inv(c, s.(net := net))
  {
    forall o | o in s.pcs ensures RequestInv(s.pcs[o], o, s.requests, net, s.published, s.issues) {
      assert RequestInv(s.pcs[o], o, s.requests, s.net, s.published, s.issues);
    }
    forall m | m in net ensures MessageInv(m, net, s.pcs, s.requests, s.issues, s.published, s.reg) {
      if m in s.net { assert MessageInv(m, s.net, s.pcs, s.requests, s.issues, s.published, s.reg); }
    }
  }

  /** Tokens may disappear, and may gain a reservation once they were revealed. */
  lemma ChangeTokensKeeps(c: Config, s: State, tokens: Tokens)
    requires Inv(c, s)
    requires forall i :: i in tokens ==>
      && i in s.tokens && tokens[i].expMs == s.tokens[i].expMs && tokens[i].identity == s.tokens[i].identity
      && (tokens[i].reservation.Some? && s.tokens[i].reservation.None? ==>
            i in s.issues && Revealed(s.published, s.issues[i].key, i, tokens[i].expMs))
    ensures Inv(c, s.(tokens := tokens))
  {
    assert TokensOk(tokens, s.issues, s.published);
    assert ConsumedOk(c, tokens, s.published, s.reg);
    assert CommitsOk(s.commits, tokens, s.issues, s.published, s.now);
    assert ConsumesOk(c, s.net, s.commits, tokens, s.issues, s.published, s.now);
  }

  lemma PruneKeeps(c: Config, s: State)
    requires Inv(c, s)
    ensures Inv(c, s.(tokens := Pruned(s.tokens, s.now)))
  {
    ChangeTokensKeeps(c, s, Pruned(s.tokens, s.now));
  }

  lemma RestoreKeeps(c: Config, s: State, callId: CallId, id: ReservationId)
    requires Inv(c, s)
    ensures Inv(c, s.(tokens := Restored(s.tokens, callId, id, s.now)))
  {
    ChangeTokensKeeps(c, s, Restored(s.tokens, callId, id, s.now));
  }

  /** The register may lose a key that no unexpired publication still needs. */
  lemma DropKeyKeeps(c: Config, s: State, key: Key)
    requires Inv(c, s)
    requires forall p :: p in s.published && p.key == key ==> BackedUntil(c, p) <= s.now
    ensures Inv(c, s.(reg := s.reg - {key}))
  {
    var reg := s.reg - {key};
    assert EntriesOk(reg, s.requests, s.published, s.commits);
    assert ConsumedOk(c, s.tokens, s.published, reg);
    forall p | p in s.published ensures PublicationInv(c, p, s.published, s.requests, s.issues, reg, s.now) {
      assert PublicationInv(c, p, s.published, s.requests, s.issues, s.reg, s.now);
    }
    forall m | m in s.net ensures MessageInv(m, s.net, s.pcs, s.requests, s.issues, s.published, reg) {
      assert MessageInv(m, s.net, s.pcs, s.requests, s.issues, s.published, s.reg);
    }
  }

  /** Two publications of one key whose tokens are both unexpired are the same publication. */
  lemma OneUnexpiredPublication(c: Config, s: State, p: Publication, q: Publication)
    requires c.Valid() && Inv(c, s) && p in s.published && q in s.published && p.key == q.key
    requires s.now < p.response.expMs && s.now < q.response.expMs
    ensures p == q
  {
    assert PublicationInv(c, p, s.published, s.requests, s.issues, s.reg, s.now);
    assert PublicationInv(c, q, s.published, s.requests, s.issues, s.reg, s.now);
  }

  /** The register with one key's entry marked consumed. */
  function Marked(reg: Register, key: Key): Register
    requires key in reg
  {
    reg[key := reg[key].(phase := Consumed)]
  }

  lemma MarkKeepsCommands(c: Config, s: State, key: Key)
    requires Inv(c, s) && key in s.reg
    ensures MessagesOk(s.net, s.pcs, s.requests, s.issues, s.published, Marked(s.reg, key))
  {
    forall m | m in s.net ensures MessageInv(m, s.net, s.pcs, s.requests, s.issues, s.published, Marked(s.reg, key)) {
      assert MessageInv(m, s.net, s.pcs, s.requests, s.issues, s.published, s.reg);
    }
  }

  lemma MarkKeepsEntries(c: Config, s: State, key: Key)
    requires Inv(c, s) && key in s.reg && s.reg[key].phase.Completed? && HasCommit(s.commits, key)
    ensures EntriesOk(Marked(s.reg, key), s.requests, s.published, s.commits)
    ensures PublicationsOk(c, s.published, s.requests, s.issues, Marked(s.reg, key), s.now)
  {
    var reg := Marked(s.reg, key);
    forall k | k in reg ensures EntryInv(k, reg[k], s.requests, s.published, s.commits) {
      assert EntryInv(k, s.reg[k], s.requests, s.published, s.commits);
    }
    forall p | p in s.published ensures PublicationInv(c, p, s.published, s.requests, s.issues, reg, s.now) {
      assert PublicationInv(c, p, s.published, s.requests, s.issues, s.reg, s.now);
    }
  }

  lemma MarkKeeps(c: Config, s: State, key: Key)
    requires Inv(c, s) && HasCommit(s.commits, key) && key in s.reg && s.reg[key].phase.Completed?
    requires c.ConsumesInTime() ==>
      forall p :: p in s.published && p.owner == s.reg[key].owner ==> p.response.callId !in s.tokens
    ensures Inv(c, s.(reg := Marked(s.reg, key)))
  {
    MarkKeepsCommands(c, s, key);
    MarkKeepsEntries(c, s, key);
    assert ConsumedOk(c, s.tokens, s.published, Marked(s.reg, key));
  }

  lemma ConsumeKeeps(c: Config, s: State, key: Key)
    requires Inv(c, s) && HasCommit(s.commits, key)
    requires c.ConsumesInTime() && Live(s.reg, key, s.now) ==>
      forall p :: p in s.published && p.owner == s.reg[key].owner ==> p.response.callId !in s.tokens
    ensures Inv(c, s.(reg := Consume(s.reg, s.now, key).0))
  {
    if Live(s.reg, key, s.now) && s.reg[key].phase.Completed? {
      MarkKeeps(c, s, key);
    } else {
      assert s.(reg := Consume(s.reg, s.now, key).0) == s;
    }
  }

  // ----- Every step keeps the invariant -----

  lemma BeginKeeps(c: Config, s: State, owner: Owner, key: Key, hash: Hash)
    requires Inv(c, s) && owner !in s.requests
    ensures Inv(c, BeginStep(s, owner, key, hash))
  {
    var t := BeginStep(s, owner, key, hash);
    forall k | k in t.reg ensures EntryInv(k, t.reg[k], t.requests, t.published, t.commits) {
      assert EntryInv(k, s.reg[k], s.requests, s.published, s.commits);
    }
    forall p | p in t.published
      ensures p.owner != owner && PublicationInv(c, p, t.published, t.requests, t.issues, t.reg, t.now) {
      assert PublicationInv(c, p, s.published, s.requests, s.issues, s.reg, s.now);
    }
    forall m | m in s.net ensures m.ConsumeMsg? || m.owner != owner {
      assert MessageInv(m, s.net, s.pcs, s.requests, s.issues, s.published, s.reg);
    }
    forall m | m in t.net ensures MessageInv(m, t.net, t.pcs, t.requests, t.issues, t.published, t.reg) {
      if m in s.net { assert MessageInv(m, s.net, s.pcs, s.requests, s.issues, s.published, s.reg); }
    }
    forall o | o in t.pcs ensures RequestInv(t.pcs[o], o, t.requests, t.net, t.published, t.issues) {
      if o != owner { assert RequestInv(s.pcs[o], o, s.requests, s.net, s.published, s.issues); }
    }
    assert ConsumesOk(c, t.net, t.commits, t.tokens, t.issues, t.published, t.now);
  }

  /** An acquire that finds no live entry replaces the key by a pending entry of a request that never sent anything. */
  lemma TakeKeyKeeps(c: Config, s: State, owner: Owner, e: Entry)
    requires Inv(c, s) && At(s, owner) && NoOpenCommand(s.net, owner) && NeverSent(s.net, s.published, owner)
    requires e.owner == owner && e.hash == s.requests[owner].hash && e.phase.Pending?
    requires !Live(s.reg, s.requests[owner].key, s.now)
    ensures Inv(c, s.(reg := s.reg[s.requests[owner].key := e]))
  {
    var reg := s.reg[s.requests[owner].key := e];
    assert EntriesOk(reg, s.requests, s.published, s.commits);
    forall p | p in s.published ensures PublicationInv(c, p, s.published, s.requests, s.issues, reg, s.now) {
      assert PublicationInv(c, p, s.published, s.requests, s.issues, s.reg, s.now);
    }
    forall m | m in s.net ensures MessageInv(m, s.net, s.pcs, s.requests, s.issues, s.published, reg) {
      assert MessageInv(m, s.net, s.pcs, s.requests, s.issues, s.published, s.reg);
    }
    assert ConsumedOk(c, s.tokens, s.published, reg);
  }

  /** Whom a request waits for, or whose response it repeats, asked for the same with the same hash. */
  lemma ClaimedIsLike(c: Config, s: State, owner: Owner, claim: Claim)
    requires Inv(c, s) && At(s, owner) && s.requests[owner].key in s.reg
    requires claim == Observe(s.reg[s.requests[owner].key], s.requests[owner].hash)
    ensures var q, holder := s.requests[owner], s.reg[s.requests[owner].key].owner;
      && (claim.Wait? ==> holder in s.requests && s.requests[holder] == q)
      && (claim.Replayed? ==>
            && Revealed(s.published, q.key, claim.response.callId, claim.response.expMs)
            && IssuedLike(s.requests, s.issues, q, claim.response))
  {
    var q := s.requests[owner];
    var e := s.reg[q.key];
    assert EntryInv(q.key, e, s.requests, s.published, s.commits);
    if claim.Replayed? {
      var p := Publication(q.key, e.owner, claim.response);
      assert PublicationInv(c, p, s.published, s.requests, s.issues, s.reg, s.now);
    }
  }

  lemma RunReserveKeeps(c: Config, s: State, owner: Owner, replied: bool)
    requires Inv(c, s) && At(s, owner) && ReserveOf(s, owner) in s.net
    ensures Inv(c, ReserveStep(c, s, owner, replied))
  {
    var q, msg := s.requests[owner], ReserveOf(s, owner);
    assert MessageInv(msg, s.net, s.pcs, s.requests, s.issues, s.published, s.reg);
    var u := s.(net := s.net - {msg});
    ChangeNetKeeps(c, s, u.net);
    assert NoOpenCommand(u.net, owner) by {
      forall m | m in u.net && (m.ReserveMsg? || m.CompleteMsg?) ensures m.owner != owner {
        assert MessageInv(m, s.net, s.pcs, s.requests, s.issues, s.published, s.reg);
      }
    }
    var (reg, claim) := Acquire(s.reg, s.now, q.key, q.hash, owner, c.replayTtlMs);
    if claim == Owned && !Live(s.reg, q.key, s.now) { TakeKeyKeeps(c, u, owner, reg[q.key]); }
    var t := u.(reg := reg);
    assert Inv(c, t);
    if replied && s.pcs[owner].Reserving? {
      if Live(s.reg, q.key, s.now) { ClaimedIsLike(c, s, owner, claim); }
      SetPcKeeps(c, t, owner, AfterClaim(claim, if q.key in s.reg then s.reg[q.key].owner else owner));
    }
  }

  /** A request that polls, or that is woken, only moves its own control. */
  lemma PollKeeps(c: Config, s: State, owner: Owner)
    requires Inv(c, s) && At(s, owner) && s.pcs[owner].Waiting?
    ensures Inv(c, PollStep(s, owner))
  {
    var q := s.requests[owner];
    QuietRequest(c, s, owner);
    if Live(s.reg, q.key, s.now) {
      var claim := Observe(s.reg[q.key], q.hash);
      ClaimedIsLike(c, s, owner, claim);
      SetPcKeeps(c, s, owner, AfterClaim(claim, s.reg[q.key].owner));
    } else {
      SetPcKeeps(c, s, owner, Done);
    }
  }

  lemma WakeKeeps(c: Config, s: State, owner: Owner, p: Publication)
    requires Inv(c, s) && At(s, owner) && s.pcs[owner].Waiting? && p in s.published && p.owner == s.pcs[owner].on
    ensures Inv(c, SetPc(s, owner, Answering(p.response)))
  {
    QuietRequest(c, s, owner);
    assert RequestInv(s.pcs[owner], owner, s.requests, s.net, s.published, s.issues);
    assert PublicationInv(c, p, s.published, s.requests, s.issues, s.reg, s.now);
    SetPcKeeps(c, s, owner, Answering(p.response));
  }

  lemma IssueKeepsRecords(c: Config, s: State, issues: map<CallId, IssueRecord>, callId: CallId)
    requires Inv(c, s) && callId in issues && issues == s.issues[callId := issues[callId]] && callId !in s.issues
    requires issues[callId].expMs <= s.now + c.tokenTtlMs
    ensures Inv(c, s.(issues := issues))
    ensures forall p :: p in s.published ==> p.response.callId != callId
  {
    forall o | o in s.pcs ensures RequestInv(s.pcs[o], o, s.requests, s.net, s.published, issues) {
      assert RequestInv(s.pcs[o], o, s.requests, s.net, s.published, s.issues);
    }
    forall m | m in s.net ensures MessageInv(m, s.net, s.pcs, s.requests, issues, s.published, s.reg) {
      assert MessageInv(m, s.net, s.pcs, s.requests, s.issues, s.published, s.reg);
    }
    forall p | p in s.published
      ensures p.response.callId != callId && PublicationInv(c, p, s.published, s.requests, issues, s.reg, s.now) {
      assert PublicationInv(c, p, s.published, s.requests, s.issues, s.reg, s.now);
    }
    assert TokensOk(s.tokens, issues, s.published);
    assert CommitsOk(s.commits, s.tokens, issues, s.published, s.now);
    assert ConsumesOk(c, s.net, s.commits, s.tokens, issues, s.published, s.now);
  }

  lemma AddTokenKeeps(c: Config, s: State, callId: CallId, entry: TokenEntry)
    requires Inv(c, s) && callId in s.issues && entry.expMs == s.issues[callId].expMs && entry.reservation == None
    requires entry.identity.replayKey == Some(s.issues[callId].key)
    requires forall p :: p in s.published ==> p.response.callId != callId
    ensures Inv(c, s.(tokens := s.tokens[callId := entry]))
  {
    var tokens := s.tokens[callId := entry];
    assert TokensOk(tokens, s.issues, s.published);
    assert ConsumedOk(c, tokens, s.published, s.reg);
    assert CommitsOk(s.commits, tokens, s.issues, s.published, s.now);
    assert ConsumesOk(c, s.net, s.commits, tokens, s.issues, s.published, s.now);
  }

  lemma IssueKeepsStores(c: Config, s: State, callId: CallId, record: IssueRecord, entry: TokenEntry)
    requires Inv(c, s) && callId !in s.issues && record.expMs <= s.now + c.tokenTtlMs
    requires entry == TokenEntry(record.expMs, entry.identity, None) && entry.identity.replayKey == Some(record.key)
    ensures Inv(c, s.(tokens := Pruned(s.tokens, s.now)[callId := entry], issues := s.issues[callId := record]))
  {
    PruneKeeps(c, s);
    var u := s.(tokens := Pruned(s.tokens, s.now));
    IssueKeepsRecords(c, u, s.issues[callId := record], callId);
    AddTokenKeeps(c, u.(issues := s.issues[callId := record]), callId, entry);
  }

  lemma IssueKeeps(c: Config, s: State, owner: Owner, callId: CallId, identity: CallIdentity)
    requires c.Valid() && Inv(c, s) && At(s, owner) && s.pcs[owner].Owning? && callId !in s.issues
    requires identity.replayKey == Some(s.requests[owner].key)
    ensures Inv(c, IssueStep(c, s, owner, callId, identity))
  {
    var record := IssueRecord(owner, s.requests[owner].key, s.now + c.tokenTtlMs);
    var entry := TokenEntry(record.expMs, identity, None);
    QuietRequest(c, s, owner);
    IssueKeepsStores(c, s, callId, record, entry);
    var t := s.(tokens := Pruned(s.tokens, s.now)[callId := entry], issues := s.issues[callId := record]);
    var pc := Issued(Twiml(callId, record.expMs));
    assert IssueStep(c, s, owner, callId, identity) == SetPc(t, owner, pc);
    assert IssuedFor(t.requests, t.issues, owner, pc.response);
    assert RequestInv(pc, owner, t.requests, t.net, t.published, t.issues);
    SetPcKeeps(c, t, owner, pc);
  }

  lemma AddCompleteKeeps(c: Config, s: State, m: Message)
    requires Inv(c, s) && m.CompleteMsg? && m.owner in s.requests && m.owner in s.pcs
    requires s.pcs[m.owner] == Completing(m.response) && s.requests[m.owner].key == m.key
    requires NeverSent(s.net, s.published, m.owner) && NoOpenCommand(s.net, m.owner)
    ensures Inv(c, s.(net := s.net + {m}))
  {
    var net := s.net + {m};
    assert RequestInv(s.pcs[m.owner], m.owner, s.requests, s.net, s.published, s.issues);
    forall o | o in s.pcs ensures RequestInv(s.pcs[o], o, s.requests, net, s.published, s.issues) {
      assert RequestInv(s.pcs[o], o, s.requests, s.net, s.published, s.issues);
    }
    forall n | n in net ensures MessageInv(n, net, s.pcs, s.requests, s.issues, s.published, s.reg) {
      if n in s.net { assert MessageInv(n, s.net, s.pcs, s.requests, s.issues, s.published, s.reg); }
    }
    assert ConsumesOk(c, net, s.commits, s.tokens, s.issues, s.published, s.now);
  }

  lemma SendCompleteKeeps(c: Config, s: State, owner: Owner)
    requires Inv(c, s) && At(s, owner) && s.pcs[owner].Issued?
    ensures Inv(c, SendCompleteStep(s, owner))
  {
    var response := s.pcs[owner].response;
    assert RequestInv(s.pcs[owner], owner, s.requests, s.net, s.published, s.issues);
    QuietRequest(c, s, owner);
    SetPcKeeps(c, s, owner, Completing(response));
    AddCompleteKeeps(c, SetPc(s, owner, Completing(response)), CompleteMsg(s.requests[owner].key, owner, response));
  }

  lemma RevealedGrows(published: set<Publication>, p: Publication, key: Key, callId: CallId, expMs: int)
    requires Revealed(published, key, callId, expMs)
    ensures Revealed(published + {p}, key, callId, expMs)
  {
    var q :| q in published && q.key == key && q.response == Twiml(callId, expMs);
    assert q in published + {p};
  }

  /** What publishing leaves alone: the other requests and commands, the tokens and the history. */
  lemma PublishKeepsOthers(c: Config, s: State, p: Publication)
    requires Inv(c, s) && NoOpenCommand(s.net, p.owner) && p.owner in s.pcs
    requires s.pcs[p.owner].Completing? || s.pcs[p.owner].Done?
    ensures var published := s.published + {p};
      && RequestsOk(s.pcs, s.requests, s.net, published, s.issues)
      && MessagesOk(s.net, s.pcs, s.requests, s.issues, published, s.reg)
      && TokensOk(s.tokens, s.issues, published)
      && DisclosedOk(s.disclosed, published, s.requests, s.issues)
      && CommitsOk(s.commits, s.tokens, s.issues, published, s.now)
      && ConsumesOk(c, s.net, s.commits, s.tokens, s.issues, published, s.now)
  {
    var published := s.published + {p};
    forall key, callId, expMs | Revealed(s.published, key, callId, expMs)
      ensures Revealed(published, key, callId, expMs)
    {
      RevealedGrows(s.published, p, key, callId, expMs);
    }
    forall o | o in s.pcs ensures RequestInv(s.pcs[o], o, s.requests, s.net, published, s.issues) {
      assert RequestInv(s.pcs[o], o, s.requests, s.net, s.published, s.issues);
    }
    forall m | m in s.net ensures MessageInv(m, s.net, s.pcs, s.requests, s.issues, published, s.reg) {
      assert MessageInv(m, s.net, s.pcs, s.requests, s.issues, s.published, s.reg);
    }
  }

  /** The heart of the protocol: the replay lifetime starts at publication, after the token was issued, and
      lasts at least as long as a token, so the published token cannot outlive its register entry. */
  lemma PublishKeeps(c: Config, s: State, p: Publication)
    requires c.Valid() && Inv(c, s) && NoOpenCommand(s.net, p.owner) && p.owner in s.pcs
    requires s.pcs[p.owner].Completing? || s.pcs[p.owner].Done?
    requires IssuedFor(s.requests, s.issues, p.owner, p.response) && p.key == s.requests[p.owner].key
    requires p.key in s.reg && s.reg[p.key].owner == p.owner && s.reg[p.key].phase.Pending?
    ensures Inv(c, s.(published := s.published + {p},
                      reg := s.reg[p.key :=
                        s.reg[p.key].(phase := Completed(p.response), expiresAtMs := s.now + c.replayTtlMs)]))
  {
    var published := s.published + {p};
    var reg := s.reg[p.key := s.reg[p.key].(phase := Completed(p.response), expiresAtMs := s.now + c.replayTtlMs)];
    PublishKeepsOthers(c, s, p);
    assert EntryInv(p.key, s.reg[p.key], s.requests, s.published, s.commits);
    forall k | k in reg ensures EntryInv(k, reg[k], s.requests, published, s.commits) {
      assert EntryInv(k, s.reg[k], s.requests, s.published, s.commits);
    }
    forall q | q in published ensures PublicationInv(c, q, published, s.requests, s.issues, reg, s.now) {
      if q in s.published { assert PublicationInv(c, q, s.published, s.requests, s.issues, s.reg, s.now); }
    }
    forall m | m in s.net ensures MessageInv(m, s.net, s.pcs, s.requests, s.issues, published, reg) {
      assert MessageInv(m, s.net, s.pcs, s.requests, s.issues, published, s.reg);
    }
    assert ConsumedOk(c, s.tokens, published, reg);
  }

  lemma SentCompleteFacts(c: Config, s: State, m: Message)
    requires Inv(c, s) && m.CompleteMsg? && m in s.net
    ensures m.owner in s.pcs && (s.pcs[m.owner].Completing? || s.pcs[m.owner].Done?)
    ensures IssuedFor(s.requests, s.issues, m.owner, m.response) && s.requests[m.owner].key == m.key
    ensures NoOpenCommand(s.net - {m}, m.owner)
    ensures m.key in s.reg && s.reg[m.key].owner == m.owner ==> s.reg[m.key].phase.Pending?
  {
    assert MessageInv(m, s.net, s.pcs, s.requests, s.issues, s.published, s.reg);
    forall n | n in s.net - {m} && (n.ReserveMsg? || n.CompleteMsg?) ensures n.owner != m.owner {
      assert MessageInv(n, s.net, s.pcs, s.requests, s.issues, s.published, s.reg);
    }
    if m.key in s.reg { assert EntryInv(m.key, s.reg[m.key], s.requests, s.published, s.commits); }
  }

  /** The script either publishes or does nothing, and uses up its command. */
  lemma CompleteEffectIs(c: Config, s: State, owner: Owner, response: Response)
    requires At(s, owner)
    ensures var key, (t, done) := s.requests[owner].key, CompleteEffect(c, s, owner, response);
      var u := s.(net := s.net - {CompleteMsg(key, owner, response)});
      && (done ==> key in s.reg && s.reg[key].owner == owner)
      && (done && s.reg[key].phase.Pending? ==> t == u.(published := s.published + {Publication(key, owner, response)},
            reg := s.reg[key := s.reg[key].(phase := Completed(response), expiresAtMs := s.now + c.replayTtlMs)]))
      && (!done ==> t == u)
  {
  }

  /** A command that leaves the network keeps the invariant, and whatever it publishes then does. */
  lemma CommandGone(c: Config, s: State, m: Message) returns (u: State)
    requires Inv(c, s) && m.CompleteMsg? && m in s.net
    ensures u == s.(net := s.net - {m}) && Inv(c, u) && NoOpenCommand(u.net, m.owner)
    ensures m.owner in u.pcs && (u.pcs[m.owner].Completing? || u.pcs[m.owner].Done?)
    ensures IssuedFor(u.requests, u.issues, m.owner, m.response) && u.requests[m.owner].key == m.key
    ensures m.key in u.reg && u.reg[m.key].owner == m.owner ==> u.reg[m.key].phase.Pending?
  {
    SentCompleteFacts(c, s, m);
    u := s.(net := s.net - {m});
    ChangeNetKeeps(c, s, u.net);
  }

  lemma CompleteEffectKeeps(c: Config, s: State, owner: Owner, response: Response)
    requires c.Valid() && Inv(c, s) && At(s, owner) && CompleteMsg(s.requests[owner].key, owner, response) in s.net
    ensures Inv(c, CompleteEffect(c, s, owner, response).0)
    ensures NoOpenCommand(CompleteEffect(c, s, owner, response).0.net, owner)
  {
    var key := s.requests[owner].key;
    var u := CommandGone(c, s, CompleteMsg(key, owner, response));
    CompleteEffectIs(c, s, owner, response);
    EffectKeeps(
      c, u, CompleteEffect(c, s, owner, response).0, CompleteEffect(c, s, owner, response).1,
      Publication(key, owner, response));
  }

  lemma EffectKeeps(c: Config, u: State, t: State, done: bool, p: Publication)
    requires c.Valid() && Inv(c, u) && NoOpenCommand(u.net, p.owner) && p.owner in u.pcs
    requires u.pcs[p.owner].Completing? || u.pcs[p.owner].Done?
    requires IssuedFor(u.requests, u.issues, p.owner, p.response) && p.key == u.requests[p.owner].key
    requires !done ==> t == u
    requires done ==> p.key in u.reg && u.reg[p.key].owner == p.owner && u.reg[p.key].phase.Pending?
    requires done ==> t == u.(published := u.published + {p},
      reg := u.reg[p.key := u.reg[p.key].(phase := Completed(p.response), expiresAtMs := u.now + c.replayTtlMs)])
    ensures Inv(c, t) && t.net == u.net
  {
    if done { PublishKeeps(c, u, p); }
  }

  lemma RunCompleteKeeps(c: Config, s: State, owner: Owner, response: Response, replied: bool)
    requires c.Valid() && Inv(c, s) && At(s, owner) && CompleteMsg(s.requests[owner].key, owner, response) in s.net
    ensures Inv(c, CompleteStep(c, s, owner, response, replied))
  {
    var (t, done) := CompleteEffect(c, s, owner, response);
    CompleteEffectKeeps(c, s, owner, response);
    if replied && s.pcs[owner] == Completing(response) {
      if done {
        SetPcKeeps(c, t, owner, Acked(response));
      } else {
        var net := t.net + {AbortMsg(s.requests[owner].key, owner)};
        ChangeNetKeeps(c, t, net);
        SetPcKeeps(c, t.(net := net), owner, Done);
      }
    }
  }

  lemma AbandonKeeps(c: Config, s: State, owner: Owner)
    requires Inv(c, s) && At(s, owner)
    ensures Inv(c, AbandonStep(s, owner))
  {
    var key, pc := s.requests[owner].key, s.pcs[owner];
    var t := if pc.Issued? then s.(tokens := s.tokens - {pc.response.callId}) else s;
    if pc.Issued? { ChangeTokensKeeps(c, s, t.tokens); }
    ChangeNetKeeps(c, t, t.net + {AbortMsg(key, owner)});
    var aborts := pc.Reserving? || pc.Owning? || pc.Issued? || pc.Completing?;
    SetPcKeeps(c, if aborts then t.(net := t.net + {AbortMsg(key, owner)}) else t, owner, Done);
  }

  lemma RespondKeeps(c: Config, s: State, owner: Owner)
    requires Inv(c, s) && At(s, owner) && (s.pcs[owner].Acked? || s.pcs[owner].Answering?)
    ensures Inv(c, RespondStep(s, owner))
  {
    var key, response := s.requests[owner].key, s.pcs[owner].response;
    assert RequestInv(s.pcs[owner], owner, s.requests, s.net, s.published, s.issues);
    assert Revealed(s.published, key, response.callId, response.expMs);
    var t := s.(disclosed := s.disclosed + {Disclosure(key, s.requests[owner].hash, response)});
    assert DisclosedOk(t.disclosed, t.published, t.requests, t.issues);
    SetPcKeeps(c, t, owner, Done);
  }

  lemma RunAbortKeeps(c: Config, s: State, key: Key, owner: Owner)
    requires Inv(c, s) && AbortMsg(key, owner) in s.net
    ensures Inv(c, AbortStep(s, key, owner))
  {
    var u := s.(net := s.net - {AbortMsg(key, owner)});
    ChangeNetKeeps(c, s, u.net);
    if Live(s.reg, key, s.now) && s.reg[key].owner == owner && s.reg[key].phase.Pending? {
      forall p | p in u.published && p.key == key ensures BackedUntil(c, p) <= u.now {
        assert PublicationInv(c, p, s.published, s.requests, s.issues, s.reg, s.now);
      }
      DropKeyKeeps(c, u, key);
    }
  }

  lemma DropExpiredKeeps(c: Config, s: State, key: Key)
    requires Inv(c, s) && !Live(s.reg, key, s.now)
    ensures Inv(c, s.(reg := s.reg - {key}))
  {
    forall p | p in s.published && p.key == key ensures BackedUntil(c, p) <= s.now {
      assert PublicationInv(c, p, s.published, s.requests, s.issues, s.reg, s.now);
    }
    DropKeyKeeps(c, s, key);
  }

  /** A reserved token was published by the request that issued it. */
  lemma ReservedWasPublished(c: Config, s: State, callId: CallId) returns (p: Publication)
    requires Inv(c, s) && callId in s.tokens && s.tokens[callId].reservation.Some?
    ensures p in s.published && p.key == CommitKey(s, callId) && p.response == Twiml(callId, s.tokens[callId].expMs)
    ensures PublicationInv(c, p, s.published, s.requests, s.issues, s.reg, s.now)
  {
    assert Revealed(s.published, CommitKey(s, callId), callId, s.tokens[callId].expMs);
    p :| p in s.published && p.key == CommitKey(s, callId) && p.response == Twiml(callId, s.tokens[callId].expMs);
  }

  lemma EarlierCommitsExpired(c: Config, s: State, p: Publication, i: nat)
    requires c.Valid() && Inv(c, s) && p in s.published && s.now < p.response.expMs
    requires i < |s.commits| && s.commits[i].key == p.key && s.commits[i].callId != p.response.callId
    ensures s.commits[i].expMs <= s.now
  {
    assert Revealed(s.published, p.key, s.commits[i].callId, s.commits[i].expMs);
    var q :| q in s.published && q.key == p.key && q.response == Twiml(s.commits[i].callId, s.commits[i].expMs);
    if s.now < s.commits[i].expMs { OneUnexpiredPublication(c, s, p, q); }
  }

  lemma HasCommitGrows(commits: seq<CommitRecord>, r: CommitRecord)
    ensures HasCommit(commits + [r], r.key) && forall key :: HasCommit(commits, key) ==> HasCommit(commits + [r], key)
  {
    assert (commits + [r])[|commits|] == r;
    forall key | HasCommit(commits, key) ensures HasCommit(commits + [r], key) {
      var j :| 0 <= j < |commits| && commits[j].key == key;
      assert (commits + [r])[j].key == key;
    }
  }

  lemma RecordCommitKeeps(c: Config, s: State, p: Publication)
    requires c.Valid() && Inv(c, s) && p in s.published && s.now < p.response.expMs
    requires p.response.callId in s.issues && p.response.callId !in s.tokens
    requires forall i :: 0 <= i < |s.commits| ==> s.commits[i].callId != p.response.callId
    ensures Inv(c, s.(commits := s.commits + [CommitRecord(p.key, p.response.callId, s.now, p.response.expMs)]))
  {
    var r := CommitRecord(p.key, p.response.callId, s.now, p.response.expMs);
    forall i | 0 <= i < |s.commits| && s.commits[i].key == p.key ensures s.commits[i].expMs <= s.now {
      EarlierCommitsExpired(c, s, p, i);
    }
    assert Revealed(s.published, r.key, r.callId, r.expMs);
    CommitJoins(s.commits, r, s.tokens, s.issues, s.published, s.now);
    HasCommitGrows(s.commits, r);
    forall k | k in s.reg ensures EntryInv(k, s.reg[k], s.requests, s.published, s.commits + [r]) {
      assert EntryInv(k, s.reg[k], s.requests, s.published, s.commits);
    }
  }

  lemma CommitJoins(commits: seq<CommitRecord>, r: CommitRecord, tokens: Tokens, issues: map<CallId, IssueRecord>,
                    published: set<Publication>, now: int)
    requires CommitsOk(commits, tokens, issues, published, now)
    requires r.callId in issues && r.callId !in tokens && r.atMs == now < r.expMs
    requires Revealed(published, r.key, r.callId, r.expMs)
    requires forall i :: 0 <= i < |commits| && commits[i].key == r.key ==> commits[i].expMs <= now
    ensures CommitsOk(commits + [r], tokens, issues, published, now)
  {
  }

  lemma CommitKeeps(c: Config, s: State, callId: CallId, id: ReservationId)
    requires c.Valid() && Inv(c, s) && CanCommit(s.tokens, callId, id, s.now)
    ensures Inv(c, CommitStep(c, s, callId))
  {
    var p := ReservedWasPublished(c, s, callId);
    var u := s.(tokens := s.tokens - {callId});
    ChangeTokensKeeps(c, s, u.tokens);
    RecordCommitKeeps(c, u, p);
    var v := u.(commits := u.commits + [CommitRecord(p.key, callId, s.now, s.tokens[callId].expMs)]);
    assert HasCommit(v.commits, p.key) by { assert v.commits[|s.commits|].key == p.key; }
    if c.processLocal {
      ConsumeKeeps(c, v, p.key);
    } else {
      assert ConsumeInv(ConsumeMsg(p.key, callId, s.now), v.tokens, v.issues, v.published);
      ChangeNetKeeps(c, v, v.net + {ConsumeMsg(p.key, callId, s.now)});
    }
  }

  /** A consume command that runs in time finds the entry of its own token. */
  lemma ConsumeFindsItsEntry(c: Config, s: State, m: Message, p: Publication)
    requires c.Valid() && Inv(c, s) && m.ConsumeMsg? && m in s.net && c.ConsumesInTime()
    requires Live(s.reg, m.key, s.now) && p in s.published && p.owner == s.reg[m.key].owner
    ensures p.response.callId == m.callId && m.callId !in s.tokens
  {
    assert ConsumeInv(m, s.tokens, s.issues, s.published);
    var own :| own in s.published && own.key == m.key && own.response == Twiml(m.callId, s.issues[m.callId].expMs);
    assert PublicationInv(c, own, s.published, s.requests, s.issues, s.reg, s.now);
    assert s.now < BackedUntil(c, own);
  }

  lemma RunConsumeKeeps(c: Config, s: State, key: Key, callId: CallId, sentMs: int)
    requires c.Valid() && Inv(c, s) && ConsumeMsg(key, callId, sentMs) in s.net
    ensures Inv(c, ConsumeStep(s, key, callId, sentMs))
  {
    var m := ConsumeMsg(key, callId, sentMs);
    if c.ConsumesInTime() && Live(s.reg, key, s.now) {
      forall p | p in s.published && p.owner == s.reg[key].owner ensures p.response.callId !in s.tokens {
        ConsumeFindsItsEntry(c, s, m, p);
      }
    }
    ChangeNetKeeps(c, s, s.net - {m});
    ConsumeKeeps(c, s.(net := s.net - {m}), key);
  }

  lemma ReserveTokenKeeps(c: Config, s: State, callId: CallId, id: ReservationId, d: Disclosure)
    requires Inv(c, s) && callId in s.tokens && d in s.disclosed && d.response.callId == callId
    ensures Inv(c, s.(tokens := Reserved(s.tokens, callId, id)))
  {
    assert Revealed(s.published, d.key, d.response.callId, d.response.expMs);
    var p :| p in s.published && p.key == d.key && p.response == Twiml(callId, d.response.expMs);
    assert PublicationInv(c, p, s.published, s.requests, s.issues, s.reg, s.now);
    ChangeTokensKeeps(c, s, Reserved(s.tokens, callId, id));
  }

  lemma TickKeeps(c: Config, s: State, delta: nat)
    requires Inv(c, s) && NoConsumeOverdue(c, s.net, s.now + delta)
    ensures Inv(c, s.(now := s.now + delta))
  {
    forall p | p in s.published ensures PublicationInv(c, p, s.published, s.requests, s.issues, s.reg, s.now + delta) {
      assert PublicationInv(c, p, s.published, s.requests, s.issues, s.reg, s.now);
    }
    assert CommitsOk(s.commits, s.tokens, s.issues, s.published, s.now + delta);
    assert IssuesOk(c, s.issues, s.now + delta);
  }

  predicate IsHandlerStep(a: Action) {
    || a.Begin? || a.RunReserve? || a.Poll? || a.Wake? || a.Issue? || a.SendComplete? || a.RunComplete?
    || a.Abandon? || a.Respond?
  }

  predicate IsTokenStep(a: Action) {
    a.ReserveToken? || a.RestoreToken? || a.CommitToken? || a.PruneTokens?
  }

  lemma HandlerStepKeepsInv(c: Config, s: State, a: Action)
    requires c.Valid() && Inv(c, s) && Enabled(c, s, a) && IsHandlerStep(a)
    ensures Inv(c, Step(c, s, a))
  {
    match a
    case Begin(owner, key, hash) => BeginKeeps(c, s, owner, key, hash);
    case RunReserve(owner, replied) => RunReserveKeeps(c, s, owner, replied);
    case Poll(owner) => PollKeeps(c, s, owner);
    case Wake(owner, p) => WakeKeeps(c, s, owner, p);
    case Issue(owner, callId, identity) => IssueKeeps(c, s, owner, callId, identity);
    case SendComplete(owner) => SendCompleteKeeps(c, s, owner);
    case RunComplete(owner, response, replied) => RunCompleteKeeps(c, s, owner, response, replied);
    case Abandon(owner) => AbandonKeeps(c, s, owner);
    case Respond(owner) => RespondKeeps(c, s, owner);
  }

  lemma TokenStepKeepsInv(c: Config, s: State, a: Action)
    requires c.Valid() && Inv(c, s) && Enabled(c, s, a) && IsTokenStep(a)
    ensures Inv(c, Step(c, s, a))
  {
    match a
    case ReserveToken(callId, id) =>
      var d :| d in s.disclosed && d.response.callId == callId;
      ReserveTokenKeeps(c, s, callId, id, d);
    case RestoreToken(callId, id) => RestoreKeeps(c, s, callId, id);
    case CommitToken(callId, id) => CommitKeeps(c, s, callId, id);
    case PruneTokens => PruneKeeps(c, s);
  }

  lemma RegisterStepKeepsInv(c: Config, s: State, a: Action)
    requires c.Valid() && Inv(c, s) && Enabled(c, s, a) && !IsHandlerStep(a) && !IsTokenStep(a)
    ensures Inv(c, Step(c, s, a))
  {
    match a
    case RunAbort(key, owner) => RunAbortKeeps(c, s, key, owner);
    case RunConsume(key, callId, sentMs) => RunConsumeKeeps(c, s, key, callId, sentMs);
    case DropExpired(key) => DropExpiredKeeps(c, s, key);
    case Lose(message) => ChangeNetKeeps(c, s, s.net - {message});
    case Tick(delta) => TickKeeps(c, s, delta);
  }

  lemma StepKeepsInv(c: Config, s: State, a: Action)
    requires c.Valid() && Inv(c, s) && Enabled(c, s, a)
    ensures Inv(c, Step(c, s, a))
  {
    if IsHandlerStep(a) {
      HandlerStepKeepsInv(c, s, a);
    } else if IsTokenStep(a) {
      TokenStepKeepsInv(c, s, a);
    } else {
      RegisterStepKeepsInv(c, s, a);
    }
  }

  lemma {:induction false} RunKeepsInv(c: Config, s: State, run: seq<Action>)
    requires c.Valid() && Inv(c, s) && LegalRun(c, s, run)
    ensures Inv(c, After(c, s, run))
    decreases |run|
  {
    if run != [] {
      StepKeepsInv(c, s, run[0]);
      RunKeepsInv(c, Step(c, s, run[0]), run[1..]);
    }
  }

  // ----- Safety of every run -----

  /** At most one disclosed, unexpired token per replay key. */
  lemma AtMostOneDisclosedToken(c: Config, start: int, run: seq<Action>, d: Disclosure, e: Disclosure)
    requires c.Valid() && LegalRun(c, Initial(start), run)
    requires var s := After(c, Initial(start), run);
      && d in s.disclosed && e in s.disclosed && d.key == e.key
      && s.now < d.response.expMs && s.now < e.response.expMs
    ensures d == e
  {
    var s := After(c, Initial(start), run);
    RunKeepsInv(c, Initial(start), run);
    assert Revealed(s.published, d.key, d.response.callId, d.response.expMs);
    assert Revealed(s.published, e.key, e.response.callId, e.response.expMs);
    var p :| p in s.published && p.key == d.key && p.response == d.response;
    var q :| q in s.published && q.key == e.key && q.response == e.response;
    OneUnexpiredPublication(c, s, p, q);
  }

  /** A response is only ever sent to a request with the key and the hash of the request it was issued for. */
  lemma DisclosedToTheSameRequest(c: Config, start: int, run: seq<Action>, d: Disclosure)
    requires c.Valid() && LegalRun(c, Initial(start), run) && d in After(c, Initial(start), run).disclosed
    ensures var s := After(c, Initial(start), run);
      && d.response.callId in s.issues && s.issues[d.response.callId].owner in s.requests
      && s.requests[s.issues[d.response.callId].owner] == Request(d.key, d.hash)
      && s.issues[d.response.callId].expMs == d.response.expMs
  {
    RunKeepsInv(c, Initial(start), run);
    var s := After(c, Initial(start), run);
    assert Revealed(s.published, d.key, d.response.callId, d.response.expMs);
    var p :| p in s.published && p.key == d.key && p.response == d.response;
    assert PublicationInv(c, p, s.published, s.requests, s.issues, s.reg, s.now);
  }

  /** Whenever a token can commit, its replay entry is live, belongs to the request that issued the token, and
      accepts being marked consumed. It is still completed with that very token when consumes are in time, or when
      no earlier token of the key was committed; LateConsumeHitsTheNextEntry shows that one of the two is needed. */
  lemma CommitFindsItsEntry(c: Config, start: int, run: seq<Action>, callId: CallId, id: ReservationId)
    requires c.Valid() && LegalRun(c, Initial(start), run)
    requires var s := After(c, Initial(start), run); CanCommit(s.tokens, callId, id, s.now)
    ensures var s := After(c, Initial(start), run);
      var key := CommitKey(s, callId);
      && Live(s.reg, key, s.now)
      && callId in s.issues && s.reg[key].owner == s.issues[callId].owner
      && Consume(s.reg, s.now, key).1
      && (c.ConsumesInTime() || !HasCommit(s.commits, key) ==>
            s.reg[key].phase == Completed(Twiml(callId, s.tokens[callId].expMs)))
  {
    var s := After(c, Initial(start), run);
    RunKeepsInv(c, Initial(start), run);
    var p := ReservedWasPublished(c, s, callId);
    assert EntryInv(p.key, s.reg[p.key], s.requests, s.published, s.commits);
  }

  /** Two calls admitted under one replay key never overlap: the later one commits after the earlier token expired. */
  lemma CommitsOfOneKeyAreFarApart(c: Config, start: int, run: seq<Action>, i: nat, j: nat)
    requires c.Valid() && LegalRun(c, Initial(start), run)
    requires var s := After(c, Initial(start), run); i < j < |s.commits| && s.commits[i].key == s.commits[j].key
    ensures var s := After(c, Initial(start), run);
      s.commits[i].callId != s.commits[j].callId && s.commits[i].atMs < s.commits[i].expMs <= s.commits[j].atMs
  {
    var s := After(c, Initial(start), run);
    RunKeepsInv(c, Initial(start), run);
    assert Revealed(s.published, s.commits[i].key, s.commits[i].callId, s.commits[i].expMs);
    assert Revealed(s.published, s.commits[j].key, s.commits[j].callId, s.commits[j].expMs);
    var p :| p in s.published && p.response == Twiml(s.commits[i].callId, s.commits[i].expMs);
    var q :| q in s.published && q.response == Twiml(s.commits[j].callId, s.commits[j].expMs);
    assert PublicationInv(c, p, s.published, s.requests, s.issues, s.reg, s.now);
    assert PublicationInv(c, q, s.published, s.requests, s.issues, s.reg, s.now);
  }

  /** A request that gives up before its response is acknowledged leaves an abort behind. Once that has run, whoever
      asks next gets the key, unless the claim was not this request's or its response is published already. A token
      whose completion was not sent is released, and it never was nor can be published; any other token stays. */
  lemma GivingUpFreesTheKey(
    c: Config, start: int, run: seq<Action>, owner: Owner, hash: Hash, next: Owner)
    requires c.Valid() && LegalRun(c, Initial(start), run) && At(After(c, Initial(start), run), owner)
    requires var pc := After(c, Initial(start), run).pcs[owner];
      pc.Reserving? || pc.Owning? || pc.Issued? || pc.Completing?
    ensures var s := After(c, Initial(start), run);
      var key, pc, t := s.requests[owner].key, s.pcs[owner], Step(c, s, Abandon(owner));
      && Enabled(c, t, RunAbort(key, owner))
      && var u := Step(c, t, RunAbort(key, owner));
         && (key in s.reg && s.reg[key].owner == owner && s.reg[key].phase == Pending ==>
               Acquire(u.reg, u.now, key, hash, next, c.replayTtlMs).1 == Owned)
         && (key in s.reg && (s.reg[key].owner != owner || s.reg[key].phase != Pending) ==> u.reg == s.reg)
         && (pc.Issued? ==>
               && u.tokens == s.tokens - {pc.response.callId}
               && (forall p :: p in u.published ==> p.response.callId != pc.response.callId)
               && (forall m :: m in u.net && m.CompleteMsg? ==> m.response.callId != pc.response.callId))
         && (!pc.Issued? ==> u.tokens == s.tokens)
  {
    var s := After(c, Initial(start), run);
    RunKeepsInv(c, Initial(start), run);
    AbandonThenAbort(c, s, owner);
    GivenUp(c, s, owner, hash, next);
  }

  lemma GivenUp(c: Config, s: State, owner: Owner, hash: Hash, next: Owner)
    requires Inv(c, s) && At(s, owner)
    requires var pc := s.pcs[owner]; pc.Reserving? || pc.Owning? || pc.Issued? || pc.Completing?
    ensures var key, pc := s.requests[owner].key, s.pcs[owner];
      var u := AbortStep(AbandonStep(s, owner), key, owner);
      && (key in s.reg && s.reg[key].owner == owner && s.reg[key].phase == Pending ==>
            Acquire(u.reg, u.now, key, hash, next, c.replayTtlMs).1 == Owned)
      && (key in s.reg && (s.reg[key].owner != owner || s.reg[key].phase != Pending) ==> u.reg == s.reg)
      && (pc.Issued? ==>
            && u.tokens == s.tokens - {pc.response.callId}
            && (forall p :: p in u.published ==> p.response.callId != pc.response.callId)
            && (forall m :: m in u.net && m.CompleteMsg? ==> m.response.callId != pc.response.callId))
      && (!pc.Issued? ==> u.tokens == s.tokens)
  {
    AbandonThenAbort(c, s, owner);
    if s.pcs[owner].Issued? { UnsentIsUnpublished(c, s, owner, s.pcs[owner].response); }
  }

  lemma AbandonThenAbort(c: Config, s: State, owner: Owner)
    requires At(s, owner)
    requires var pc := s.pcs[owner]; pc.Reserving? || pc.Owning? || pc.Issued? || pc.Completing?
    ensures var key, pc, t := s.requests[owner].key, s.pcs[owner], AbandonStep(s, owner);
      var u := AbortStep(t, key, owner);
      && Enabled(c, s, Abandon(owner)) && Step(c, s, Abandon(owner)) == t
      && Enabled(c, t, RunAbort(key, owner)) && Step(c, t, RunAbort(key, owner)) == u
      && u.reg == Abort(s.reg, s.now, key, owner).0 && u.now == s.now && u.published == s.published
      && u.tokens == (if pc.Issued? then s.tokens - {pc.response.callId} else s.tokens)
      && (forall m :: m in u.net && m.CompleteMsg? ==> m in s.net)
  {
  }

  lemma UnsentIsUnpublished(c: Config, s: State, owner: Owner, response: Response)
    requires Inv(c, s) && At(s, owner) && s.pcs[owner] == Issued(response)
    ensures forall p :: p in s.published ==> p.response.callId != response.callId
    ensures forall m :: m in s.net && m.CompleteMsg? ==> m.response.callId != response.callId
  {
    assert RequestInv(s.pcs[owner], owner, s.requests, s.net, s.published, s.issues);
    forall p | p in s.published ensures p.response.callId != response.callId {
      assert PublicationInv(c, p, s.published, s.requests, s.issues, s.reg, s.now);
    }
    forall m | m in s.net && m.CompleteMsg? ensures m.response.callId != response.callId {
      assert MessageInv(m, s.net, s.pcs, s.requests, s.issues, s.published, s.reg);
    }
  }

  lemma {:induction false} RunExtends(c: Config, s: State, run: seq<Action>, a: Action)
    requires LegalRun(c, s, run) && Enabled(c, After(c, s, run), a)
    ensures LegalRun(c, s, run + [a]) && After(c, s, run + [a]) == Step(c, After(c, s, run), a)
    decreases |run|
  {
    if run != [] {
      RunExtends(c, Step(c, s, run[0]), run[1..], a);
      assert (run + [a])[1..] == run[1..] + [a];
    } else {
      assert (run + [a])[1..] == [];
      assert LegalRun(c, Step(c, s, a), []);
    }
  }

  /** `t` is reached from `s` by a legal run. */
  ghost predicate Reaches(c: Config, s: State, t: State) {
    exists run :: LegalRun(c, s, run) && After(c, s, run) == t
  }

  lemma ReachesNext(c: Config, s: State, t: State, a: Action)
    requires Reaches(c, s, t) && Enabled(c, t, a)
    ensures Reaches(c, s, Step(c, t, a))
  {
    var run :| LegalRun(c, s, run) && After(c, s, run) == t;
    RunExtends(c, s, run, a);
  }

  lemma ReachesItself(c: Config, s: State)
    ensures Reaches(c, s, s)
  {
    assert LegalRun(c, s, []) && After(c, s, []) == s;
  }

  /** Once in this set, no step leads out of it. */
  ghost predicate Closed(c: Config, reachable: iset<State>) {
    forall t, a :: t in reachable && Enabled(c, t, a) ==> Step(c, t, a) in reachable
  }

  lemma NextIsIn(c: Config, reachable: iset<State>, t: State, a: Action)
    requires Closed(c, reachable) && t in reachable && Enabled(c, t, a)
    ensures Step(c, t, a) in reachable
  {
  }

  /** The reachable states are such a set. */
  lemma ReachableIsClosed(c: Config, s: State) returns (reachable: iset<State>)
    ensures Closed(c, reachable) && s in reachable && forall t :: t in reachable <==> Reaches(c, s, t)
  {
    reachable := iset t | Reaches(c, s, t);
    ReachesItself(c, s);
    forall t, a | t in reachable && Enabled(c, t, a) ensures Step(c, t, a) in reachable { ReachesNext(c, s, t, a); }
  }

  // The stages of one undisturbed request for the key "k", each reachable from the one before.

  lemma SentAndGone(net: set<Message>, m: Message)
    ensures (net + {m}) - {m} == net - {m}
  {
  }

  lemma Overwritten(pcs: map<Owner, Pc>, id: Owner, first: Pc, second: Pc)
    ensures pcs[id := first][id := second] == pcs[id := second]
  {
  }

  lemma TakesKey(c: Config, reachable: iset<State>, m: State, id: nat) returns (t: State)
    requires c.Valid() && Closed(c, reachable) && m in reachable && id !in m.requests && !Live(m.reg, "k", m.now)
    ensures t in reachable
    ensures t == m.(reg := m.reg["k" := Entry("h", id, Pending, m.now + c.replayTtlMs)],
                    requests := m.requests[id := Request("k", "h")], pcs := m.pcs[id := Owning],
                    net := m.net - {ReserveMsg("k", "h", id)})
  {
    NextIsIn(c, reachable, m, Begin(id, "k", "h"));
    t := GetsKey(c, reachable, BeginStep(m, id, "k", "h"), id);
    SentAndGone(m.net, ReserveMsg("k", "h", id));
    Overwritten(m.pcs, id, Reserving, Owning);
  }

  lemma GetsKey(c: Config, reachable: iset<State>, u: State, id: nat) returns (t: State)
    requires c.Valid() && Closed(c, reachable) && u in reachable && id in u.requests
    requires u.requests[id] == Request("k", "h")
    requires id in u.pcs && u.pcs[id] == Reserving && ReserveMsg("k", "h", id) in u.net && !Live(u.reg, "k", u.now)
    ensures t in reachable
    ensures t == u.(reg := u.reg["k" := Entry("h", id, Pending, u.now + c.replayTtlMs)],
                    pcs := u.pcs[id := Owning], net := u.net - {ReserveMsg("k", "h", id)})
  {
    NextIsIn(c, reachable, u, RunReserve(id, true));
    t := ReserveStep(c, u, id, true);
  }

  lemma IssuesToken(c: Config, reachable: iset<State>, m: State, id: nat, identity: CallIdentity) returns (t: State)
    requires c.Valid() && Closed(c, reachable) && m in reachable && At(m, id) && m.pcs[id].Owning? && id !in m.issues
    requires identity.replayKey == Some(m.requests[id].key)
    ensures t in reachable
    ensures t.now == m.now && t.reg == m.reg && t.requests == m.requests && t.net == m.net
    ensures t.pcs == m.pcs[id := Issued(Twiml(id, m.now + c.tokenTtlMs))] && t.issues.Keys == m.issues.Keys + {id}
    ensures id in t.tokens && t.tokens[id] == TokenEntry(m.now + c.tokenTtlMs, identity, None)
  {
    NextIsIn(c, reachable, m, Issue(id, id, identity));
    t := IssueStep(c, m, id, id, identity);
  }

  lemma PublishesToken(c: Config, reachable: iset<State>, m: State, id: nat, response: Response) returns (t: State)
    requires c.Valid() && Closed(c, reachable) && m in reachable && At(m, id) && m.requests[id].key == "k"
    requires m.pcs[id] == Issued(response)
    requires Live(m.reg, "k", m.now) && m.reg["k"].owner == id && m.reg["k"].phase == Pending
    ensures t in reachable
    ensures t ==
      m.(reg := m.reg["k" := m.reg["k"].(phase := Completed(response), expiresAtMs := m.now + c.replayTtlMs)],
                    pcs := m.pcs[id := Acked(response)], net := m.net - {CompleteMsg("k", id, response)},
                    published := m.published + {Publication("k", id, response)})
  {
    NextIsIn(c, reachable, m, SendComplete(id));
    var u := SendCompleteStep(m, id);
    t := CompletesToken(c, reachable, u, id, response);
    SentAndGone(m.net, CompleteMsg("k", id, response));
    Overwritten(m.pcs, id, Completing(response), Acked(response));
  }

  lemma CompletesToken(c: Config, reachable: iset<State>, u: State, id: nat, response: Response) returns (t: State)
    requires c.Valid() && Closed(c, reachable) && u in reachable && At(u, id) && u.requests[id].key == "k"
    requires u.pcs[id] == Completing(response)
    requires Live(u.reg, "k", u.now) && u.reg["k"].owner == id && u.reg["k"].phase == Pending
    requires CompleteMsg("k", id, response) in u.net
    ensures t in reachable
    ensures t ==
      u.(reg := u.reg["k" := u.reg["k"].(phase := Completed(response), expiresAtMs := u.now + c.replayTtlMs)],
                    pcs := u.pcs[id := Acked(response)], net := u.net - {CompleteMsg("k", id, response)},
                    published := u.published + {Publication("k", id, response)})
  {
    NextIsIn(c, reachable, u, RunComplete(id, response, true));
    t := CompleteStep(c, u, id, response, true);
  }

  lemma ReservesToken(c: Config, reachable: iset<State>, m: State, id: nat, response: Response) returns (t: State)
    requires c.Valid() && Closed(c, reachable) && m in reachable && At(m, id) && m.pcs[id] == Acked(response)
    requires CanReserve(m.tokens, response.callId, response.expMs, m.now)
    ensures t in reachable && t.now == m.now && t.reg == m.reg && t.requests == m.requests
    ensures t.net == m.net && t.issues == m.issues && t.tokens == Reserved(m.tokens, response.callId, id)
  {
    NextIsIn(c, reachable, m, Respond(id));
    var u := RespondStep(m, id);
    assert Disclosure(m.requests[id].key, m.requests[id].hash, response) in u.disclosed;
    NextIsIn(c, reachable, u, ReserveToken(response.callId, id));
    t := u.(tokens := Reserved(u.tokens, response.callId, id));
  }

  /** From any reachable state whose key "k" is free, one undisturbed request can be admitted. */
  lemma Admission(c: Config, reachable: iset<State>, m: State, id: nat, identity: CallIdentity) returns (t: State)
    requires c.Valid() && Closed(c, reachable) && m in reachable && id !in m.requests && id !in m.issues
    requires identity.replayKey == Some("k") && !Live(m.reg, "k", m.now)
    ensures t in reachable && t.now == m.now
    ensures "k" in t.reg
    ensures t.reg["k"] == Entry("h", id, Completed(Twiml(id, m.now + c.tokenTtlMs)), m.now + c.replayTtlMs)
    ensures t.requests.Keys == m.requests.Keys + {id} && t.issues.Keys == m.issues.Keys + {id}
    ensures t.net == m.net - {ReserveMsg("k", "h", id)} - {CompleteMsg("k", id, Twiml(id, m.now + c.tokenTtlMs))}
    ensures id in t.tokens && t.tokens[id] == TokenEntry(m.now + c.tokenTtlMs, identity, Some(id))
  {
    var response := Twiml(id, m.now + c.tokenTtlMs);
    t := TakesKey(c, reachable, m, id);
    t := IssuesToken(c, reachable, t, id, identity);
    t := PublishesToken(c, reachable, t, id, response);
    t := ReservesToken(c, reachable, t, id, response);
  }

  /** A single command that may take longer than its entry lasts. */
  lemma StillOnItsWay(c: Config, m: Message)
    requires c.Valid() && !c.ConsumesInTime() && m.ConsumeMsg? && m.sentMs == c.tokenTtlMs - 1
    ensures NoConsumeOverdue(c, {m}, c.replayTtlMs)
  {
  }

  /** A call was admitted just before its token expired, its consume command is still under way, and its register
      entry has expired. */
  lemma FirstCall(c: Config, reachable: iset<State>, s: State, identity: CallIdentity) returns (t: State)
    requires Closed(c, reachable) && s in reachable && c.Valid() && !c.ConsumesInTime()
    requires identity.replayKey == Some("k")
    requires s.now == 0 && s.reg == map[] && s.requests == map[] && s.issues == map[] && s.net == {}
    ensures t in reachable && t.now == c.replayTtlMs && !Live(t.reg, "k", t.now)
    ensures t.requests.Keys == {1} && t.issues.Keys == {1} && t.net == {ConsumeMsg("k", 1, c.tokenTtlMs - 1)}
  {
    var m := Admission(c, reachable, s, 1, identity);
    assert m.net == {};
    var u := TimePasses(c, reachable, m, c.tokenTtlMs - 1);
    var v := CommitsToken(c, reachable, u, 1, identity);
    assert v.net == {ConsumeMsg("k", 1, c.tokenTtlMs - 1)};
    StillOnItsWay(c, ConsumeMsg("k", 1, c.tokenTtlMs - 1));
    t := TimePasses(c, reachable, v, c.replayTtlMs - (c.tokenTtlMs - 1));
  }

  lemma CommitsToken(c: Config, reachable: iset<State>, m: State, id: nat, identity: CallIdentity) returns (t: State)
    requires Closed(c, reachable) && !c.processLocal && m in reachable && identity.replayKey == Some("k")
    requires id in m.tokens && m.now < m.tokens[id].expMs
    requires m.tokens[id] == TokenEntry(m.tokens[id].expMs, identity, Some(id))
    ensures t in reachable && t.now == m.now && t.reg == m.reg && t.requests == m.requests && t.issues == m.issues
    ensures t.net == m.net + {ConsumeMsg("k", id, m.now)}
  {
    NextIsIn(c, reachable, m, CommitToken(id, id));
    t := CommitStep(c, m, id);
  }

  lemma TimePasses(c: Config, reachable: iset<State>, m: State, delta: nat) returns (t: State)
    requires Closed(c, reachable) && m in reachable && NoConsumeOverdue(c, m.net, m.now + delta)
    ensures t in reachable && t == m.(now := m.now + delta)
  {
    NextIsIn(c, reachable, m, Tick(delta));
    t := m.(now := m.now + delta);
  }

  /** A consume command that may take longer than its entry lasts may run late and mark the next, still unused,
      publication of the key as consumed. */
  lemma LateConsumeHitsTheNextEntry(c: Config) returns (t: State, callId: CallId)
    requires c.Valid() && !c.ConsumesInTime()
    ensures Reaches(c, Initial(0), t) && CanCommit(t.tokens, callId, callId, t.now)
    ensures CommitKey(t, callId) in t.reg && t.reg[CommitKey(t, callId)].phase == Consumed
  {
    var identity := CallIdentity("from", "to", "sid", None, Some("k"));
    var reachable := ReachableIsClosed(c, Initial(0));
    var late := FirstCall(c, reachable, Initial(0), identity);
    var second := Admission(c, reachable, late, 2, identity);
    t := ConsumesLate(c, reachable, second, 2, ConsumeMsg("k", 1, c.tokenTtlMs - 1));
    callId := 2;
  }

  lemma ConsumesLate(c: Config, reachable: iset<State>, m: State, id: nat, late: Message) returns (t: State)
    requires Closed(c, reachable) && m in reachable && late.ConsumeMsg? && late.key == "k" && late in m.net
    requires Live(m.reg, "k", m.now) && m.reg["k"].phase.Completed?
    requires id in m.tokens && m.tokens[id].identity.replayKey == Some("k")
    ensures t in reachable && t.now == m.now && t.tokens == m.tokens
    ensures CommitKey(t, id) == "k" && "k" in t.reg && t.reg["k"].phase == Consumed
  {
    NextIsIn(c, reachable, m, RunConsume("k", late.callId, late.sentMs));
    t := ConsumeStep(m, "k", late.callId, late.sentMs);
  }

  predicate MayCommit(s: State, callId: CallId, id: ReservationId) { CanCommit(s.tokens, callId, id, s.now) }

  /** In every run, a token that can commit finds its entry completed with that very token. */
  ghost predicate CompletedAtCommit(c: Config) {
    forall start, run, callId, id ::
      LegalRun(c, Initial(start), run) && MayCommit(After(c, Initial(start), run), callId, id) ==>
        var s := After(c, Initial(start), run);
        && CommitKey(s, callId) in s.reg
        && s.reg[CommitKey(s, callId)].phase == Completed(Twiml(callId, s.tokens[callId].expMs))
  }

  /** The promise is kept exactly by the process-local register, and by a shared one whose consume commands take no
      longer than the replay lifetime exceeds the token's. */
  lemma CompletedAtCommitIff(c: Config)
    requires c.Valid()
    ensures CompletedAtCommit(c) <==>
      c.processLocal || (c.consumeWithinMs.Some? && c.consumeWithinMs.value <= c.replayTtlMs - c.tokenTtlMs)
  {
    if c.ConsumesInTime() {
      forall start, run, callId, id
        | LegalRun(c, Initial(start), run) && MayCommit(After(c, Initial(start), run), callId, id)
        ensures var s := After(c, Initial(start), run);
          && CommitKey(s, callId) in s.reg
          && s.reg[CommitKey(s, callId)].phase == Completed(Twiml(callId, s.tokens[callId].expMs))
      {
        CommitFindsItsEntry(c, start, run, callId, id);
      }
    } else {
      var t, callId := LateConsumeHitsTheNextEntry(c);
      var run :| LegalRun(c, Initial(0), run) && After(c, Initial(0), run) == t;
      assert MayCommit(After(c, Initial(0), run), callId, callId);
    }
  }
}
