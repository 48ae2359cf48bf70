/** The sliding-window limiter of voice session mints: per user the times still in the window, pruned on every
    request for the user at hand and, by a cursor over all users, for a bounded number of others. */
module MintRateLimiter {
  import opened Wrappers
  import opened LiveKeys
  import opened Sets

  type User = string

  const WINDOW := 60_000
  const MAX_ATTEMPTS := 1_000
  const MAX_USERS := 10_000
  const MAX_PRUNED := 32

  datatype Verdict = Allowed | RateLimited | CapacityExceeded

  // ----- The full log of allowed mints -----

  datatype Mint = Mint(user: User, time: int)

  /** The times of one user's mints, oldest first. */
  function Times(log: seq<Mint>, user: User): seq<int> {
    if log == [] then []
    else
      var last := log[|log| - 1];
      Times(log[..|log| - 1], user) + if last.user == user then [last.time] else []
  }

  function After(times: seq<int>, cutoff: int): seq<int> {
    if times == [] then []
    else
      var last := times[|times| - 1];
      After(times[..|times| - 1], cutoff) + if last > cutoff then [last] else []
  }

  /** How many of the user's mints fall into the half-open window. */
  function CountIn(log: seq<Mint>, user: User, from: int, to: int): nat {
    if log == [] then 0
    else
      var last := log[|log| - 1];
      CountIn(log[..|log| - 1], user, from, to) + if last.user == user && from <= last.time < to then 1 else 0
  }

  /** Times never decrease, and each mint was preceded by fewer than `limit` of its user's in the window before it. */
  ghost predicate Admitted(log: seq<Mint>, limit: nat) {
    || log == []
    || var rest, last := log[..|log| - 1], log[|log| - 1];
       && Admitted(rest, limit)
       && (forall m :: m in rest ==> m.time <= last.time)
       && |After(Times(rest, last.user), last.time - WINDOW)| < limit
  }

  /** The user's mints in the window before a request. */
  function Recent(log: seq<Mint>, user: User, time: int): nat { |After(Times(log, user), time - WINDOW)| }

  /** These are the user's mints after the time one minute before the request. */
  lemma {:induction false} RecentIsCount(log: seq<Mint>, user: User, time: int)
    requires forall m :: m in log ==> m.time <= time
    ensures Recent(log, user, time) == CountIn(log, user, time - 59_999, time + 1)
  {
    if log != [] {
      var rest, last := log[..|log| - 1], log[|log| - 1];
      assert log == rest + [last];
      RecentIsCount(rest, user, time);
      if last.user == user {
        var times := Times(log, user);
        assert times[..|times| - 1] == Times(rest, user);
      } else {
        assert Times(log, user) == Times(rest, user);
      }
    }
  }

  lemma {:induction false} CountIsWithinAfter(log: seq<Mint>, user: User, from: int, to: int, cutoff: int)
    requires cutoff < from
    ensures CountIn(log, user, from, to) <= |After(Times(log, user), cutoff)|
  {
    if log != [] {
      var rest, last := log[..|log| - 1], log[|log| - 1];
      CountIsWithinAfter(rest, user, from, to, cutoff);
      if last.user == user {
        var times := Times(log, user);
        assert times[..|times| - 1] == Times(rest, user);
      } else {
        assert Times(log, user) == Times(rest, user);
      }
    }
  }

  /** No window of a minute holds more than `limit` mints of a user, wherever it starts. */
  lemma {:induction false} EveryWindowIsBounded(log: seq<Mint>, limit: nat, user: User, from: int)
    requires Admitted(log, limit)
    ensures CountIn(log, user, from, from + 60_000) <= limit
  {
    if log != [] {
      var rest, last := log[..|log| - 1], log[|log| - 1];
      EveryWindowIsBounded(rest, limit, user, from);
      if last.user == user && from <= last.time < from + 60_000 {
        CountIsWithinAfter(rest, user, from, from + 60_000, last.time - 60_000);
      }
    }
  }

  // ----- Pruned times stand for the full log -----

  lemma AfterAppend(times: seq<int>, time: int, cutoff: int)
    ensures After(times + [time], cutoff) == After(times, cutoff) + if time > cutoff then [time] else []
  {
    assert (times + [time])[..|times|] == times;
  }

  lemma {:induction false} AfterAfter(times: seq<int>, cutoff: int, later: int)
    requires cutoff <= later
    ensures After(After(times, cutoff), later) == After(times, later)
  {
    if times != [] {
      var rest, last := times[..|times| - 1], times[|times| - 1];
      AfterAfter(rest, cutoff, later);
      AfterAppend(After(rest, cutoff), last, later);
      assert After(rest, cutoff) + [] == After(rest, cutoff);
    }
  }

  function Of(attempts: map<User, seq<int>>, user: User): seq<int> { if user in attempts then attempts[user] else [] }

  /** For the window now and all later ones, the kept times are as good as the log. */
  ghost predicate Faithful(attempts: map<User, seq<int>>, log: seq<Mint>, cutoff: int) {
    forall user, later :: cutoff <= later ==> After(Of(attempts, user), later) == After(Times(log, user), later)
  }

  function Pruned(attempts: map<User, seq<int>>, user: User, cutoff: int): map<User, seq<int>> {
    var kept := After(Of(attempts, user), cutoff);
    if kept == [] then attempts - {user} else attempts[user := kept]
  }

  lemma PrunedAt(attempts: map<User, seq<int>>, user: User, cutoff: int, other: User)
    ensures Of(Pruned(attempts, user, cutoff), other) ==
      if other == user then After(Of(attempts, user), cutoff) else Of(attempts, other)
  {
  }

  lemma PruningKeepsFaithful(attempts: map<User, seq<int>>, log: seq<Mint>, cutoff: int, user: User)
    requires Faithful(attempts, log, cutoff)
    ensures Faithful(Pruned(attempts, user, cutoff), log, cutoff)
  {
    var next := Pruned(attempts, user, cutoff);
    forall other, later | cutoff <= later ensures After(Of(next, other), later) == After(Times(log, other), later) {
      PrunedAt(attempts, user, cutoff, other);
      AfterAfter(Of(attempts, user), cutoff, later);
    }
  }

  lemma MintKeepsFaithful(attempts: map<User, seq<int>>, log: seq<Mint>, cutoff: int, user: User, time: int)
    requires Faithful(attempts, log, cutoff)
    ensures Faithful(attempts[user := Of(attempts, user) + [time]], log + [Mint(user, time)], cutoff)
  {
    var next, longer := attempts[user := Of(attempts, user) + [time]], log + [Mint(user, time)];
    assert longer[..|log|] == log;
    forall other, later | cutoff <= later ensures After(Of(next, other), later) == After(Times(longer, other), later) {
      if other == user {
        AfterAppend(Of(attempts, user), time, later);
        AfterAppend(Times(log, user), time, later);
      } else {
        assert Times(longer, other) == Times(log, other);
      }
    }
  }

  /** The number of users tracked. */
  function Size(attempts: map<User, seq<int>>): nat { |attempts.Keys| }

  lemma UpdateSize(attempts: map<User, seq<int>>, user: User, times: seq<int>)
    ensures Size(attempts[user := times]) == Size(attempts) + if user in attempts then 0 else 1
  {
    assert attempts[user := times].Keys == attempts.Keys + {user};
  }

  // ----- Pruning several users -----

  ghost predicate IndexedBy(attempts: map<User, seq<int>>, keys: KeyLog<User>) {
    && keys.Valid()
    && (forall user :: user in attempts <==> keys.Has(user))
    && (forall user :: user in attempts ==> attempts[user] != [])
  }

  /** These users have only their recent times left, the others have what they had. */
  ghost predicate PrunedFor(
    before: map<User, seq<int>>, after: map<User, seq<int>>, users: seq<User>, cutoff: int)
  {
    forall user ::
      Of(after, user) == if user in users then After(Of(before, user), cutoff) else Of(before, user)
  }

  lemma PrunedForOne(before: map<User, seq<int>>, user: User, cutoff: int)
    ensures PrunedFor(before, Pruned(before, user, cutoff), [user], cutoff)
  {
    forall other { PrunedAt(before, user, cutoff, other); }
  }

  lemma PrunedForMore(
    before: map<User, seq<int>>, mid: map<User, seq<int>>, after: map<User, seq<int>>,
    first: seq<User>, second: seq<User>, cutoff: int)
    requires PrunedFor(before, mid, first, cutoff) && PrunedFor(mid, after, second, cutoff)
    ensures PrunedFor(before, after, first + second, cutoff)
  {
    forall user { AfterAfter(Of(before, user), cutoff, cutoff); }
  }

  lemma PrunedForKeepsFaithful(
    before: map<User, seq<int>>, after: map<User, seq<int>>, users: seq<User>, log: seq<Mint>, cutoff: int)
    requires PrunedFor(before, after, users, cutoff) && Faithful(before, log, cutoff)
    ensures Faithful(after, log, cutoff)
  {
    forall user, later | cutoff <= later ensures After(Of(after, user), later) == After(Times(log, user), later) {
      AfterAfter(Of(before, user), cutoff, later);
    }
  }

  /** The users still tracked after these have been pruned. */
  function Left(before: map<User, seq<int>>, users: seq<User>, cutoff: int): set<User> {
    set user | user in before && (user in users ==> After(before[user], cutoff) != [])
  }

  lemma LeftAreTracked(
    before: map<User, seq<int>>, after: map<User, seq<int>>, users: seq<User>, keys: KeyLog<User>, cutoff: int)
    requires PrunedFor(before, after, users, cutoff) && IndexedBy(after, keys)
    requires forall user :: user in before ==> before[user] != []
    ensures after.Keys == Left(before, users, cutoff) && Size(after) <= Size(before)
  {
    forall user ensures user in after <==> user in Left(before, users, cutoff) {
      assert user in after <==> Of(after, user) != [];
    }
    SubsetSize(after.Keys, before.Keys);
  }

  // ----- Whose turn it is -----

  function FirstOf(order: seq<User>, n: nat): seq<User> { if n <= |order| then order[..n] else order }

  /** The next `n` users from the cursor on, or all of them. */
  function Turn(keys: KeyLog<User>, n: nat): seq<User>
    requires keys.cursor <= |keys.cells|
  {
    FirstOf(keys.Order(), n)
  }

  /** Whoever a request prunes: its own user first, and then those whose turn it is. */
  function InTurn(attempts: map<User, seq<int>>, keys: KeyLog<User>, user: User, cutoff: int): seq<User>
    requires keys.cursor <= |keys.cells|
  {
    [user] + Turn(if After(Of(attempts, user), cutoff) == [] then keys.Remove(user) else keys, MAX_PRUNED)
  }

  /** After `n` inspections those who were next in `order` have been pruned, and the others are next. */
  ghost predicate Round(
    before: map<User, seq<int>>, order: seq<User>, attempts: map<User, seq<int>>, keys: KeyLog<User>, n: nat,
    cutoff: int)
  {
    && IndexedBy(attempts, keys)
    && PrunedFor(before, attempts, FirstOf(order, n), cutoff)
    && (n <= |order| ==> order[n..] <= keys.Order())
  }

  lemma RoundStarts(attempts: map<User, seq<int>>, keys: KeyLog<User>, cutoff: int)
    requires IndexedBy(attempts, keys)
    ensures Round(attempts, keys.Order(), attempts, keys, 0, cutoff)
  {
    assert keys.Order()[0..] == keys.Order();
  }

  lemma RoundStartsOver(
    before: map<User, seq<int>>, order: seq<User>, attempts: map<User, seq<int>>, keys: KeyLog<User>, n: nat,
    cutoff: int)
    requires Round(before, order, attempts, keys, n, cutoff) && attempts != map[]
    requires keys.Seek(keys.cursor) == |keys.cells|
    ensures Round(before, order, attempts, keys.Restart(), n, cutoff)
    ensures keys.Restart().Seek(0) < |keys.cells|
  {
    var some :| some in attempts;
    RestartFindsAKey(keys, some);
    OrderStartsOver(keys);
    MovingKeeps(keys, 0);
  }

  lemma InspectedIsIndexed(attempts: map<User, seq<int>>, keys: KeyLog<User>, j: nat, cutoff: int)
    requires IndexedBy(attempts, keys) && j < |keys.cells| && keys.cells[j].Some?
    ensures var user := keys.cells[j].value;
      IndexedBy(Pruned(attempts, user, cutoff), Passed(keys, j, After(Of(attempts, user), cutoff) == []))
  {
    var user := keys.cells[j].value;
    PassedKeeps(keys, j, After(Of(attempts, user), cutoff) == []);
    assert keys.Has(user);
  }

  lemma NextInOrder(order: seq<User>, n: nat, keys: KeyLog<User>, j: nat, gone: bool)
    requires keys.Valid() && j == keys.Seek(keys.cursor) < |keys.cells| && n < |order| && order[n..] <= keys.Order()
    requires Passed(keys, j, gone).Valid()
    ensures order[n] == keys.cells[j].value && order[n + 1..] <= Passed(keys, j, gone).Order()
  {
    var now, next := keys.Order(), Passed(keys, j, gone).Order();
    PassedOrder(keys, j, gone, now, next);
    Tails(order, n, now, next);
  }

  lemma Tails(order: seq<User>, n: nat, now: seq<User>, next: seq<User>)
    requires n < |order| && order[n..] <= now && now[1..] <= next
    ensures order[n] == now[0] && order[n + 1..] <= next
  {
    assert order[n..][0] == order[n] && order[n..][1..] == order[n + 1..];
    assert order[n..][1..] <= now[1..];
  }

  /** A user who is not next any more was pruned before, and pruning again changes nothing. */
  lemma RoundPrunes(
    before: map<User, seq<int>>, attempts: map<User, seq<int>>, users: seq<User>, more: seq<User>, user: User,
    cutoff: int)
    requires PrunedFor(before, attempts, users, cutoff) && forall other :: other in more <==> other in users + [user]
    ensures PrunedFor(before, Pruned(attempts, user, cutoff), more, cutoff)
  {
    PrunedForOne(attempts, user, cutoff);
    PrunedForMore(before, attempts, Pruned(attempts, user, cutoff), users, [user], cutoff);
  }

  lemma FirstAndNext(order: seq<User>, n: nat, user: User)
    requires if n < |order| then user == order[n] else user in order
    ensures forall other :: other in FirstOf(order, n + 1) <==> other in FirstOf(order, n) + [user]
  {
    if n < |order| { assert order[..n + 1] == order[..n] + [user]; }
  }

  lemma RoundGoesOn(
    before: map<User, seq<int>>, order: seq<User>, attempts: map<User, seq<int>>, keys: KeyLog<User>, n: nat,
    cutoff: int, j: nat)
    requires Round(before, order, attempts, keys, n, cutoff) && j == keys.Seek(keys.cursor) < |keys.cells|
    requires forall user :: user in before ==> user in order
    ensures var user := keys.cells[j].value;
      var passed := Passed(keys, j, After(Of(attempts, user), cutoff) == []);
      Round(before, order, Pruned(attempts, user, cutoff), passed, n + 1, cutoff)
  {
    var user := keys.cells[j].value;
    InspectedIsIndexed(attempts, keys, j, cutoff);
    if n < |order| {
      NextInOrder(order, n, keys, j, After(Of(attempts, user), cutoff) == []);
    } else {
      assert keys.Has(user) && Of(attempts, user) != [];
      TrackedWasTracked(before, attempts, FirstOf(order, n), user, cutoff);
    }
    FirstAndNext(order, n, user);
    RoundPrunes(before, attempts, FirstOf(order, n), FirstOf(order, n + 1), user, cutoff);
  }

  lemma TrackedWasTracked(
    before: map<User, seq<int>>, attempts: map<User, seq<int>>, users: seq<User>, user: User, cutoff: int)
    requires PrunedFor(before, attempts, users, cutoff) && Of(attempts, user) != []
    ensures user in before
  {
    assert After([], cutoff) == [];
  }

  /** A turn at least as long as there are users left is everyone's. */
  lemma EveryoneHasATurn(
    before: map<User, seq<int>>, mid: map<User, seq<int>>, keys: KeyLog<User>, user: User, cutoff: int)
    requires PrunedFor(before, mid, [user], cutoff) && IndexedBy(mid, keys) && Size(mid) <= MAX_PRUNED
    requires forall other :: other in before ==> before[other] != []
    ensures forall other :: other in before ==> other in [user] + Turn(keys, MAX_PRUNED)
  {
    OrderIsKeys(keys, mid.Keys);
    forall other | other in before && other != user ensures other in mid { assert Of(mid, other) != []; }
  }

  /** How many users a request leaves tracked before its own mint counts. */
  function TrackedAfter(attempts: map<User, seq<int>>, keys: KeyLog<User>, user: User, cutoff: int): nat
    requires keys.cursor <= |keys.cells|
  {
    |Left(attempts, InTurn(attempts, keys, user, cutoff), cutoff)|
  }

  /** The users with a mint after the cutoff. */
  function Active(log: seq<Mint>, cutoff: int): set<User> {
    set m | m in log && m.time > cutoff :: m.user
  }

  function ActiveUsers(log: seq<Mint>, cutoff: int): nat { |Active(log, cutoff)| }

  lemma {:induction false} ActiveHaveTimes(log: seq<Mint>, user: User, cutoff: int)
    ensures user in Active(log, cutoff) <==> After(Times(log, user), cutoff) != []
  {
    if log != [] {
      var rest, last := log[..|log| - 1], log[|log| - 1];
      assert log == rest + [last];
      ActiveHaveTimes(rest, user, cutoff);
      assert user in Active(log, cutoff) <==>
        user in Active(rest, cutoff) || (last.user == user && last.time > cutoff);
      if last.user == user {
        AfterAppend(Times(rest, user), last.time, cutoff);
      } else {
        assert Times(log, user) == Times(rest, user);
      }
    }
  }

  /** When everyone has been pruned, those tracked are those with a mint in the window. */
  lemma TrackedAreActive(
    before: map<User, seq<int>>, after: map<User, seq<int>>, users: seq<User>, keys: KeyLog<User>, log: seq<Mint>,
    cutoff: int)
    requires Faithful(before, log, cutoff) && PrunedFor(before, after, users, cutoff) && IndexedBy(after, keys)
    requires forall user :: user in before ==> user in users
    ensures after.Keys == Active(log, cutoff)
  {
    forall user ensures user in after <==> user in Active(log, cutoff) {
      assert After(Of(before, user), cutoff) == After(Times(log, user), cutoff);
      assert user in after <==> Of(after, user) != [];
      ActiveHaveTimes(log, user, cutoff);
    }
  }

  /** The loop ends after `all` inspections, or when no user is left: pruning more would not have changed that. */
  lemma RoundEnds(
    before: map<User, seq<int>>, order: seq<User>, attempts: map<User, seq<int>>, keys: KeyLog<User>, n: nat, all: nat,
    cutoff: int)
    requires Round(before, order, attempts, keys, n, cutoff) && n <= all && (n < all ==> attempts == map[])
    ensures PrunedFor(before, attempts, FirstOf(order, all), cutoff)
  {
    if n < all {
      assert forall user :: user in FirstOf(order, n) ==> user in FirstOf(order, all);
      assert After([], cutoff) == [];
    }
  }

  /** The two prunings of a request together. */
  lemma RequestPrunes(
    before: map<User, seq<int>>, mid: map<User, seq<int>>, after: map<User, seq<int>>,
    midKeys: KeyLog<User>, keys: KeyLog<User>, user: User, log: seq<Mint>, cutoff: int)
    requires Faithful(before, log, cutoff) && forall other :: other in before ==> before[other] != []
    requires mid == Pruned(before, user, cutoff) && IndexedBy(mid, midKeys)
    requires PrunedFor(mid, after, Turn(midKeys, MAX_PRUNED), cutoff) && IndexedBy(after, keys)
    ensures Faithful(after, log, cutoff)
    ensures after.Keys == Left(before, [user] + Turn(midKeys, MAX_PRUNED), cutoff) && Size(after) <= Size(before)
    ensures Of(after, user) == After(Of(before, user), cutoff) == After(Times(log, user), cutoff)
    ensures Size(before) <= MAX_PRUNED ==> after.Keys == Active(log, cutoff)
  {
    var turn := Turn(midKeys, MAX_PRUNED);
    PrunedForOne(before, user, cutoff);
    PrunedForMore(before, mid, after, [user], turn, cutoff);
    PrunedForKeepsFaithful(before, after, [user] + turn, log, cutoff);
    LeftAreTracked(before, after, [user] + turn, keys, cutoff);
    if Size(before) <= MAX_PRUNED {
      LeftAreTracked(before, mid, [user], midKeys, cutoff);
      EveryoneHasATurn(before, mid, midKeys, user, cutoff);
      TrackedAreActive(before, after, [user] + turn, keys, log, cutoff);
    }
  }

  // ----- The limiter -----

  class MintRateLimiter {
    const limitPerMinute: nat
    const maxTrackedUsers: nat
    var attempts: map<User, seq<int>>
    var keys: KeyLog<User>
    ghost var log: seq<Mint>
    ghost var clock: int

    ghost predicate Indexed()
      reads this
    {
      IndexedBy(attempts, keys)
    }

    /** The log is admitted, its times are past, and the kept times stand for it; the cap on users holds. */
    ghost predicate Valid()
      reads this
    {
      && 1 <= limitPerMinute <= MAX_ATTEMPTS && 1 <= maxTrackedUsers <= MAX_USERS
      && Indexed()
      && Size(attempts) <= maxTrackedUsers
      && Faithful(attempts, log, clock - WINDOW)
      && Admitted(log, limitPerMinute)
      && (forall m :: m in log ==> m.time <= clock)
    }

    constructor (limitPerMinute: nat, maxTrackedUsers: nat, start: int)
      requires 1 <= limitPerMinute <= MAX_ATTEMPTS && 1 <= maxTrackedUsers <= MAX_USERS
      ensures Valid() && log == [] && attempts == map[] && clock == start
      ensures this.limitPerMinute == limitPerMinute && this.maxTrackedUsers == maxTrackedUsers
    {
      this.limitPerMinute := limitPerMinute;
      this.maxTrackedUsers := maxTrackedUsers;
      attempts := map[];
      keys := KeyLog([], 0);
      log := [];
      clock := start;
    }

    method PruneUser(user: User, cutoff: int) returns (recent: seq<int>)
      requires Indexed()
      modifies this`attempts, this`keys
      ensures Indexed() && attempts == Pruned(old(attempts), user, cutoff)
      ensures keys == if recent == [] then old(keys).Remove(user) else old(keys)
      ensures recent == After(Of(old(attempts), user), cutoff)
    {
      var timestamps := Of(attempts, user);
      recent := [];
      for i := 0 to |timestamps|
        invariant recent == After(timestamps[..i], cutoff)
      {
        assert timestamps[..i + 1][..i] == timestamps[..i] && timestamps[..i + 1][i] == timestamps[i];
        if timestamps[i] > cutoff { recent := recent + [timestamps[i]]; }
      }
      assert timestamps[..|timestamps|] == timestamps;
      RemoveKeeps(keys, user);
      if recent == [] {
        attempts := attempts - {user};
        keys := keys.Remove(user);
      } else {
        attempts := attempts[user := recent];
      }
    }

    /** Where the shared cursor stops next; a finished one starts over, and then finds a user. */
    method NextUser() returns (next: Option<User>)
      requires Indexed() && attempts != map[]
      modifies this`keys
      ensures Indexed()
      ensures var j := old(keys).Seek(old(keys).cursor);
        if j < |old(keys).cells| then next == old(keys).cells[j] && keys == old(keys).(cursor := j + 1)
        else next.None? && keys == old(keys).Restart()
    {
      var j := keys.Seek(keys.cursor);
      if j < |keys.cells| {
        next := keys.cells[j];
        MovingKeeps(keys, j + 1);
        keys := keys.(cursor := j + 1);
      } else {
        next := None;
        MovingKeeps(keys, 0);
        keys := keys.Restart();
      }
    }

    method TakeNext(cutoff: int) returns (done: bool)
      requires Indexed() && attempts != map[]
      modifies this`attempts, this`keys
      ensures done <==> old(keys).Seek(old(keys).cursor) < |old(keys).cells|
      ensures done ==>
        var j := old(keys).Seek(old(keys).cursor);
        var user := old(keys).cells[j].value;
        && attempts == Pruned(old(attempts), user, cutoff)
        && keys == Passed(old(keys), j, After(Of(old(attempts), user), cutoff) == [])
      ensures !done ==> attempts == old(attempts) && keys == old(keys).Restart()
    {
      var next := NextUser();
      done := next.Some?;
      if done { var _ := PruneUser(next.value, cutoff); }
    }

    /** One turn of the loop below. */
    method Inspect(
      cutoff: int, ghost before: map<User, seq<int>>, ghost order: seq<User>, ghost n: nat) returns (done: bool)
      requires Round(before, order, attempts, keys, n, cutoff) && attempts != map[]
      requires forall user :: user in before ==> user in order
      modifies this`attempts, this`keys
      ensures Round(before, order, attempts, keys, if done then n + 1 else n, cutoff)
      ensures !done ==> old(keys.Seek(keys.cursor) == |keys.cells|) && keys.Seek(keys.cursor) < |keys.cells|
    {
      ghost var j := keys.Seek(keys.cursor);
      if j < |keys.cells| {
        RoundGoesOn(before, order, attempts, keys, n, cutoff, j);
      } else {
        RoundStartsOver(before, order, attempts, keys, n, cutoff);
      }
      done := TakeNext(cutoff);
    }

    /** At most 32 users are inspected, each when its turn comes. */
    method PruneSome(cutoff: int)
      requires Indexed()
      modifies this`attempts, this`keys
      ensures Indexed() && PrunedFor(old(attempts), attempts, Turn(old(keys), 32), cutoff)
    {
      OrderIsKeys(keys, attempts.Keys);
      RoundStarts(attempts, keys, cutoff);
      PruneInOrder(cutoff, keys.Order());
    }

    /** The loop ends although a finished cursor starts over. */
    method PruneInOrder(cutoff: int, ghost order: seq<User>)
      requires Round(attempts, order, attempts, keys, 0, cutoff) && forall user :: user in attempts ==> user in order
      modifies this`attempts, this`keys
      ensures Indexed() && PrunedFor(old(attempts), attempts, FirstOf(order, MAX_PRUNED), cutoff)
    {
      var inspected := 0;
      while attempts != map[] && inspected < MAX_PRUNED
        invariant inspected <= MAX_PRUNED && Round(old(attempts), order, attempts, keys, inspected, cutoff)
        decreases MAX_PRUNED - inspected, if keys.Seek(keys.cursor) < |keys.cells| then 0 else 1
      {
        var done := Inspect(cutoff, old(attempts), order, inspected);
        if done { inspected := inspected + 1; }
      }
      RoundEnds(old(attempts), order, attempts, keys, inspected, MAX_PRUNED, cutoff);
    }

    /** Append to the user's times and store them; a new user goes to the end of the keys. */
    method Record(user: User, recent: seq<int>, time: int)
      requires Indexed() && recent == Of(attempts, user) && Faithful(attempts, log, time - WINDOW)
      requires Size(attempts) <= maxTrackedUsers && (user !in attempts ==> Size(attempts) < maxTrackedUsers)
      modifies this`attempts, this`keys, this`log
      ensures Indexed() && Faithful(attempts, log, time - WINDOW) && Size(attempts) <= maxTrackedUsers
      ensures attempts == old(attempts)[user := recent + [time]] && log == old(log) + [Mint(user, time)]
    {
      MintKeepsFaithful(attempts, log, time - WINDOW, user, time);
      UpdateSize(attempts, user, recent + [time]);
      AddKeeps(keys, user);
      attempts := attempts[user := recent + [time]];
      keys := keys.Add(user);
      log := log + [Mint(user, time)];
    }

    /** The pruning at the start of a request: what the user has left is what the log says, and when there are so
        few users that everyone has a turn, so is who is tracked. */
    method Prune(user: User, cutoff: int) returns (recent: seq<int>)
      requires Valid() && clock - WINDOW <= cutoff
      modifies this`attempts, this`keys
      ensures Indexed() && Faithful(attempts, log, cutoff) && Size(attempts) <= maxTrackedUsers
      ensures Size(attempts) == TrackedAfter(old(attempts), old(keys), user, cutoff)
      ensures recent == Of(attempts, user) == After(Times(log, user), cutoff)
      ensures Size(old(attempts)) <= MAX_PRUNED ==> Size(attempts) == ActiveUsers(log, cutoff)
    {
      ghost var before := attempts;
      assert Faithful(before, log, cutoff);
      recent := PruneUser(user, cutoff);
      ghost var mid, midKeys := attempts, keys;
      PruneSome(cutoff);
      RequestPrunes(before, mid, attempts, midKeys, keys, user, log, cutoff);
    }

    /** With a clock that does not run backwards: the verdict on the limit is the one that the full log gives. The
        one on capacity counts those whom this request's pruning leaves tracked; these are exactly the users with a
        mint in the window whenever everyone has a turn. */
    method Allow(user: User, time: int) returns (verdict: Verdict)
      requires Valid() && clock <= time
      modifies this
      ensures Valid() && clock == time
      ensures verdict == RateLimited <==> CountIn(old(log), user, time - 59_999, time + 1) >= limitPerMinute
      ensures verdict == CapacityExceeded <==>
        && CountIn(old(log), user, time - 59_999, time + 1) == 0
        && TrackedAfter(old(attempts), old(keys), user, time - 60_000) == maxTrackedUsers
      ensures |old(attempts).Keys| <= 32 ==>
        (verdict == CapacityExceeded <==>
         && CountIn(old(log), user, time - 59_999, time + 1) == 0
         && ActiveUsers(old(log), time - 60_000) == maxTrackedUsers)
      ensures log == if verdict == Allowed then old(log) + [Mint(user, time)] else old(log)
      ensures Of(attempts, user) == After(Times(log, user), time - WINDOW)
    {
      var recent := Prune(user, time - WINDOW);
      clock := time;
      verdict := Decide(user, recent, time);
    }

    /** The limit on the user first, then the one on users. */
    method Decide(user: User, recent: seq<int>, time: int) returns (verdict: Verdict)
      requires Indexed() && Faithful(attempts, log, time - WINDOW) && Size(attempts) <= maxTrackedUsers
      requires 1 <= limitPerMinute && Admitted(log, limitPerMinute) && forall m :: m in log ==> m.time <= time
      requires recent == Of(attempts, user) == After(Times(log, user), time - WINDOW)
      modifies this`attempts, this`keys, this`log
      ensures Indexed() && Faithful(attempts, log, time - WINDOW) && Size(attempts) <= maxTrackedUsers
      ensures Admitted(log, limitPerMinute) && forall m :: m in log ==> m.time <= time
      ensures verdict == RateLimited <==> CountIn(old(log), user, time - 59_999, time + 1) >= limitPerMinute
      ensures verdict == CapacityExceeded <==>
        CountIn(old(log), user, time - 59_999, time + 1) == 0 && Size(old(attempts)) == maxTrackedUsers
      ensures log == if verdict == Allowed then old(log) + [Mint(user, time)] else old(log)
      ensures Of(attempts, user) == After(Times(log, user), time - WINDOW)
    {
      RecentIsCount(log, user, time);
      if |recent| >= limitPerMinute { return RateLimited; }
      if user !in attempts && Size(attempts) >= maxTrackedUsers { return CapacityExceeded; }
      LogGrows(log, limitPerMinute, user, time);
      Record(user, recent, time);
      return Allowed;
    }
  }

  lemma LogGrows(log: seq<Mint>, limit: nat, user: User, time: int)
    requires Admitted(log, limit) && |After(Times(log, user), time - WINDOW)| < limit
    requires forall m :: m in log ==> m.time <= time
    ensures var longer := log + [Mint(user, time)];
      && Admitted(longer, limit) && (forall m :: m in longer ==> m.time <= time)
      && After(Times(longer, user), time - WINDOW) == After(Times(log, user), time - WINDOW) + [time]
  {
    var longer := log + [Mint(user, time)];
    assert longer[..|log|] == log && longer[|log|] == Mint(user, time);
    AfterAppend(Times(log, user), time, time - WINDOW);
  }

  /** Limits out of range are refused. */
  method CreateVoiceMintRateLimiter(
    limitPerMinute: int, maxTrackedUsers: int, start: int) returns (r: Option<MintRateLimiter>)
    ensures r.Some? <==> 1 <= limitPerMinute <= 1_000 && 1 <= maxTrackedUsers <= 10_000
    ensures r.Some? ==>
      && fresh(r.value) && r.value.Valid() && r.value.log == []
      && r.value.limitPerMinute == limitPerMinute && r.value.maxTrackedUsers == maxTrackedUsers
  {
    if limitPerMinute < 1 || limitPerMinute > MAX_ATTEMPTS || maxTrackedUsers < 1 || maxTrackedUsers > MAX_USERS {
      return None;
    }
    var limiter := new MintRateLimiter(limitPerMinute, maxTrackedUsers, start);
    return Some(limiter);
  }
}
