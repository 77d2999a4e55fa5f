/**
 The bound under capacity eviction is attained: a run in which an account with limit L gets 2L
 admissions within one window of sixty seconds, because an eviction forgets its first L. And in any run
 an eviction that takes an account with a live admission lets it exceed L.
 */
module EvictionTight {
  import opened Wrappers
  import opened SlidingWindow
  import opened MemoryStore

  // ---------- runs seen by account 0, without their calls ----------

  datatype View = View(store: Store, granted: seq<int>, last: int)

  function Seen(v: View, c: MemCall): View {
    var (store, reply) := Step(v.store, c);
    View(store, if c.call.account == 0 && reply.allowed then v.granted + [c.call.at] else v.granted, c.call.at)
  }

  ghost predicate Possible(v: View, c: MemCall, limit: int) {
    && v.last <= c.cleanupAt <= c.call.at && c.call.limit <= limit
    && LegalVictims(v.store, c.cleanupAt, c.victims)
  }

  ghost predicate Shows(calls: seq<MemCall>, limit: int, v: View) {
    && Run(0, calls) && MemLimitAtMost(calls, 0, limit)
    && v == View(Final(0, calls), Granted(0, calls, 0), Last(0, calls))
  }

  lemma Longer(calls: seq<MemCall>, limit: int, v: View, c: MemCall)
    requires Shows(calls, limit, v) && Possible(v, c, limit)
    ensures Shows(calls + [c], limit, Seen(v, c))
  {
    assert (calls + [c])[..|calls|] == calls;
  }

  /** Accounts 1 to n call once each at time 1. */
  function Fill(limit: int, n: nat): View {
    if n == 0 then View(Store(map[], 0), [], 0) else Seen(Fill(limit, n - 1), MemCall(1, {}, Call(n, limit, 1)))
  }

  /** Account 0 calls n times at one time. */
  function Burst(v: View, limit: int, at: int, n: nat): View {
    if n == 0 then v else Seen(Burst(v, limit, at, n - 1), MemCall(at, {}, Call(0, limit, at)))
  }

  lemma {:induction false} FillShown(limit: int, n: nat) returns (calls: seq<MemCall>)
    requires forall m: nat :: m < n ==> Possible(Fill(limit, m), MemCall(1, {}, Call(m + 1, limit, 1)), limit)
    ensures Shows(calls, limit, Fill(limit, n))
  {
    calls := [];
    if n > 0 {
      calls := FillShown(limit, n - 1);
      Longer(calls, limit, Fill(limit, n - 1), MemCall(1, {}, Call(n, limit, 1)));
      calls := calls + [MemCall(1, {}, Call(n, limit, 1))];
    }
  }

  lemma {:induction false} BurstShown(calls: seq<MemCall>, v: View, limit: int, at: int, n: nat)
    returns (more: seq<MemCall>)
    requires Shows(calls, limit, v)
    requires forall m: nat :: m < n ==> Possible(Burst(v, limit, at, m), MemCall(at, {}, Call(0, limit, at)), limit)
    ensures Shows(more, limit, Burst(v, limit, at, n))
  {
    more := calls;
    if n > 0 {
      more := BurstShown(calls, v, limit, at, n - 1);
      Longer(more, limit, Burst(v, limit, at, n - 1), MemCall(at, {}, Call(0, limit, at)));
      more := more + [MemCall(at, {}, Call(0, limit, at))];
    }
  }

  // ---------- what the two kinds of calls do ----------

  function Const(n: nat, at: int): (r: seq<int>)
    ensures |r| == n && forall i :: 0 <= i < n ==> r[i] == at
  {
    if n == 0 then [] else Const(n - 1, at) + [at]
  }

  lemma {:induction false} LiveAll(h: seq<int>, n: nat, start: int)
    requires n <= |h| && forall i :: 0 <= i < n ==> h[i] > start
    ensures LiveTo(h, n, start) == h[..n]
  {
    if n > 0 {
      LiveAll(h, n - 1, start);
      assert h[..n] == h[..n - 1] + [h[n - 1]];
    }
  }

  lemma {:induction false} CountAll(h: seq<int>, n: nat, a: int, b: int)
    requires n <= |h| && forall i :: 0 <= i < n ==> a <= h[i] < b
    ensures CountTo(h, n, a, b) == n
  {
    if n > 0 { CountAll(h, n - 1, a, b); }
  }

  /** The accounts 0 to n - 1. */
  function Accounts(n: nat): (r: set<Id>)
    ensures |r| == n && forall k: Id :: k in r <==> k < n
  {
    if n == 0 then {} else
      var m: Id := n - 1;
      Accounts(m) + {m}
  }

  /** Accounts 1 to n have each made one call at time 1. */
  function Crowd(n: nat): (r: map<Id, Entry>)
    ensures forall k: Id :: (k in r <==> 1 <= k <= n) && (k in r ==> r[k] == Entry([1], 1))
  {
    if n == 0 then map[] else Crowd(n - 1)[n := Entry([1], 1)]
  }

  lemma NewcomerCalls(crowd: map<Id, Entry>, limit: int, n: nat, last: int)
    requires limit > 0 && n > 0 && n !in crowd
    ensures Seen(View(Store(crowd, 0), [], last), MemCall(1, {}, Call(n, limit, 1))) ==
              View(Store(crowd[n := Entry([1], 1)], 0), [], 1)
  {
    assert Live([], 1 - WINDOW) == [];
    assert [] + [1] == [1];
  }

  lemma {:induction false} FillIs(limit: int, n: nat)
    requires limit > 0
    ensures Fill(limit, n) == View(Store(Crowd(n), 0), [], if n == 0 then 0 else 1)
  {
    if n > 0 {
      FillIs(limit, n - 1);
      NewcomerCalls(Crowd(n - 1), limit, n, if n == 1 then 0 else 1);
    }
  }

  /** One call of account 0 when it has had j of its L admissions, all at this very time. */
  lemma OneMore(v: View, at: int, limit: nat, j: nat)
    requires Timestamps(v.store, 0) == Const(j, at) && j < limit && !Due(v.store, at)
    ensures Seen(v, MemCall(at, {}, Call(0, limit, at))) ==
              View(Store(v.store.entries[0 := Entry(Const(j + 1, at), at)], v.store.lastCleanup), v.granted + [at], at)
  {
    var h := Const(j, at);
    LiveAll(h, j, at - WINDOW);
    assert h[..j] == h;
  }

  lemma {:induction false} BurstIs(v: View, limit: nat, at: int, j: nat, n: nat)
    requires Timestamps(v.store, 0) == Const(j, at) && j + n <= limit && !Due(v.store, at) && v.last <= at
    ensures Burst(v, limit, at, n).granted == v.granted + Const(n, at) && Burst(v, limit, at, n).last <= at
    ensures Burst(v, limit, at, n).store ==
              if n == 0 then v.store else Store(v.store.entries[0 := Entry(Const(j + n, at), at)], v.store.lastCleanup)
  {
    if n > 0 {
      BurstIs(v, limit, at, j, n - 1);
      OneMore(Burst(v, limit, at, n - 1), at, limit, j + n - 1);
      assert v.granted + Const(n - 1, at) + [at] == v.granted + Const(n, at);
    }
  }

  lemma CrowdSize(n: nat, mine: Entry)
    requires mine.lastAccess == 1
    ensures |Crowd(n)[0 := mine]| == n + 1 && Swept(Crowd(n)[0 := mine], WINDOW) == Crowd(n)[0 := mine]
    ensures Accounts((n + 1) / 5) <= Crowd(n)[0 := mine].Keys
  {
    var entries := Crowd(n)[0 := mine];
    assert entries.Keys == Accounts(n + 1);
    assert |entries| == |entries.Keys|;
  }

  /** A call of an account that the cleanup has just thrown out. */
  lemma StartsAfresh(s: Store, limit: nat, victims: set<Id>)
    requires limit > 0 && 0 in victims && Due(s, WINDOW)
    ensures var c := MemCall(WINDOW, victims, Call(0, limit, WINDOW));
            && Step(s, c).1.allowed && Step(s, c).0.lastCleanup == WINDOW
            && Timestamps(Step(s, c).0, 0) == [WINDOW]
  {
    assert Live([], 0) == [];
    assert [] + [WINDOW] == [WINDOW];
  }

  /** A cleanup at sixty seconds over n + 1 > 10000 entries may drop account 0's with a fifth of them. */
  lemma EvictIs(v: View, limit: nat, n: nat)
    requires limit > 0 && v.last <= 1 && n >= MAX_ENTRIES
    requires v.store == Store(Crowd(n)[0 := Entry(Const(limit, 1), 1)], 0)
    ensures var c := MemCall(WINDOW, Accounts((n + 1) / 5), Call(0, limit, WINDOW));
            && Possible(v, c, limit)
            && Seen(v, c).granted == v.granted + [WINDOW] && Seen(v, c).last == WINDOW
            && Seen(v, c).store.lastCleanup == WINDOW && Timestamps(Seen(v, c).store, 0) == Const(1, WINDOW)
  {
    CrowdSize(n, Entry(Const(limit, 1), 1));
    StartsAfresh(v.store, limit, Accounts((n + 1) / 5));
    assert Const(1, WINDOW) == [WINDOW];
  }

  lemma TimesCount(times: seq<int>, limit: nat)
    requires limit > 0 && times == Const(limit, 1) + [WINDOW] + Const(limit - 1, WINDOW)
    ensures CountIn(times, 1, 1 + WINDOW) == 2 * limit
  {
    forall i | 0 <= i < |times| ensures times[i] == 1 || times[i] == WINDOW {
      if i < limit { assert times[i] == Const(limit, 1)[i]; }
      if i > limit { assert times[i] == Const(limit - 1, WINDOW)[i - limit - 1]; }
    }
    CountAll(times, |times|, 1, 1 + WINDOW);
  }

  /** The first half: n others, then all of account 0's limit, at time 1. */
  lemma Crowded(limit: nat, n: nat) returns (calls: seq<MemCall>, v: View)
    requires limit > 0
    ensures Shows(calls, limit, v) && v.granted == Const(limit, 1) && v.last <= 1
    ensures v.store == Store(Crowd(n)[0 := Entry(Const(limit, 1), 1)], 0)
  {
    forall m: nat | m <= n ensures Fill(limit, m) == View(Store(Crowd(m), 0), [], if m == 0 then 0 else 1) {
      FillIs(limit, m);
    }
    calls := FillShown(limit, n);
    var v0 := Fill(limit, n);
    forall m: nat | m <= limit ensures !Due(Burst(v0, limit, 1, m).store, 1) && Burst(v0, limit, 1, m).last <= 1 {
      BurstIs(v0, limit, 1, 0, m);
    }
    calls := BurstShown(calls, v0, limit, 1, limit);
    v := Burst(v0, limit, 1, limit);
    BurstIs(v0, limit, 1, 0, limit);
    assert [] + Const(limit, 1) == Const(limit, 1);
  }

  /** The second half: the eviction with account 0's next call, and the rest of its limit. */
  lemma Forgotten(calls: seq<MemCall>, v: View, limit: nat, n: nat) returns (more: seq<MemCall>, v': View)
    requires limit > 0 && n >= MAX_ENTRIES && Shows(calls, limit, v) && v.last <= 1
    requires v.store == Store(Crowd(n)[0 := Entry(Const(limit, 1), 1)], 0)
    ensures Shows(more, limit, v') && v'.granted == v.granted + [WINDOW] + Const(limit - 1, WINDOW)
  {
    EvictIs(v, limit, n);
    var c := MemCall(WINDOW, Accounts((n + 1) / 5), Call(0, limit, WINDOW));
    var w := Seen(v, c);
    Longer(calls, limit, v, c);
    forall m: nat | m < limit
      ensures !Due(Burst(w, limit, WINDOW, m).store, WINDOW) && Burst(w, limit, WINDOW, m).last <= WINDOW
    {
      BurstIs(w, limit, WINDOW, 1, m);
    }
    more := BurstShown(calls + [c], w, limit, WINDOW, limit - 1);
    v' := Burst(w, limit, WINDOW, limit - 1);
    BurstIs(w, limit, WINDOW, 1, limit - 1);
  }

  /** For every limit L, 2L admissions of one account inside the half-open window [1, 1 + 60 s). */
  lemma BoundAttained(limit: nat) returns (calls: seq<MemCall>)
    requires limit > 0
    ensures Run(0, calls) && MemLimitAtMost(calls, 0, limit)
    ensures CountIn(Granted(0, calls, 0), 1, 1 + WINDOW) == 2 * limit
  {
    var n: nat :| n == MAX_ENTRIES;
    var v;
    calls, v := Crowded(limit, n);
    calls, v := Forgotten(calls, v, limit, n);
    TimesCount(v.granted, limit);
  }

  // ---------- the converse, in any run ----------

  lemma {:induction false} CountMember(h: seq<int>, n: nat, x: int, a: int, b: int)
    requires n <= |h| && x in h[..n] && a <= x < b
    ensures CountTo(h, n, a, b) >= 1
  {
    if h[n - 1] != x {
      assert x in h[..n - 1];
      CountMember(h, n - 1, x, a, b);
    }
  }

  lemma StepStores(s: Store, c: MemCall, account: Id)
    ensures forall x :: x in Timestamps(Step(s, c).0, account) ==>
              x in Timestamps(s, account) || (c.call.account == account && Step(s, c).1.allowed && x == c.call.at)
  {
    LiveMembers(Timestamps(Cleaned(s, c.cleanupAt, c.victims), account), c.call.at - WINDOW);
  }

  /** The store holds only times of admissions. */
  lemma {:induction false} StoredGranted(t0: int, calls: seq<MemCall>, account: Id)
    requires Run(t0, calls)
    ensures forall x :: x in Timestamps(Final(t0, calls), account) ==> x in Granted(t0, calls, account)
  {
    if calls != [] {
      var n := |calls| - 1;
      StoredGranted(t0, calls[..n], account);
      GrantedUnfolds(t0, calls, account);
      StepStores(Final(t0, calls[..n]), calls[n], account);
    }
  }

  /** After an eviction at `now`, the account has been admitted j times more, and once before in the window. */
  ghost predicate Refilled(t0: int, calls: seq<MemCall>, account: Id, limit: int, now: int, j: nat, a: int) {
    && Run(t0, calls) && MemLimitAtMost(calls, account, limit) && Last(t0, calls) == now
    && Final(t0, calls).lastCleanup == now && Timestamps(Final(t0, calls), account) == Const(j, now)
    && CountIn(Granted(t0, calls, account), a, a + WINDOW) >= 1 + j
  }

  lemma LongerRun(t0: int, calls: seq<MemCall>, account: Id, limit: int, c: MemCall)
    requires Run(t0, calls) && MemLimitAtMost(calls, account, limit)
    requires Last(t0, calls) <= c.cleanupAt <= c.call.at && c.call.limit <= limit
    requires LegalVictims(Final(t0, calls), c.cleanupAt, c.victims)
    ensures Run(t0, calls + [c]) && MemLimitAtMost(calls + [c], account, limit)
    ensures Last(t0, calls + [c]) == c.call.at && Final(t0, calls + [c]) == Step(Final(t0, calls), c).0
    ensures Granted(t0, calls + [c], account) ==
              if c.call.account == account && Step(Final(t0, calls), c).1.allowed
              then Granted(t0, calls, account) + [c.call.at] else Granted(t0, calls, account)
  {
    assert (calls + [c])[..|calls|] == calls;
    GrantedUnfolds(t0, calls + [c], account);
  }

  lemma CallInBurst(s: Store, account: Id, limit: nat, now: int, j: nat)
    requires s.lastCleanup == now && Timestamps(s, account) == Const(j, now) && j < limit
    ensures var (s', reply) := Step(s, MemCall(now, {}, Call(account, limit, now)));
            reply.allowed && s'.lastCleanup == now && Timestamps(s', account) == Const(j + 1, now)
  {
    LiveAll(Const(j, now), j, now - WINDOW);
    assert Const(j, now)[..j] == Const(j, now);
  }

  lemma CallAfterEviction(s: Store, victims: set<Id>, account: Id, limit: nat, now: int)
    requires Due(s, now) && account in victims && limit >= 1
    ensures var (s', reply) := Step(s, MemCall(now, victims, Call(account, limit, now)));
            reply.allowed && s'.lastCleanup == now && Timestamps(s', account) == Const(1, now)
  {
    assert Live([], now - WINDOW) == [];
    assert Const(1, now) == [now] == [] + [now];
  }

  lemma OneRefill(t0: int, calls: seq<MemCall>, account: Id, limit: nat, now: int, j: nat, a: int)
    requires Refilled(t0, calls, account, limit, now, j, a) && j < limit && a <= now < a + WINDOW
    ensures Refilled(t0, calls + [MemCall(now, {}, Call(account, limit, now))], account, limit, now, j + 1, a)
  {
    LongerRun(t0, calls, account, limit, MemCall(now, {}, Call(account, limit, now)));
    CallInBurst(Final(t0, calls), account, limit, now, j);
    CountAppend(Granted(t0, calls, account), now, a, a + WINDOW);
  }

  lemma {:induction false} Refill(t0: int, calls: seq<MemCall>, account: Id, limit: nat, now: int, j: nat, a: int)
    returns (longer: seq<MemCall>)
    requires Refilled(t0, calls, account, limit, now, j, a) && j <= limit && a <= now < a + WINDOW
    ensures calls <= longer && Refilled(t0, longer, account, limit, now, limit, a)
    decreases limit - j
  {
    longer := calls;
    if j < limit {
      OneRefill(t0, calls, account, limit, now, j, a);
      longer := Refill(t0, calls + [MemCall(now, {}, Call(account, limit, now))], account, limit, now, j + 1, a);
    }
  }

  /** A live admission in the store is one of the last minute's admissions. */
  lemma BusyCounts(t0: int, calls: seq<MemCall>, account: Id, now: int) returns (a: int)
    requires Run(t0, calls) && Last(t0, calls) <= now && !Idle(Final(t0, calls), account, now)
    ensures a <= now < a + WINDOW && CountIn(Granted(t0, calls, account), a, a + WINDOW) >= 1
  {
    var times, granted := Timestamps(Final(t0, calls), account), Granted(t0, calls, account);
    a := Live(times, now - WINDOW)[0];
    LiveMembers(times, now - WINDOW);
    assert a in Live(times, now - WINDOW) && a in times;
    StoredGranted(t0, calls, account);
    RunDated(t0, calls);
    assert a <= Last(t0, calls);
    assert granted[..|granted|] == granted;
    CountMember(granted, |granted|, a, a, a + WINDOW);
  }

  lemma EvictedAndAdmitted(t0: int, calls: seq<MemCall>, account: Id, limit: nat, now: int, victims: set<Id>, a: int)
    requires Run(t0, calls) && MemLimitAtMost(calls, account, limit) && limit >= 1
    requires Last(t0, calls) <= now && LegalVictims(Final(t0, calls), now, victims) && account in victims
    requires a <= now < a + WINDOW && CountIn(Granted(t0, calls, account), a, a + WINDOW) >= 1
    ensures Refilled(t0, calls + [MemCall(now, victims, Call(account, limit, now))], account, limit, now, 1, a)
  {
    LongerRun(t0, calls, account, limit, MemCall(now, victims, Call(account, limit, now)));
    CallAfterEviction(Final(t0, calls), victims, account, limit, now);
    CountAppend(Granted(t0, calls, account), now, a, a + WINDOW);
  }

  /**
   The condition is exact: as soon as an eviction may take an account that has a live admission, the run
   can go on so that the account exceeds its limit within a minute.
   */
  lemma BusyVictimExceeds(t0: int, calls: seq<MemCall>, account: Id, limit: nat, now: int, victims: set<Id>)
    returns (longer: seq<MemCall>, a: int)
    requires Run(t0, calls) && MemLimitAtMost(calls, account, limit) && limit >= 1
    requires Last(t0, calls) <= now && LegalVictims(Final(t0, calls), now, victims)
    requires account in victims && !Idle(Final(t0, calls), account, now)
    ensures calls <= longer && Run(t0, longer) && MemLimitAtMost(longer, account, limit)
    ensures CountIn(Granted(t0, longer, account), a, a + WINDOW) > limit
  {
    a := BusyCounts(t0, calls, account, now);
    EvictedAndAdmitted(t0, calls, account, limit, now, victims, a);
    longer := Refill(t0, calls + [MemCall(now, victims, Call(account, limit, now))], account, limit, now, 1, a);
  }
}
