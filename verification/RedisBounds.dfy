/**
 What the Redis limiter promises: a bound on admissions when several instances with skewed clocks
 share a key, equality with the ideal limiter when the clock is monotone, and waits that work.
 */
module RedisBounds {
  import opened Wrappers
  import opened SlidingWindow
  import opened RedisScript

  /** An admission: when the server ran it and the member it added. */
  datatype Admission = Admission(serverTime: int, member: Member)

  /** The admissions of one account, in the order the server granted them. */
  ghost function Log(reqs: seq<Request>, account: Id, window: int, expires: bool): seq<Admission> {
    if reqs == [] then [] else
      var n := |reqs| - 1;
      LogStep(Log(reqs[..n], account, window, expires), State(reqs[..n], account, window, expires),
              reqs[n], account, window, expires)
  }

  ghost function LogStep(log: seq<Admission>, k: Key, r: Request, account: Id, window: int,
                         expires: bool): seq<Admission>
  {
    if r.account == account && Script(k, r, window, expires).1.allowed
    then log + [Admission(r.serverTime, MemberOf(r))] else log
  }

  /** How many admissions of the log the server granted in [a, b). */
  function CountBetween(log: seq<Admission>, a: int, b: int): nat {
    if log == [] then 0 else
      var n := |log| - 1;
      CountBetween(log[..n], a, b) + if a <= log[n].serverTime < b then 1 else 0
  }

  lemma CountBetweenAppend(log: seq<Admission>, x: Admission, a: int, b: int)
    ensures CountBetween(log + [x], a, b) == CountBetween(log, a, b) + if a <= x.serverTime < b then 1 else 0
  {
    assert (log + [x])[..|log|] == log;
  }

  /** Request i is the account's and carries the admission. */
  ghost predicate Granted(reqs: seq<Request>, account: Id, x: Admission, i: int) {
    0 <= i < |reqs| && reqs[i].account == account && reqs[i].serverTime == x.serverTime && MemberOf(reqs[i]) == x.member
  }

  lemma {:induction false} LogMembers(reqs: seq<Request>, account: Id, window: int, expires: bool)
    ensures forall x :: x in Log(reqs, account, window, expires) ==> exists i :: Granted(reqs, account, x, i)
  {
    if reqs != [] {
      var n := |reqs| - 1;
      LogMembers(reqs[..n], account, window, expires);
      forall x | x in Log(reqs, account, window, expires) ensures exists i :: Granted(reqs, account, x, i) {
        if x in Log(reqs[..n], account, window, expires) {
          var i :| Granted(reqs[..n], account, x, i);
          assert Granted(reqs, account, x, i);
        } else {
          assert Granted(reqs, account, x, n);
        }
      }
    }
  }

  /** The members admitted in [a, b). */
  function MembersBetween(log: seq<Admission>, a: int, b: int): set<Member> {
    set x | x in log && a <= x.serverTime < b :: x.member
  }

  ghost predicate NoRepeats(log: seq<Admission>) {
    forall i, j :: 0 <= i < j < |log| ==> log[i].member != log[j].member
  }

  lemma {:induction false} CountIsSize(log: seq<Admission>, a: int, b: int)
    requires NoRepeats(log)
    ensures CountBetween(log, a, b) == |MembersBetween(log, a, b)|
  {
    if log != [] {
      var init, x := log[..|log| - 1], log[|log| - 1];
      assert log == init + [x];
      CountIsSize(init, a, b);
      CountBetweenAppend(init, x, a, b);
      MembersGrow(init, x, a, b);
    }
  }

  lemma MembersGrow(log: seq<Admission>, x: Admission, a: int, b: int)
    requires NoRepeats(log + [x])
    ensures var more := MembersBetween(log + [x], a, b);
            more == MembersBetween(log, a, b) + (if a <= x.serverTime < b then {x.member} else {})
            && x.member !in MembersBetween(log, a, b)
  {
    forall y | y in log ensures y.member != x.member {
      var i :| 0 <= i < |log| && log[i] == y;
      assert (log + [x])[i] == y && (log + [x])[|log|] == x;
    }
  }

  lemma NewMember(reqs: seq<Request>, account: Id, window: int, expires: bool)
    requires reqs != [] && DistinctMembers(reqs, account) && reqs[|reqs| - 1].account == account
    ensures forall x :: x in Log(reqs[..|reqs| - 1], account, window, expires) ==>
              x.member != MemberOf(reqs[|reqs| - 1])
  {
    var n := |reqs| - 1;
    LogMembers(reqs[..n], account, window, expires);
    forall x | x in Log(reqs[..n], account, window, expires) ensures x.member != MemberOf(reqs[n]) {
      var j :| Granted(reqs[..n], account, x, j);
      assert reqs[j] == reqs[..n][j];
    }
  }

  lemma {:induction false} LogNoRepeats(reqs: seq<Request>, account: Id, window: int, expires: bool)
    requires DistinctMembers(reqs, account)
    ensures NoRepeats(Log(reqs, account, window, expires))
  {
    if reqs != [] {
      LogNoRepeats(reqs[..|reqs| - 1], account, window, expires);
      if reqs[|reqs| - 1].account == account { NewMember(reqs, account, window, expires); }
    }
  }

  // ---------- the bound under clock skew ----------

  /** Every admission of the last `span` nanoseconds is still in the set, and the key has not expired. */
  ghost predicate Keeps(k: Key, log: seq<Admission>, from: int, window: int) {
    forall x :: x in log && x.serverTime > from ==>
      && k.Present? && x.member in k.members && k.members[x.member] == x.member.now
      && k.deadline >= x.serverTime + (window + EXPIRE_MARGIN) * SECOND
  }

  ghost predicate LogSkewed(log: seq<Admission>, lag: int, t: int) {
    forall x :: x in log ==> x.serverTime <= t && -lag <= x.member.now * SECOND - x.serverTime
  }

  /** A window shrunk by lag and lead, in nanoseconds. */
  function Span(window: int, lag: int, lead: int): int { window * SECOND - lag - lead }

  /** What a request trims is older than the shrunk window, and an expired key held nothing newer. */
  lemma TrimKeeps(k: Key, log: seq<Admission>, r: Request, window: int, lag: int, lead: int, from: int)
    requires Keeps(k, log, from, window) && from <= r.serverTime - Span(window, lag, lead)
    requires LogSkewed(log, lag, r.serverTime) && lag + lead >= 0 && r.now * SECOND - r.serverTime <= lead
    ensures var live := Trim(Visible(k, r.serverTime, true), r.now - window);
            forall x :: x in log && x.serverTime > r.serverTime - Span(window, lag, lead) ==>
              x.member in live && live[x.member] == x.member.now && k.Present?
  {
    forall x | x in log && x.serverTime > r.serverTime - Span(window, lag, lead)
      ensures x.member.now > r.now - window
    {
      assert (x.member.now - r.now + window) * SECOND > 0;
    }
  }

  lemma ScriptKeeps(k: Key, log: seq<Admission>, r: Request, window: int, lag: int, lead: int, from: int)
    requires Keeps(k, log, from, window) && from <= r.serverTime - Span(window, lag, lead)
    requires LogSkewed(log, lag, r.serverTime) && lag + lead >= 0 && -lag <= r.now * SECOND - r.serverTime <= lead
    ensures var (k', o) := Script(k, r, window, true);
            Keeps(k', if o.allowed then log + [Admission(r.serverTime, MemberOf(r))] else log,
                  r.serverTime - Span(window, lag, lead), window)
  {
    TrimKeeps(k, log, r, window, lag, lead, from);
  }

  lemma {:induction false} RunKeeps(reqs: seq<Request>, account: Id, window: int, lag: int, lead: int, t: int)
    requires ServerOrdered(reqs) && Skewed(reqs, account, lag, lead) && lag + lead >= 0 && Before(reqs, t)
    ensures var log := Log(reqs, account, window, true);
            && LogSkewed(log, lag, t)
            && Keeps(State(reqs, account, window, true), log, t - Span(window, lag, lead), window)
  {
    if reqs != [] {
      var n := |reqs| - 1;
      var r := reqs[n];
      RunKeeps(reqs[..n], account, window, lag, lead, r.serverTime);
      if r.account == account {
        var k, log := State(reqs[..n], account, window, true), Log(reqs[..n], account, window, true);
        ScriptKeeps(k, log, r, window, lag, lead, r.serverTime - Span(window, lag, lead));
      }
    }
  }

  /** When a request is admitted, the shrunk window before it holds fewer members than the limit. */
  lemma AdmissionFits(k: Key, log: seq<Admission>, r: Request, window: int, lag: int, lead: int, a: int)
    requires Keeps(k, log, r.serverTime - Span(window, lag, lead), window)
    requires LogSkewed(log, lag, r.serverTime) && lag + lead >= 0 && r.now * SECOND - r.serverTime <= lead
    requires Script(k, r, window, true).1.allowed && a <= r.serverTime < a + Span(window, lag, lead)
    ensures |MembersBetween(log, a, a + Span(window, lag, lead))| < r.limit
  {
    var b := a + Span(window, lag, lead);
    var live := Trim(Visible(k, r.serverTime, true), r.now - window);
    TrimKeeps(k, log, r, window, lag, lead, r.serverTime - Span(window, lag, lead));
    assert MembersBetween(log, a, b) <= live.Keys;
    SubsetSize(MembersBetween(log, a, b), live.Keys);
    assert |live| == |live.Keys|;
  }

  lemma OneMoreMember(log: seq<Admission>, x: Admission, a: int, b: int)
    ensures MembersBetween(log + [x], a, b) ==
              MembersBetween(log, a, b) + (if a <= x.serverTime < b then {x.member} else {})
  {
    assert forall y :: y in log + [x] <==> y in log || y == x;
  }

  /**
   Several instances on one key: at most `limit` members of an account are admitted in any window of
   the server's time that is shorter than the nominal one by lag and lead, collisions or not.
   */
  lemma {:induction false} SkewedMembersBound(reqs: seq<Request>, account: Id, window: int, lag: int, lead: int,
                                              limit: nat, a: int)
    requires ServerOrdered(reqs) && Skewed(reqs, account, lag, lead) && lag + lead >= 0
    requires RequestLimitAtMost(reqs, account, limit)
    ensures |MembersBetween(Log(reqs, account, window, true), a, a + Span(window, lag, lead))| <= limit
  {
    if reqs != [] {
      var n := |reqs| - 1;
      var r, b := reqs[n], a + Span(window, lag, lead);
      SkewedMembersBound(reqs[..n], account, window, lag, lead, limit, a);
      RunKeeps(reqs[..n], account, window, lag, lead, r.serverTime);
      var log, k := Log(reqs[..n], account, window, true), State(reqs[..n], account, window, true);
      if r.account == account && Script(k, r, window, true).1.allowed {
        OneMoreMember(log, Admission(r.serverTime, MemberOf(r)), a, b);
        if a <= r.serverTime < b { AdmissionFits(k, log, r, window, lag, lead, a); }
      }
    }
  }

  /**
   The same for admissions: with distinct members of this account, or with a limit of at most one, at
   most `limit` requests are admitted in any such window.
   */
  lemma {:induction false} SkewedWindowBound(reqs: seq<Request>, account: Id, window: int, lag: int, lead: int,
                                             limit: nat, a: int)
    requires ServerOrdered(reqs) && Skewed(reqs, account, lag, lead) && lag + lead >= 0
    requires RequestLimitAtMost(reqs, account, limit) && (limit <= 1 || DistinctMembers(reqs, account))
    ensures CountBetween(Log(reqs, account, window, true), a, a + Span(window, lag, lead)) <= limit
  {
    if DistinctMembers(reqs, account) {
      SkewedMembersBound(reqs, account, window, lag, lead, limit, a);
      LogNoRepeats(reqs, account, window, true);
      CountIsSize(Log(reqs, account, window, true), a, a + Span(window, lag, lead));
    } else {
      AtMostOne(reqs, account, window, lag, lead, limit, a);
    }
  }

  lemma {:induction false} NoneBetween(log: seq<Admission>, a: int, b: int)
    requires MembersBetween(log, a, b) == {}
    ensures CountBetween(log, a, b) == 0
  {
    if log != [] {
      var init, x := log[..|log| - 1], log[|log| - 1];
      assert log == init + [x];
      OneMoreMember(init, x, a, b);
      assert x.member in {x.member};
      NoneBetween(init, a, b);
    }
  }

  lemma AloneOrElsewhere(k: Key, log: seq<Admission>, r: Request, window: int, lag: int, lead: int, a: int)
    requires Keeps(k, log, r.serverTime - Span(window, lag, lead), window)
    requires LogSkewed(log, lag, r.serverTime) && lag + lead >= 0 && r.now * SECOND - r.serverTime <= lead
    requires Script(k, r, window, true).1.allowed && r.limit <= 1
    ensures var b := a + Span(window, lag, lead);
            var count := CountBetween(log + [Admission(r.serverTime, MemberOf(r))], a, b);
            count == CountBetween(log, a, b) || count == r.limit
  {
    var b := a + Span(window, lag, lead);
    CountBetweenAppend(log, Admission(r.serverTime, MemberOf(r)), a, b);
    if a <= r.serverTime < b {
      AdmissionFits(k, log, r, window, lag, lead, a);
      NoneBetween(log, a, b);
    }
  }

  /** With a limit of at most one the set must be empty for an admission, so collisions do not matter. */
  lemma {:induction false} AtMostOne(reqs: seq<Request>, account: Id, window: int, lag: int, lead: int, limit: nat,
                                     a: int)
    requires ServerOrdered(reqs) && Skewed(reqs, account, lag, lead) && lag + lead >= 0
    requires RequestLimitAtMost(reqs, account, limit) && limit <= 1
    ensures CountBetween(Log(reqs, account, window, true), a, a + Span(window, lag, lead)) <= limit
  {
    if reqs != [] {
      var n := |reqs| - 1;
      var r := reqs[n];
      AtMostOne(reqs[..n], account, window, lag, lead, limit, a);
      RunKeeps(reqs[..n], account, window, lag, lead, r.serverTime);
      var log, k := Log(reqs[..n], account, window, true), State(reqs[..n], account, window, true);
      if r.account == account && Script(k, r, window, true).1.allowed {
        AloneOrElsewhere(k, log, r, window, lag, lead, a);
      }
    }
  }

  lemma NextRequest(reqs: seq<Request>, r: Request, account: Id, window: int, expires: bool)
    ensures State(reqs + [r], account, window, expires) ==
              KeyStep(State(reqs, account, window, expires), r, account, window, expires)
    ensures Log(reqs + [r], account, window, expires) ==
              LogStep(Log(reqs, account, window, expires), State(reqs, account, window, expires), r, account,
                      window, expires)
  {
    assert (reqs + [r])[..|reqs|] == reqs;
  }

  /** The key after n requests of one instant that draw the same member. */
  function Collided(window: int, n: nat): Key {
    if n == 0 then Absent else Present(map[Member(0, 0) := 0], (window + EXPIRE_MARGIN) * SECOND)
  }

  lemma CollisionAdmitted(r: Request, window: int, n: nat)
    requires window >= 1 && r.limit >= 2 && r == Request(r.account, 0, 0, r.limit, 0)
    ensures Script(Collided(window, n), r, window, true).1.allowed
    ensures Script(Collided(window, n), r, window, true).0 == Collided(window, n + 1)
  {
    var one := map[Member(0, 0) := 0];
    assert Trim(map[], -window) == map[] && Trim(one, -window) == one;
    assert one[Member(0, 0) := 0] == one && map[][Member(0, 0) := 0] == one;
  }

  lemma OneMoreCollision(reqs: seq<Request>, r: Request, window: int, n: nat)
    requires window >= 1 && r.limit >= 2 && r == Request(r.account, 0, 0, r.limit, 0)
    requires State(reqs, r.account, window, true) == Collided(window, n)
    requires CountBetween(Log(reqs, r.account, window, true), 0, 1) == n
    ensures State(reqs + [r], r.account, window, true) == Collided(window, n + 1)
    ensures CountBetween(Log(reqs + [r], r.account, window, true), 0, 1) == n + 1
  {
    NextRequest(reqs, r, r.account, window, true);
    CollisionAdmitted(r, window, n);
    CountBetweenAppend(Log(reqs, r.account, window, true), Admission(0, Member(0, 0)), 0, 1);
  }

  /**
   From a limit of two on, any number of colliding members is admitted within one second: they share one
   place in the set.
   */
  lemma {:induction false} CollisionsAdmit(account: Id, window: int, limit: int, n: nat) returns (reqs: seq<Request>)
    requires window >= 1 && limit >= 2
    ensures |reqs| == n && forall i :: 0 <= i < n ==> reqs[i] == Request(account, 0, 0, limit, 0)
    ensures CountBetween(Log(reqs, account, window, true), 0, 1) == n
    ensures State(reqs, account, window, true) == Collided(window, n)
  {
    reqs := [];
    if n > 0 {
      var before := CollisionsAdmit(account, window, limit, n - 1);
      OneMoreCollision(before, Request(account, 0, 0, limit, 0), window, n - 1);
      reqs := before + [Request(account, 0, 0, limit, 0)];
    }
  }

  /**
   For instance clocks within d of the server's: at most `limit` in any window of length w - 2d - 1 s,
   to the nanosecond. Of the second, the whole-second reading takes what it cuts off.
   */
  lemma ClockWindowBound(reqs: seq<Request>, clocks: seq<int>, account: Id, window: int, skew: nat, limit: nat, a: int)
    requires ServerOrdered(reqs) && ReadFrom(reqs, clocks, skew)
    requires RequestLimitAtMost(reqs, account, limit) && (limit <= 1 || DistinctMembers(reqs, account))
    ensures CountBetween(Log(reqs, account, window, true), a, a + window * SECOND - 2 * skew - SECOND + 1) <= limit
  {
    ReadFromSkewed(reqs, clocks, account, skew);
    SkewedWindowBound(reqs, account, window, skew + SECOND - 1, skew, limit, a);
  }

  /** n requests of one instant that draw different members. */
  function Burst(account: Id, t: int, limit: int, n: nat): (reqs: seq<Request>)
    ensures |reqs| == n && forall k :: 0 <= k < n ==> reqs[k] == Request(account, t, 0, limit, k)
  {
    if n == 0 then [] else Burst(account, t, limit, n - 1) + [Request(account, t, 0, limit, n - 1)]
  }

  /** Their members. */
  function Places(n: nat): (members: map<Member, int>)
    ensures |members| == n && forall m :: m in members <==> m.now == 0 && m.suffix < n
    ensures forall m :: m in members ==> members[m] == 0
  {
    if n == 0 then map[] else Places(n - 1)[Member(0, n - 1) := 0]
  }

  function BurstKey(window: int, t: int, n: nat): Key {
    if n == 0 then Absent else Present(Places(n), t + (window + EXPIRE_MARGIN) * SECOND)
  }

  lemma BurstAdmitted(r: Request, window: int, n: nat)
    requires window >= 1 && n < r.limit && r == Request(r.account, r.serverTime, 0, r.limit, n)
    ensures Script(BurstKey(window, r.serverTime, n), r, window, true).1.allowed
    ensures Script(BurstKey(window, r.serverTime, n), r, window, true).0 == BurstKey(window, r.serverTime, n + 1)
  {
    assert Trim(Places(n), -window) == Places(n);
    assert n == 0 ==> Places(n) == map[];
  }

  lemma OneMoreInBurst(reqs: seq<Request>, r: Request, window: int, n: nat, b: int)
    requires window >= 1 && n < r.limit && r == Request(r.account, r.serverTime, 0, r.limit, n) && r.serverTime < b
    requires State(reqs, r.account, window, true) == BurstKey(window, r.serverTime, n)
    requires CountBetween(Log(reqs, r.account, window, true), r.serverTime, b) == n
    ensures State(reqs + [r], r.account, window, true) == BurstKey(window, r.serverTime, n + 1)
    ensures CountBetween(Log(reqs + [r], r.account, window, true), r.serverTime, b) == n + 1
  {
    NextRequest(reqs, r, r.account, window, true);
    BurstAdmitted(r, window, n);
    CountBetweenAppend(Log(reqs, r.account, window, true), Admission(r.serverTime, MemberOf(r)), r.serverTime, b);
  }

  lemma {:induction false} BurstRuns(account: Id, t: int, limit: int, window: int, n: nat, b: int)
    requires window >= 1 && n <= limit && t < b
    ensures State(Burst(account, t, limit, n), account, window, true) == BurstKey(window, t, n)
    ensures CountBetween(Log(Burst(account, t, limit, n), account, window, true), t, b) == n
  {
    if n > 0 {
      BurstRuns(account, t, limit, window, n - 1, b);
      OneMoreInBurst(Burst(account, t, limit, n - 1), Request(account, t, 0, limit, n - 1), window, n - 1, b);
    }
  }

  /** A whole window after the burst, by the callers' seconds, the set is empty again. */
  lemma AfterBurst(account: Id, t: int, limit: nat, window: int, late: Request, b: int)
    requires window >= 1 && limit >= 1 && t <= late.serverTime < b && t < b
    requires late.account == account && late.now == window && late.limit == limit
    ensures CountBetween(Log(Burst(account, t, limit, limit) + [late], account, window, true), t, b) == limit + 1
  {
    var burst := Burst(account, t, limit, limit);
    BurstRuns(account, t, limit, window, limit, b);
    NextRequest(burst, late, account, window, true);
    TrimmedAdmits(BurstKey(window, t, limit), late, window);
    CountBetweenAppend(Log(burst, account, window, true), Admission(late.serverTime, MemberOf(late)), t, b);
  }

  lemma BurstShape(account: Id, t: int, limit: nat, late: Request)
    requires late.account == account && late.now >= 1 && late.limit == limit && t <= late.serverTime
    ensures var reqs := Burst(account, t, limit, limit) + [late];
            ServerOrdered(reqs) && DistinctMembers(reqs, account) && RequestLimitAtMost(reqs, account, limit)
  {
  }

  lemma BurstReadings(account: Id, t: int, limit: nat, late: Request, clock: int, skew: nat)
    requires t == SECOND - 1 + skew && late.now == clock / SECOND && late.serverTime == clock - skew
    ensures ReadFrom(Burst(account, t, limit, limit) + [late], seq(limit, _ => SECOND - 1) + [clock], skew)
  {
    assert (SECOND - 1) / SECOND == 0;
  }

  lemma BurstThenLate(account: Id, t: int, window: int, skew: nat, limit: nat, clock: int)
    returns (reqs: seq<Request>, clocks: seq<int>)
    requires t == SECOND - 1 + skew <= clock - skew && clock / SECOND == window >= 1 && limit >= 1
    ensures reqs == Burst(account, t, limit, limit) + [Request(account, clock - skew, window, limit, 0)]
    ensures ServerOrdered(reqs) && ReadFrom(reqs, clocks, skew) && DistinctMembers(reqs, account)
    ensures RequestLimitAtMost(reqs, account, limit)
  {
    var late := Request(account, clock - skew, window, limit, 0);
    reqs := Burst(account, t, limit, limit) + [late];
    clocks := seq(limit, _ => SECOND - 1) + [clock];
    BurstShape(account, t, limit, late);
    BurstReadings(account, t, limit, late, clock, skew);
  }

  lemma LateExceeds(account: Id, t: int, window: int, skew: nat, limit: nat, clock: int)
    returns (reqs: seq<Request>, clocks: seq<int>)
    requires t == SECOND - 1 + skew <= clock - skew && clock / SECOND == window >= 1 && limit >= 1
    ensures ServerOrdered(reqs) && ReadFrom(reqs, clocks, skew) && DistinctMembers(reqs, account)
    ensures RequestLimitAtMost(reqs, account, limit)
    ensures CountBetween(Log(reqs, account, window, true), t, clock - skew + 1) == limit + 1
  {
    reqs, clocks := BurstThenLate(account, t, window, skew, limit, clock);
    AfterBurst(account, t, limit, window, Request(account, clock - skew, window, limit, 0), clock - skew + 1);
  }

  /** And no longer: with one nanosecond more, every limit is exceeded. */
  lemma ClockWindowTight(account: Id, window: int, skew: nat, limit: nat)
    returns (reqs: seq<Request>, clocks: seq<int>, a: int)
    requires window * SECOND - 2 * skew - SECOND + 1 >= 0 && limit >= 1
    ensures ServerOrdered(reqs) && ReadFrom(reqs, clocks, skew) && DistinctMembers(reqs, account)
    ensures RequestLimitAtMost(reqs, account, limit)
    ensures var length := window * SECOND - 2 * skew - SECOND + 1;
            CountBetween(Log(reqs, account, window, true), a, a + length + 1) == limit + 1
  {
    a := SECOND - 1 + skew;
    reqs, clocks := LateExceeds(account, a, window, skew, limit, window * SECOND);
  }

  lemma TrimmedAdmits(k: Key, r: Request, window: int)
    requires k.Present? && r.limit >= 1 && forall m :: m in k.members ==> k.members[m] <= r.now - window
    ensures Script(k, r, window, true).1.allowed
  {
    assert Trim(Visible(k, r.serverTime, true), r.now - window) == map[];
  }

  // ---------- refinement of the ideal limiter on a monotone whole-second clock ----------

  function Nows(log: seq<Admission>): (r: seq<int>)
    ensures |r| == |log| && forall i :: 0 <= i < |log| ==> r[i] == log[i].member.now
  {
    seq(|log|, i requires 0 <= i < |log| => log[i].member.now)
  }

  /** The account's requests carry readings that never go back. */
  ghost predicate ClockOrdered(reqs: seq<Request>, account: Id) {
    forall i, j :: 0 <= i < j < |reqs| && reqs[i].account == account == reqs[j].account ==> reqs[i].now <= reqs[j].now
  }

  function Plain(reqs: seq<Request>): (r: seq<Call>)
    ensures |r| == |reqs|
    ensures forall i :: 0 <= i < |reqs| ==> r[i] == CallOf(reqs[i])
  {
    seq(|reqs|, i requires 0 <= i < |reqs| => CallOf(reqs[i]))
  }

  /** Members and log agree on everything later than `from`; scores are the times in the members. */
  ghost predicate Matches(members: map<Member, int>, log: seq<Admission>, from: int) {
    && (forall m :: m in members ==> members[m] == m.now && exists i :: 0 <= i < |log| && log[i].member == m)
    && (forall i :: 0 <= i < |log| && log[i].member.now > from ==> log[i].member in members)
  }

  function LaterMembers(log: seq<Admission>, n: nat, start: int): set<Member>
    requires n <= |log|
  {
    set i | 0 <= i < n && log[i].member.now > start :: log[i].member
  }

  lemma {:induction false} LaterSize(log: seq<Admission>, n: nat, start: int)
    requires NoRepeats(log) && n <= |log|
    ensures |LaterMembers(log, n, start)| == |LiveTo(Nows(log), n, start)|
  {
    if n > 0 {
      LaterSize(log, n - 1, start);
      var m := log[n - 1].member;
      assert LaterMembers(log, n, start) == LaterMembers(log, n - 1, start) + if m.now > start then {m} else {};
      assert m !in LaterMembers(log, n - 1, start);
    }
  }

  ghost predicate Ascending(h: seq<int>) {
    forall i, j :: 0 <= i < j < |h| ==> h[i] <= h[j]
  }

  lemma {:induction false} FirstLiveBelow(h: seq<int>, n: nat, start: int, j: int)
    requires 0 <= j < n <= |h| && Ascending(h) && h[j] > start
    ensures LiveTo(h, n, start) != [] && LiveTo(h, n, start)[0] <= h[j]
  {
    if j < n - 1 {
      FirstLiveBelow(h, n - 1, start, j);
    } else if LiveTo(h, n - 1, start) != [] {
      var i := FirstLiveIndex(h, n - 1, start);
    }
  }

  lemma {:induction false} FirstLiveIndex(h: seq<int>, n: nat, start: int) returns (i: int)
    requires n <= |h| && LiveTo(h, n, start) != []
    ensures 0 <= i < n && h[i] == LiveTo(h, n, start)[0] && h[i] > start
  {
    if LiveTo(h, n - 1, start) != [] { i := FirstLiveIndex(h, n - 1, start); } else { i := n - 1; }
  }

  lemma TrimSizeIsLive(members: map<Member, int>, log: seq<Admission>, from: int, start: int)
    requires Matches(members, log, from) && from <= start && NoRepeats(log)
    ensures |Trim(members, start)| == |Live(Nows(log), start)|
  {
    var live := Trim(members, start);
    assert live.Keys == LaterMembers(log, |log|, start);
    LaterSize(log, |log|, start);
    assert |live| == |live.Keys|;
  }

  lemma TrimLowestIsFirst(members: map<Member, int>, log: seq<Admission>, from: int, start: int)
    requires Matches(members, log, from) && from <= start && Ascending(Nows(log))
    requires Trim(members, start) != map[]
    ensures Live(Nows(log), start) != [] && Lowest(Trim(members, start)) == Live(Nows(log), start)[0]
  {
    var live := Trim(members, start);
    var h := Nows(log);
    var m :| m in live && live[m] == Lowest(live);
    var j :| 0 <= j < |log| && log[j].member == m;
    FirstLiveBelow(h, |log|, start, j);
    var i := FirstLiveIndex(h, |log|, start);
    assert log[i].member in live;
  }

  /** The trimmed set and the live history have the same size and the same oldest element. */
  ghost predicate SameView(live: map<Member, int>, h: seq<int>) {
    |live| == |h| && (live != map[] ==> h != [] && Lowest(live) == h[0])
  }

  ghost predicate SameAnswer(o: Outcome, r: Request, window: int, h: seq<int>) {
    var reply := AccountReply(o, r.limit);
    var ideal := IdealReply(h, r.limit, r.now, window);
    && reply.allowed == ideal.allowed && reply.remaining == ideal.remaining
    && reply.resetAt == if reply.allowed then r.now + window else ideal.resetAt
  }

  lemma SameViewSameAnswer(k: Key, r: Request, window: int, h: seq<int>)
    requires SameView(Trim(Members(k), r.now - window), Live(h, r.now - window))
    ensures SameAnswer(Script(k, r, window, false).1, r, window, h)
  {
    assert Visible(k, r.serverTime, false) == Members(k);
  }

  lemma TracksSameView(k: Key, log: seq<Admission>, h: seq<int>, from: int, now: int)
    requires Tracks(k, log, h, from, now)
    ensures SameView(Trim(Members(k), from), Live(h, from))
  {
    TrimSizeIsLive(Members(k), log, from, from);
    if Trim(Members(k), from) != map[] {
      TrimLowestIsFirst(Members(k), log, from, from);
    }
  }

  lemma ScriptMatches(k: Key, log: seq<Admission>, r: Request, window: int, from: int)
    requires Matches(Members(k), log, from) && from <= r.now - window
    ensures var (k', o) := Script(k, r, window, false);
            var log' := if o.allowed then log + [Admission(r.serverTime, MemberOf(r))] else log;
            Matches(Members(k'), log', r.now - window)
  {
    var (k', o) := Script(k, r, window, false);
    var log' := if o.allowed then log + [Admission(r.serverTime, MemberOf(r))] else log;
    forall m | m in Members(k') ensures Members(k')[m] == m.now && exists i :: 0 <= i < |log'| && log'[i].member == m {
      if m in Members(k) {
        var i :| 0 <= i < |log| && log[i].member == m;
        assert log'[i].member == m;
      } else {
        assert log'[|log|].member == m;
      }
    }
  }

  /** The log lists distinct members whose times are the history `h`, none after `now`. */
  ghost predicate Chronicle(log: seq<Admission>, h: seq<int>, now: int) {
    NoRepeats(log) && Nows(log) == h && Ascending(h) && forall i :: 0 <= i < |h| ==> h[i] <= now
  }

  lemma ChronicleGrows(log: seq<Admission>, h: seq<int>, r: Request)
    requires Chronicle(log, h, r.now) && forall x :: x in log ==> x.member != MemberOf(r)
    ensures Chronicle(log + [Admission(r.serverTime, MemberOf(r))], h + [r.now], r.now)
  {
  }

  /** What a run keeps for one account on a monotone clock. */
  ghost predicate Tracks(k: Key, log: seq<Admission>, h: seq<int>, from: int, now: int) {
    Matches(Members(k), log, from) && Chronicle(log, h, now)
  }

  lemma ScriptAllows(k: Key, log: seq<Admission>, h: seq<int>, r: Request, window: int)
    requires Tracks(k, log, h, r.now - window, r.now)
    ensures SameAnswer(Script(k, r, window, false).1, r, window, h)
  {
    TracksSameView(k, log, h, r.now - window, r.now);
    SameViewSameAnswer(k, r, window, h);
  }

  function CallOf(r: Request): Call { Call(r.account, r.limit, r.now) }

  lemma StepTracks(k: Key, log: seq<Admission>, h: seq<int>, r: Request, account: Id, window: int)
    requires Tracks(k, log, h, r.now - window, r.now)
    requires forall x :: x in log ==> x.member != MemberOf(r)
    ensures Tracks(KeyStep(k, r, account, window, false), LogStep(log, k, r, account, window, false),
                   Extend(h, CallOf(r), account, window), r.now - window, r.now)
  {
    ScriptAllows(k, log, h, r, window);
    ScriptMatches(k, log, r, window, r.now - window);
    ChronicleGrows(log, h, r);
  }

  lemma TracksLater(k: Key, log: seq<Admission>, h: seq<int>, from: int, now: int, from': int, now': int)
    requires Tracks(k, log, h, from, now) && from <= from' && now <= now'
    ensures Tracks(k, log, h, from', now')
  {
  }

  lemma OwnRequestTracks(reqs: seq<Request>, account: Id, window: int)
    requires reqs != [] && reqs[|reqs| - 1].account == account && DistinctMembers(reqs, account)
    requires var n := |reqs| - 1;
             Tracks(State(reqs[..n], account, window, false), Log(reqs[..n], account, window, false),
                    History(Plain(reqs[..n]), account, window), reqs[n].now - window, reqs[n].now)
    ensures Tracks(State(reqs, account, window, false), Log(reqs, account, window, false),
                   History(Plain(reqs), account, window), reqs[|reqs| - 1].now - window, reqs[|reqs| - 1].now)
  {
    var n := |reqs| - 1;
    assert Plain(reqs)[..n] == Plain(reqs[..n]);
    NewMember(reqs, account, window, false);
    StepTracks(State(reqs[..n], account, window, false), Log(reqs[..n], account, window, false),
               History(Plain(reqs[..n]), account, window), reqs[n], account, window);
  }

  lemma {:induction false} RunTracks(reqs: seq<Request>, account: Id, window: int, now: int)
    requires ClockOrdered(reqs, account) && DistinctMembers(reqs, account)
    requires forall i :: 0 <= i < |reqs| && reqs[i].account == account ==> reqs[i].now <= now
    ensures Tracks(State(reqs, account, window, false), Log(reqs, account, window, false),
                   History(Plain(reqs), account, window), now - window, now)
  {
    if reqs != [] {
      var n := |reqs| - 1;
      var r := reqs[n];
      if r.account == account {
        RunTracks(reqs[..n], account, window, r.now);
        OwnRequestTracks(reqs, account, window);
        TracksLater(State(reqs, account, window, false), Log(reqs, account, window, false),
                    History(Plain(reqs), account, window), r.now - window, r.now, now - window, now);
      } else {
        RunTracks(reqs[..n], account, window, now);
        assert Plain(reqs)[..n] == Plain(reqs[..n]);
      }
    }
  }

  /**
   While an account's requests carry readings that never go back and stay close to the server's time,
   with members that never collide, every answer is the ideal limiter's: same decision, same
   remaining, and on denial the same reset time.
   */
  lemma RedisRefinesIdeal(reqs: seq<Request>, window: int, lag: int, lead: int)
    requires reqs != []
    requires var account := reqs[|reqs| - 1].account;
             ClockOrdered(reqs, account) && DistinctMembers(reqs, account) && Skewed(reqs, account, lag, lead)
    requires ServerOrdered(reqs) && lag + lead <= COVERED
    ensures var r := reqs[|reqs| - 1];
            SameAnswer(Answer(reqs, window, true), r, window, History(Plain(reqs[..|reqs| - 1]), r.account, window))
  {
    var n := |reqs| - 1;
    var r := reqs[n];
    ExpireUnobservable(reqs, window, lag, lead);
    RunTracks(reqs[..n], r.account, window, r.now);
    var k, h := State(reqs[..n], r.account, window, false), History(Plain(reqs[..n]), r.account, window);
    ScriptAllows(k, Log(reqs[..n], r.account, window, false), h, r, window);
  }

  // ---------- waiting works ----------

  /** Division that truncates toward zero, as Go converts a float to an int. */
  function Truncate(a: int, b: int): int
    requires b > 0
  {
    if a >= 0 then a / b else -((-a) / b)
  }

  /** The IP limiter's Retry-After, computed at clock reading `clock` (nanoseconds). */
  function RetryAfter(resetAt: int, clock: int): int {
    SecondsLeft(resetAt * SECOND, clock)
  }

  /** `int(time.Until(t).Seconds()) + 1` for an instant `t` in nanoseconds. */
  function SecondsLeft(t: int, clock: int): int {
    Truncate(t - clock, SECOND) + 1
  }

  lemma RetryAfterBounds(resetAt: int, clock: int)
    ensures clock + RetryAfter(resetAt, clock) * SECOND > resetAt * SECOND
    ensures clock <= resetAt * SECOND ==>
              RetryAfter(resetAt, clock) >= 1 && clock + RetryAfter(resetAt, clock) * SECOND <= (resetAt + 1) * SECOND
    ensures RetryAfter(resetAt, clock) >= 1 <==> clock - resetAt * SECOND < SECOND
  {
  }

  /** After a denial by a full set, the oldest score leaves at the advertised reset time. */
  lemma DeniedThenAdmitted(k: Key, r: Request, window: int, r2: Request)
    requires r.limit >= 1 && r2.limit == r.limit && |Members(k)| <= r.limit
    requires !Script(k, r, window, true).1.allowed
    requires r2.now >= Script(k, r, window, true).1.resetAt
    ensures Script(Script(k, r, window, true).0, r2, window, true).1.allowed
  {
    var live := Trim(Visible(k, r.serverTime, true), r.now - window);
    TrimSize(Visible(k, r.serverTime, true), r.now - window);
    var k2 := Script(k, r, window, true).0;
    var seen := Visible(k2, r2.serverTime, true);
    var live2 := Trim(seen, r2.now - window);
    var m :| m in live && live[m] == Lowest(live);
    assert live2.Keys <= live.Keys - {m};
    SubsetSize(live2.Keys, live.Keys - {m});
    assert |live2| == |live2.Keys| && |live| == |live.Keys|;
  }

  /**
   A client with no other traffic on its key that waits the advertised Retry-After, counted from any
   clock reading `clock`, is admitted on return, however late in a second it was denied and whatever
   other keys have been asked for meanwhile.
   */
  lemma WaitingRetryAfterAdmits(reqs: seq<Request>, more: seq<Request>, window: int, clock: int, back: int, r2: Request)
    requires reqs != []
    requires var r := reqs[|reqs| - 1];
             && r.limit >= 1 && r2.limit == r.limit && r2.account == r.account
             && RequestLimitAtMost(reqs, r.account, r.limit)
    requires forall i :: 0 <= i < |more| ==> more[i].account != r2.account
    requires !Answer(reqs, window, true).allowed
    requires back >= clock + RetryAfter(Answer(reqs, window, true).resetAt, clock) * SECOND
    requires r2.now == back / SECOND
    ensures Answer(reqs + more + [r2], window, true).allowed
  {
    var n := |reqs| - 1;
    var r := reqs[n];
    CardinalityBound(reqs[..n], r.account, window, true, r.limit);
    RetryAfterBounds(Answer(reqs, window, true).resetAt, clock);
    DeniedThenAdmitted(State(reqs[..n], r.account, window, true), r, window, r2);
    OthersLeave(reqs, more, r2.account, window, true);
    assert (reqs + more + [r2])[..|reqs + more|] == reqs + more;
  }
}
