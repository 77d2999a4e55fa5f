/**
 The Lua sliding window on values: one Redis key, trimmed, counted, extended and given a new expiry
 by every run of the script. The account limiter and the generic limiter run the same commands and
 differ only in what they return. The server's own clock is in nanoseconds; the scores, the window
 and the `now` argument are whole seconds of the calling instance's clock.
 */
module RedisScript {
  import opened Wrappers
  import opened SlidingWindow

  /** `now .. '-' .. math.random()` */
  datatype Member = Member(now: int, suffix: nat)

  datatype Key = Absent | Present(members: map<Member, int>, deadline: int)

  datatype Request = Request(account: Id, serverTime: int, now: int, limit: int, suffix: nat)

  datatype Outcome = Outcome(allowed: bool, count: nat, resetAt: int)

  const EXPIRE_MARGIN: int := 10

  /** The account limiters' window, in seconds. */
  const WINDOW_SECONDS: int := 60

  function Members(k: Key): map<Member, int> {
    match k case Absent => map[] case Present(members, _) => members
  }

  /**
   What the script finds: a key later than its deadline is gone. `expires == false` is the same server
   without EXPIRE.
   */
  function Visible(k: Key, serverTime: int, expires: bool): map<Member, int> {
    if k.Present? && expires && serverTime > k.deadline then map[] else Members(k)
  }

  /** ZREMRANGEBYSCORE key -inf start */
  function Trim(members: map<Member, int>, start: int): map<Member, int> {
    map m | m in members && members[m] > start :: members[m]
  }

  predicate IsLowest(members: map<Member, int>, score: int) {
    (exists m :: m in members && members[m] == score) && forall m :: m in members ==> score <= members[m]
  }

  lemma LowestExists(members: map<Member, int>)
    requires members != map[]
    ensures exists score :: IsLowest(members, score)
  {
    var m :| m in members;
    LowestAmong(members, members.Keys, m);
  }

  lemma {:induction false} LowestAmong(members: map<Member, int>, keys: set<Member>, best: Member)
    requires best in members && keys <= members.Keys
    requires forall m :: m in members && m !in keys ==> members[best] <= members[m]
    ensures exists score :: IsLowest(members, score)
    decreases keys
  {
    if keys == {} {
      assert IsLowest(members, members[best]);
    } else {
      var m :| m in keys;
      LowestAmong(members, keys - {m}, if members[m] < members[best] then m else best);
    }
  }

  /** ZRANGE key 0 0 WITHSCORES */
  ghost function Lowest(members: map<Member, int>): (score: int)
    requires members != map[]
    ensures IsLowest(members, score)
  {
    LowestExists(members);
    var score :| IsLowest(members, score); score
  }

  ghost function Script(k: Key, r: Request, window: int, expires: bool): (Key, Outcome) {
    var live := Trim(Visible(k, r.serverTime, expires), r.now - window);
    if |live| >= r.limit then
      var resetAt := (if live == map[] then r.now else Lowest(live)) + window;
      (if live == map[] then Absent else Present(live, Deadline(k)), Outcome(false, |live|, resetAt))
    else
      (Present(live[Member(r.now, r.suffix) := r.now], r.serverTime + (window + EXPIRE_MARGIN) * SECOND),
       Outcome(true, |live|, r.now + window))
  }

  function Deadline(k: Key): int {
    if k.Present? then k.deadline else 0
  }

  /** What the account limiter's script returns, as the caller reads it. */
  function AccountReply(o: Outcome, limit: int): Reply {
    Reply(o.allowed, if o.allowed then limit - o.count - 1 else 0, o.resetAt)
  }

  // ---------- runs: the state of one key after a sequence of requests on any keys ----------

  ghost function State(reqs: seq<Request>, account: Id, window: int, expires: bool): Key {
    if reqs == [] then Absent else
      var n := |reqs| - 1;
      KeyStep(State(reqs[..n], account, window, expires), reqs[n], account, window, expires)
  }

  ghost function KeyStep(k: Key, r: Request, account: Id, window: int, expires: bool): Key {
    if r.account == account then Script(k, r, window, expires).0 else k
  }

  ghost function Answer(reqs: seq<Request>, window: int, expires: bool): Outcome
    requires reqs != []
  {
    var n := |reqs| - 1;
    Script(State(reqs[..n], reqs[n].account, window, expires), reqs[n], window, expires).1
  }

  ghost predicate ServerOrdered(reqs: seq<Request>) {
    forall i, j :: 0 <= i < j < |reqs| ==> reqs[i].serverTime <= reqs[j].serverTime
  }

  /**
   The whole seconds an account's requests carry lag the server's time by at most `lag`, and lead it by at
   most `lead`.
   */
  ghost predicate Skewed(reqs: seq<Request>, account: Id, lag: int, lead: int) {
    forall i :: 0 <= i < |reqs| && reqs[i].account == account ==>
      -lag <= reqs[i].now * SECOND - reqs[i].serverTime <= lead
  }

  /** Each request carries the whole second of an instance's clock that is within `skew` of the server's. */
  ghost predicate ReadFrom(reqs: seq<Request>, clocks: seq<int>, skew: int) {
    |clocks| == |reqs| && forall i :: 0 <= i < |reqs| ==>
      reqs[i].now == clocks[i] / SECOND && -skew <= clocks[i] - reqs[i].serverTime <= skew
  }

  /** Cutting a clock reading to whole seconds adds almost a second of lag. */
  lemma ReadFromSkewed(reqs: seq<Request>, clocks: seq<int>, account: Id, skew: int)
    requires ReadFrom(reqs, clocks, skew)
    ensures Skewed(reqs, account, skew + SECOND - 1, skew)
  {
    forall i | 0 <= i < |reqs|
      ensures -(skew + SECOND - 1) <= reqs[i].now * SECOND - reqs[i].serverTime <= skew
    {
      assert clocks[i] - (SECOND - 1) <= clocks[i] / SECOND * SECOND <= clocks[i];
    }
  }

  function MemberOf(r: Request): Member { Member(r.now, r.suffix) }

  /** No two requests of the account carry the same member. */
  ghost predicate DistinctMembers(reqs: seq<Request>, account: Id) {
    forall i, j :: 0 <= i < j < |reqs| && reqs[i].account == account == reqs[j].account ==>
      MemberOf(reqs[i]) != MemberOf(reqs[j])
  }

  ghost predicate RequestLimitAtMost(reqs: seq<Request>, account: Id, limit: int) {
    forall i :: 0 <= i < |reqs| && reqs[i].account == account ==> reqs[i].limit <= limit
  }

  // ---------- sizes ----------

  lemma TrimSize(members: map<Member, int>, start: int)
    ensures |Trim(members, start)| <= |members|
  {
    SubsetSize(Trim(members, start).Keys, members.Keys);
    assert |Trim(members, start)| == |Trim(members, start).Keys| && |members| == |members.Keys|;
  }

  lemma AddSize(live: map<Member, int>, m: Member, score: int)
    ensures |live[m := score]| <= |live| + 1
  {
    assert live[m := score].Keys == live.Keys + {m};
    assert |live[m := score]| == |live[m := score].Keys| && |live| == |live.Keys|;
  }

  lemma ScriptSize(k: Key, r: Request, window: int, expires: bool, limit: nat)
    requires |Members(k)| <= limit && r.limit <= limit
    ensures |Members(Script(k, r, window, expires).0)| <= limit
  {
    TrimSize(Visible(k, r.serverTime, expires), r.now - window);
    AddSize(Trim(Visible(k, r.serverTime, expires), r.now - window), MemberOf(r), r.now);
  }

  /** The sorted set never outgrows the limit, whatever the clocks do and even if members collide. */
  lemma {:induction false} CardinalityBound(reqs: seq<Request>, account: Id, window: int, expires: bool, limit: nat)
    requires RequestLimitAtMost(reqs, account, limit)
    ensures |Members(State(reqs, account, window, expires))| <= limit
  {
    if reqs != [] {
      var n := |reqs| - 1;
      CardinalityBound(reqs[..n], account, window, expires, limit);
      if reqs[n].account == account {
        ScriptSize(State(reqs[..n], account, window, expires), reqs[n], window, expires, limit);
      }
    }
  }

  /** Requests of other accounts leave the key alone. */
  lemma {:induction false} OthersLeave(reqs: seq<Request>, more: seq<Request>, account: Id, window: int, expires: bool)
    requires forall i :: 0 <= i < |more| ==> more[i].account != account
    ensures State(reqs + more, account, window, expires) == State(reqs, account, window, expires)
  {
    if more == [] {
      assert reqs + more == reqs;
    } else {
      var n := |more| - 1;
      OthersLeave(reqs, more[..n], account, window, expires);
      assert (reqs + more)[..|reqs| + n] == reqs + more[..n];
    }
  }

  // ---------- denials never extend the wait ----------

  /** Two successive denials of a key advertise the same reset time, whatever the clocks and the members are. */
  lemma DenialsKeepReset(k: Key, r: Request, r2: Request, window: int)
    requires r.limit >= 1 && r2.limit == r.limit && |Members(k)| <= r.limit
    requires !Script(k, r, window, true).1.allowed
    requires !Script(Script(k, r, window, true).0, r2, window, true).1.allowed
    ensures Script(Script(k, r, window, true).0, r2, window, true).1.resetAt == Script(k, r, window, true).1.resetAt
  {
    var seen := Visible(k, r.serverTime, true);
    var live := Trim(seen, r.now - window);
    TrimSize(seen, r.now - window);
    var seen2 := Visible(Script(k, r, window, true).0, r2.serverTime, true);
    var live2 := Trim(seen2, r2.now - window);
    FullSubset(live2.Keys, live.Keys);
    assert |live| == |live.Keys| && |live2| == |live2.Keys|;
    assert live2 == live;
  }

  lemma FullSubset(x: set<Member>, y: set<Member>)
    requires x <= y && |x| >= |y|
    ensures x == y
  {
    if e :| e in y && e !in x { SubsetSize(x, y - {e}); }
  }

  /** In a run: a denied client that only asks again is told the same time again, others on other keys or not. */
  lemma RunDenialsKeepReset(reqs: seq<Request>, more: seq<Request>, r2: Request, window: int)
    requires reqs != []
    requires var r := reqs[|reqs| - 1];
             && r.limit >= 1 && r2.limit == r.limit && r2.account == r.account
             && RequestLimitAtMost(reqs, r.account, r.limit)
    requires forall i :: 0 <= i < |more| ==> more[i].account != r2.account
    requires !Answer(reqs, window, true).allowed && !Answer(reqs + more + [r2], window, true).allowed
    ensures Answer(reqs + more + [r2], window, true).resetAt == Answer(reqs, window, true).resetAt
  {
    var n := |reqs| - 1;
    CardinalityBound(reqs[..n], r2.account, window, true, r2.limit);
    OthersLeave(reqs, more, r2.account, window, true);
    assert (reqs + more + [r2])[..|reqs + more|] == reqs + more;
    DenialsKeepReset(State(reqs[..n], r2.account, window, true), reqs[n], r2, window);
  }

  // ---------- EXPIRE is unobservable exactly when lag and lead add up to at most eleven seconds ----------

  const COVERED: int := (EXPIRE_MARGIN + 1) * SECOND

  /** The newest score is at most `lead` ahead of the admission that set the deadline. */
  ghost predicate DeadlineCovers(k: Key, window: int, lead: int) {
    k.Present? ==>
      forall m :: m in k.members ==>
        k.members[m] * SECOND <= k.deadline - (window + EXPIRE_MARGIN) * SECOND + lead
  }

  lemma ScriptCovers(k: Key, r: Request, window: int, lead: int)
    requires DeadlineCovers(k, window, lead)
    requires r.now * SECOND - r.serverTime <= lead
    requires k.Present? ==> k.deadline <= r.serverTime + (window + EXPIRE_MARGIN) * SECOND
    ensures DeadlineCovers(Script(k, r, window, true).0, window, lead)
  {
  }

  lemma ExpiredMeansTrimmed(k: Key, r: Request, window: int, lag: int, lead: int)
    requires DeadlineCovers(k, window, lead) && lag + lead <= COVERED
    requires -lag <= r.now * SECOND - r.serverTime
    requires k.Present? && r.serverTime > k.deadline
    ensures Trim(k.members, r.now - window) == map[]
  {
    forall m | m in k.members ensures k.members[m] <= r.now - window {
      assert (k.members[m] - r.now + window) * SECOND < SECOND;
    }
  }

  lemma ScriptUnobservable(e: Key, k: Key, r: Request, window: int, lag: int, lead: int)
    requires Members(e) == Members(k) && DeadlineCovers(e, window, lead)
    requires lag + lead <= COVERED && -lag <= r.now * SECOND - r.serverTime
    ensures Members(Script(e, r, window, true).0) == Members(Script(k, r, window, false).0)
    ensures Script(e, r, window, true).1 == Script(k, r, window, false).1
  {
    if e.Present? && r.serverTime > e.deadline {
      ExpiredMeansTrimmed(e, r, window, lag, lead);
      assert Trim(map[], r.now - window) == map[];
    }
  }

  ghost predicate Before(reqs: seq<Request>, t: int) {
    forall i :: 0 <= i < |reqs| ==> reqs[i].serverTime <= t
  }

  lemma {:induction false} StateUnobservable(reqs: seq<Request>, account: Id, window: int, lag: int, lead: int)
    requires ServerOrdered(reqs) && Skewed(reqs, account, lag, lead) && lag + lead <= COVERED
    ensures var e := State(reqs, account, window, true);
            && Members(e) == Members(State(reqs, account, window, false))
            && DeadlineCovers(e, window, lead)
            && forall t :: Before(reqs, t) && e.Present? ==> e.deadline <= t + (window + EXPIRE_MARGIN) * SECOND
  {
    if reqs != [] {
      var n := |reqs| - 1;
      StateUnobservable(reqs[..n], account, window, lag, lead);
      assert Before(reqs[..n], reqs[n].serverTime);
      var e := State(reqs[..n], account, window, true);
      forall t | Before(reqs, t) ensures Before(reqs[..n], t) && reqs[n].serverTime <= t {}
      if reqs[n].account == account {
        ScriptUnobservable(e, State(reqs[..n], account, window, false), reqs[n], window, lag, lead);
        ScriptCovers(e, reqs[n], window, lead);
      }
    }
  }

  /** With clocks that close, no caller can tell whether the key ever expires. */
  lemma ExpireUnobservable(reqs: seq<Request>, window: int, lag: int, lead: int)
    requires reqs != [] && ServerOrdered(reqs)
    requires Skewed(reqs, reqs[|reqs| - 1].account, lag, lead) && lag + lead <= COVERED
    ensures Answer(reqs, window, true) == Answer(reqs, window, false)
  {
    var n := |reqs| - 1;
    var account := reqs[n].account;
    StateUnobservable(reqs[..n], account, window, lag, lead);
    ScriptUnobservable(State(reqs[..n], account, window, true), State(reqs[..n], account, window, false), reqs[n],
                       window, lag, lead);
  }

  /** For instance clocks within d of the server's that is twice d at most ten seconds, and a nanosecond. */
  lemma ClocksHideExpire(reqs: seq<Request>, clocks: seq<int>, window: int, skew: int)
    requires reqs != [] && ServerOrdered(reqs) && ReadFrom(reqs, clocks, skew)
    requires 2 * skew <= 10_000_000_001
    ensures Answer(reqs, window, true) == Answer(reqs, window, false)
  {
    ReadFromSkewed(reqs, clocks, reqs[|reqs| - 1].account, skew);
    ExpireUnobservable(reqs, window, skew + SECOND - 1, skew);
  }

  /** For any larger skew a run exists where the expiry forgets an admission still in the window. */
  lemma ExpireObservable(account: Id, window: int, lag: int, lead: int) returns (reqs: seq<Request>)
    requires window >= 1 && lag + lead > COVERED
    ensures reqs != [] && ServerOrdered(reqs) && Skewed(reqs, account, lag, lead) && DistinctMembers(reqs, account)
    ensures Answer(reqs, window, true).allowed && !Answer(reqs, window, false).allowed
    ensures reqs[|reqs| - 1].account == account
    ensures |reqs| == 2 && reqs[0].now == 0 && reqs[0].serverTime == -lead
    ensures reqs[1].now == window - 1 && reqs[1].serverTime == (window - 1) * SECOND + lag
  {
    var first := Request(account, -lead, 0, 1, 0);
    var second := Request(account, (window - 1) * SECOND + lag, window - 1, 1, 1);
    reqs := [first, second];
    assert reqs[..1] == [first] && [first][..0] == [];
    assert Trim(map[], 0 - window) == map[];
    assert State([first], account, window, true) == Script(Absent, first, window, true).0;
    assert State([first], account, window, false) == Script(Absent, first, window, false).0;
    var k := State([first], account, window, false);
    assert Trim(k.members, -1) == map[Member(0, 0) := 0];
    assert Trim(map[], -1) == map[];
  }

  /** The same for clocks: the first reading is exact, the second just short of the next second. */
  lemma ClocksShowExpire(account: Id, window: int, skew: int) returns (reqs: seq<Request>, clocks: seq<int>)
    requires window >= 1 && skew >= 0 && 2 * skew > 10_000_000_001
    ensures reqs != [] && ServerOrdered(reqs) && ReadFrom(reqs, clocks, skew) && DistinctMembers(reqs, account)
    ensures Answer(reqs, window, true).allowed && !Answer(reqs, window, false).allowed
  {
    reqs := ExpireObservable(account, window, skew + SECOND - 1, skew);
    clocks := [0, window * SECOND - 1];
  }
}
