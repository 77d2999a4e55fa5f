/**
 The ideal sliding-window limiter: one account, the full history of its admissions, never
 compacted, never evicted. The in-memory limiter and both Redis scripts are proved against it.
 Times are integers in any unit; a window `w` at time `t` holds the admissions later than `t - w`.
 */
module SlidingWindow {
  import opened Wrappers

  /** Nanoseconds in a second. */
  const SECOND: int := 1_000_000_000

  /** One request to a limiter. */
  datatype Call = Call(account: Id, limit: int, at: int)

  /** A limiter's answer: X-RateLimit-Remaining and X-RateLimit-Reset travel with the decision. */
  datatype Reply = Reply(allowed: bool, remaining: int, resetAt: int)

  /** The elements of `h` later than `start`, in order. */
  function Live(h: seq<int>, start: int): (r: seq<int>)
    ensures |r| <= |h|
  {
    LiveTo(h, |h|, start)
  }

  function LiveTo(h: seq<int>, n: nat, start: int): (r: seq<int>)
    requires n <= |h|
    ensures |r| <= n
  {
    if n == 0 then []
    else if h[n - 1] > start then LiveTo(h, n - 1, start) + [h[n - 1]]
    else LiveTo(h, n - 1, start)
  }

  /** How many elements of `h` lie in the half-open interval [a, b). */
  function CountIn(h: seq<int>, a: int, b: int): nat
  {
    CountTo(h, |h|, a, b)
  }

  function CountTo(h: seq<int>, n: nat, a: int, b: int): nat
    requires n <= |h|
  {
    if n == 0 then 0 else CountTo(h, n - 1, a, b) + if a <= h[n - 1] < b then 1 else 0
  }

  /** The ideal decision on a full admission history. */
  function IdealReply(h: seq<int>, limit: int, at: int, window: int): Reply
  {
    var live := Live(h, at - window);
    var resetAt := (if live == [] then at else live[0]) + window;
    if |live| >= limit then Reply(false, 0, resetAt) else Reply(true, limit - |live| - 1, resetAt)
  }

  /** Every admission the ideal limiter of `account` has granted: only that account's calls matter. */
  function History(calls: seq<Call>, account: Id, window: int): seq<int>
  {
    if calls == [] then [] else
      var n := |calls| - 1;
      Extend(History(calls[..n], account, window), calls[n], account, window)
  }

  /** One call added to the history of `account`. */
  function Extend(h: seq<int>, c: Call, account: Id, window: int): seq<int>
  {
    if c.account == account && IdealReply(h, c.limit, c.at, window).allowed then h + [c.at] else h
  }

  /** The answers of the product of independent ideal limiters. */
  function IdealReplies(calls: seq<Call>, window: int): (r: seq<Reply>)
    ensures |r| == |calls|
  {
    if calls == [] then [] else
      var n := |calls| - 1;
      var c := calls[n];
      IdealReplies(calls[..n], window) + [IdealReply(History(calls[..n], c.account, window), c.limit, c.at, window)]
  }

  /** The calls of one account. */
  function Own(calls: seq<Call>, account: Id): seq<Call>
  {
    if calls == [] then [] else
      var n := |calls| - 1;
      if calls[n].account == account then Own(calls[..n], account) + [calls[n]] else Own(calls[..n], account)
  }

  ghost predicate Ordered(calls: seq<Call>) {
    forall i, j :: 0 <= i < j < |calls| ==> calls[i].at <= calls[j].at
  }

  ghost predicate LimitAtMost(calls: seq<Call>, account: Id, limit: int) {
    forall i :: 0 <= i < |calls| && calls[i].account == account ==> calls[i].limit <= limit
  }

  // ---------- algebra of the window filter ----------

  lemma {:induction false} LiveToPrefix(h: seq<int>, x: int, n: nat, s: int)
    requires n <= |h|
    ensures LiveTo(h + [x], n, s) == LiveTo(h, n, s)
  {
    if n > 0 { LiveToPrefix(h, x, n - 1, s); }
  }

  lemma LiveAppend(h: seq<int>, x: int, s: int)
    ensures Live(h + [x], s) == if x > s then Live(h, s) + [x] else Live(h, s)
  {
    LiveToPrefix(h, x, |h|, s);
  }

  lemma {:induction false} LiveToTwice(h: seq<int>, n: nat, s: int, t: int)
    requires n <= |h| && s <= t
    ensures Live(LiveTo(h, n, s), t) == LiveTo(h, n, t)
  {
    if n > 0 {
      LiveToTwice(h, n - 1, s, t);
      LiveAppend(LiveTo(h, n - 1, s), h[n - 1], t);
    }
  }

  lemma LiveOfLive(h: seq<int>, s: int, t: int)
    requires s <= t
    ensures Live(Live(h, s), t) == Live(h, t)
  {
    LiveToTwice(h, |h|, s, t);
  }

  lemma {:induction false} LiveToMembers(h: seq<int>, n: nat, s: int)
    requires n <= |h|
    ensures forall x :: x in LiveTo(h, n, s) ==> x in h && x > s
  {
    if n > 0 {
      LiveToMembers(h, n - 1, s);
    }
  }

  lemma LiveMembers(h: seq<int>, s: int)
    ensures forall x :: x in Live(h, s) ==> x in h && x > s
  {
    LiveToMembers(h, |h|, s);
  }

  lemma {:induction false} LiveToEmpty(h: seq<int>, n: nat, s: int)
    requires n <= |h| && forall x :: x in h ==> x <= s
    ensures LiveTo(h, n, s) == []
  {
    if n > 0 {
      assert h[n - 1] in h;
      LiveToEmpty(h, n - 1, s);
    }
  }

  lemma LiveEmpty(h: seq<int>, s: int)
    requires forall x :: x in h ==> x <= s
    ensures Live(h, s) == []
  {
    LiveToEmpty(h, |h|, s);
  }

  lemma LiveShrinks(h: seq<int>, s: int, t: int)
    requires s <= t
    ensures |Live(h, t)| <= |Live(h, s)|
  {
    LiveOfLive(h, s, t);
  }

  lemma {:induction false} LiveToSameLength(h: seq<int>, n: nat, s: int)
    requires n <= |h| && |LiveTo(h, n, s)| == n
    ensures forall i :: 0 <= i < n ==> LiveTo(h, n, s)[i] == h[i]
  {
    if n > 0 { LiveToSameLength(h, n - 1, s); }
  }

  /** Filtering by a later start either drops something or changes nothing. */
  lemma LiveSameLength(h: seq<int>, s: int)
    requires |Live(h, s)| == |h|
    ensures Live(h, s) == h
  {
    LiveToSameLength(h, |h|, s);
  }

  lemma {:induction false} CountToPrefix(h: seq<int>, x: int, n: nat, a: int, b: int)
    requires n <= |h|
    ensures CountTo(h + [x], n, a, b) == CountTo(h, n, a, b)
  {
    if n > 0 { CountToPrefix(h, x, n - 1, a, b); }
  }

  lemma CountAppend(h: seq<int>, x: int, a: int, b: int)
    ensures CountIn(h + [x], a, b) == CountIn(h, a, b) + if a <= x < b then 1 else 0
  {
    CountToPrefix(h, x, |h|, a, b);
  }

  lemma {:induction false} CountToAtMostLive(h: seq<int>, n: nat, a: int, b: int, s: int)
    requires n <= |h| && s < a
    ensures CountTo(h, n, a, b) <= |LiveTo(h, n, s)|
  {
    if n > 0 { CountToAtMostLive(h, n - 1, a, b, s); }
  }

  /** Everything counted from `a` on is still live for any window start before `a`. */
  lemma CountAtMostLive(h: seq<int>, a: int, b: int, s: int)
    requires s < a
    ensures CountIn(h, a, b) <= |Live(h, s)|
  {
    CountToAtMostLive(h, |h|, a, b, s);
  }

  // ---------- the ideal limiter ----------

  /**
   At most `limit` admissions of an account in any half-open window of length `window`, whatever
   the other accounts do and however the times of the calls interleave.
   */
  lemma {:induction false} IdealWindowBound(calls: seq<Call>, account: Id, limit: nat, window: int, a: int)
    requires LimitAtMost(calls, account, limit)
    ensures CountIn(History(calls, account, window), a, a + window) <= limit
  {
    if calls != [] {
      var n := |calls| - 1;
      IdealWindowBound(calls[..n], account, limit, window, a);
      ExtendCount(History(calls[..n], account, window), calls[n], account, limit, window, a);
    }
  }

  lemma ExtendCount(h: seq<int>, c: Call, account: Id, limit: nat, window: int, a: int)
    requires CountIn(h, a, a + window) <= limit
    requires c.account == account ==> c.limit <= limit
    ensures CountIn(Extend(h, c, account, window), a, a + window) <= limit
  {
    CountAppend(h, c.at, a, a + window);
    if a <= c.at < a + window {
      CountAtMostLive(h, a, a + window, c.at - window);
    }
  }

  /** One account's calls never affect another's: the history is a function of its own calls. */
  lemma {:induction false} IdealIsolation(calls: seq<Call>, account: Id, window: int)
    ensures History(calls, account, window) == History(Own(calls, account), account, window)
  {
    if calls != [] {
      var n := |calls| - 1;
      IdealIsolation(calls[..n], account, window);
      if calls[n].account == account {
        var own := Own(calls, account);
        assert own[..|own| - 1] == Own(calls[..n], account);
      }
    }
  }

  lemma {:induction false} HistoryTimes(calls: seq<Call>, account: Id, window: int, x: int)
    requires x in History(calls, account, window)
    ensures exists i :: 0 <= i < |calls| && calls[i].at == x && calls[i].account == account
  {
    var n := |calls| - 1;
    if x in History(calls[..n], account, window) {
      HistoryTimes(calls[..n], account, window, x);
      var i :| 0 <= i < n && calls[..n][i].at == x && calls[..n][i].account == account;
      assert calls[i].at == x;
    }
  }

  lemma ExtendLive(h: seq<int>, c: Call, account: Id, limit: nat, window: int, at: int)
    requires |Live(h, c.at - window)| <= limit && c.at <= at
    requires c.account == account ==> c.limit <= limit
    ensures |Live(Extend(h, c, account, window), at - window)| <= limit
  {
    LiveAppend(h, c.at, at - window);
    LiveShrinks(h, c.at - window, at - window);
  }

  /** A full window is exactly full: the live admissions never exceed a fixed limit. */
  lemma {:induction false} IdealLiveBound(calls: seq<Call>, account: Id, limit: nat, window: int, at: int)
    requires Ordered(calls) && LimitAtMost(calls, account, limit)
    requires forall i :: 0 <= i < |calls| ==> calls[i].at <= at
    ensures |Live(History(calls, account, window), at - window)| <= limit
  {
    if calls != [] {
      var n := |calls| - 1;
      IdealLiveBound(calls[..n], account, limit, window, calls[n].at);
      ExtendLive(History(calls[..n], account, window), calls[n], account, limit, window, at);
    }
  }

  /**
   Denials never extend the wait: with a fixed limit of at least one, two denied calls with no
   admission between them advertise the same reset time.
   */
  lemma DenialsKeepReset(calls: seq<Call>, account: Id, limit: nat, window: int, t1: int, t2: int)
    requires Ordered(calls) && LimitAtMost(calls, account, limit)
    requires forall i :: 0 <= i < |calls| ==> calls[i].at <= t1
    requires t1 <= t2 && limit >= 1
    requires !IdealReply(History(calls, account, window), limit, t1, window).allowed
    requires !IdealReply(History(calls, account, window), limit, t2, window).allowed
    ensures IdealReply(History(calls, account, window), limit, t1, window).resetAt
         == IdealReply(History(calls, account, window), limit, t2, window).resetAt
  {
    var h := History(calls, account, window);
    IdealLiveBound(calls, account, limit, window, t1);
    LiveOfLive(h, t1 - window, t2 - window);
    LiveSameLength(Live(h, t1 - window), t2 - window);
  }

  /** Waiting a whole window (the account limiters' Retry-After of 60) always leads to admission. */
  lemma WaitingAWindowAdmits(calls: seq<Call>, account: Id, limit: int, window: int, t1: int, t2: int)
    requires forall i :: 0 <= i < |calls| ==> calls[i].at <= t1
    requires limit >= 1 && t2 >= t1 + window
    ensures IdealReply(History(calls, account, window), limit, t2, window) == Reply(true, limit - 1, t2 + window)
  {
    var h := History(calls, account, window);
    forall x | x in h ensures x <= t2 - window {
      HistoryTimes(calls, account, window, x);
    }
    LiveEmpty(h, t2 - window);
  }

  /** On admission, what remains plus what the window now holds is the limit. */
  lemma RemainingPlusLive(h: seq<int>, limit: int, at: int, window: int)
    requires window > 0
    requires IdealReply(h, limit, at, window).allowed
    ensures IdealReply(h, limit, at, window).remaining + |Live(h + [at], at - window)| == limit
    ensures 0 <= IdealReply(h, limit, at, window).remaining < limit
  {
    LiveAppend(h, at, at - window);
  }
}
