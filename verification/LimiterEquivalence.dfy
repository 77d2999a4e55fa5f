/**
 The in-memory limiter and the Redis limiters are the same limiter: on a whole-second clock, with no
 capacity eviction and members that do not collide, they answer every call sequence alike.
 */
module LimiterEquivalence {
  import opened Wrappers
  import opened SlidingWindow
  import M = MemoryStore
  import R = RedisScript
  import B = RedisBounds

  // ---------- the ideal limiter does not care about the unit of time ----------

  function Scaled(h: seq<int>): (r: seq<int>)
    ensures |r| == |h| && forall i :: 0 <= i < |h| ==> r[i] == h[i] * SECOND
  {
    seq(|h|, i requires 0 <= i < |h| => h[i] * SECOND)
  }

  function InNanoseconds(c: Call): Call { c.(at := c.at * SECOND) }

  lemma {:induction false} LiveScaled(h: seq<int>, n: nat, start: int)
    requires n <= |h|
    ensures LiveTo(Scaled(h), n, start * SECOND) == Scaled(LiveTo(h, n, start))
  {
    if n > 0 {
      LiveScaled(h, n - 1, start);
      assert h[n - 1] > start <==> h[n - 1] * SECOND > start * SECOND;
    }
  }

  lemma ReplyScaled(h: seq<int>, limit: int, at: int, window: int)
    ensures var r := IdealReply(h, limit, at, window);
            IdealReply(Scaled(h), limit, at * SECOND, window * SECOND) == r.(resetAt := r.resetAt * SECOND)
  {
    LiveScaled(h, |h|, at - window);
    assert (at - window) * SECOND == at * SECOND - window * SECOND;
  }

  lemma {:induction false} HistoryScaled(calls: seq<Call>, nano: seq<Call>, account: Id, window: int)
    requires |calls| == |nano| && forall i :: 0 <= i < |calls| ==> nano[i] == InNanoseconds(calls[i])
    ensures History(nano, account, window * SECOND) == Scaled(History(calls, account, window))
  {
    if calls != [] {
      var n := |calls| - 1;
      HistoryScaled(calls[..n], nano[..n], account, window);
      ReplyScaled(History(calls[..n], account, window), calls[n].limit, calls[n].at, window);
    }
  }

  lemma {:induction false} IdealReplyAt(calls: seq<Call>, window: int, i: nat)
    requires i < |calls|
    ensures IdealReplies(calls, window)[i] ==
              IdealReply(History(calls[..i], calls[i].account, window), calls[i].limit, calls[i].at, window)
  {
    var n := |calls| - 1;
    if i < n {
      IdealReplyAt(calls[..n], window, i);
      assert calls[..n][..i] == calls[..i];
    }
  }

  // ---------- the three limiters ----------

  /** The same calls, as the in-memory limiter and as the Redis server receive them. */
  ghost predicate SameCalls(mem: seq<M.MemCall>, reqs: seq<R.Request>) {
    && |mem| == |reqs|
    && forall i :: 0 <= i < |mem| ==> mem[i].call == InNanoseconds(B.CallOf(reqs[i]))
  }

  /** The memory side, said in whole seconds. */
  lemma MemoryIsIdeal(t0: int, mem: seq<M.MemCall>, reqs: seq<R.Request>, i: nat)
    requires SameCalls(mem, reqs) && i < |mem| && M.Run(t0, mem)
    requires M.Spared(t0, mem, reqs[i].account)
    ensures M.Replies(t0, mem)[i] ==
              IdealReply(History(B.Plain(reqs[..i]), reqs[i].account, R.WINDOW_SECONDS), reqs[i].limit,
                         reqs[i].now, R.WINDOW_SECONDS)
  {
    M.MemoryRefinesIdeal(t0, mem, reqs[i].account);
    IdealReplyAt(M.Plain(mem), M.WINDOW, i);
    HistoryScaled(B.Plain(reqs[..i]), M.Plain(mem)[..i], reqs[i].account, R.WINDOW_SECONDS);
    ReplyScaled(History(B.Plain(reqs[..i]), reqs[i].account, R.WINDOW_SECONDS), reqs[i].limit, reqs[i].now,
                R.WINDOW_SECONDS);
  }

  /** The memory limiter's clock is monotone, so the readings in the Redis requests are. */
  lemma {:induction false} MemoryOrdered(t0: int, mem: seq<M.MemCall>)
    requires M.Run(t0, mem)
    ensures forall i :: 0 <= i < |mem| ==> mem[i].call.at <= M.Last(t0, mem)
    ensures forall i, j :: 0 <= i < j < |mem| ==> mem[i].call.at <= mem[j].call.at
  {
    if mem != [] {
      var n := |mem| - 1;
      MemoryOrdered(t0, mem[..n]);
      assert forall i :: 0 <= i < n ==> mem[..n][i] == mem[i];
    }
  }

  lemma ReadingsOrdered(t0: int, mem: seq<M.MemCall>, reqs: seq<R.Request>, account: Id)
    requires SameCalls(mem, reqs) && M.Run(t0, mem)
    ensures B.ClockOrdered(reqs, account)
  {
    MemoryOrdered(t0, mem);
    forall i, j | 0 <= i < j < |reqs| ensures reqs[i].now <= reqs[j].now {
      assert mem[i].call.at == reqs[i].now * SECOND && mem[j].call.at == reqs[j].now * SECOND;
    }
  }

  lemma PrefixKeeps(reqs: seq<R.Request>, n: nat, account: Id, lag: int, lead: int)
    requires n <= |reqs| && B.ClockOrdered(reqs, account) && R.DistinctMembers(reqs, account)
    requires R.ServerOrdered(reqs) && R.Skewed(reqs, account, lag, lead)
    ensures B.ClockOrdered(reqs[..n], account) && R.DistinctMembers(reqs[..n], account)
    ensures R.ServerOrdered(reqs[..n]) && R.Skewed(reqs[..n], account, lag, lead)
  {
  }

  /** The Redis side. */
  lemma RedisIsIdeal(reqs: seq<R.Request>, lag: int, lead: int, i: nat)
    requires i < |reqs| && R.ServerOrdered(reqs) && B.ClockOrdered(reqs, reqs[i].account)
    requires R.DistinctMembers(reqs, reqs[i].account)
    requires R.Skewed(reqs, reqs[i].account, lag, lead) && lag + lead <= R.COVERED
    ensures B.SameAnswer(R.Answer(reqs[..i + 1], R.WINDOW_SECONDS, true), reqs[i], R.WINDOW_SECONDS,
                         History(B.Plain(reqs[..i]), reqs[i].account, R.WINDOW_SECONDS))
  {
    PrefixKeeps(reqs, i + 1, reqs[i].account, lag, lead);
    assert reqs[..i + 1][..i] == reqs[..i];
    B.RedisRefinesIdeal(reqs[..i + 1], R.WINDOW_SECONDS, lag, lead);
  }

  /**
   Equivalence: call by call the in-memory limiter and the Redis account limiter agree on the
   decision and on what remains, and on the reset time of a denial; the generic limiter, which returns
   only the script's decision, agrees on that. Only this account's members have to be distinct, and
   only its readings close to the server's time.
   */
  lemma LimitersAgree(t0: int, mem: seq<M.MemCall>, reqs: seq<R.Request>, lag: int, lead: int, i: nat)
    requires SameCalls(mem, reqs) && i < |mem| && R.ServerOrdered(reqs)
    requires M.Run(t0, mem) && M.Spared(t0, mem, reqs[i].account)
    requires R.DistinctMembers(reqs, reqs[i].account)
    requires R.Skewed(reqs, reqs[i].account, lag, lead) && lag + lead <= R.COVERED
    ensures var memory := M.Replies(t0, mem)[i];
            var answer := R.Answer(reqs[..i + 1], R.WINDOW_SECONDS, true);
            var redis := R.AccountReply(answer, reqs[i].limit);
            && memory.allowed == redis.allowed && memory.remaining == redis.remaining
            && (!memory.allowed ==> memory.resetAt == redis.resetAt)
            && memory.allowed == answer.allowed
  {
    MemoryIsIdeal(t0, mem, reqs, i);
    ReadingsOrdered(t0, mem, reqs, reqs[i].account);
    RedisIsIdeal(reqs, lag, lead, i);
  }
}
