/**
 The two Redis limiters as the code runs them: a server whose commands update a sorted set and its
 expiry, the Lua script as a sequence of those commands, and the Go callers that read the result.
 The script is proved to take the step `RedisScript.Script` on its key and to leave all others alone.
 */
module RedisLimiter {
  import opened Wrappers
  import opened SlidingWindow
  import opened RedisScript
  import RedisBounds

  /** How a call to the server can go wrong: the script did not run, or its result was lost. */
  datatype Fault = NoFault | NotRun | ResultLost

  class RedisServer {
    var zsets: map<Id, map<Member, int>>
    var deadlines: map<Id, int>

    ghost predicate Valid()
      reads this
    {
      zsets.Keys == deadlines.Keys
    }

    ghost function KeyOf(account: Id): Key
      reads this
    {
      if account in zsets && account in deadlines then Present(zsets[account], deadlines[account]) else Absent
    }

    ghost predicate OthersSame(account: Id, oldZsets: map<Id, map<Member, int>>, oldDeadlines: map<Id, int>)
      reads this
    {
      zsets - {account} == oldZsets - {account} && deadlines - {account} == oldDeadlines - {account}
    }

    constructor ()
      ensures Valid() && forall account :: KeyOf(account) == Absent
    {
      zsets, deadlines := map[], map[];
    }

    /** A key past its deadline is gone before any command sees it. */
    method ExpirePassively(account: Id, serverTime: int)
      requires Valid()
      modifies this
      ensures Valid() && OthersSame(account, old(zsets), old(deadlines))
      ensures Members(KeyOf(account)) == Visible(old(KeyOf(account)), serverTime, true)
      ensures KeyOf(account).Present? ==> KeyOf(account) == old(KeyOf(account))
    {
      if account in deadlines && serverTime > deadlines[account] {
        zsets, deadlines := zsets - {account}, deadlines - {account};
      }
    }

    /** ZREMRANGEBYSCORE key -inf start; a set that becomes empty disappears together with its expiry. */
    method ZRemRangeByScore(account: Id, start: int)
      requires Valid()
      modifies this
      ensures Valid() && OthersSame(account, old(zsets), old(deadlines))
      ensures var live := Trim(Members(old(KeyOf(account))), start);
              KeyOf(account) == if live == map[] then Absent else Present(live, old(KeyOf(account)).deadline)
    {
      if account in zsets {
        var live := Trim(zsets[account], start);
        if live == map[] {
          zsets, deadlines := zsets - {account}, deadlines - {account};
        } else {
          zsets := zsets[account := live];
        }
      }
    }

    method ZCard(account: Id) returns (count: nat)
      requires Valid()
      ensures count == |Members(KeyOf(account))|
    {
      count := if account in zsets then |zsets[account]| else 0;
    }

    /** ZRANGE key 0 0 WITHSCORES: no element, or the lowest score. */
    method ZRangeFirst(account: Id) returns (found: bool, score: int)
      requires Valid()
      ensures found <==> Members(KeyOf(account)) != map[]
      ensures found ==> score == Lowest(Members(KeyOf(account)))
    {
      found, score := false, 0;
      if account in zsets {
        var members := zsets[account];
        var rest := members.Keys;
        while rest != {}
          invariant rest <= members.Keys && (found <==> rest != members.Keys)
          invariant found ==> exists m :: m in members && members[m] == score
          invariant found ==> forall m :: m in members && m !in rest ==> score <= members[m]
          decreases |rest|
        {
          var m :| m in rest;
          if !found || members[m] < score { found, score := true, members[m]; }
          rest := rest - {m};
        }
        if !found { assert members == map[]; }
      }
    }

    /** ZADD key score member followed by EXPIRE key seconds, as the script issues them. */
    method ZAddExpire(account: Id, score: int, member: Member, serverTime: int, seconds: int)
      requires Valid()
      modifies this
      ensures Valid() && OthersSame(account, old(zsets), old(deadlines))
      ensures KeyOf(account) == Present(old(Members(KeyOf(account)))[member := score], serverTime + seconds * SECOND)
    {
      var members := if account in zsets then zsets[account] else map[];
      zsets := zsets[account := members[member := score]];
      deadlines := deadlines[account := serverTime + seconds * SECOND];
    }

    /** The Lua script: count is what ZCARD saw, resetAt what the script computed. */
    method Eval(r: Request, window: int) returns (allowed: bool, count: nat, resetAt: int)
      requires Valid()
      modifies this
      ensures Valid() && OthersSame(r.account, old(zsets), old(deadlines))
      ensures (KeyOf(r.account), Outcome(allowed, count, resetAt)) == Script(old(KeyOf(r.account)), r, window, true)
    {
      ExpirePassively(r.account, r.serverTime);
      ZRemRangeByScore(r.account, r.now - window);
      count := ZCard(r.account);
      if count >= r.limit {
        var found, oldest := ZRangeFirst(r.account);
        return false, count, (if found then oldest else r.now) + window;
      }
      ZAddExpire(r.account, r.now, Member(r.now, r.suffix), r.serverTime, window + EXPIRE_MARGIN);
      return true, count, r.now + window;
    }
  }

  /** `RedisRateLimiter.Check`: any failure denies. */
  method CheckAccount(server: RedisServer, r: Request, fault: Fault)
    returns (allowed: bool, remaining: int, resetAt: int)
    requires server.Valid()
    modifies server
    ensures server.Valid() && server.OthersSame(r.account, old(server.zsets), old(server.deadlines))
    ensures fault == NotRun ==> server.KeyOf(r.account) == old(server.KeyOf(r.account))
    ensures fault != NotRun ==>
              server.KeyOf(r.account) == Script(old(server.KeyOf(r.account)), r, WINDOW_SECONDS, true).0
    ensures fault != NoFault ==> (allowed, remaining, resetAt) == (false, 0, r.now + 60)
    ensures fault == NoFault ==>
              Reply(allowed, remaining, resetAt) ==
                AccountReply(Script(old(server.KeyOf(r.account)), r, WINDOW_SECONDS, true).1, r.limit)
  {
    if fault == NotRun { return false, 0, r.now + WINDOW_SECONDS; }
    var ok, count, reset := server.Eval(r, WINDOW_SECONDS);
    if fault == ResultLost { return false, 0, r.now + WINDOW_SECONDS; }
    return ok, if ok then r.limit - count - 1 else 0, reset;
  }

  /** `IPRateLimitMiddleware.Handler`: a failure denies until one window after clock reading `failedAt`;
      on any denial Retry-After comes from a later reading, `clock`. */
  method HandleIp(server: RedisServer, r: Request, window: int, fault: Fault, failedAt: int, clock: int)
      returns (passed: bool, retryAfter: int)
    requires server.Valid()
    modifies server
    ensures server.Valid() && server.OthersSame(r.account, old(server.zsets), old(server.deadlines))
    ensures server.KeyOf(r.account) ==
              if fault == NotRun then old(server.KeyOf(r.account))
              else Script(old(server.KeyOf(r.account)), r, window, true).0
    ensures fault == NoFault ==>
              var o := Script(old(server.KeyOf(r.account)), r, window, true).1;
              passed == o.allowed && (!passed ==> retryAfter == RedisBounds.RetryAfter(o.resetAt, clock))
    ensures fault != NoFault ==> !passed && retryAfter == RedisBounds.SecondsLeft(failedAt + window * SECOND, clock)
  {
    var allowed, resetAt;
    if fault == NotRun {
      allowed, resetAt := false, failedAt + window * SECOND;
    } else {
      var ok, _, reset := server.Eval(r, window);
      if fault == ResultLost {
        allowed, resetAt := false, failedAt + window * SECOND;
      } else {
        allowed, resetAt := ok, reset * SECOND;
      }
    }
    if allowed { return true, 0; }
    return false, RedisBounds.SecondsLeft(resetAt, clock);
  }
}
