/**
 The in-memory account limiter on values: the shared map, its TTL sweep, its capacity eviction and
 the per-call check. Times are nanoseconds, as Go's clock counts them. `MemoryLimiter` is the
 mutable form; it is proved to take exactly these steps.
 */
module MemoryStore {
  import opened Wrappers
  import opened SlidingWindow

  const MAX_ENTRIES: nat := 10_000
  const CLEANUP_INTERVAL: int := 60 * SECOND
  const ENTRY_TTL: int := 300 * SECOND
  const WINDOW: int := 60 * SECOND

  datatype Entry = Entry(timestamps: seq<int>, lastAccess: int)

  datatype Store = Store(entries: map<Id, Entry>, lastCleanup: int)

  /** One `Check`: it reads the clock once for the cleanup and again for the window, and a capacity
      eviction picks its victims in map order, which Go leaves open. */
  datatype MemCall = MemCall(cleanupAt: int, victims: set<Id>, call: Call)

  // ---------- one call ----------

  /** Unix() rounds down to whole seconds. */
  function UnixSeconds(t: int): int { t / SECOND }

  lemma UnixSecondsRoundDown(t: int)
    ensures UnixSeconds(t) * 1_000_000_000 <= t < (UnixSeconds(t) + 1) * 1_000_000_000
  {
  }

  predicate Due(s: Store, now: int) { now - s.lastCleanup >= CLEANUP_INTERVAL }

  function Swept(entries: map<Id, Entry>, now: int): map<Id, Entry> {
    map k | k in entries && now - entries[k].lastAccess <= ENTRY_TTL :: entries[k]
  }

  predicate LegalVictims(s: Store, now: int, victims: set<Id>) {
    if Due(s, now) && |Swept(s.entries, now)| > MAX_ENTRIES
    then victims <= Swept(s.entries, now).Keys && |victims| == |Swept(s.entries, now)| / 5
    else victims == {}
  }

  function Cleaned(s: Store, now: int, victims: set<Id>): Store {
    if Due(s, now) then Store(Swept(s.entries, now) - victims, now) else s
  }

  function Timestamps(s: Store, account: Id): seq<int> {
    if account in s.entries then s.entries[account].timestamps else []
  }

  function CheckReply(live: seq<int>, limit: int, at: int): Reply {
    var resetAt := UnixSeconds((if live == [] then at else live[0]) + WINDOW);
    if |live| >= limit then Reply(false, 0, resetAt) else Reply(true, limit - |live| - 1, resetAt)
  }

  function Checked(s: Store, c: Call): (Store, Reply) {
    var live := Live(Timestamps(s, c.account), c.at - WINDOW);
    var reply := CheckReply(live, c.limit, c.at);
    var kept := if reply.allowed then live + [c.at] else live;
    (s.(entries := s.entries[c.account := Entry(kept, c.at)]), reply)
  }

  function Step(s: Store, c: MemCall): (Store, Reply) {
    Checked(Cleaned(s, c.cleanupAt, c.victims), c.call)
  }

  // ---------- runs ----------

  function Final(t0: int, calls: seq<MemCall>): Store {
    if calls == [] then Store(map[], t0) else
      var n := |calls| - 1;
      Step(Final(t0, calls[..n]), calls[n]).0
  }

  function Replies(t0: int, calls: seq<MemCall>): (r: seq<Reply>)
    ensures |r| == |calls|
  {
    if calls == [] then [] else
      var n := |calls| - 1;
      Replies(t0, calls[..n]) + [Step(Final(t0, calls[..n]), calls[n]).1]
  }

  function Last(t0: int, calls: seq<MemCall>): int {
    if calls == [] then t0 else calls[|calls| - 1].call.at
  }

  /** A run as the mutex serialises it: clock readings never go back, victims are ones the loop may pick. */
  ghost predicate Run(t0: int, calls: seq<MemCall>) {
    calls == [] ||
    var n := |calls| - 1;
    && Run(t0, calls[..n])
    && Last(t0, calls[..n]) <= calls[n].cleanupAt <= calls[n].call.at
    && LegalVictims(Final(t0, calls[..n]), calls[n].cleanupAt, calls[n].victims)
  }

  /** The account has no admission within the last minute. */
  predicate Idle(s: Store, account: Id, now: int) {
    Live(Timestamps(s, account), now - WINDOW) == []
  }

  /** No capacity eviction takes the account while it has an admission within the last minute. */
  ghost predicate Spared(t0: int, calls: seq<MemCall>, account: Id) {
    calls == [] ||
    var n := |calls| - 1;
    && Spared(t0, calls[..n], account)
    && (account in calls[n].victims ==> Idle(Final(t0, calls[..n]), account, calls[n].cleanupAt))
  }

  lemma {:induction false} NeverEvicted(t0: int, calls: seq<MemCall>, account: Id)
    requires forall c :: c in calls ==> account !in c.victims
    ensures Spared(t0, calls, account)
  {
    if calls != [] {
      NeverEvicted(t0, calls[..|calls| - 1], account);
      assert calls[|calls| - 1] in calls;
    }
  }

  function Plain(calls: seq<MemCall>): (r: seq<Call>)
    ensures |r| == |calls|
    ensures forall i :: 0 <= i < |calls| ==> r[i] == calls[i].call
  {
    if calls == [] then [] else Plain(calls[..|calls| - 1]) + [calls[|calls| - 1].call]
  }

  // ---------- bookkeeping that every run keeps ----------

  ghost predicate Dated(s: Store, t: int) {
    && s.lastCleanup <= t
    && forall k :: k in s.entries ==>
         s.entries[k].lastAccess <= t
         && forall x :: x in s.entries[k].timestamps ==> x <= s.entries[k].lastAccess
  }

  lemma {:induction false} RunDated(t0: int, calls: seq<MemCall>)
    requires Run(t0, calls)
    ensures Dated(Final(t0, calls), Last(t0, calls))
  {
    if calls != [] {
      var n := |calls| - 1;
      RunDated(t0, calls[..n]);
      var c := calls[n];
      var mid := Cleaned(Final(t0, calls[..n]), c.cleanupAt, c.victims);
      LiveMembers(Timestamps(mid, c.call.account), c.call.at - WINDOW);
    }
  }

  /** What a cleanup drops, of all but a busy victim, was already outside every window from now on. */
  lemma CleanedLive(s: Store, t: int, now: int, victims: set<Id>, account: Id, w: int)
    requires Dated(s, t) && now - WINDOW <= w && (account in victims ==> Idle(s, account, now))
    ensures Live(Timestamps(Cleaned(s, now, victims), account), w) == Live(Timestamps(s, account), w)
  {
    if Due(s, now) && account in s.entries {
      if account in victims { LiveOfLive(s.entries[account].timestamps, now - WINDOW, w); }
      if now - s.entries[account].lastAccess > ENTRY_TTL { LiveEmpty(s.entries[account].timestamps, w); }
    }
  }

  // ---------- refinement of the ideal limiter ----------

  function InUnixSeconds(r: Reply): Reply { r.(resetAt := UnixSeconds(r.resetAt)) }

  /** Store and history agree on `account` for every window that starts at `from` or later. */
  ghost predicate Agrees(s: Store, h: seq<int>, account: Id, from: int) {
    forall w :: from <= w ==> Live(Timestamps(s, account), w) == Live(h, w)
  }

  lemma CleanAgrees(s: Store, now: int, victims: set<Id>, h: seq<int>, account: Id, t: int)
    requires Dated(s, t) && t <= now && (account in victims ==> Idle(s, account, now))
    requires Agrees(s, h, account, t - WINDOW)
    ensures Agrees(Cleaned(s, now, victims), h, account, now - WINDOW)
  {
    forall w | now - WINDOW <= w ensures Live(Timestamps(Cleaned(s, now, victims), account), w) == Live(h, w) {
      CleanedLive(s, t, now, victims, account, w);
    }
  }

  /** What a check leaves in the store, seen through any later window. */
  lemma CheckedLive(s: Store, c: Call, w: int)
    requires c.at - WINDOW <= w
    ensures Live(Timestamps(Checked(s, c).0, c.account), w) ==
              if Checked(s, c).1.allowed && c.at > w then Live(Timestamps(s, c.account), w) + [c.at]
              else Live(Timestamps(s, c.account), w)
  {
    var live := Live(Timestamps(s, c.account), c.at - WINDOW);
    LiveOfLive(Timestamps(s, c.account), c.at - WINDOW, w);
    LiveAppend(live, c.at, w);
  }

  lemma CheckReplyAgrees(s: Store, c: Call, h: seq<int>)
    requires Live(Timestamps(s, c.account), c.at - WINDOW) == Live(h, c.at - WINDOW)
    ensures Checked(s, c).1 == InUnixSeconds(IdealReply(h, c.limit, c.at, WINDOW))
  {
  }

  lemma CheckAgrees(s: Store, c: Call, h: seq<int>, account: Id, from: int)
    requires Agrees(s, h, account, from) && from <= c.at - WINDOW
    ensures Agrees(Checked(s, c).0, Extend(h, c, account, WINDOW), account, c.at - WINDOW)
  {
    if c.account == account {
      CheckReplyAgrees(s, c, h);
      forall w | c.at - WINDOW <= w
        ensures Live(Timestamps(Checked(s, c).0, account), w) == Live(Extend(h, c, account, WINDOW), w)
      {
        CheckedLive(s, c, w);
        LiveAppend(h, c.at, w);
      }
    }
  }

  lemma {:induction false} RunAgrees(t0: int, calls: seq<MemCall>, account: Id)
    requires Run(t0, calls) && Spared(t0, calls, account)
    ensures Agrees(Final(t0, calls), History(Plain(calls), account, WINDOW), account, Last(t0, calls) - WINDOW)
  {
    if calls != [] {
      var n := |calls| - 1;
      RunAgrees(t0, calls[..n], account);
      RunDated(t0, calls[..n]);
      assert Plain(calls)[..n] == Plain(calls[..n]);
      var s, h := Final(t0, calls[..n]), History(Plain(calls[..n]), account, WINDOW);
      CleanAgrees(s, calls[n].cleanupAt, calls[n].victims, h, account, Last(t0, calls[..n]));
      var mid := Cleaned(s, calls[n].cleanupAt, calls[n].victims);
      CheckAgrees(mid, calls[n].call, h, account, calls[n].cleanupAt - WINDOW);
    }
  }

  /** The last call's answer. */
  lemma LastReply(t0: int, calls: seq<MemCall>, account: Id)
    requires Run(t0, calls) && Spared(t0, calls, account)
    requires calls != [] && calls[|calls| - 1].call.account == account
    ensures var n := |calls| - 1;
            var c := calls[n].call;
            Step(Final(t0, calls[..n]), calls[n]).1 ==
              InUnixSeconds(IdealReply(History(Plain(calls[..n]), account, WINDOW), c.limit, c.at, WINDOW))
  {
    var n := |calls| - 1;
    RunAgrees(t0, calls[..n], account);
    RunDated(t0, calls[..n]);
    var s, h := Final(t0, calls[..n]), History(Plain(calls[..n]), account, WINDOW);
    CleanAgrees(s, calls[n].cleanupAt, calls[n].victims, h, account, Last(t0, calls[..n]));
    CheckReplyAgrees(Cleaned(s, calls[n].cleanupAt, calls[n].victims), calls[n].call, h);
  }

  /**
   Refinement: to an account that no eviction takes while it has a live admission, the shared map with
   its TTL sweep and its in-place compaction gives, call by call, the answers of a limiter of its own
   that forgets nothing, whatever happens to others.
   */
  lemma {:induction false} MemoryRefinesIdeal(t0: int, calls: seq<MemCall>, account: Id)
    requires Run(t0, calls) && Spared(t0, calls, account)
    ensures forall i :: 0 <= i < |calls| && calls[i].call.account == account ==>
              Replies(t0, calls)[i] == InUnixSeconds(IdealReplies(Plain(calls), WINDOW)[i])
  {
    if calls != [] {
      var n := |calls| - 1;
      MemoryRefinesIdeal(t0, calls[..n], account);
      assert Plain(calls)[..n] == Plain(calls[..n]);
      if calls[n].call.account == account { LastReply(t0, calls, account); }
    }
  }

  // ---------- the bound that survives capacity eviction ----------

  /** The times at which the replies admitted the account. */
  function Granted(t0: int, calls: seq<MemCall>, account: Id): seq<int> {
    if calls == [] then [] else
      var n := |calls| - 1;
      var earlier := Granted(t0, calls[..n], account);
      if calls[n].call.account == account && Replies(t0, calls)[n].allowed
      then earlier + [calls[n].call.at]
      else earlier
  }

  /** An admission, tagged with the number of effective cleanups before it: cleanups cut a run into epochs. */
  datatype Admission = Admission(at: int, epoch: int)

  /** A run as one account sees it: the store, the start of every epoch so far, its admissions. */
  datatype Track = Track(store: Store, starts: seq<int>, log: seq<Admission>)

  function CleanTrack(tr: Track, c: MemCall): Track {
    Track(Cleaned(tr.store, c.cleanupAt, c.victims),
          if Due(tr.store, c.cleanupAt) then tr.starts + [c.cleanupAt] else tr.starts,
          tr.log)
  }

  function CheckTrack(tr: Track, c: Call, account: Id): Track {
    var (store, reply) := Checked(tr.store, c);
    Track(store, tr.starts,
          if c.account == account && reply.allowed then tr.log + [Admission(c.at, |tr.starts| - 1)] else tr.log)
  }

  function Tracked(t0: int, calls: seq<MemCall>, account: Id): Track {
    if calls == [] then Track(Store(map[], t0), [t0], []) else
      var n := |calls| - 1;
      CheckTrack(CleanTrack(Tracked(t0, calls[..n], account), calls[n]), calls[n].call, account)
  }

  function Times(log: seq<Admission>): seq<int> {
    if log == [] then [] else Times(log[..|log| - 1]) + [log[|log| - 1].at]
  }

  /** The times of the admissions of one epoch. */
  function EpochTimes(log: seq<Admission>, e: int): seq<int> {
    if log == [] then [] else
      var n := |log| - 1;
      if log[n].epoch == e then EpochTimes(log[..n], e) + [log[n].at] else EpochTimes(log[..n], e)
  }

  lemma LogAppend(log: seq<Admission>, x: Admission, e: int)
    ensures EpochTimes(log + [x], e) == if x.epoch == e then EpochTimes(log, e) + [x.at] else EpochTimes(log, e)
    ensures Times(log + [x]) == Times(log) + [x.at]
  {
    assert (log + [x])[..|log|] == log;
  }

  lemma {:induction false} TrackedIsRun(t0: int, calls: seq<MemCall>, account: Id)
    ensures Tracked(t0, calls, account).store == Final(t0, calls)
    ensures Times(Tracked(t0, calls, account).log) == Granted(t0, calls, account)
  {
    if calls != [] {
      var n := |calls| - 1;
      TrackedIsRun(t0, calls[..n], account);
      var tr := Tracked(t0, calls[..n], account);
      LogAppend(tr.log, Admission(calls[n].call.at, |CleanTrack(tr, calls[n]).starts| - 1), 0);
    }
  }

  /** Epochs start at least a minute apart, and an admission lies between the start of its own and the next. */
  ghost predicate Placed(tr: Track, t: int) {
    && tr.starts != [] && tr.starts[|tr.starts| - 1] == tr.store.lastCleanup <= t
    && (forall i, j :: 0 <= i < j < |tr.starts| ==> tr.starts[i] + CLEANUP_INTERVAL <= tr.starts[j])
    && (forall x :: x in tr.log ==>
          && 0 <= x.epoch < |tr.starts| && tr.starts[x.epoch] <= x.at <= t
          && (x.epoch + 1 < |tr.starts| ==> x.at <= tr.starts[x.epoch + 1]))
  }

  /** Inside the running epoch nothing is lost: the store holds at least what the epoch has admitted. */
  ghost predicate Retains(tr: Track, account: Id, from: int) {
    forall w :: from <= w ==>
      |Live(EpochTimes(tr.log, |tr.starts| - 1), w)| <= |Live(Timestamps(tr.store, account), w)|
  }

  /** In each single epoch, the window of a minute from `a` holds at most `limit` admissions. */
  ghost predicate EpochsBounded(tr: Track, limit: int, a: int) {
    forall e :: CountIn(EpochTimes(tr.log, e), a, a + WINDOW) <= limit
  }

  lemma {:induction false} NoTimesInEpoch(log: seq<Admission>, e: int)
    requires forall x :: x in log ==> x.epoch < e
    ensures EpochTimes(log, e) == []
  {
    if log != [] {
      var init := log[..|log| - 1];
      forall x | x in init ensures x.epoch < e { assert x in log; }
      assert log[|log| - 1] in log;
      NoTimesInEpoch(init, e);
    }
  }

  lemma CleanKeepsPlaced(tr: Track, c: MemCall, t: int)
    requires Placed(tr, t) && t <= c.cleanupAt
    ensures Placed(CleanTrack(tr, c), c.cleanupAt)
  {
  }

  lemma CleanKeepsRetains(tr: Track, c: MemCall, account: Id, t: int)
    requires Placed(tr, t) && Retains(tr, account, t - WINDOW) && t <= c.cleanupAt
    ensures Retains(CleanTrack(tr, c), account, c.cleanupAt - WINDOW)
  {
    if Due(tr.store, c.cleanupAt) {
      NoTimesInEpoch(tr.log, |tr.starts|);
    }
  }

  lemma CheckKeepsPlaced(tr: Track, c: Call, account: Id, t: int)
    requires Placed(tr, t) && t <= c.at
    ensures Placed(CheckTrack(tr, c, account), c.at)
  {
  }

  lemma CheckKeepsRetains(tr: Track, c: Call, account: Id, t: int)
    requires Retains(tr, account, t - WINDOW) && t <= c.at
    ensures Retains(CheckTrack(tr, c, account), account, c.at - WINDOW)
  {
    var tr' := CheckTrack(tr, c, account);
    var e := |tr.starts| - 1;
    forall w | c.at - WINDOW <= w
      ensures |Live(EpochTimes(tr'.log, e), w)| <= |Live(Timestamps(tr'.store, account), w)|
    {
      assert |Live(EpochTimes(tr.log, e), w)| <= |Live(Timestamps(tr.store, account), w)|;
      if c.account == account {
        CheckedLive(tr.store, c, w);
        LogAppend(tr.log, Admission(c.at, e), e);
        LiveAppend(EpochTimes(tr.log, e), c.at, w);
      }
    }
  }

  lemma CheckKeepsBounded(tr: Track, c: Call, account: Id, limit: int, t: int, a: int)
    requires Retains(tr, account, t - WINDOW) && EpochsBounded(tr, limit, a) && t <= c.at
    requires c.account == account ==> c.limit <= limit
    ensures EpochsBounded(CheckTrack(tr, c, account), limit, a)
  {
    if c.account == account && Checked(tr.store, c).1.allowed {
      var e := |tr.starts| - 1;
      var x := Admission(c.at, e);
      forall d ensures CountIn(EpochTimes(tr.log + [x], d), a, a + WINDOW) <= limit {
        LogAppend(tr.log, x, d);
        CountAppend(EpochTimes(tr.log, d), c.at, a, a + WINDOW);
        if d == e && a <= c.at < a + WINDOW {
          CountAtMostLive(EpochTimes(tr.log, e), a, a + WINDOW, c.at - WINDOW);
        }
      }
    }
  }

  ghost predicate MemLimitAtMost(calls: seq<MemCall>, account: Id, limit: int) {
    forall i :: 0 <= i < |calls| && calls[i].call.account == account ==> calls[i].call.limit <= limit
  }

  lemma {:induction false} RunTracks(t0: int, calls: seq<MemCall>, account: Id, limit: nat, a: int)
    requires Run(t0, calls) && MemLimitAtMost(calls, account, limit)
    ensures var tr := Tracked(t0, calls, account);
            Placed(tr, Last(t0, calls)) && Retains(tr, account, Last(t0, calls) - WINDOW) && EpochsBounded(tr, limit, a)
  {
    if calls != [] {
      var n := |calls| - 1;
      var c, t := calls[n], Last(t0, calls[..n]);
      RunTracks(t0, calls[..n], account, limit, a);
      TrackedIsRun(t0, calls[..n], account);
      var tr := Tracked(t0, calls[..n], account);
      var mid := CleanTrack(tr, c);
      CleanKeepsPlaced(tr, c, t);
      CleanKeepsRetains(tr, c, account, t);
      CheckKeepsPlaced(mid, c.call, account, c.cleanupAt);
      CheckKeepsRetains(mid, c.call, account, c.cleanupAt);
      CheckKeepsBounded(mid, c.call, account, limit, c.cleanupAt, a);
    }
  }

  /** Counting by epochs: if a window only meets epochs e and e + 1, its count splits in two. */
  lemma {:induction false} CountByEpochs(log: seq<Admission>, a: int, b: int, e: int)
    requires forall x :: x in log && a <= x.at < b ==> e <= x.epoch <= e + 1
    ensures CountIn(Times(log), a, b) == CountIn(EpochTimes(log, e), a, b) + CountIn(EpochTimes(log, e + 1), a, b)
  {
    if log != [] {
      var n := |log| - 1;
      var init, x := log[..n], log[n];
      forall y | y in init && a <= y.at < b ensures e <= y.epoch <= e + 1 { assert y in log; }
      CountByEpochs(init, a, b, e);
      assert x in log && log == init + [x];
      LogAppend(init, x, e);
      LogAppend(init, x, e + 1);
      CountAppend(Times(init), x.at, a, b);
      CountAppend(EpochTimes(init, e), x.at, a, b);
      CountAppend(EpochTimes(init, e + 1), x.at, a, b);
    }
  }

  /** The first admission, by epoch, that a window holds. */
  lemma {:induction false} FirstAdmission(log: seq<Admission>, a: int, b: int) returns (found: bool, first: Admission)
    ensures found ==> first in log && a <= first.at < b
    ensures forall x :: x in log && a <= x.at < b ==> found && first.epoch <= x.epoch
  {
    found, first := false, Admission(0, 0);
    if log != [] {
      var init, x := log[..|log| - 1], log[|log| - 1];
      assert forall y :: y in log <==> y in init || y == x;
      found, first := FirstAdmission(init, a, b);
      if a <= x.at < b && (!found || x.epoch < first.epoch) { found, first := true, x; }
    }
  }

  /** Cleanups are at least a minute apart, so a one-minute window meets at most two epochs. */
  lemma WindowMeetsTwoEpochs(tr: Track, t: int, a: int, x: Admission)
    requires Placed(tr, t) && x in tr.log && a <= x.at < a + WINDOW
    ensures forall y :: y in tr.log && a <= y.at < a + WINDOW ==> y.epoch <= x.epoch + 1
  {
  }

  /**
   Unconditional bound: whatever the capacity eviction throws away, an account with limit L gets at
   most 2L admissions in any half-open window of sixty seconds of any run.
   */
  lemma EvictionWindowBound(t0: int, calls: seq<MemCall>, account: Id, limit: nat, a: int)
    requires Run(t0, calls) && MemLimitAtMost(calls, account, limit)
    ensures CountIn(Granted(t0, calls, account), a, a + 60_000_000_000) <= 2 * limit
  {
    TrackedIsRun(t0, calls, account);
    RunTracks(t0, calls, account, limit, a);
    TrackWindowBound(Tracked(t0, calls, account), Last(t0, calls), limit, a);
  }

  lemma TrackWindowBound(tr: Track, t: int, limit: nat, a: int)
    requires Placed(tr, t) && EpochsBounded(tr, limit, a)
    ensures CountIn(Times(tr.log), a, a + WINDOW) <= 2 * limit
  {
    var found, first := FirstAdmission(tr.log, a, a + WINDOW);
    if found { WindowMeetsTwoEpochs(tr, t, a, first); }
    CountByEpochs(tr.log, a, a + WINDOW, first.epoch);
  }

  lemma GrantedUnfolds(t0: int, calls: seq<MemCall>, account: Id)
    requires calls != []
    ensures var n := |calls| - 1;
            Granted(t0, calls, account) ==
              if calls[n].call.account == account && Step(Final(t0, calls[..n]), calls[n]).1.allowed
              then Granted(t0, calls[..n], account) + [calls[n].call.at] else Granted(t0, calls[..n], account)
  {
  }

  /** Its admissions are the ideal history. */
  lemma {:induction false} GrantedIsHistory(t0: int, calls: seq<MemCall>, account: Id)
    requires Run(t0, calls) && Spared(t0, calls, account)
    ensures Granted(t0, calls, account) == History(Plain(calls), account, WINDOW)
  {
    if calls != [] {
      var n := |calls| - 1;
      GrantedIsHistory(t0, calls[..n], account);
      GrantedUnfolds(t0, calls, account);
      if calls[n].call.account == account { LastReply(t0, calls, account); }
      assert Plain(calls)[..n] == Plain(calls[..n]);
    }
  }

  /** And with limit L it gets at most L admissions in any sixty seconds. */
  lemma {:induction false} WindowBound(t0: int, calls: seq<MemCall>, account: Id, limit: nat, a: int)
    requires Run(t0, calls) && Spared(t0, calls, account) && MemLimitAtMost(calls, account, limit)
    ensures CountIn(Granted(t0, calls, account), a, a + 60_000_000_000) <= limit
  {
    GrantedIsHistory(t0, calls, account);
    IdealWindowBound(Plain(calls), account, limit, WINDOW, a);
  }

  // ---------- the size of the store ----------

  function Max(x: int, y: int): int { if x > y then x else y }

  /** Entries created since the last effective cleanup. */
  function Created(t0: int, calls: seq<MemCall>): nat {
    if calls == [] then 0 else
      var n := |calls| - 1;
      var s := Final(t0, calls[..n]);
      (if Due(s, calls[n].cleanupAt) then 0 else Created(t0, calls[..n]))
      + if calls[n].call.account in Cleaned(s, calls[n].cleanupAt, calls[n].victims).entries then 0 else 1
  }

  lemma SweptShrinks(entries: map<Id, Entry>, now: int)
    ensures Swept(entries, now).Keys <= entries.Keys && |Swept(entries, now)| <= |entries|
  {
    SubsetSize(Swept(entries, now).Keys, entries.Keys);
  }

  /**
   What a cleanup does, in numbers: nothing within a minute of the last one; then the entries untouched for
   five minutes go, and of more than ten thousand left a fifth, rounded down.
   */
  lemma Housekeeping(s: Store, now: int, victims: set<Id>)
    requires LegalVictims(s, now, victims)
    ensures now - s.lastCleanup < 60_000_000_000 ==> Cleaned(s, now, victims) == s
    ensures now - s.lastCleanup >= 60_000_000_000 ==>
              var kept := map k | k in s.entries && now - s.entries[k].lastAccess <= 300_000_000_000 :: s.entries[k];
              && Cleaned(s, now, victims) == Store(kept - victims, now)
              && victims <= kept.Keys && |victims| == if |kept| > 10_000 then |kept| / 5 else 0
  {
  }

  /** An over-capacity cleanup removes exactly a fifth, rounded down, of what the sweep left. */
  lemma EvictionTakesAFifth(s: Store, now: int, victims: set<Id>)
    requires Due(s, now) && LegalVictims(s, now, victims)
    ensures |Cleaned(s, now, victims).entries| ==
              (var n := |Swept(s.entries, now)|; if n > MAX_ENTRIES then n - n / 5 else n)
  {
    var swept := Swept(s.entries, now);
    assert (swept - victims).Keys == swept.Keys - victims;
    assert |swept.Keys| == |swept|;
    assert |(swept - victims).Keys| == |swept - victims|;
    assert swept.Keys == (swept.Keys - victims) + victims;
  }

  /**
   If at most K accounts appear between effective cleanups, the store never holds more than
   max(10000, 4K) + K entries, and never more than max(10000, 4K) right after an effective cleanup.
   */
  lemma {:induction false} StoreSizeBound(t0: int, calls: seq<MemCall>, k: nat)
    requires Run(t0, calls)
    requires forall n :: 0 <= n <= |calls| ==> Created(t0, calls[..n]) <= k
    ensures |Final(t0, calls).entries| <= Max(MAX_ENTRIES, 4 * k) + Created(t0, calls)
    ensures calls != [] ==>
              (var n := |calls| - 1; var s := Final(t0, calls[..n]);
               Due(s, calls[n].cleanupAt) ==>
                 |Cleaned(s, calls[n].cleanupAt, calls[n].victims).entries| <= Max(MAX_ENTRIES, 4 * k))
  {
    assert calls[..|calls|] == calls;
    if calls != [] {
      var n := |calls| - 1;
      var s := Final(t0, calls[..n]);
      forall m | 0 <= m <= n ensures Created(t0, calls[..n][..m]) <= k {
        assert calls[..n][..m] == calls[..m];
      }
      StoreSizeBound(t0, calls[..n], k);
      if Due(s, calls[n].cleanupAt) {
        SweptShrinks(s.entries, calls[n].cleanupAt);
        EvictionTakesAFifth(s, calls[n].cleanupAt, calls[n].victims);
      }
      var mid := Cleaned(s, calls[n].cleanupAt, calls[n].victims);
      var acct := calls[n].call.account;
      assert Final(t0, calls).entries.Keys == mid.entries.Keys + {acct};
      assert |Final(t0, calls).entries.Keys| == |Final(t0, calls).entries| && |mid.entries.Keys| == |mid.entries|;
    }
  }
}
