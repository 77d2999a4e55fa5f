/** When a status request expires a pairing: exactly when one took effect between its read and its write. */
module StaleStatus {
  import opened Wrappers
  import opened Tables
  import opened Protocol
  import opened Isolation
  import opened Lifecycle
  import opened Guarantees

  // ---------- what becomes paired, becomes so by a transaction ----------

  lemma HookLeavesPaired(s: State, step: HookStep)
    requires HookEnabled(s, step) && !step.Transact?
    ensures ApplyHook(s, step).past.paired == s.past.paired
  {
  }

  lemma OtherLeavesPaired(s: State, step: OtherStep)
    requires OtherEnabled(s, step)
    ensures ApplyOther(s, step).past.paired == s.past.paired
  {
  }

  /** The transaction rolls back only for a taken token. */
  lemma CommitsUnlessTaken(db: Db, session: Id, account: Id, token: Id, key: Key, at: Time)
    ensures Committed(db, session, account, token, key, at) == None <==> AccountTokenTaken(db, token)
  {
  }

  lemma TransactPairs(s: State, t: Id, account: Id, token: Id, at: Time, x: Id)
    requires At(s, t) && s.threads[t].Pairing?
    ensures x in TransactStep(s, t, account, token, at).past.paired <==>
              || x in s.past.paired
              || (s.threads[t].session == x && Pairable(s.db, x) && !AccountTokenTaken(s.db, token))
  {
    CommitsUnlessTaken(s.db, s.threads[t].session, account, token, s.threads[t].key, at);
  }

  /** A session becomes paired by a transaction on it and by nothing else. */
  lemma OnlyPairsPair(s: State, step: Step, x: Id)
    requires Enabled(s, step)
    ensures x in Apply(s, step).past.paired <==> x in s.past.paired || Pairs(s, step, x)
  {
    match step
    case Hook(hook) =>
      if hook.Transact? {
        TransactPairs(s, hook.t, hook.account, hook.token, hook.at, x);
      } else {
        HookLeavesPaired(s, hook);
      }
    case Bearer(bearer) => BearerMoves(s, bearer);
    case Other(other) => OtherLeavesPaired(s, other);
  }

  /** Step k of the run is a transaction that takes effect on the session. */
  ghost predicate PairsAt(steps: seq<Step>, k: int, x: Id) {
    0 <= k < |steps| && Run(steps[..k]).Some? && Pairs(Run(steps[..k]).value, steps[k], x)
  }

  lemma PairsAtPrefix(steps: seq<Step>, n: nat, k: int, x: Id)
    requires n <= |steps| && k < n
    ensures PairsAt(steps[..n], k, x) <==> PairsAt(steps, k, x)
  {
    if 0 <= k { assert steps[..n][..k] == steps[..k]; }
  }

  lemma {:induction false} PairedByStep(steps: seq<Step>, x: Id)
    requires Run(steps).Some?
    ensures x in Run(steps).value.past.paired <==> exists k :: PairsAt(steps, k, x)
  {
    if steps != [] {
      var n := |steps| - 1;
      var before := steps[..n];
      PairedByStep(before, x);
      OnlyPairsPair(Run(before).value, steps[n], x);
      assert PairsAt(steps, n, x) <==> Pairs(Run(before).value, steps[n], x);
      forall k | k < n ensures PairsAt(before, k, x) <==> PairsAt(steps, k, x) { PairsAtPrefix(steps, n, k, x); }
      assert forall k :: PairsAt(before, k, x) ==> k < n;
      assert forall k :: PairsAt(steps, k, x) ==> k <= n;
    }
  }

  /** Between two states of a run, with the session unpaired in the first. */
  lemma PairedBetween(steps: seq<Step>, i: nat, x: Id)
    requires Run(steps).Some? && i <= |steps|
    requires Run(steps[..i]).Some? && x !in Run(steps[..i]).value.past.paired
    ensures x in Run(steps).value.past.paired <==> exists k :: i <= k && PairsAt(steps, k, x)
  {
    PairedByStep(steps, x);
    PairedByStep(steps[..i], x);
    forall k | PairsAt(steps, k, x) ensures i <= k {
      if k < i { PairsAtPrefix(steps, i, k, x); }
    }
  }

  // ---------- a status request waits with the session it has read ----------

  ghost predicate Waits(s: State, t: Id, x: Id) {
    t in s.past.used && (t in s.threads ==> s.threads[t] == Expiring(x))
  }

  /** Programs that are not a status request's neither move it nor start under its name. */
  lemma HookWaits(s: State, step: HookStep, t: Id, x: Id)
    requires HookEnabled(s, step) && Waits(s, t, x)
    ensures Waits(ApplyHook(s, step), t, x)
  {
    assert step.t != t;
  }

  lemma BearerWaits(s: State, step: BearerStep, t: Id, x: Id)
    requires BearerEnabled(s, step) && Waits(s, t, x)
    ensures Waits(ApplyBearer(s, step), t, x)
  {
    assert step.t != t;
    BearerMoves(s, step);
  }

  lemma OtherWaits(s: State, step: OtherStep, t: Id, x: Id)
    requires OtherEnabled(s, step) && Waits(s, t, x)
    ensures Waits(ApplyOther(s, step), t, x)
  {
  }

  lemma StepWaits(s: State, step: Step, t: Id, x: Id)
    requires Enabled(s, step) && Waits(s, t, x)
    ensures Waits(Apply(s, step), t, x)
  {
    match step
    case Hook(hook) => HookWaits(s, hook, t, x);
    case Bearer(bearer) => BearerWaits(s, bearer, t, x);
    case Other(other) => OtherWaits(s, other, t, x);
  }

  lemma {:induction false} RunWaits(steps: seq<Step>, i: nat, t: Id, x: Id)
    requires i <= |steps| && Run(steps).Some? && Run(steps[..i]).Some? && Waits(Run(steps[..i]).value, t, x)
    ensures Waits(Run(steps).value, t, x)
  {
    if i == |steps| {
      assert steps[..i] == steps;
    } else {
      var before := steps[..|steps| - 1];
      assert before[..i] == steps[..i];
      RunWaits(before, i, t, x);
      StepWaits(Run(before).value, steps[|steps| - 1], t, x);
    }
  }

  lemma StatusReads(steps: seq<Step>, i: nat, t: Id, x: Id, at: Time)
    requires Run(steps).Some? && i < |steps| && steps[i] == Other(Status(t, x, at))
    ensures Run(steps[..i]).Some? && x !in Run(steps[..i]).value.past.paired && Waits(Run(steps).value, t, x)
  {
    RunLeads(steps, i);
    RunLeads(steps, i + 1);
    assert steps[..i + 1][..i] == steps[..i];
    RunKeeps(steps[..i]);
    var s := Run(steps[..i]).value;
    assert SessionKept(s.past, s.db.accounts, x, s.db.sessions[x]);
    RunWaits(steps, i + 1, t, x);
  }

  /**
   A status request reads session x at step i, and its write is the step that follows the run. It
   expires a pairing if and only if a transaction on x took effect in between.
   */
  lemma ExpiresPairing(steps: seq<Step>, i: nat, t: Id, x: Id, at: Time)
    requires Run(steps).Some? && i < |steps| && steps[i] == Other(Status(t, x, at))
    requires Enabled(Run(steps).value, Other(ExpireStatus(t))) && x in Run(steps).value.db.sessions
    ensures var s := Run(steps).value;
            var s' := Apply(s, Other(ExpireStatus(t)));
      && s'.db == s.db.(sessions := s.db.sessions[x := s.db.sessions[x].(status := SessionStatus.Expired)])
      && (s'.db.sessions[x].key.Some? <==> exists k :: i <= k && PairsAt(steps, k, x))
  {
    StatusReads(steps, i, t, x, at);
    PairedBetween(steps, i, x);
    RunKeeps(steps);
    var s := Run(steps).value;
    assert SessionKept(s.past, s.db.accounts, x, s.db.sessions[x]);
  }
}
