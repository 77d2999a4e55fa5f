/** Which messages count as delivered: exactly those that some stream's drain has marked. */
module Markings {
  import opened Wrappers
  import opened Tables
  import opened Protocol
  import opened Isolation
  import opened Lifecycle

  /** What a drain has marked, and still exists, is delivered. */
  ghost predicate MarkedDelivered(delivered: map<Id, Id>, inbound: map<Id, Inbound>) {
    forall m :: m in inbound && m in delivered ==> inbound[m].status == Delivered
  }

  /** The history of marks does not run ahead of the ids. */
  ghost predicate MarksUsed(h: Past) {
    forall m :: m in h.delivered ==> m in h.used
  }

  lemma DeliveredUsed(h: Past)
    requires Coherent(h) && AllOwn(h)
    ensures MarksUsed(h)
  {
  }

  lemma HookMarks(s: State, step: HookStep)
    requires HookEnabled(s, step) && MarkedDelivered(s.past.delivered, s.db.inbound) && MarksUsed(s.past)
    ensures ApplyHook(s, step).past.delivered == s.past.delivered
    ensures MarkedDelivered(s.past.delivered, ApplyHook(s, step).db.inbound)
  {
    if step.Enqueue? {
      assert step.message !in s.past.delivered;
    } else {
      assert ApplyHook(s, step).db.inbound == s.db.inbound;
    }
  }

  lemma MarkMarks(s: State, t: Id, ok: bool, at: Time)
    requires At(s, t) && s.threads[t].Marking? && s.threads[t].rest != []
    requires MarkedDelivered(s.past.delivered, s.db.inbound)
    ensures var s', m := MarkStep(s, t, ok, at), s.threads[t].rest[0].id;
      && MarkedDelivered(s'.past.delivered, s'.db.inbound)
      && s'.past.delivered.Keys == s.past.delivered.Keys + if ok then {m} else {}
  {
  }

  lemma BearerMarks(s: State, step: BearerStep)
    requires BearerEnabled(s, step) && MarkedDelivered(s.past.delivered, s.db.inbound)
    ensures MarkedDelivered(ApplyBearer(s, step).past.delivered, ApplyBearer(s, step).db.inbound)
    ensures forall m :: m in ApplyBearer(s, step).past.delivered <==> m in s.past.delivered || Marks(s, Bearer(step), m)
  {
    if step.Mark? { MarkMarks(s, step.t, step.ok, step.at); } else { BearerMoves(s, step); }
  }

  lemma OtherMarks(s: State, step: OtherStep)
    requires OtherEnabled(s, step) && MarkedDelivered(s.past.delivered, s.db.inbound)
    ensures ApplyOther(s, step).past.delivered == s.past.delivered
    ensures MarkedDelivered(s.past.delivered, ApplyOther(s, step).db.inbound)
  {
  }

  /** The step is a drain's successful UPDATE after a write of the message to the stream. */
  ghost predicate Marks(s: State, step: Step, m: Id) {
    && step.Bearer? && step.bearer.Mark? && step.bearer.ok && BearerEnabled(s, step.bearer)
    && s.threads[step.bearer.t].rest[0].id == m
  }

  /** Nothing else marks: not a live delivery, not a reply, not a webhook, not a cleanup. */
  lemma OnlyMarksMark(s: State, step: Step, m: Id)
    requires Inv(s) && Enabled(s, step) && MarkedDelivered(s.past.delivered, s.db.inbound)
    ensures m in Apply(s, step).past.delivered <==> m in s.past.delivered || Marks(s, step, m)
  {
    match step
    case Hook(hook) => DeliveredUsed(s.past); HookMarks(s, hook);
    case Bearer(bearer) => BearerMarks(s, bearer);
    case Other(other) => OtherMarks(s, other);
  }

  lemma {:induction false} RunMarks(steps: seq<Step>)
    requires Run(steps).Some?
    ensures MarkedDelivered(Run(steps).value.past.delivered, Run(steps).value.db.inbound)
  {
    if steps != [] {
      var before := steps[..|steps| - 1];
      RunMarks(before);
      RunKeeps(before);
      var s := Run(before).value;
      match steps[|steps| - 1]
      case Hook(hook) => DeliveredUsed(s.past); HookMarks(s, hook);
      case Bearer(bearer) => BearerMarks(s, bearer);
      case Other(other) => OtherMarks(s, other);
    }
  }

  /** In every run a message is delivered if and only if one of the run's steps was a drain's mark on it. */
  lemma {:induction false} DeliveredMeansMarked(steps: seq<Step>, m: Id)
    requires Run(steps).Some? && m in Run(steps).value.db.inbound
    ensures Run(steps).value.db.inbound[m].status == Delivered <==> m in Run(steps).value.past.delivered
    ensures Run(steps).value.db.inbound[m].status == Delivered <==>
              exists k :: MarksAt(steps, k, m)
  {
    RunKeeps(steps);
    RunMarks(steps);
    var s := Run(steps).value;
    assert InboundKept(s.past, s.db.accounts, s.now, m, s.db.inbound[m]);
    MarkedByStep(steps, m);
  }

  /** Step k of the run marks the message. */
  ghost predicate MarksAt(steps: seq<Step>, k: int, m: Id) {
    0 <= k < |steps| && Run(steps[..k]).Some? && Marks(Run(steps[..k]).value, steps[k], m)
  }

  lemma MarksAtPrefix(steps: seq<Step>, n: nat, k: int, m: Id)
    requires n <= |steps| && k < n
    ensures MarksAt(steps[..n], k, m) <==> MarksAt(steps, k, m)
  {
    if 0 <= k { assert steps[..n][..k] == steps[..k]; }
  }

  lemma {:induction false} MarkedByStep(steps: seq<Step>, m: Id)
    requires Run(steps).Some?
    ensures m in Run(steps).value.past.delivered <==> exists k :: MarksAt(steps, k, m)
  {
    if steps != [] {
      var n := |steps| - 1;
      var before := steps[..n];
      MarkedByStep(before, m);
      RunKeeps(before);
      RunMarks(before);
      OnlyMarksMark(Run(before).value, steps[n], m);
      assert MarksAt(steps, n, m) <==> Marks(Run(before).value, steps[n], m);
      forall k | k < n ensures MarksAt(before, k, m) <==> MarksAt(steps, k, m) { MarksAtPrefix(steps, n, k, m); }
      assert forall k :: MarksAt(before, k, m) ==> k < n;
      assert forall k :: MarksAt(steps, k, m) ==> k <= n;
    }
  }
}
