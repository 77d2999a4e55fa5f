/**
 The way back from a run in which the cleanup job came to one in which it did not: whatever requests do
 after the job they could have done without it. Only a drain has more to do then, for it has the expired
 messages to write too.
 */
module CleanupUndone {
  import opened Wrappers
  import opened Tables
  import opened Protocol
  import opened Isolation
  import opened Cleanup
  import opened CleanupRuns

  // ---------- the rows of a drain, with the expired ones put back ----------

  /** Puts a row where its time belongs. */
  function Insert(db: Db, rows: seq<Item>, item: Item): (r: seq<Item>)
    ensures forall other :: other in r <==> other in rows || other == item
  {
    if rows == [] then [item]
    else if CreatedAt(db, item.id) <= CreatedAt(db, rows[0].id) then [item] + rows
    else [rows[0]] + Insert(db, rows[1..], item)
  }

  lemma {:induction false} InsertOrdered(db: Db, rows: seq<Item>, item: Item)
    requires Ordered(db, rows) && item !in rows
    ensures Ordered(db, Insert(db, rows, item))
  {
    if rows != [] && CreatedAt(db, item.id) > CreatedAt(db, rows[0].id) {
      InsertOrdered(db, rows[1..], item);
      var rest := Insert(db, rows[1..], item);
      forall other | other in rest ensures other != rows[0] && CreatedAt(db, rows[0].id) <= CreatedAt(db, other.id) {
        if other != item { assert other in rows[1..]; }
      }
    }
  }

  lemma {:induction false} InsertGone(db: Db, rows: seq<Item>, item: Item, gone: set<Id>)
    requires item.id in gone
    ensures Without(Insert(db, rows, item), gone) == Without(rows, gone)
  {
    if rows != [] && CreatedAt(db, item.id) > CreatedAt(db, rows[0].id) {
      InsertGone(db, rows[1..], item, gone);
      assert Insert(db, rows, item)[1..] == Insert(db, rows[1..], item);
    } else {
      assert Insert(db, rows, item)[1..] == rows;
    }
  }

  /** Puts back one row for each of some messages that are gone. */
  lemma {:induction false} PutBack(db: Db, rows: seq<Item>, messages: set<Id>, gone: set<Id>) returns (more: seq<Item>)
    requires Ordered(db, rows) && messages <= gone && messages <= db.inbound.Keys
    requires forall item :: item in rows ==> item.id !in messages
    ensures Ordered(db, more) && Without(more, gone) == Without(rows, gone)
    ensures forall item :: item in more <==>
              item in rows || (item.id in messages && item.key == db.inbound[item.id].key)
    decreases messages
  {
    more := rows;
    if messages != {} {
      var m :| m in messages;
      more := PutBack(db, rows, messages - {m}, gone);
      var item := Item(m, db.inbound[m].key);
      InsertOrdered(db, more, item);
      InsertGone(db, more, item, gone);
      more := Insert(db, more, item);
    }
  }

  lemma {:induction false} WithoutNone(rows: seq<Item>, gone: set<Id>)
    requires forall item :: item in rows ==> item.id !in gone
    ensures Without(rows, gone) == rows
  {
    if rows != [] { WithoutNone(rows[1..], gone); }
  }

  lemma SelectedOrdered(db: Db, db': Db, account: Id, rows: seq<Item>, gone: set<Id>)
    requires SameButGone(db.inbound, db'.inbound, gone) && Selects(db', account, rows)
    ensures Ordered(db, rows)
    ensures forall item :: item in rows ==> item.id !in gone && Listed(db, account, item)
  {
    forall item | item in rows ensures item.id !in gone && Listed(db, account, item) {
      var i :| 0 <= i < |rows| && rows[i] == item;
      assert Listed(db', account, rows[i]);
    }
    forall i, j | 0 <= i < j < |rows|
      ensures rows[i] != rows[j] && CreatedAt(db, rows[i].id) <= CreatedAt(db, rows[j].id)
    {
      assert rows[i] in rows && rows[j] in rows;
    }
  }

  /** Every snapshot of the second table comes from one of the first. */
  lemma DrainBack(db: Db, db': Db, account: Id, rows: seq<Item>, gone: set<Id>) returns (more: seq<Item>)
    requires SameButGone(db.inbound, db'.inbound, gone) && Selects(db', account, rows)
    ensures Selects(db, account, more) && Without(more, gone) == rows
  {
    SelectedOrdered(db, db', account, rows, gone);
    WithoutNone(rows, gone);
    var messages := set m | m in db.inbound && m in gone
                              && db.inbound[m].account == account && db.inbound[m].status == Queued;
    more := PutBack(db, rows, messages, gone);
    forall i | 0 <= i < |more| ensures Listed(db, account, more[i]) {
      assert more[i] in more;
    }
    forall m | m in db.inbound && db.inbound[m].account == account && db.inbound[m].status == Queued
      ensures Item(m, db.inbound[m].key) in more
    {
      if m !in gone { assert Item(m, db'.inbound[m].key) in rows; }
    }
  }

  // ---------- what can be done with the statement, can be done without ----------

  /** No new session takes the token or the code of a removed one. */
  predicate NoReuse(step: Step, p: Pass) {
    match step
    case Other(Create(_, token, code, _)) => token !in p.tokens && code !in p.codes
    case _ => true
  }

  lemma HookBack(s: State, s': State, p: Pass, step: HookStep)
    requires Sim(s, s', p) && HookEnabled(s', step) && !step.Look?
    ensures HookEnabled(s, step)
  {
    if !step.Webhook? { assert Alike(s.threads[step.t], s'.threads[step.t], p.gone); }
  }

  lemma LookBack(s: State, s': State, p: Pass, t: Id, found: Option<Id>)
    requires Sim(s, s', p) && HookEnabled(s', Look(t, found))
    ensures HookEnabled(s, Look(t, found))
  {
    var pc := s.threads[t];
    assert Alike(pc, s'.threads[t], p.gone);
    forall x ensures CodeFinds(s'.db, s'.now, pc.code, x) <==> CodeFinds(s.db, s.now, pc.code, x) {
      LookAlike(s, s', p, pc.code, x);
    }
  }

  lemma BearerBack(s: State, s': State, p: Pass, step: BearerStep)
    requires Sim(s, s', p) && BearerEnabled(s', step) && !step.Queue? && !step.Write?
    requires step.Drained? && s.threads[step.t].Marking? ==> s'.threads[step.t].Marking?
    ensures BearerEnabled(s, step) && Spares(Bearer(step), p)
  {
    if !step.Authenticate? { assert Alike(s.threads[step.t], s'.threads[step.t], p.gone); }
  }

  lemma OtherBack(s: State, s': State, p: Pass, step: OtherStep)
    requires Sim(s, s', p) && OtherEnabled(s', step) && NoReuse(Other(step), p)
    ensures OtherEnabled(s, step) && Spares(Other(step), p)
  {
    if step.ExpireStatus? { assert Alike(s.threads[step.t], s'.threads[step.t], p.gone); }
  }

  lemma EnabledBack(s: State, s': State, p: Pass, step: Step)
    requires Sim(s, s', p) && Enabled(s', step) && NoReuse(step, p) && !Drains(step)
    requires step.Bearer? && step.bearer.Drained? ==> !s.threads[step.bearer.t].Marking?
    ensures Enabled(s, step) && Spares(step, p)
  {
    match step
    case Hook(hook) => if hook.Look? { LookBack(s, s', p, hook.t, hook.found); } else { HookBack(s, s', p, hook); }
    case Bearer(bearer) => BearerBack(s, s', p, bearer);
    case Other(other) => OtherBack(s, s', p, other);
  }

  // ---------- a drain that has more rows ----------

  /** A write of an expired message gets its mark. */
  lemma Settle(base: seq<Step>, image: seq<Step>, s': State, p: Pass, t: Id) returns (more: seq<Step>)
    requires Run(base + image).Some? && Sim(Run(base + image).value, s', p)
    requires t in s'.threads && s'.threads[t].Draining?
    ensures Run(base + more).Some? && Sim(Run(base + more).value, s', p) && Undrained(more) == Undrained(image)
    ensures var pc := Run(base + image).value.threads[t];
      Run(base + more).value.threads[t] == if pc.Marking? then Draining(pc.account, pc.rest[1..]) else pc
    ensures Run(base + more).value.threads[t].Draining?
  {
    var s := Run(base + image).value;
    assert Alike(s.threads[t], s'.threads[t], p.gone);
    more := image;
    if s.threads[t].Marking? {
      BearerStepAlike(s, s', p, Mark(t, false, 0));
      OneStep(base, image, Bearer(Mark(t, false, 0)));
      more := image + [Bearer(Mark(t, false, 0))];
    }
  }

  /** The drain writes and marks what is gone, until it is at the row the other drain is at. */
  lemma {:induction false} CatchUp(base: seq<Step>, image: seq<Step>, s': State, p: Pass, t: Id, n: nat)
    returns (more: seq<Step>)
    requires Run(base + image).Some? && Sim(Run(base + image).value, s', p)
    requires t in s'.threads && s'.threads[t].Draining? && s'.threads[t].rest != []
    requires Run(base + image).value.threads[t].Draining? && |Run(base + image).value.threads[t].rest| == n
    ensures Run(base + more).Some? && Sim(Run(base + more).value, s', p) && Undrained(more) == Undrained(image)
    ensures var pc := Run(base + more).value.threads[t];
            pc.Draining? && pc.rest != [] && Follows(pc.rest, s'.threads[t].rest, p.gone)
    decreases n
  {
    var s := Run(base + image).value;
    assert Alike(s.threads[t], s'.threads[t], p.gone);
    more := image;
    if !Follows(s.threads[t].rest, s'.threads[t].rest, p.gone) {
      BearerStepAlike(s, s', p, Write(t));
      OneStep(base, image, Bearer(Write(t)));
      more := Settle(base, image + [Bearer(Write(t))], s', p, t);
      more := CatchUp(base, more, s', p, t, n - 1);
    }
  }

  // ---------- one step back, and whole runs ----------

  lemma QueueBack(base: seq<Step>, image: seq<Step>, s': State, p: Pass, t: Id, rows: seq<Item>)
    returns (more: seq<Step>)
    requires Run(base + image).Some? && Sim(Run(base + image).value, s', p) && BearerEnabled(s', Queue(t, rows))
    ensures Run(base + more).Some? && Undrained(more) == Undrained(image)
    ensures Sim(Run(base + more).value, ApplyBearer(s', Queue(t, rows)), p)
  {
    var s := Run(base + image).value;
    assert Alike(s.threads[t], s'.threads[t], p.gone);
    var all := DrainBack(s.db, s'.db, s.threads[t].account, rows, p.gone);
    QueueAlike(s, s', p, t, all);
    OneStep(base, image, Bearer(Queue(t, all)));
    more := image + [Bearer(Queue(t, all))];
  }

  lemma WriteBack(base: seq<Step>, image: seq<Step>, s': State, p: Pass, t: Id) returns (more: seq<Step>)
    requires Run(base + image).Some? && Sim(Run(base + image).value, s', p) && BearerEnabled(s', Write(t))
    ensures Run(base + more).Some? && Undrained(more) == Undrained(image)
    ensures Sim(Run(base + more).value, ApplyBearer(s', Write(t)), p)
  {
    var settled := Settle(base, image, s', p, t);
    var caught := CatchUp(base, settled, s', p, t, |Run(base + settled).value.threads[t].rest|);
    BearerStepAlike(Run(base + caught).value, s', p, Write(t));
    OneStep(base, caught, Bearer(Write(t)));
    more := caught + [Bearer(Write(t))];
  }

  lemma MarkBack(base: seq<Step>, image: seq<Step>, s': State, p: Pass, t: Id, ok: bool, at: Time)
    returns (more: seq<Step>)
    requires Run(base + image).Some? && Sim(Run(base + image).value, s', p) && BearerEnabled(s', Mark(t, ok, at))
    ensures Run(base + more).Some? && Undrained(more) == Undrained(image)
    ensures Sim(Run(base + more).value, ApplyBearer(s', Mark(t, ok, at)), p)
  {
    var s := Run(base + image).value;
    BearerBack(s, s', p, Mark(t, ok, at));
    MarkAlike(s, s', p, t, ok, at);
    OneStep(base, image, Bearer(Mark(t, ok, at)));
    more := image + [Bearer(Mark(t, ok, at))];
  }

  lemma SettleFirst(base: seq<Step>, image: seq<Step>, s': State, p: Pass, step: Step) returns (more: seq<Step>)
    requires Run(base + image).Some? && Sim(Run(base + image).value, s', p) && Enabled(s', step) && !Drains(step)
    ensures Run(base + more).Some? && Sim(Run(base + more).value, s', p) && Undrained(more) == Undrained(image)
    ensures step.Bearer? && step.bearer.Drained? ==> !Run(base + more).value.threads[step.bearer.t].Marking?
  {
    more := image;
    if step.Bearer? && step.bearer.Drained? {
      var t := step.bearer.t;
      assert Alike(Run(base + image).value.threads[t], s'.threads[t], p.gone);
      if s'.threads[t].Draining? { more := Settle(base, image, s', p, t); }
    }
  }

  lemma OneBack(base: seq<Step>, image: seq<Step>, s': State, p: Pass, step: Step) returns (more: seq<Step>)
    requires Run(base + image).Some? && Sim(Run(base + image).value, s', p)
    requires Enabled(s', step) && NoReuse(step, p)
    ensures Run(base + more).Some? && Sim(Run(base + more).value, Apply(s', step), p)
    ensures Undrained(more) == Undrained(image) + if Drains(step) then [] else [step]
  {
    if step.Bearer? && step.bearer.Queue? {
      more := QueueBack(base, image, s', p, step.bearer.t, step.bearer.rows);
    } else if step.Bearer? && step.bearer.Write? {
      more := WriteBack(base, image, s', p, step.bearer.t);
    } else if step.Bearer? && step.bearer.Mark? {
      more := MarkBack(base, image, s', p, step.bearer.t, step.bearer.ok, step.bearer.at);
    } else {
      var settled := SettleFirst(base, image, s', p, step);
      EnabledBack(Run(base + settled).value, s', p, step);
      var next := FollowStep(Run(base + settled).value, s', p, step);
      OneStep(base, settled, step);
      more := settled + [step];
    }
  }

  /** The run with the statement goes on with `after`; the run without it follows. */
  lemma {:induction false} RunBack(base: seq<Step>, clean: seq<Step>, after: seq<Step>, p: Pass)
    returns (image: seq<Step>)
    requires Run(base).Some? && Run(clean).Some? && Run(clean + after).Some?
    requires Sim(Run(base).value, Run(clean).value, p)
    requires forall step :: step in after ==> NoReuse(step, p)
    ensures Run(base + image).Some? && Sim(Run(base + image).value, Run(clean + after).value, p)
    ensures Undrained(image) == Undrained(after)
  {
    if after == [] {
      image := [];
      assert base + image == base && clean + after == clean;
    } else {
      var earlier, step := after[..|after| - 1], after[|after| - 1];
      LastStep(clean, after);
      image := RunBack(base, clean, earlier, p);
      image := OneBack(base, image, Run(clean + earlier).value, p, step);
    }
  }

  /**
   Whatever happens after a statement of the job could have happened without it, and looks the same, as
   long as no new session is given a removed one's token or code.
   */
  lemma StatementUndone(before: seq<Step>, statement: OtherStep, after: seq<Step>, later: Time)
    returns (image: seq<Step>)
    requires IsCleanup(statement) && Run(before).Some? && AllClear(Run(before).value, statement)
    requires var s := Run(before).value;
             forall step :: step in after ==> NoReuse(step, PassOf(statement, s.db, s.now))
    requires var steps := before + [Other(statement)] + after; Run(steps).Some? && Run(steps).value.now <= later
    ensures Run(before + image).Some? && Undrained(image) == Undrained(after)
    ensures SameLooks(Run(before + image).value, Run(before + [Other(statement)] + after).value, later)
  {
    var s := Run(before).value;
    StatementRuns(before, statement);
    image := RunBack(before, before + [Other(statement)], after, PassOf(statement, s.db, s.now));
    LooksAlike(Run(before + image).value, Run(before + [Other(statement)] + after).value,
               PassOf(statement, s.db, s.now), later);
  }

  lemma LooksTransitive(s: State, s': State, s'': State, later: Time)
    requires SameLooks(s, s', later) && SameLooks(s', s'', later)
    ensures SameLooks(s, s'', later)
  {
    forall code, x ensures CodeFinds(s.db, later, code, x) <==> CodeFinds(s''.db, later, code, x) {
      assert CodeFinds(s'.db, later, code, x) <==> CodeFinds(s''.db, later, code, x);
    }
    forall token: Id, account: Id ensures ResolvesTo(s.db, token, account) <==> ResolvesTo(s''.db, token, account) {
      assert ResolvesTo(s'.db, token, account) <==> ResolvesTo(s''.db, token, account);
    }
    forall account, m, at ensures CanAnswer(s.db, account, m, at) <==> CanAnswer(s''.db, account, m, at) {
      assert CanAnswer(s'.db, account, m, at) <==> CanAnswer(s''.db, account, m, at);
    }
  }

  /** And so with the whole job: a run in which it came is, for an onlooker, one in which it did not. */
  lemma Undone(before: seq<Step>, mid: seq<Step>, after: seq<Step>, later: Time)
    returns (mid': seq<Step>, after': seq<Step>)
    requires Run(before).Some? && Run(before + [Other(ExpireMessages)] + mid).Some?
    requires var s := Run(before + [Other(ExpireMessages)] + mid).value;
      && AllClear(s, ExpireSessions)
      && forall step :: step in after ==> NoReuse(step, PassOf(ExpireSessions, s.db, s.now))
    requires var steps := before + [Other(ExpireMessages)] + mid + [Other(ExpireSessions)] + after;
             Run(steps).Some? && Run(steps).value.now <= later
    ensures Undrained(mid') == Undrained(mid) && Undrained(after') == Undrained(after)
    ensures var steps := before + [Other(ExpireMessages)] + mid + [Other(ExpireSessions)] + after;
            Run(before + mid' + after').Some? && SameLooks(Run(before + mid' + after').value, Run(steps).value, later)
  {
    var clean := before + [Other(ExpireMessages)] + mid;
    var rest := StatementUndone(clean, ExpireSessions, after, later);
    var s := Run(before).value;
    var p := PassOf(ExpireMessages, s.db, s.now);
    MessagesNeedNothing(s);
    StatementRuns(before, ExpireMessages);
    mid' := RunBack(before, before + [Other(ExpireMessages)], mid, p);
    after' := RunBack(before + mid', clean, rest, p);
    LooksAlike(Run(before + mid' + after').value, Run(clean + rest).value, p, later);
    LooksTransitive(Run(before + mid' + after').value, Run(clean + rest).value,
                    Run(clean + [Other(ExpireSessions)] + after).value, later);
  }
}
