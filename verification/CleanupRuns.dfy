/**
 A cleanup pass is invisible to everything that comes after it. Two runs are compared that have one
 past: in one a statement of the pass happened, in the other it did not. Whatever requests do from then
 on, the first run can follow the second step by step; only drains skip the messages that have expired.
 `CleanupUndone` has the way back.
 */
module CleanupRuns {
  import opened Wrappers
  import opened Tables
  import opened Protocol
  import opened Isolation
  import opened Cleanup

  /** What a statement takes away: sessions, with their tokens and codes, and messages that may be drained. */
  datatype Pass = Pass(at: Time, dead: set<Id>, tokens: set<Id>, codes: set<Id>, gone: set<Id>)

  /** The job runs these two, one after the other. */
  predicate IsCleanup(statement: OtherStep) {
    statement.ExpireMessages? || statement.ExpireSessions?
  }

  function PassOf(statement: OtherStep, db: Db, now: Time): Pass
    requires IsCleanup(statement)
  {
    if statement.ExpireMessages? then Pass(now, {}, {}, {}, Lapsing(db, now))
    else
      var dead := set x | x in db.sessions && Stale(db.sessions[x], now);
      Pass(now, dead, set x | x in dead :: db.sessions[x].tokenHash, set x | x in dead :: db.sessions[x].code, {})
  }

  // ---------- the relation between the run without the pass and the run with it ----------

  ghost predicate SessionsAlike(sessions: map<Id, Session>, sessions': map<Id, Session>, p: Pass) {
    && (forall x :: x in sessions' <==> x in sessions && x !in p.dead)
    && (forall x :: x in sessions' ==> sessions'[x] == sessions[x])
    && (forall x :: x in sessions && x in p.dead ==>
          Stale(sessions[x], p.at) && sessions[x].tokenHash in p.tokens && sessions[x].code in p.codes)
  }

  /** The second list is the first without some of the messages that are gone. */
  predicate Thinned(rest: seq<Item>, rest': seq<Item>, gone: set<Id>)
    decreases rest, 1
  {
    if rest == [] then rest' == []
    else Follows(rest, rest', gone) || (rest[0].id in gone && Thinned(rest[1..], rest', gone))
  }

  predicate Follows(rest: seq<Item>, rest': seq<Item>, gone: set<Id>)
    requires rest != []
    decreases rest, 0
  {
    rest' != [] && rest'[0] == rest[0] && Thinned(rest[1..], rest'[1..], gone)
  }

  /** Threads hold the same, but a drain may have fewer rows to go, and so be at the next row already. */
  ghost predicate Alike(pc: Pc, pc': Pc, gone: set<Id>) {
    match pc
    case Draining(account, rest) => pc'.Draining? && pc'.account == account && Thinned(rest, pc'.rest, gone)
    case Marking(account, rest) =>
      && rest != []
      && ((pc'.Marking? && pc'.account == account && Follows(rest, pc'.rest, gone))
          || (rest[0].id in gone && pc'.Draining? && pc'.account == account && Thinned(rest[1..], pc'.rest, gone)))
    case _ => pc' == pc
  }

  /** The thread is not pairing a session that the pass removes. */
  predicate Clear(pc: Pc, dead: set<Id>) {
    match pc
    case Pairing(_, session) => session !in dead
    case Stamping(_, session, _) => session !in dead
    case Attaching(_, session, _, _) => session !in dead
    case Rereading(_, session) => session !in dead
    case _ => true
  }

  ghost predicate ThreadsAlike(threads: map<Id, Pc>, threads': map<Id, Pc>, p: Pass) {
    && (forall t :: t in threads <==> t in threads')
    && (forall t :: t in threads ==> Alike(threads[t], threads'[t], p.gone) && Clear(threads[t], p.dead))
  }

  /** All history but what was written and marked. */
  ghost predicate SameFacts(h: Past, h': Past) {
    h'.(written := h.written, delivered := h.delivered) == h
  }

  ghost predicate SameRest(db: Db, db': Db) {
    db'.(sessions := db.sessions, inbound := db.inbound) == db
  }

  ghost predicate Sim(s: State, s': State, p: Pass) {
    && s'.now == s.now && p.at <= s.now && s'.posted == s.posted && SameFacts(s.past, s'.past)
    && p.dead <= s.past.used && p.gone <= s.past.used
    && SameRest(s.db, s'.db)
    && SessionsAlike(s.db.sessions, s'.db.sessions, p)
    && SameButGone(s.db.inbound, s'.db.inbound, p.gone)
    && ThreadsAlike(s.threads, s'.threads, p)
  }

  // ---------- what may come after, and what it becomes ----------

  /** The step does not bear the token of a removed session, and no new session takes its token or code. */
  predicate Spares(step: Step, p: Pass) {
    match step
    case Other(Create(_, token, code, _)) => token !in p.tokens && code !in p.codes
    case Other(Status(_, session, _)) => session !in p.dead
    case Bearer(Authenticate(_, _, session, _)) => session !in p.dead
    case _ => true
  }

  /** What the run with the pass does instead; nothing, where a drain handles a message that is gone. */
  function Image(s: State, s': State, step: BearerStep, p: Pass): Option<BearerStep> {
    match step
    case Queue(t, rows) => Some(Queue(t, Without(rows, p.gone)))
    case Write(t) =>
      if t in s.threads && t in s'.threads && s.threads[t].Draining? && s'.threads[t].Draining?
         && s.threads[t].rest != []
         && Follows(s.threads[t].rest, s'.threads[t].rest, p.gone)
      then Some(step) else None
    case Mark(t, _, _) => if t in s'.threads && s'.threads[t].Marking? then Some(step) else None
    case _ => Some(step)
  }

  // ---------- small moves ----------

  lemma {:induction false} ThinnedSelf(rest: seq<Item>, gone: set<Id>)
    ensures Thinned(rest, rest, gone)
  {
    if rest != [] { ThinnedSelf(rest[1..], gone); }
  }

  lemma {:induction false} ThinnedWithout(rows: seq<Item>, gone: set<Id>)
    ensures Thinned(rows, Without(rows, gone), gone)
  {
    if rows != [] {
      ThinnedWithout(rows[1..], gone);
      if rows[0].id !in gone { assert Without(rows, gone)[1..] == Without(rows[1..], gone); }
    }
  }

  lemma GoAlike(s: State, s': State, p: Pass, t: Id, pc: Pc, pc': Pc)
    requires Sim(s, s', p) && Alike(pc, pc', p.gone) && Clear(pc, p.dead)
    ensures Sim(Go(s, t, pc), Go(s', t, pc'), p)
  {
  }

  lemma EndAlike(s: State, s': State, p: Pass, t: Id)
    requires Sim(s, s', p)
    ensures Sim(End(s, t), End(s', t), p)
  {
  }

  lemma UseAlike(s: State, s': State, p: Pass, ids: set<Id>)
    requires Sim(s, s', p)
    ensures Sim(Use(s, ids), Use(s', ids), p)
  {
  }

  // ---------- the steps of a webhook ----------

  /** One table and one part of history that both runs share. */
  lemma ConversationsAlike(s: State, s': State, p: Pass, conversations: map<Key, Conversation>, rows: map<Id, Key>,
                           attached: map<Id, Id>)
    requires Sim(s, s', p)
    ensures Sim(s.(db := s.db.(conversations := conversations), past := s.past.(rows := rows, attached := attached)),
                s'.(db := s'.db.(conversations := conversations),
                    past := s'.past.(rows := rows, attached := attached)), p)
  {
  }

  lemma WebhookAlike(s: State, s': State, p: Pass, t: Id, key: Key, row: Id, command: Command, url: Option<Id>,
                     deadline: Option<Time>)
    requires Sim(s, s', p)
    ensures Sim(WebhookStep(s, t, key, row, command, url, deadline),
                WebhookStep(s', t, key, row, command, url, deadline), p)
  {
    var s1, s1' := Use(s, {t, row}), Use(s', {t, row});
    UseAlike(s, s', p, {t, row});
    var conversations := Upsert(s.db, key, row, url, deadline).conversations;
    var rows := if key in s.db.conversations then s.past.rows else s.past.rows[row := key];
    ConversationsAlike(s1, s1', p, conversations, rows, s.past.attached);
    var s2 := s1.(db := s1.db.(conversations := conversations), past := s1.past.(rows := rows));
    var s2' := s1'.(db := s1'.db.(conversations := conversations), past := s1'.past.(rows := rows));
    match Dispatch(key, conversations[key], command, url, deadline)
    case Some(pc) => GoAlike(s2, s2', p, t, pc, pc);
    case None => EndAlike(s2, s2', p, t);
  }

  /** A lookup by code finds no removed session: it is past its time or no longer pending. */
  lemma LookAlike(s: State, s': State, p: Pass, code: Id, x: Id)
    requires Sim(s, s', p)
    ensures CodeFinds(s'.db, s'.now, code, x) <==> CodeFinds(s.db, s.now, code, x)
    ensures CodeFinds(s.db, s.now, code, x) ==> x !in p.dead
  {
  }

  lemma MintAlike(s: State, s': State, p: Pass, account: Id, token: Id, session: Id, key: Key)
    requires Sim(s, s', p)
    ensures Sim(MintedState(s, account, token, session, key), MintedState(s', account, token, session, key), p)
  {
  }

  lemma PairedAlike(s: State, s': State, p: Pass, session: Id, row: Session, account: Id, effective: bool)
    requires Sim(s, s', p) && session in s.db.sessions && session !in p.dead
    ensures session in s'.db.sessions && s'.db.sessions[session] == s.db.sessions[session]
    ensures Sim(s.(db := s.db.(sessions := s.db.sessions[session := row]),
                   past := Recorded(s.past, session, account, effective)),
                s'.(db := s'.db.(sessions := s'.db.sessions[session := row]),
                    past := Recorded(s'.past, session, account, effective)), p)
  {
  }

  /** The transaction written as its parts. */
  lemma TransactIs(s: State, t: Id, account: Id, token: Id, at: Time)
    requires At(s, t) && s.threads[t].Pairing? && !AccountTokenTaken(s.db, token)
    ensures var pc := s.threads[t];
            var s1 := MintedState(s, account, token, pc.session, pc.key);
            TransactStep(s, t, account, token, at) ==
              if pc.session in s.db.sessions
              then Go(s1.(db := s1.db.(sessions := s1.db.sessions[pc.session :=
                                         PairedRow(s.db.sessions[pc.session], account, token, pc.key, at)]),
                          past := Recorded(s1.past, pc.session, account, Pairable(s.db, pc.session))),
                      t, Stamping(pc.key, pc.session, account))
              else Go(s1, t, Stamping(pc.key, pc.session, account))
  {
    var pc := s.threads[t];
    if pc.session in s.db.sessions {
      CommittedIs(MintedState(s, account, token, pc.session, pc.key).db, pc.session, account, token, pc.key, at);
    }
  }

  lemma TransactAlike(s: State, s': State, p: Pass, t: Id, account: Id, token: Id, at: Time)
    requires Sim(s, s', p) && At(s, t) && s.threads[t].Pairing?
    ensures At(s', t) && s'.threads[t].Pairing?
    ensures Sim(TransactStep(s, t, account, token, at), TransactStep(s', t, account, token, at), p)
  {
    var pc := s.threads[t];
    assert Alike(pc, s'.threads[t], p.gone) && Clear(pc, p.dead);
    if AccountTokenTaken(s.db, token) {
      EndAlike(s, s', p, t);
    } else {
      TransactIs(s, t, account, token, at);
      TransactIs(s', t, account, token, at);
      MintAlike(s, s', p, account, token, pc.session, pc.key);
      var s1 := MintedState(s, account, token, pc.session, pc.key);
      var s1' := MintedState(s', account, token, pc.session, pc.key);
      var next := Stamping(pc.key, pc.session, account);
      if pc.session in s.db.sessions {
        var row := PairedRow(s.db.sessions[pc.session], account, token, pc.key, at);
        var effective := Pairable(s.db, pc.session);
        PairedAlike(s1, s1', p, pc.session, row, account, effective);
        GoAlike(s1.(db := s1.db.(sessions := s1.db.sessions[pc.session := row]),
                    past := Recorded(s1.past, pc.session, account, effective)),
                s1'.(db := s1'.db.(sessions := s1'.db.sessions[pc.session := row]),
                     past := Recorded(s1'.past, pc.session, account, effective)),
                p, t, next, next);
      } else {
        GoAlike(s1, s1', p, t, next, next);
      }
    }
  }

  lemma AttachAlike(s: State, s': State, p: Pass, t: Id)
    requires Sim(s, s', p) && At(s, t) && s.threads[t].Attaching?
    ensures At(s', t) && s'.threads[t].Attaching? && Sim(AttachStep(s, t), AttachStep(s', t), p)
  {
    var pc := s.threads[t];
    assert Alike(pc, s'.threads[t], p.gone) && Clear(pc, p.dead);
    var conversations, attached := AttachStep(s, t).db.conversations, AttachStep(s, t).past.attached;
    ConversationsAlike(s, s', p, conversations, s.past.rows, attached);
    GoAlike(s.(db := s.db.(conversations := conversations), past := s.past.(attached := attached)),
            s'.(db := s'.db.(conversations := conversations), past := s'.past.(attached := attached)),
            p, t, Rereading(pc.key, pc.session), Rereading(pc.key, pc.session));
  }

  lemma RereadAlike(s: State, s': State, p: Pass, t: Id)
    requires Sim(s, s', p) && At(s, t) && s.threads[t].Rereading?
    ensures At(s', t) && s'.threads[t].Rereading? && Sim(RereadStep(s, t), RereadStep(s', t), p)
  {
    assert Alike(s.threads[t], s'.threads[t], p.gone) && Clear(s.threads[t], p.dead);
  }

  lemma EnqueueAlike(s: State, s': State, p: Pass, t: Id, message: Id)
    requires Sim(s, s', p) && At(s, t) && s.threads[t].Enqueueing? && Fresh(s, message)
    ensures At(s', t) && s'.threads[t].Enqueueing? && Sim(EnqueueStep(s, t, message), EnqueueStep(s', t, message), p)
  {
    assert Alike(s.threads[t], s'.threads[t], p.gone);
  }

  lemma DetachAlike(s: State, s': State, p: Pass, t: Id)
    requires Sim(s, s', p) && At(s, t) && s.threads[t].Unpairing?
    ensures At(s', t) && s'.threads[t].Unpairing? && Sim(DetachStep(s, t), DetachStep(s', t), p)
  {
    assert Alike(s.threads[t], s'.threads[t], p.gone);
    var conversations := DetachStep(s, t).db.conversations;
    ConversationsAlike(s, s', p, conversations, s.past.rows, s.past.attached);
    EndAlike(s.(db := s.db.(conversations := conversations)), s'.(db := s'.db.(conversations := conversations)), p, t);
  }

  lemma PostAlike(s: State, s': State, p: Pass, posted: set<Posting>, t: Id)
    requires Sim(s, s', p)
    ensures Sim(End(s.(posted := posted), t), End(s'.(posted := posted), t), p)
  {
  }

  lemma SimpleHookAlike(s: State, s': State, p: Pass, step: HookStep)
    requires Sim(s, s', p) && HookEnabled(s, step)
    requires step.Stamp? || step.AttachFails? || step.Announce? || step.Publish?
    ensures HookEnabled(s', step) && Sim(ApplyHook(s, step), ApplyHook(s', step), p)
  {
    var pc := s.threads[step.t];
    assert Alike(pc, s'.threads[step.t], p.gone) && Clear(pc, p.dead);
    match step
    case Stamp(t, at) =>
      GoAlike(s, s', p, t, Attaching(pc.key, pc.session, pc.account, at),
              Attaching(pc.key, pc.session, pc.account, at));
    case AttachFails(t) => GoAlike(s, s', p, t, Rereading(pc.key, pc.session), Rereading(pc.key, pc.session));
    case Announce(t) => PostAlike(s, s', p, AnnounceStep(s, t).posted, t);
    case Publish(t) => PostAlike(s, s', p, PublishStep(s, t).posted, t);
  }

  lemma HookAlike(s: State, s': State, p: Pass, step: HookStep)
    requires Sim(s, s', p) && HookEnabled(s, step)
    ensures HookEnabled(s', step) && Sim(ApplyHook(s, step), ApplyHook(s', step), p)
  {
    match step
    case Webhook(t, key, row, command, url, deadline) => WebhookAlike(s, s', p, t, key, row, command, url, deadline);
    case Look(t, found) => LookStepAlike(s, s', p, t, found);
    case Transact(t, account, token, at) => TransactAlike(s, s', p, t, account, token, at);
    case Attach(t) => AttachAlike(s, s', p, t);
    case Reread(t) => RereadAlike(s, s', p, t);
    case Detach(t) => DetachAlike(s, s', p, t);
    case Enqueue(t, message) => EnqueueAlike(s, s', p, t, message);
    case _ => SimpleHookAlike(s, s', p, step);
  }

  lemma LookStepAlike(s: State, s': State, p: Pass, t: Id, found: Option<Id>)
    requires Sim(s, s', p) && HookEnabled(s, Look(t, found))
    ensures HookEnabled(s', Look(t, found)) && Sim(ApplyHook(s, Look(t, found)), ApplyHook(s', Look(t, found)), p)
  {
    var pc := s.threads[t];
    assert Alike(pc, s'.threads[t], p.gone);
    forall x ensures CodeFinds(s'.db, s'.now, pc.code, x) <==> CodeFinds(s.db, s.now, pc.code, x) {
      LookAlike(s, s', p, pc.code, x);
    }
    if found.Some? {
      LookAlike(s, s', p, pc.code, found.value);
      GoAlike(s, s', p, t, Pairing(pc.key, found.value), Pairing(pc.key, found.value));
    } else {
      EndAlike(s, s', p, t);
    }
  }

  // ---------- the steps of a bearer ----------

  lemma AuthenticateAlike(s: State, s': State, p: Pass, t: Id, session: Id, request: Request)
    requires Sim(s, s', p) && session in s.db.sessions && session !in p.dead
    ensures session in s'.db.sessions
    ensures Sim(AuthenticateStep(s, t, session, request), AuthenticateStep(s', t, session, request), p)
  {
    var row := s.db.sessions[session];
    UseAlike(s, s', p, {t});
    if row.status == SessionStatus.Paired && row.account.Some? {
      var login := Login(session, row.account.value);
      BearerAlike(Use(s, {t}), Use(s', {t}), p, t, login);
      var s1, s1' := Use(s, {t}), Use(s', {t});
      var pc := Linking(session, row.account.value, request);
      GoAlike(s1.(past := s1.past.(bearers := s1.past.bearers[t := login])),
              s1'.(past := s1'.past.(bearers := s1'.past.bearers[t := login])), p, t, pc, pc);
    } else {
      WithoutAccountAlike(Use(s, {t}), Use(s', {t}), p, t, session, request);
    }
  }

  lemma BearerAlike(s: State, s': State, p: Pass, t: Id, login: Login)
    requires Sim(s, s', p)
    ensures Sim(s.(past := s.past.(bearers := s.past.bearers[t := login])),
                s'.(past := s'.past.(bearers := s'.past.bearers[t := login])), p)
  {
  }

  lemma WithoutAccountAlike(s: State, s': State, p: Pass, t: Id, session: Id, request: Request)
    requires Sim(s, s', p)
    ensures Sim(WithoutAccount(s, t, session, request), WithoutAccount(s', t, session, request), p)
  {
    if request.Events? {
      GoAlike(s, s', p, t, Streaming(SessionChannel(session)), Streaming(SessionChannel(session)));
    } else {
      EndAlike(s, s', p, t);
    }
  }

  lemma QueueAlike(s: State, s': State, p: Pass, t: Id, rows: seq<Item>)
    requires Sim(s, s', p) && BearerEnabled(s, Queue(t, rows))
    ensures BearerEnabled(s', Queue(t, Without(rows, p.gone)))
    ensures Sim(ApplyBearer(s, Queue(t, rows)), ApplyBearer(s', Queue(t, Without(rows, p.gone))), p)
  {
    var account := s.threads[t].account;
    assert Alike(s.threads[t], s'.threads[t], p.gone);
    DrainWithout(s.db, s'.db, account, rows, p.gone);
    ThinnedWithout(rows, p.gone);
    GoAlike(s, s', p, t, Draining(account, rows), Draining(account, Without(rows, p.gone)));
  }

  lemma WroteAlike(s: State, s': State, p: Pass, w: set<Written>, w': set<Written>)
    requires Sim(s, s', p)
    ensures Sim(s.(past := s.past.(written := w)), s'.(past := s'.past.(written := w')), p)
  {
  }

  lemma WriteAlike(s: State, s': State, p: Pass, t: Id)
    requires Sim(s, s', p) && BearerEnabled(s, Write(t))
    ensures match Image(s, s', Write(t), p)
            case Some(step) => BearerEnabled(s', step) && Sim(ApplyBearer(s, Write(t)), ApplyBearer(s', step), p)
            case None => Sim(ApplyBearer(s, Write(t)), s', p)
  {
    var pc, pc' := s.threads[t], s'.threads[t];
    assert Alike(pc, pc', p.gone);
    var w := s.past.written + {Written(t, Message(pc.rest[0].id, pc.rest[0].key))};
    if Follows(pc.rest, pc'.rest, p.gone) {
      WroteAlike(s, s', p, w, s'.past.written + {Written(t, Message(pc'.rest[0].id, pc'.rest[0].key))});
      GoAlike(Wrote(s, t, Message(pc.rest[0].id, pc.rest[0].key)),
              Wrote(s', t, Message(pc'.rest[0].id, pc'.rest[0].key)),
              p, t, Marking(pc.account, pc.rest), Marking(pc'.account, pc'.rest));
    } else {
      WroteAlike(s, s', p, w, s'.past.written);
      GoAlike(Wrote(s, t, Message(pc.rest[0].id, pc.rest[0].key)), s', p, t, Marking(pc.account, pc.rest), pc');
      assert Go(s', t, pc') == s';
    }
  }

  lemma MarkRowsAlike(s: State, s': State, p: Pass, m: Id, at: Time, d: map<Id, Id>, d': map<Id, Id>)
    requires Sim(s, s', p)
    ensures Sim(s.(db := MarkDelivered(s.db, m, at), past := s.past.(delivered := d)),
                s'.(db := MarkDelivered(s'.db, m, at), past := s'.past.(delivered := d')), p)
  {
  }

  /** Marking a message that is gone changes what nobody compares. */
  lemma MarkGoneAlike(s: State, s': State, p: Pass, m: Id, at: Time, d: map<Id, Id>)
    requires Sim(s, s', p) && m in p.gone
    ensures Sim(s.(db := MarkDelivered(s.db, m, at), past := s.past.(delivered := d)), s', p)
  {
  }

  lemma MarkAlike(s: State, s': State, p: Pass, t: Id, ok: bool, at: Time)
    requires Sim(s, s', p) && BearerEnabled(s, Mark(t, ok, at))
    ensures match Image(s, s', Mark(t, ok, at), p)
            case Some(step) => BearerEnabled(s', step) && Sim(ApplyBearer(s, Mark(t, ok, at)), ApplyBearer(s', step), p)
            case None => Sim(ApplyBearer(s, Mark(t, ok, at)), s', p)
  {
    var pc, pc' := s.threads[t], s'.threads[t];
    assert Alike(pc, pc', p.gone);
    var m := pc.rest[0].id;
    var next := Draining(pc.account, pc.rest[1..]);
    if pc'.Marking? {
      var next' := Draining(pc'.account, pc'.rest[1..]);
      GoAlike(s, s', p, t, next, next');
      if ok {
        MarkRowsAlike(Go(s, t, next), Go(s', t, next'), p, m, at,
                      MarkStep(s, t, ok, at).past.delivered, MarkStep(s', t, ok, at).past.delivered);
      }
    } else {
      GoAlike(s, s', p, t, next, pc');
      assert Go(s', t, pc') == s';
      if ok { MarkGoneAlike(Go(s, t, next), s', p, m, at, MarkStep(s, t, ok, at).past.delivered); }
    }
  }

  lemma LinkAlike(s: State, s': State, p: Pass, t: Id, ok: bool)
    requires Sim(s, s', p) && At(s, t) && s.threads[t].Linking?
    ensures At(s', t) && s'.threads[t].Linking? && Sim(LinkStep(s, t, ok), LinkStep(s', t, ok), p)
  {
    var pc := s.threads[t];
    assert Alike(pc, s'.threads[t], p.gone);
    if !ok || pc.account !in s.db.accounts {
      WithoutAccountAlike(s, s', p, t, pc.session, pc.request);
    } else {
      match pc.request
      case Events => GoAlike(s, s', p, t, Queueing(pc.account), Queueing(pc.account));
      case Reply(message) => GoAlike(s, s', p, t, Finding(pc.account, message), Finding(pc.account, message));
    }
  }

  lemma DrainedAlike(s: State, s': State, p: Pass, t: Id)
    requires Sim(s, s', p) && BearerEnabled(s, Drained(t))
    ensures BearerEnabled(s', Drained(t)) && Sim(ApplyBearer(s, Drained(t)), ApplyBearer(s', Drained(t)), p)
  {
    assert Alike(s.threads[t], s'.threads[t], p.gone);
    var pc := Streaming(AccountChannel(s.threads[t].account));
    GoAlike(s, s', p, t, pc, pc);
  }

  lemma DeliverAlike(s: State, s': State, p: Pass, t: Id, event: Event)
    requires Sim(s, s', p) && BearerEnabled(s, Deliver(t, event))
    ensures BearerEnabled(s', Deliver(t, event)) && Sim(Wrote(s, t, event), Wrote(s', t, event), p)
  {
    assert Alike(s.threads[t], s'.threads[t], p.gone);
    WroteAlike(s, s', p, s.past.written + {Written(t, event)}, s'.past.written + {Written(t, event)});
  }

  lemma FindAlike(s: State, s': State, p: Pass, t: Id, at: Time)
    requires Sim(s, s', p) && At(s, t) && s.threads[t].Finding?
    ensures At(s', t) && s'.threads[t].Finding? && Sim(FindStep(s, t, at), FindStep(s', t, at), p)
  {
    var pc := s.threads[t];
    assert Alike(pc, s'.threads[t], p.gone);
    if pc.message in s.db.inbound {
      assert s'.db.inbound[pc.message] == s.db.inbound[pc.message]
             || SameMessage(s.db.inbound[pc.message], s'.db.inbound[pc.message]);
      var next := Replying(pc.account, pc.message, s.db.inbound[pc.message].key);
      GoAlike(s, s', p, t, next, next);
    }
    EndAlike(s, s', p, t);
  }

  lemma OutboundAlike(s: State, s': State, p: Pass, outbound: map<Id, Outbound>)
    requires Sim(s, s', p)
    ensures Sim(s.(db := s.db.(outbound := outbound)), s'.(db := s'.db.(outbound := outbound)), p)
  {
  }

  lemma AnswerAlike(s: State, s': State, p: Pass, t: Id, outbound: Id)
    requires Sim(s, s', p) && At(s, t) && s.threads[t].Replying?
    ensures At(s', t) && s'.threads[t].Replying? && Sim(AnswerStep(s, t, outbound), AnswerStep(s', t, outbound), p)
  {
    var pc := s.threads[t];
    assert Alike(pc, s'.threads[t], p.gone);
    if pc.account !in s.db.accounts || pc.message !in s.db.inbound {
      EndAlike(s, s', p, t);
    } else {
      var table := AnswerStep(s, t, outbound).db.outbound;
      OutboundAlike(s, s', p, table);
      UseAlike(s.(db := s.db.(outbound := table)), s'.(db := s'.db.(outbound := table)), p, {outbound});
      GoAlike(Use(s.(db := s.db.(outbound := table)), {outbound}),
              Use(s'.(db := s'.db.(outbound := table)), {outbound}), p, t,
              Calling(outbound), Calling(outbound));
    }
  }

  lemma CalledAlike(s: State, s': State, p: Pass, t: Id, ok: bool, at: Time)
    requires Sim(s, s', p) && At(s, t) && s.threads[t].Calling?
    ensures At(s', t) && s'.threads[t].Calling? && Sim(CalledStep(s, t, ok, at), CalledStep(s', t, ok, at), p)
  {
    assert Alike(s.threads[t], s'.threads[t], p.gone);
    var table := CalledStep(s, t, ok, at).db.outbound;
    OutboundAlike(s, s', p, table);
    EndAlike(s.(db := s.db.(outbound := table)), s'.(db := s'.db.(outbound := table)), p, t);
  }

  lemma BearerStepAlike(s: State, s': State, p: Pass, step: BearerStep)
    requires Sim(s, s', p) && BearerEnabled(s, step) && Spares(Bearer(step), p)
    ensures match Image(s, s', step, p)
            case Some(image) => BearerEnabled(s', image) && Sim(ApplyBearer(s, step), ApplyBearer(s', image), p)
            case None => Sim(ApplyBearer(s, step), s', p)
  {
    match step
    case Authenticate(t, token, session, request) => AuthenticateAlike(s, s', p, t, session, request);
    case Link(t, ok) => LinkAlike(s, s', p, t, ok);
    case Queue(t, rows) => QueueAlike(s, s', p, t, rows);
    case Write(t) => WriteAlike(s, s', p, t);
    case Mark(t, ok, at) => MarkAlike(s, s', p, t, ok, at);
    case Drained(t) => DrainedAlike(s, s', p, t);
    case Deliver(t, event) => DeliverAlike(s, s', p, t, event);
    case Find(t, at) => FindAlike(s, s', p, t, at);
    case Answer(t, outbound) => AnswerAlike(s, s', p, t, outbound);
    case Called(t, ok, at) => CalledAlike(s, s', p, t, ok, at);
  }

  // ---------- the other steps ----------

  lemma CreateAlike(s: State, s': State, p: Pass, session: Id, token: Id, code: Id, expiresAt: Time)
    requires Sim(s, s', p) && Fresh(s, session) && token !in p.tokens && code !in p.codes
    ensures Sim(CreateStep(s, session, token, code, expiresAt), CreateStep(s', session, token, code, expiresAt), p)
  {
    assert SessionTaken(s'.db, token, code) ==> SessionTaken(s.db, token, code);
    if SessionTaken(s.db, token, code) {
      var x :| x in s.db.sessions && (s.db.sessions[x].tokenHash == token || s.db.sessions[x].code == code);
      assert x !in p.dead && x in s'.db.sessions;
    }
  }

  lemma SetStatusAlike(s: State, s': State, p: Pass, x: Id, status: SessionStatus)
    requires Sim(s, s', p) && status in {SessionStatus.Expired, Disconnected}
    ensures Sim(s.(db := SetStatus(s.db, x, status)), s'.(db := SetStatus(s'.db, x, status)), p)
  {
  }

  lemma AccountlessSessions(s: State, s': State, p: Pass, account: Id)
    requires SessionsAlike(s.db.sessions, s'.db.sessions, p)
    ensures SessionsAlike(DeleteAccount(s.db, account).sessions, DeleteAccount(s'.db, account).sessions, p)
  {
  }

  lemma AccountlessMessages(s: State, s': State, p: Pass, account: Id)
    requires SameRest(s.db, s'.db) && SameButGone(s.db.inbound, s'.db.inbound, p.gone)
    ensures SameButGone(DeleteAccount(s.db, account).inbound, DeleteAccount(s'.db, account).inbound, p.gone)
    ensures DeleteAccount(s'.db, account).outbound == DeleteAccount(s.db, account).outbound
    ensures SameRest(DeleteAccount(s.db, account), DeleteAccount(s'.db, account))
  {
    var db, db' := DeleteAccount(s.db, account), DeleteAccount(s'.db, account);
    assert db'.outbound == db.outbound;
  }

  lemma TablesAlike(s: State, s': State, p: Pass, db: Db, db': Db)
    requires Sim(s, s', p) && SameRest(db, db')
    requires SessionsAlike(db.sessions, db'.sessions, p) && SameButGone(db.inbound, db'.inbound, p.gone)
    ensures Sim(s.(db := db), s'.(db := db'), p)
  {
  }

  lemma RemoveAccountAlike(s: State, s': State, p: Pass, account: Id)
    requires Sim(s, s', p)
    ensures Sim(s.(db := DeleteAccount(s.db, account)), s'.(db := DeleteAccount(s'.db, account)), p)
  {
    AccountlessSessions(s, s', p, account);
    AccountlessMessages(s, s', p, account);
    TablesAlike(s, s', p, DeleteAccount(s.db, account), DeleteAccount(s'.db, account));
  }

  lemma ExpireAlike(s: State, s': State, p: Pass)
    requires Sim(s, s', p)
    ensures Sim(s.(db := MarkExpired(s.db, s.now)), s'.(db := MarkExpired(s'.db, s'.now)), p)
    ensures Sim(s.(db := DeleteExpired(s.db, s.now)), s'.(db := DeleteExpired(s'.db, s'.now)), p)
  {
  }

  lemma StatusAlike(s: State, s': State, p: Pass, t: Id, session: Id, at: Time)
    requires Sim(s, s', p) && StatusEnabled(s, t, session, at) && session !in p.dead
    ensures StatusEnabled(s', t, session, at)
    ensures Sim(Go(Use(s, {t}), t, Expiring(session)), Go(Use(s', {t}), t, Expiring(session)), p)
  {
    UseAlike(s, s', p, {t});
    GoAlike(Use(s, {t}), Use(s', {t}), p, t, Expiring(session), Expiring(session));
  }

  lemma RegenerateAlike(s: State, s': State, p: Pass, account: Id, token: Id)
    requires Sim(s, s', p)
    ensures Sim(ApplyOther(s, Regenerate(account, token)), ApplyOther(s', Regenerate(account, token)), p)
  {
  }

  lemma RemoveSessionAlike(s: State, s': State, p: Pass, session: Id)
    requires Sim(s, s', p)
    ensures Sim(ApplyOther(s, RemoveSession(session)), ApplyOther(s', RemoveSession(session)), p)
  {
  }

  lemma RemoveConversationAlike(s: State, s': State, p: Pass, row: Id)
    requires Sim(s, s', p)
    ensures Sim(ApplyOther(s, RemoveConversation(row)), ApplyOther(s', RemoveConversation(row)), p)
  {
  }

  lemma OtherAlike(s: State, s': State, p: Pass, step: OtherStep)
    requires Sim(s, s', p) && OtherEnabled(s, step) && Spares(Other(step), p)
    ensures OtherEnabled(s', step) && Sim(ApplyOther(s, step), ApplyOther(s', step), p)
  {
    match step
    case Create(session, token, code, expiresAt) => CreateAlike(s, s', p, session, token, code, expiresAt);
    case ExpireStatus(t) =>
      assert Alike(s.threads[t], s'.threads[t], p.gone);
      SetStatusAlike(s, s', p, s.threads[t].session, SessionStatus.Expired);
      EndAlike(s.(db := SetStatus(s.db, s.threads[t].session, SessionStatus.Expired)),
               s'.(db := SetStatus(s'.db, s.threads[t].session, SessionStatus.Expired)), p, t);
    case Abandon(t) => EndAlike(s, s', p, t);
    case RemoveAccount(account) => RemoveAccountAlike(s, s', p, account);
    case Disconnect(session) => SetStatusAlike(s, s', p, session, Disconnected);
    case ExpireMessages => ExpireAlike(s, s', p);
    case ExpireSessions => ExpireAlike(s, s', p);
    case Status(t, session, at) => StatusAlike(s, s', p, t, session, at);
    case Regenerate(account, token) => RegenerateAlike(s, s', p, account, token);
    case RemoveSession(session) => RemoveSessionAlike(s, s', p, session);
    case RemoveConversation(row) => RemoveConversationAlike(s, s', p, row);
    case Tick(_) =>
  }

  // ---------- the statement, and what can be seen of it ----------

  /** No request is pairing a session that the statement removes: a stale one. */
  ghost predicate AllClear(s: State, statement: OtherStep)
    requires IsCleanup(statement)
  {
    forall t :: t in s.threads ==> Clear(s.threads[t], PassOf(statement, s.db, s.now).dead)
  }

  lemma AlikeSelf(h: Past, t: Id, pc: Pc, gone: set<Id>)
    requires Held(h, t, pc)
    ensures Alike(pc, pc, gone)
  {
    if pc.Draining? { ThinnedSelf(pc.rest, gone); }
    if pc.Marking? { ThinnedSelf(pc.rest[1..], gone); }
  }

  lemma StatementAlike(s: State, statement: OtherStep)
    requires Inv(s) && IsCleanup(statement) && AllClear(s, statement)
    ensures Sim(s, ApplyOther(s, statement), PassOf(statement, s.db, s.now))
  {
    var p := PassOf(statement, s.db, s.now);
    forall x | x in p.dead ensures x in s.past.used { assert SessionKept(s.past, s.db.accounts, x, s.db.sessions[x]); }
    forall m | m in p.gone ensures m in s.past.used {
      assert InboundKept(s.past, s.db.accounts, s.now, m, s.db.inbound[m]);
    }
    forall t | t in s.threads ensures Alike(s.threads[t], s.threads[t], p.gone) {
      AlikeSelf(s.past, t, s.threads[t], p.gone);
    }
  }

  /** What an onlooker can find out: all other tables, what was posted, and every lookup at a later time. */
  ghost predicate SameLooks(s: State, s': State, later: Time) {
    && s'.now == s.now && s'.posted == s.posted && SameRest(s.db, s'.db)
    && (forall code, x :: CodeFinds(s.db, later, code, x) <==> CodeFinds(s'.db, later, code, x))
    && (forall token, account :: ResolvesTo(s.db, token, account) <==> ResolvesTo(s'.db, token, account))
    && (forall account, m, at :: CanAnswer(s.db, account, m, at) <==> CanAnswer(s'.db, account, m, at))
  }

  lemma LooksAlike(s: State, s': State, p: Pass, later: Time)
    requires Sim(s, s', p) && s.now <= later
    ensures SameLooks(s, s', later)
  {
    forall token: Id, account: Id ensures ResolvesTo(s.db, token, account) <==> ResolvesTo(s'.db, token, account) {
      ResolvesAlike(s.db, s'.db, p, token, account);
    }
  }

  lemma ResolvesAlike(db: Db, db': Db, p: Pass, token: Id, account: Id)
    requires SessionsAlike(db.sessions, db'.sessions, p) && db'.accounts == db.accounts
    ensures ResolvesTo(db, token, account) <==> ResolvesTo(db', token, account)
  {
    if x :|
      && TokenFinds(db, token, x) && db.sessions[x].status == SessionStatus.Paired
      && db.sessions[x].account == Some(account)
    {
      assert x !in p.dead && TokenFinds(db', token, x);
    }
    if x :|
      && TokenFinds(db', token, x) && db'.sessions[x].status == SessionStatus.Paired
      && db'.sessions[x].account == Some(account)
    {
      assert TokenFinds(db, token, x);
    }
  }

  // ---------- runs ----------

  /** The steps that are no drain's. */
  function Undrained(steps: seq<Step>): seq<Step> {
    if steps == [] then []
    else
      var n := |steps| - 1;
      Undrained(steps[..n]) + if Drains(steps[n]) then [] else [steps[n]]
  }

  predicate Drains(step: Step) {
    step.Bearer? && (step.bearer.Queue? || step.bearer.Write? || step.bearer.Mark?)
  }

  lemma {:induction false} UndrainedMembers(steps: seq<Step>)
    ensures forall step :: step in steps && !Drains(step) ==> step in Undrained(steps)
    ensures forall step :: step in Undrained(steps) ==> step in steps
  {
    if steps != [] {
      UndrainedMembers(steps[..|steps| - 1]);
      assert forall step :: step in steps <==> step in steps[..|steps| - 1] || step == steps[|steps| - 1];
    }
  }

  lemma UndrainedGrows(steps: seq<Step>, step: Step)
    ensures Undrained(steps + [step]) == Undrained(steps) + if Drains(step) then [] else [step]
  {
    assert (steps + [step])[..|steps|] == steps;
  }

  /** One step more, after a run in two parts. */
  lemma OneStep(steps: seq<Step>, more: seq<Step>, step: Step)
    requires Run(steps + more).Some? && Enabled(Run(steps + more).value, step)
    ensures Run(steps + (more + [step])) == Some(Apply(Run(steps + more).value, step))
    ensures Undrained(more + [step]) == Undrained(more) + if Drains(step) then [] else [step]
  {
    assert steps + (more + [step]) == steps + more + [step];
    assert (steps + more + [step])[..|steps + more|] == steps + more;
    UndrainedGrows(more, step);
  }

  lemma LastStep(steps: seq<Step>, more: seq<Step>)
    requires more != [] && Run(steps + more).Some?
    ensures var earlier, step := more[..|more| - 1], more[|more| - 1];
      && more == earlier + [step] && Run(steps + earlier).Some? && Enabled(Run(steps + earlier).value, step)
      && Run(steps + more) == Some(Apply(Run(steps + earlier).value, step))
      && Undrained(more) == Undrained(earlier) + if Drains(step) then [] else [step]
  {
    assert (steps + more)[..|steps + more| - 1] == steps + more[..|more| - 1];
  }

  /** The run without the statement goes on with `after`; the run with it follows. */
  lemma {:induction false} FollowRun(before: seq<Step>, after: seq<Step>, clean: seq<Step>, p: Pass)
    returns (image: seq<Step>)
    requires Run(before).Some? && Run(before + after).Some? && Run(clean).Some?
    requires Sim(Run(before).value, Run(clean).value, p)
    requires forall step :: step in after ==> Spares(step, p)
    ensures Run(clean + image).Some? && Sim(Run(before + after).value, Run(clean + image).value, p)
    ensures Undrained(image) == Undrained(after)
  {
    if after == [] {
      image := [];
      assert before + after == before && clean + image == clean;
    } else {
      var earlier, step := after[..|after| - 1], after[|after| - 1];
      LastStep(before, after);
      image := FollowRun(before, earlier, clean, p);
      image := FollowOne(Run(before + earlier).value, clean, image, p, step);
    }
  }

  lemma FollowOne(s: State, clean: seq<Step>, image: seq<Step>, p: Pass, step: Step) returns (more: seq<Step>)
    requires Enabled(s, step) && Run(clean + image).Some? && Sim(s, Run(clean + image).value, p) && Spares(step, p)
    ensures Run(clean + more).Some? && Sim(Apply(s, step), Run(clean + more).value, p)
    ensures Undrained(more) == Undrained(image) + if Drains(step) then [] else [step]
  {
    var next := FollowStep(s, Run(clean + image).value, p, step);
    more := image;
    if next.Some? {
      OneStep(clean, image, next.value);
      more := image + [next.value];
    }
  }

  lemma FollowStep(s: State, s': State, p: Pass, step: Step) returns (next: Option<Step>)
    requires Sim(s, s', p) && Enabled(s, step) && Spares(step, p)
    ensures match next
            case Some(image) => Enabled(s', image) && Sim(Apply(s, step), Apply(s', image), p)
            case None => Sim(Apply(s, step), s', p)
    ensures if Drains(step) then next.None? || Drains(next.value) else next == Some(step)
  {
    match step
    case Hook(hook) => HookAlike(s, s', p, hook); next := Some(step);
    case Other(other) => OtherAlike(s, s', p, other); next := Some(step);
    case Bearer(bearer) =>
      BearerStepAlike(s, s', p, bearer);
      next := match Image(s, s', bearer, p) case Some(image) => Some(Bearer(image)) case None => None;
  }

  lemma StatementRuns(before: seq<Step>, statement: OtherStep)
    requires Run(before).Some? && IsCleanup(statement) && AllClear(Run(before).value, statement)
    ensures var s := Run(before).value;
      Run(before + [Other(statement)]).Some?
      && Sim(s, Run(before + [Other(statement)]).value, PassOf(statement, s.db, s.now))
  {
    RunKeeps(before);
    StatementAlike(Run(before).value, statement);
    assert (before + [Other(statement)])[..|before|] == before;
  }

  /**
   A statement of the cleanup job is invisible. Take any run, and a state of it in which no request is
   pairing a session that the statement would remove. Had it come there, the rest of the run could have
   gone on as it did, only drains skipping what it expired, as long as no one bears a removed session's
   token or is given its token or code; and an onlooker finds the same at the end, then and later.
   */
  lemma StatementInvisible(before: seq<Step>, statement: OtherStep, after: seq<Step>, later: Time)
    returns (image: seq<Step>)
    requires IsCleanup(statement) && Run(before).Some? && AllClear(Run(before).value, statement)
    requires var s := Run(before).value;
             forall step :: step in after ==> Spares(step, PassOf(statement, s.db, s.now))
    requires Run(before + after).Some? && Run(before + after).value.now <= later
    ensures Run(before + [Other(statement)] + image).Some? && Undrained(image) == Undrained(after)
    ensures SameLooks(Run(before + after).value, Run(before + [Other(statement)] + image).value, later)
  {
    var s := Run(before).value;
    StatementRuns(before, statement);
    image := FollowRun(before, after, before + [Other(statement)], PassOf(statement, s.db, s.now));
    LooksAlike(Run(before + after).value, Run(before + [Other(statement)] + image).value,
               PassOf(statement, s.db, s.now), later);
  }

  lemma MessagesNeedNothing(s: State)
    ensures AllClear(s, ExpireMessages)
    ensures forall step :: Spares(step, PassOf(ExpireMessages, s.db, s.now))
  {
  }

  /** An expiry of messages leaves the sessions as they are: the second statement finds what it would have found. */
  lemma SessionsUnmoved(s: State, s': State, p: Pass)
    requires Sim(s, s', p) && p.dead == {}
    ensures s'.db.sessions == s.db.sessions
    ensures PassOf(ExpireSessions, s'.db, s'.now) == PassOf(ExpireSessions, s.db, s.now)
    ensures AllClear(s', ExpireSessions) <==> AllClear(s, ExpireSessions)
  {
    assert s'.db.sessions == s.db.sessions;
    var dead := PassOf(ExpireSessions, s.db, s.now).dead;
    forall t | t in s.threads ensures Clear(s'.threads[t], dead) <==> Clear(s.threads[t], dead) {
      assert Alike(s.threads[t], s'.threads[t], p.gone);
    }
  }

  lemma SparesUndrained(steps: seq<Step>, image: seq<Step>, p: Pass)
    requires Undrained(image) == Undrained(steps) && forall step :: step in steps ==> Spares(step, p)
    ensures forall step :: step in image ==> Spares(step, p)
  {
    UndrainedMembers(steps);
    UndrainedMembers(image);
  }

  /**
   So is the whole job, whose two statements come one after the other with other steps in between. Only
   the removal of sessions asks for something: that none of them is being paired just then, and that no
   one bears their tokens or is given their tokens or codes later.
   */
  lemma Invisible(before: seq<Step>, mid: seq<Step>, after: seq<Step>, later: Time)
    returns (mid': seq<Step>, after': seq<Step>)
    requires Run(before).Some? && Run(before + mid).Some? && AllClear(Run(before + mid).value, ExpireSessions)
    requires var s := Run(before + mid).value;
             forall step :: step in after ==> Spares(step, PassOf(ExpireSessions, s.db, s.now))
    requires Run(before + mid + after).Some? && Run(before + mid + after).value.now <= later
    ensures Undrained(mid') == Undrained(mid) && Undrained(after') == Undrained(after)
    ensures var steps := before + [Other(ExpireMessages)] + mid' + [Other(ExpireSessions)] + after';
            Run(steps).Some? && SameLooks(Run(before + mid + after).value, Run(steps).value, later)
  {
    var s := Run(before).value;
    var p := PassOf(ExpireMessages, s.db, s.now);
    MessagesNeedNothing(s);
    StatementRuns(before, ExpireMessages);
    mid' := FollowRun(before, mid, before + [Other(ExpireMessages)], p);
    var clean := before + [Other(ExpireMessages)] + mid';
    var rest := FollowRun(before + mid, after, clean, p);
    SessionsUnmoved(Run(before + mid).value, Run(clean).value, p);
    SparesUndrained(after, rest, PassOf(ExpireSessions, Run(clean).value.db, Run(clean).value.now));
    LooksAlike(Run(before + mid + after).value, Run(clean + rest).value, p, later);
    after' := StatementInvisible(clean, ExpireSessions, rest, later);
  }
}
