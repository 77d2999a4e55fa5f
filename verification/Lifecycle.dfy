/**
 What may happen to a row over a run: session status only rises, a pairing is made once, messages and
 replies move one way, and deleted rows do not come back.
 */
module Lifecycle {
  import opened Wrappers
  import opened Tables
  import opened Protocol
  import opened Isolation

  // ---------- one row, earlier and later ----------

  function Rank(status: SessionStatus): nat {
    match status
    case PendingPairing => 0
    case Paired => 1
    case Expired => 2
    case Disconnected => 2
  }

  /** The account may only go, and only with the account itself. */
  ghost predicate SessionRises(accounts: map<Id, Account>, row: Session, row': Session) {
    && Rank(row.status) <= Rank(row'.status)
    && row'.tokenHash == row.tokenHash && row'.code == row.code
    && (row.key.Some? ==> row'.key == row.key)
    && (row.account.Some? ==> row'.account == row.account || (row'.account.None? && row.account.value !in accounts))
    && (row.status != PendingPairing ==>
          && row'.key == row.key && row'.pairedAt == row.pairedAt && row'.expiresAt == row.expiresAt
          && (row.account.None? ==> row'.account.None?))
  }

  /** A row that has been paired keeps a pairing time. */
  ghost predicate ConversationMoves(c: Conversation, c': Conversation) {
    c.pairedAt.Some? ==> c'.pairedAt.Some?
  }

  function Progress(status: InboundStatus): nat {
    match status
    case Queued => 0
    case Expired => 1
    case Delivered => 2
    case Acked => 3
  }

  /** What was sent stays as it was, and the message never returns to an earlier status. */
  ghost predicate MessageMoves(m: Inbound, m': Inbound) {
    && m'.account == m.account && m'.key == m.key && m'.url == m.url && m'.deadline == m.deadline
        && m'.createdAt == m.createdAt
    && Progress(m.status) <= Progress(m'.status) && (m.deliveredAt.Some? ==> m'.deliveredAt.Some?)
  }

  /** Sent and failed are final, and the reference to the message is never set to null. */
  ghost predicate ReplyMoves(o: Outbound, o': Outbound) {
    && o'.account == o.account && o'.key == o.key && o'.inbound == o.inbound
    && (o.status != OutboundStatus.Pending ==> o' == o)
  }

  // ---------- tables, earlier and later ----------

  ghost predicate SessionsRise(s: State, s': State) {
    forall x :: x in s'.db.sessions && x in s.past.used ==>
      x in s.db.sessions && SessionRises(s'.db.accounts, s.db.sessions[x], s'.db.sessions[x])
  }

  ghost predicate AccountsGone(s: State, s': State) {
    forall a :: a in s'.db.accounts && a in s.past.used ==> a in s.db.accounts
  }

  /** A row id found later under some key was under that key before. */
  ghost predicate ConversationsMove(s: State, s': State) {
    forall k :: k in s'.db.conversations && s'.db.conversations[k].row in s.past.used ==>
      && k in s.db.conversations && s.db.conversations[k].row == s'.db.conversations[k].row
      && ConversationMoves(s.db.conversations[k], s'.db.conversations[k])
  }

  ghost predicate MessagesMove(s: State, s': State) {
    forall m :: m in s'.db.inbound && m in s.past.used ==>
      m in s.db.inbound && MessageMoves(s.db.inbound[m], s'.db.inbound[m])
  }

  ghost predicate RepliesMove(s: State, s': State) {
    forall o :: o in s'.db.outbound && o in s.past.used ==>
      o in s.db.outbound && ReplyMoves(s.db.outbound[o], s'.db.outbound[o])
  }

  ghost predicate Leads(s: State, s': State) {
    && s.now <= s'.now && Extends(s.past, s'.past) && AccountsGone(s, s')
    && SessionsRise(s, s') && ConversationsMove(s, s') && MessagesMove(s, s') && RepliesMove(s, s')
  }

  lemma LeadsToItself(s: State)
    ensures Leads(s, s)
  {
  }

  lemma LeadsTransitive(s: State, s': State, s'': State)
    requires SessionsKept(s.past, s.db.accounts, s.db.sessions) && Coherent(s.past)
    requires Leads(s, s') && Leads(s', s'')
    ensures Leads(s, s'')
  {
    RiseTransitive(s, s', s'');
    MoveTransitive(s, s', s'');
  }

  lemma MoveTransitive(s: State, s': State, s'': State)
    requires Leads(s, s') && Leads(s', s'')
    ensures ConversationsMove(s, s'') && MessagesMove(s, s'') && RepliesMove(s, s'')
  {
  }

  lemma RiseTransitive(s: State, s': State, s'': State)
    requires SessionsKept(s.past, s.db.accounts, s.db.sessions) && Coherent(s.past)
    requires Leads(s, s') && Leads(s', s'')
    ensures SessionsRise(s, s'')
  {
    forall x | x in s''.db.sessions && x in s.past.used
      ensures x in s.db.sessions && SessionRises(s''.db.accounts, s.db.sessions[x], s''.db.sessions[x])
    {
      assert SessionKept(s.past, s.db.accounts, x, s.db.sessions[x]);
    }
  }

  // ---------- one step ----------

  /** A table that did not change needs no argument. */
  lemma LeadsByTable(s: State, s': State)
    requires s.now <= s'.now && Extends(s.past, s'.past)
    requires s'.db.accounts == s.db.accounts || AccountsGone(s, s')
    requires s'.db.sessions == s.db.sessions || SessionsRise(s, s')
    requires s'.db.conversations == s.db.conversations || ConversationsMove(s, s')
    requires s'.db.inbound == s.db.inbound || MessagesMove(s, s')
    requires s'.db.outbound == s.db.outbound || RepliesMove(s, s')
    ensures Leads(s, s')
  {
  }

  /** Threads and channels aside, nothing happened but new ids and history. */
  lemma LeadsQuietly(s: State, s': State)
    requires s.now <= s'.now && s'.db == s.db && Extends(s.past, s'.past)
    ensures Leads(s, s')
  {
  }

  lemma SessionChanged(s: State, s': State, x: Id)
    requires x in s.db.sessions && x in s'.db.sessions && s'.db.sessions == s.db.sessions[x := s'.db.sessions[x]]
    requires SessionRises(s'.db.accounts, s.db.sessions[x], s'.db.sessions[x])
    ensures SessionsRise(s, s')
  {
  }

  lemma PairedRowRises(h: Past, accounts: map<Id, Account>, accounts': map<Id, Account>, x: Id, row: Session,
                       account: Id, token: Id, key: Key, at: Time)
    requires SessionKept(h, accounts, x, row) && (row.status == PendingPairing ==> x !in h.paired)
    ensures SessionRises(accounts', row, PairedRow(row, account, token, key, at))
  {
  }

  lemma TransactHistory(h: Past, session: Id, account: Id, mint: Mint, effective: bool)
    requires Coherent(h) && AllOwn(h) && account !in h.used && mint.session == session && session in h.used
    requires effective ==> session !in h.paired
    ensures var h' := h.(used := h.used + {account}, minted := h.minted[account := mint]);
            Extends(h, Recorded(h', session, account, effective))
  {
    MintHistory(h, account, mint);
    RecordedKeeps(h.(used := h.used + {account}, minted := h.minted[account := mint]), session, account, effective);
  }

  lemma TransactLeads(s: State, t: Id, account: Id, token: Id, at: Time)
    requires Coherent(s.past) && AllOwn(s.past) && SessionsKept(s.past, s.db.accounts, s.db.sessions)
    requires At(s, t) && s.threads[t].Pairing? && Fresh(s, account)
    ensures Leads(s, TransactStep(s, t, account, token, at))
  {
    var pc := s.threads[t];
    var s' := TransactStep(s, t, account, token, at);
    if AccountTokenTaken(s.db, token) {
      LeadsQuietly(s, s');
    } else {
      assert AccountsGone(s, s');
      if pc.session in s.db.sessions {
        var row := s.db.sessions[pc.session];
        assert SessionKept(s.past, s.db.accounts, pc.session, row);
        TransactHistory(s.past, pc.session, account, Mint(pc.session, pc.key, token), Pairable(s.db, pc.session));
        CommittedIs(MintedState(s, account, token, pc.session, pc.key).db, pc.session, account, token, pc.key, at);
        PairedRowRises(s.past, s.db.accounts, s'.db.accounts, pc.session, row, account, token, pc.key, at);
        SessionChanged(s, s', pc.session);
      } else {
        MintHistory(s.past, account, Mint(pc.session, pc.key, token));
      }
      LeadsByTable(s, s');
    }
  }

  lemma ConversationChanged(s: State, s': State, key: Key)
    requires key in s.db.conversations && key in s'.db.conversations
    requires s'.db.conversations == s.db.conversations[key := s'.db.conversations[key]]
    requires s'.db.conversations[key].row == s.db.conversations[key].row
    requires ConversationMoves(s.db.conversations[key], s'.db.conversations[key])
    ensures ConversationsMove(s, s')
  {
  }

  lemma AttachLeads(s: State, t: Id)
    requires At(s, t) && s.threads[t].Attaching?
    ensures Leads(s, AttachStep(s, t))
  {
    var pc := s.threads[t];
    var s' := AttachStep(s, t);
    if pc.key in s.db.conversations && pc.account in s.db.accounts { ConversationChanged(s, s', pc.key); }
    LeadsByTable(s, s');
  }

  lemma DetachLeads(s: State, t: Id)
    requires At(s, t) && s.threads[t].Unpairing?
    ensures Leads(s, DetachStep(s, t))
  {
    var s' := DetachStep(s, t);
    if s.threads[t].key in s.db.conversations { ConversationChanged(s, s', s.threads[t].key); }
    LeadsByTable(s, s');
  }

  lemma WebhookLeads(s: State, t: Id, key: Key, row: Id, command: Command, url: Option<Id>, deadline: Option<Time>)
    requires Coherent(s.past) && Fresh(s, t) && Fresh(s, row)
    ensures Leads(s, WebhookStep(s, t, key, row, command, url, deadline))
  {
    var s' := WebhookStep(s, t, key, row, command, url, deadline);
    assert s'.db == Upsert(s.db, key, row, url, deadline);
    LeadsByTable(s, s');
  }

  lemma EnqueueLeads(s: State, t: Id, message: Id)
    requires Coherent(s.past) && At(s, t) && s.threads[t].Enqueueing? && Fresh(s, message)
    ensures Leads(s, EnqueueStep(s, t, message))
  {
    var s' := EnqueueStep(s, t, message);
    if s.threads[t].account in s.db.accounts {
      assert MessagesMove(s, s');
      LeadsByTable(s, s');
    } else {
      LeadsQuietly(s, s');
    }
  }

  lemma HookLeads(s: State, step: HookStep)
    requires Inv(s) && HookEnabled(s, step)
    ensures Leads(s, ApplyHook(s, step))
  {
    match step
    case Transact(t, account, token, at) => TransactLeads(s, t, account, token, at);
    case Attach(t) => AttachLeads(s, t);
    case Detach(t) => DetachLeads(s, t);
    case Webhook(t, key, row, command, url, deadline) => WebhookLeads(s, t, key, row, command, url, deadline);
    case Enqueue(t, message) => EnqueueLeads(s, t, message);
    case _ => QuietHookLeads(s, step);
  }

  lemma QuietHookLeads(s: State, step: HookStep)
    requires HookEnabled(s, step)
    requires !step.Transact? && !step.Attach? && !step.Detach? && !step.Webhook? && !step.Enqueue?
    ensures Leads(s, ApplyHook(s, step))
  {
    LeadsQuietly(s, ApplyHook(s, step));
  }

  lemma MessageChanged(s: State, s': State, m: Id)
    requires m in s.db.inbound && m in s'.db.inbound && s'.db.inbound == s.db.inbound[m := s'.db.inbound[m]]
    requires MessageMoves(s.db.inbound[m], s'.db.inbound[m])
    ensures MessagesMove(s, s')
  {
  }

  lemma MarkLeads(s: State, t: Id, ok: bool, at: Time)
    requires MessagesKept(s.past, s.db.accounts, s.now, s.db.inbound)
    requires At(s, t) && s.threads[t].Marking? && s.threads[t].rest != []
    ensures Leads(s, MarkStep(s, t, ok, at))
  {
    var m := s.threads[t].rest[0].id;
    var s' := MarkStep(s, t, ok, at);
    if m in s.db.inbound && ok {
      assert InboundKept(s.past, s.db.accounts, s.now, m, s.db.inbound[m]);
      MessageChanged(s, s', m);
      LeadsByTable(s, s');
    } else {
      LeadsQuietly(s, s');
    }
  }

  lemma ReplyChanged(s: State, s': State, o: Id)
    requires o in s.db.outbound && o in s'.db.outbound && s'.db.outbound == s.db.outbound[o := s'.db.outbound[o]]
    requires ReplyMoves(s.db.outbound[o], s'.db.outbound[o])
    ensures RepliesMove(s, s')
  {
  }

  lemma CalledLeads(s: State, t: Id, ok: bool, at: Time)
    requires Calls(s.threads, s.db.outbound) && At(s, t) && s.threads[t].Calling?
    ensures Leads(s, CalledStep(s, t, ok, at))
  {
    var o := s.threads[t].outbound;
    var s' := CalledStep(s, t, ok, at);
    if o in s.db.outbound {
      ReplyChanged(s, s', o);
      LeadsByTable(s, s');
    } else {
      LeadsQuietly(s, s');
    }
  }

  lemma AnswerLeads(s: State, t: Id, outbound: Id)
    requires At(s, t) && s.threads[t].Replying? && Fresh(s, outbound)
    ensures Leads(s, AnswerStep(s, t, outbound))
  {
    var s' := AnswerStep(s, t, outbound);
    assert RepliesMove(s, s');
    LeadsByTable(s, s');
  }

  lemma BearerLeads(s: State, step: BearerStep)
    requires Inv(s) && BearerEnabled(s, step)
    ensures Leads(s, ApplyBearer(s, step))
  {
    match step
    case Mark(t, ok, at) => MarkLeads(s, t, ok, at);
    case Called(t, ok, at) => CalledLeads(s, t, ok, at);
    case Answer(t, outbound) => AnswerLeads(s, t, outbound);
    case Authenticate(t, _, session, request) => AuthenticateLeads(s, t, session, request);
    case _ => QuietBearerLeads(s, step);
  }

  lemma AuthenticateExtends(s: State, t: Id, session: Id, request: Request)
    requires Coherent(s.past) && Fresh(s, t) && session in s.db.sessions
    ensures var s' := AuthenticateStep(s, t, session, request);
            s'.now == s.now && s'.db == s.db && Extends(s.past, s'.past)
  {
    assert t !in s.past.bearers;
    var row := s.db.sessions[session];
    var s' := AuthenticateStep(s, t, session, request);
    if row.status == SessionStatus.Paired && row.account.Some? {
      assert s'.past ==
               s.past.(used := s.past.used + {t}, bearers := s.past.bearers[t := Login(session, row.account.value)]);
    } else {
      assert s'.past == s.past.(used := s.past.used + {t});
    }
  }

  lemma AuthenticateLeads(s: State, t: Id, session: Id, request: Request)
    requires Coherent(s.past) && Fresh(s, t) && session in s.db.sessions
    ensures Leads(s, AuthenticateStep(s, t, session, request))
  {
    AuthenticateExtends(s, t, session, request);
    LeadsQuietly(s, AuthenticateStep(s, t, session, request));
  }

  lemma QuietBearerLeads(s: State, step: BearerStep)
    requires BearerEnabled(s, step) && !step.Mark? && !step.Called? && !step.Answer? && !step.Authenticate?
    ensures Leads(s, ApplyBearer(s, step))
  {
    LeadsQuietly(s, ApplyBearer(s, step));
  }

  /** No reply loses its message to ON DELETE SET NULL: the cascade takes the reply first. */
  lemma CascadeKeepsReferences(s: State, account: Id)
    requires Inv(s)
    ensures forall o :: o in DeleteAccount(s.db, account).outbound ==>
              DeleteAccount(s.db, account).outbound[o] == s.db.outbound[o]
  {
    var db := DeleteAccount(s.db, account);
    forall o | o in db.outbound ensures db.outbound[o] == s.db.outbound[o] {
      assert OutboundKept(s.past, s.db, o, s.db.outbound[o]);
      var m := s.db.outbound[o].inbound.value;
      assert InboundKept(s.past, s.db.accounts, s.now, m, s.db.inbound[m]);
    }
  }

  lemma RemoveAccountRises(s: State, account: Id)
    ensures SessionsRise(s, s.(db := DeleteAccount(s.db, account)))
    ensures ConversationsMove(s, s.(db := DeleteAccount(s.db, account)))
  {
  }

  lemma RemoveAccountLeads(s: State, account: Id)
    requires Inv(s)
    ensures Leads(s, s.(db := DeleteAccount(s.db, account)))
  {
    CascadeKeepsReferences(s, account);
    RemoveAccountRises(s, account);
  }

  lemma SetStatusLeads(s: State, x: Id, status: SessionStatus)
    requires status in {SessionStatus.Expired, Disconnected}
    ensures Leads(s, s.(db := SetStatus(s.db, x, status)))
  {
    var s' := s.(db := SetStatus(s.db, x, status));
    if x in s.db.sessions { SessionChanged(s, s', x); }
    LeadsByTable(s, s');
  }

  lemma ExpireMessagesLeads(s: State)
    ensures Leads(s, s.(db := MarkExpired(s.db, s.now)))
  {
    LeadsByTable(s, s.(db := MarkExpired(s.db, s.now)));
  }

  lemma CreateLeads(s: State, session: Id, token: Id, code: Id, expiresAt: Time)
    requires Fresh(s, session)
    ensures Leads(s, CreateStep(s, session, token, code, expiresAt))
  {
    var s' := CreateStep(s, session, token, code, expiresAt);
    assert SessionsRise(s, s');
    LeadsByTable(s, s');
  }

  lemma RegenerateLeads(s: State, account: Id, token: Id)
    ensures Leads(s, ApplyOther(s, Regenerate(account, token)))
  {
    LeadsByTable(s, ApplyOther(s, Regenerate(account, token)));
  }

  lemma OtherLeads(s: State, step: OtherStep)
    requires Inv(s) && OtherEnabled(s, step)
    ensures Leads(s, ApplyOther(s, step))
  {
    match step
    case RemoveAccount(account) => RemoveAccountLeads(s, account);
    case ExpireStatus(t) => SetStatusLeads(s, s.threads[t].session, SessionStatus.Expired);
    case Disconnect(session) => SetStatusLeads(s, session, Disconnected);
    case ExpireMessages => ExpireMessagesLeads(s);
    case Create(session, token, code, expiresAt) => CreateLeads(s, session, token, code, expiresAt);
    case Regenerate(account, token) => RegenerateLeads(s, account, token);
    case _ => QuietOtherLeads(s, step);
  }

  lemma QuietOtherLeads(s: State, step: OtherStep)
    requires OtherEnabled(s, step)
    requires step.Tick? || step.Status? || step.Abandon? || step.RemoveSession? || step.RemoveConversation?
             || step.ExpireSessions?
    ensures Leads(s, ApplyOther(s, step))
  {
    LeadsByTable(s, ApplyOther(s, step));
  }

  lemma StepLeads(s: State, step: Step)
    requires Inv(s) && Enabled(s, step)
    ensures Leads(s, Apply(s, step))
  {
    match step
    case Hook(hook) => HookLeads(s, hook);
    case Bearer(bearer) => BearerLeads(s, bearer);
    case Other(other) => OtherLeads(s, other);
  }

  // ---------- runs ----------

  /** Every state of a run leads to every later one. */
  lemma {:induction false} RunLeads(steps: seq<Step>, i: nat)
    requires i <= |steps| && Run(steps).Some?
    ensures Run(steps[..i]).Some? && Leads(Run(steps[..i]).value, Run(steps).value)
  {
    if i == |steps| {
      assert steps[..i] == steps;
      LeadsToItself(Run(steps).value);
    } else {
      var before := steps[..|steps| - 1];
      RunLeads(before, i);
      assert before[..i] == steps[..i];
      RunKeeps(before);
      RunKeeps(steps[..i]);
      StepLeads(Run(before).value, steps[|steps| - 1]);
      LeadsTransitive(Run(steps[..i]).value, Run(before).value, Run(steps).value);
    }
  }

  // ---------- what a bearer's step cannot touch ----------

  /** From s to s' only thread t moves, ids stay used, and nothing becomes paired. */
  ghost predicate Moves(s: State, s': State, t: Id) {
    && s'.past.paired == s.past.paired && s.past.used <= s'.past.used
    && (forall u :: u != t ==> (u in s'.threads <==> u in s.threads))
    && (forall u :: u != t && u in s.threads ==> s'.threads[u] == s.threads[u])
  }

  ghost predicate SameMessages(s: State, s': State) {
    s'.db.inbound == s.db.inbound && s'.past.delivered == s.past.delivered
  }

  lemma AuthenticateMoves(s: State, t: Id, session: Id, request: Request)
    requires session in s.db.sessions
    ensures Moves(s, AuthenticateStep(s, t, session, request), t)
    ensures SameMessages(s, AuthenticateStep(s, t, session, request))
  {
  }

  lemma LinkMoves(s: State, t: Id, ok: bool)
    requires At(s, t) && s.threads[t].Linking?
    ensures Moves(s, LinkStep(s, t, ok), t) && SameMessages(s, LinkStep(s, t, ok))
  {
  }

  lemma MarkMoves(s: State, t: Id, ok: bool, at: Time)
    requires At(s, t) && s.threads[t].Marking? && s.threads[t].rest != []
    ensures Moves(s, MarkStep(s, t, ok, at), t)
  {
  }

  lemma FindMoves(s: State, t: Id, at: Time)
    requires At(s, t) && s.threads[t].Finding?
    ensures Moves(s, FindStep(s, t, at), t) && SameMessages(s, FindStep(s, t, at))
  {
  }

  lemma AnswerMoves(s: State, t: Id, outbound: Id)
    requires At(s, t) && s.threads[t].Replying?
    ensures Moves(s, AnswerStep(s, t, outbound), t) && SameMessages(s, AnswerStep(s, t, outbound))
  {
  }

  lemma CalledMoves(s: State, t: Id, ok: bool, at: Time)
    requires At(s, t) && s.threads[t].Calling?
    ensures Moves(s, CalledStep(s, t, ok, at), t) && SameMessages(s, CalledStep(s, t, ok, at))
  {
  }

  lemma BearerMoves(s: State, step: BearerStep)
    requires BearerEnabled(s, step)
    ensures Moves(s, ApplyBearer(s, step), step.t)
    ensures step.Mark? || SameMessages(s, ApplyBearer(s, step))
  {
    match step
    case Authenticate(t, _, session, request) => AuthenticateMoves(s, t, session, request);
    case Link(t, ok) => LinkMoves(s, t, ok);
    case Mark(t, ok, at) => MarkMoves(s, t, ok, at);
    case Find(t, at) => FindMoves(s, t, at);
    case Answer(t, outbound) => AnswerMoves(s, t, outbound);
    case Called(t, ok, at) => CalledMoves(s, t, ok, at);
    case _ =>
  }
}
