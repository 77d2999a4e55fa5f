/**
 The invariant of the protocol, kept by every step in every interleaving, and what follows from it:
 each account serves the one conversation whose /pair made it.
 */
module Isolation {
  import opened Wrappers
  import opened Tables
  import opened Protocol

  // ---------- facts that only grow ----------

  /** The account was made by a /pair typed in the conversation. */
  ghost predicate MintedFor(h: Past, account: Id, key: Key) {
    account in h.minted && h.minted[account].key == key
  }

  ghost predicate TokenOf(h: Past, account: Id, token: Id) {
    account in h.minted && h.minted[account].token == token
  }

  /** The message was sent to the account from the conversation. */
  ghost predicate Noted(h: Past, message: Id, account: Id, key: Key) {
    message in h.inbox && h.inbox[message] == Note(account, key)
  }

  /** The request came with the token of a session paired to the account. */
  ghost predicate BearerOf(h: Past, t: Id, account: Id) {
    t in h.bearers && h.bearers[t].account == account
  }

  ghost predicate PairedTo(h: Past, session: Id, account: Id) {
    session in h.paired && h.paired[session] == account
  }

  ghost predicate WrittenTo(h: Past, t: Id, message: Id) {
    message in h.inbox && Written(t, Message(message, h.inbox[message].key)) in h.written
  }

  ghost predicate Grows<T>(m: map<Id, T>, m': map<Id, T>) {
    forall k :: k in m ==> k in m' && m'[k] == m[k]
  }

  ghost predicate Extends(h: Past, h': Past) {
    && h.used <= h'.used && h.written <= h'.written
    && Grows(h.minted, h'.minted) && Grows(h.paired, h'.paired) && Grows(h.rows, h'.rows)
    && Grows(h.inbox, h'.inbox) && Grows(h.bearers, h'.bearers) && Grows(h.delivered, h'.delivered)
  }

  // ---------- what a thread may hold ----------

  ghost predicate Held(h: Past, t: Id, pc: Pc) {
    match pc
    case Stamping(key, _, account) => MintedFor(h, account, key)
    case Attaching(key, _, account, _) => MintedFor(h, account, key)
    case Enqueueing(key, account, url, deadline) => MintedFor(h, account, key) && url.Some? == deadline.Some?
    case Publishing(key, account, message) => Noted(h, message, account, key)
    case Linking(_, account, _) => BearerOf(h, t, account)
    case Queueing(account) => BearerOf(h, t, account)
    case Draining(account, rest) => BearerOf(h, t, account) && Items(h, account, rest)
    case Marking(account, rest) => BearerOf(h, t, account) && Items(h, account, rest) && rest != []
        && WrittenTo(h, t, rest[0].id)
    case Streaming(channel) => channel.AccountChannel? ==> BearerOf(h, t, channel.account)
    case Replying(account, message, key) => Noted(h, message, account, key)
    case Calling(outbound) => outbound in h.used
    case _ => true
  }

  ghost predicate Items(h: Past, account: Id, items: seq<Item>) {
    forall i :: i in items ==> Noted(h, i.id, account, i.key)
  }

  ghost predicate ThreadsHeld(h: Past, threads: map<Id, Pc>) {
    forall t :: t in threads ==> t in h.used && Held(h, t, threads[t])
  }

  // ---------- history ----------

  ghost predicate MintsUsed(used: set<Id>, minted: map<Id, Mint>) {
    forall a :: a in minted ==> a in used
  }

  /** Each session is mapped to an account that was made for it. */
  ghost predicate MadeFor(used: set<Id>, minted: map<Id, Mint>, accounts: map<Id, Id>) {
    forall x :: x in accounts ==> x in used && accounts[x] in minted && minted[accounts[x]].session == x
  }

  ghost predicate RowsUsed(used: set<Id>, rows: map<Id, Key>, attached: map<Id, Id>) {
    (forall r :: r in rows ==> r in used) && (forall r :: r in attached ==> r in rows)
  }

  ghost predicate InboxHome(used: set<Id>, minted: map<Id, Mint>, inbox: map<Id, Note>) {
    forall m :: m in inbox ==> m in used && inbox[m].account in minted && minted[inbox[m].account].key == inbox[m].key
  }

  ghost predicate BearersPaired(used: set<Id>, paired: map<Id, Id>, bearers: map<Id, Login>) {
    forall t :: t in bearers ==>
        t in used && bearers[t].session in paired && paired[bearers[t].session] == bearers[t].account
  }

  ghost predicate Coherent(h: Past) {
    && MintsUsed(h.used, h.minted)
    && MadeFor(h.used, h.minted, h.paired) && MadeFor(h.used, h.minted, h.latest) && h.paired.Keys <= h.latest.Keys
    && RowsUsed(h.used, h.rows, h.attached)
    && InboxHome(h.used, h.minted, h.inbox)
    && BearersPaired(h.used, h.paired, h.bearers)
  }

  /** A `message` event written to a stream is one of the stream's own account. */
  ghost predicate Own(bearers: map<Id, Login>, inbox: map<Id, Note>, w: Written) {
    w.event.Message? ==>
      w.stream in bearers && w.event.id in inbox && inbox[w.event.id] == Note(bearers[w.stream].account, w.event.key)
  }

  ghost predicate WrittenOwn(bearers: map<Id, Login>, inbox: map<Id, Note>, written: set<Written>) {
    forall w :: w in written ==> Own(bearers, inbox, w)
  }

  /** A message is marked by a stream of its account that has it in full. */
  ghost predicate DeliveredOwn(bearers: map<Id, Login>, inbox: map<Id, Note>, written: set<Written>,
                               delivered: map<Id, Id>)
  {
    forall m :: m in delivered ==>
      && m in inbox && delivered[m] in bearers && bearers[delivered[m]].account == inbox[m].account
      && Written(delivered[m], Message(m, inbox[m].key)) in written
  }

  ghost predicate AllOwn(h: Past) {
    WrittenOwn(h.bearers, h.inbox, h.written) && DeliveredOwn(h.bearers, h.inbox, h.written, h.delivered)
  }

  ghost predicate Addressed(h: Past, p: Posting) {
    p.event.Message? ==> p.channel.AccountChannel? && Noted(h, p.event.id, p.channel.account, p.event.key)
  }

  ghost predicate AllAddressed(h: Past, posted: set<Posting>) {
    forall p :: p in posted ==> Addressed(h, p)
  }

  // ---------- tables ----------

  ghost predicate AccountsKept(h: Past, accounts: map<Id, Account>) {
    forall a :: a in accounts ==> a in h.minted
  }

  /** The account if it still exists: what ON DELETE SET NULL leaves of a reference to it. */
  function Surviving(accounts: map<Id, Account>, a: Id): Option<Id> {
    if a in accounts then Some(a) else None
  }

  ghost predicate SessionKept(h: Past, accounts: map<Id, Account>, x: Id, row: Session) {
    && x in h.used
    && (row.status == PendingPairing ==> x !in h.latest)
    && (row.status == SessionStatus.Paired ==> x in h.paired && row.expiresAt == SENTINEL)
    && (x in h.paired ==>
          && row.account == Surviving(accounts, h.paired[x])
          && row.key.Some? && MintedFor(h, h.paired[x], row.key.value))
    && (x !in h.paired ==> row.account == None && row.key == None)
    && (x in h.latest ==> row.metadata.Some? && TokenOf(h, h.latest[x], row.metadata.value))
    && (x !in h.latest ==> row.metadata == None)
  }

  ghost predicate SessionsKept(h: Past, accounts: map<Id, Account>, sessions: map<Id, Session>) {
    forall x :: x in sessions ==> SessionKept(h, accounts, x, sessions[x])
  }

  ghost predicate ConversationKept(h: Past, accounts: map<Id, Account>, k: Key, c: Conversation) {
    && c.row in h.rows && h.rows[c.row] == k
    && c.state in {Unpaired, PairingState.Paired}
    && (c.state == Unpaired ==> c.account == None)
    && (c.state == PairingState.Paired ==>
          && c.pairedAt.Some? && c.row in h.attached && MintedFor(h, h.attached[c.row], k)
          && c.account == Surviving(accounts, h.attached[c.row]))
  }

  ghost predicate ConversationsKept(h: Past, accounts: map<Id, Account>, conversations: map<Key, Conversation>) {
    forall k :: k in conversations ==> ConversationKept(h, accounts, k, conversations[k])
  }

  ghost predicate InboundKept(h: Past, accounts: map<Id, Account>, now: Time, m: Id, row: Inbound) {
    && row.account in accounts && Noted(h, m, row.account, row.key) && row.url.Some? == row.deadline.Some?
    && match row.status
       case Queued => row.deliveredAt == None
       case Expired => row.deliveredAt == None && row.deadline.Some? && row.deadline.value < now
       case Delivered => row.deliveredAt.Some? && m in h.delivered
       case Acked => false
  }

  ghost predicate MessagesKept(h: Past, accounts: map<Id, Account>, now: Time, inbound: map<Id, Inbound>) {
    && (forall m :: m in inbound ==> InboundKept(h, accounts, now, m, inbound[m]))
    && (forall m :: m in h.inbox && h.inbox[m].account in accounts ==> m in inbound)
  }

  ghost predicate OutboundKept(h: Past, db: Db, o: Id, row: Outbound) {
    && o in h.used && row.account in db.accounts && row.inbound.Some? && row.inbound.value in db.inbound
    && Noted(h, row.inbound.value, row.account, row.key)
  }

  ghost predicate RepliesKept(h: Past, db: Db) {
    forall o :: o in db.outbound ==> OutboundKept(h, db, o, db.outbound[o])
  }

  /** An outbound row is pending exactly until the one thread that calls out for it has its answer. */
  ghost predicate Calls(threads: map<Id, Pc>, outbound: map<Id, Outbound>) {
    forall t :: t in threads && threads[t].Calling? ==>
      && (threads[t].outbound in outbound ==> outbound[threads[t].outbound].status == OutboundStatus.Pending)
      && forall u :: u in threads && u != t ==> threads[u] != threads[t]
  }

  ghost predicate TablesKept(s: State) {
    && AccountsKept(s.past, s.db.accounts)
    && SessionsKept(s.past, s.db.accounts, s.db.sessions)
    && ConversationsKept(s.past, s.db.accounts, s.db.conversations)
    && MessagesKept(s.past, s.db.accounts, s.now, s.db.inbound)
    && RepliesKept(s.past, s.db)
  }

  ghost predicate Inv(s: State) {
    && Coherent(s.past) && AllOwn(s.past) && AllAddressed(s.past, s.posted)
    && ThreadsHeld(s.past, s.threads) && TablesKept(s) && Calls(s.threads, s.db.outbound)
  }

  // ---------- what growth keeps ----------

  lemma HeldStays(h: Past, h': Past, t: Id, pc: Pc)
    requires Extends(h, h') && Held(h, t, pc)
    ensures Held(h', t, pc)
  {
  }

  lemma ThreadsStay(h: Past, h': Past, threads: map<Id, Pc>)
    requires Extends(h, h') && ThreadsHeld(h, threads)
    ensures ThreadsHeld(h', threads)
  {
    forall t | t in threads ensures Held(h', t, threads[t]) { HeldStays(h, h', t, threads[t]); }
  }

  lemma OwnStays(h: Past, h': Past)
    requires Extends(h, h') && AllOwn(h) && h'.written == h.written && h'.delivered == h.delivered
    ensures AllOwn(h')
  {
    forall w | w in h'.written ensures Own(h'.bearers, h'.inbox, w) { assert Own(h.bearers, h.inbox, w); }
  }

  lemma AddressedStays(h: Past, h': Past, posted: set<Posting>)
    requires Extends(h, h') && AllAddressed(h, posted)
    ensures AllAddressed(h', posted)
  {
    forall p | p in posted ensures Addressed(h', p) { assert Addressed(h, p); }
  }

  lemma SessionsStay(h: Past, h': Past, accounts: map<Id, Account>, sessions: map<Id, Session>)
    requires Extends(h, h') && h'.paired == h.paired && h'.latest == h.latest && SessionsKept(h, accounts, sessions)
    ensures SessionsKept(h', accounts, sessions)
  {
    forall x | x in sessions ensures SessionKept(h', accounts, x, sessions[x]) {
      assert SessionKept(h, accounts, x, sessions[x]);
    }
  }

  lemma ConversationsStay(h: Past, h': Past, accounts: map<Id, Account>, conversations: map<Key, Conversation>)
    requires Extends(h, h') && h'.attached == h.attached && ConversationsKept(h, accounts, conversations)
    ensures ConversationsKept(h', accounts, conversations)
  {
    forall k | k in conversations ensures ConversationKept(h', accounts, k, conversations[k]) {
      assert ConversationKept(h, accounts, k, conversations[k]);
    }
  }

  lemma MessagesStay(h: Past, h': Past, now: Time, db: Db)
    requires Extends(h, h') && h'.inbox == h.inbox && MessagesKept(h, db.accounts, now, db.inbound)
             && RepliesKept(h, db)
    ensures MessagesKept(h', db.accounts, now, db.inbound) && RepliesKept(h', db)
  {
    forall m | m in db.inbound ensures InboundKept(h', db.accounts, now, m, db.inbound[m]) {
      assert InboundKept(h, db.accounts, now, m, db.inbound[m]);
    }
    forall o | o in db.outbound ensures OutboundKept(h', db, o, db.outbound[o]) {
      assert OutboundKept(h, db, o, db.outbound[o]);
    }
  }

  // ---------- every step keeps the invariant ----------

  lemma GoHeld(h: Past, threads: map<Id, Pc>, t: Id, pc: Pc)
    requires ThreadsHeld(h, threads) && t in h.used && Held(h, t, pc)
    ensures ThreadsHeld(h, threads[t := pc])
  {
  }

  lemma GoKeeps(s: State, t: Id, pc: Pc)
    requires Inv(s) && t in s.past.used && Held(s.past, t, pc) && !pc.Calling?
    ensures Inv(Go(s, t, pc))
  {
    GoHeld(s.past, s.threads, t, pc);
  }

  lemma EndKeeps(s: State, t: Id)
    requires Inv(s)
    ensures Inv(End(s, t))
  {
  }

  lemma HistoryKeeps(s: State, h: Past)
    requires Inv(s) && Extends(s.past, h) && Coherent(h) && AllOwn(h)
    requires h.paired == s.past.paired && h.latest == s.past.latest && h.attached == s.past.attached
             && h.inbox == s.past.inbox
    ensures Inv(s.(past := h))
  {
    ThreadsStay(s.past, h, s.threads);
    AddressedStays(s.past, h, s.posted);
    SessionsStay(s.past, h, s.db.accounts, s.db.sessions);
    ConversationsStay(s.past, h, s.db.accounts, s.db.conversations);
    MessagesStay(s.past, h, s.now, s.db);
  }

  /** What does not look at which session or row an account is linked to. */
  lemma LinksKeep(s: State, h: Past)
    requires Inv(s) && Extends(s.past, h) && h.inbox == s.past.inbox
    ensures ThreadsHeld(h, s.threads) && AllAddressed(h, s.posted)
    ensures AccountsKept(h, s.db.accounts) && MessagesKept(h, s.db.accounts, s.now, s.db.inbound)
            && RepliesKept(h, s.db)
  {
    ThreadsStay(s.past, h, s.threads);
    AddressedStays(s.past, h, s.posted);
    MessagesStay(s.past, h, s.now, s.db);
  }

  lemma UseKeeps(s: State, ids: set<Id>)
    requires Inv(s)
    ensures Inv(Use(s, ids))
  {
    OwnStays(s.past, Use(s, ids).past);
    HistoryKeeps(s, Use(s, ids).past);
  }

  lemma CreateKeeps(s: State, session: Id, token: Id, code: Id, expiresAt: Time)
    requires Inv(s) && Fresh(s, session)
    ensures Inv(CreateStep(s, session, token, code, expiresAt))
  {
    UseKeeps(s, {session});
  }

  lemma SetStatusKeeps(s: State, x: Id, status: SessionStatus)
    requires Inv(s) && status in {SessionStatus.Expired, Disconnected}
    ensures Inv(s.(db := SetStatus(s.db, x, status)))
  {
  }

  lemma UpsertKeeps(s: State, key: Key, row: Id, url: Option<Id>, deadline: Option<Time>)
    requires Inv(s) && row in s.past.used && row !in s.past.rows
    ensures Inv(s.(db := Upsert(s.db, key, row, url, deadline),
                   past := s.past.(rows := if key in s.db.conversations then s.past.rows else s.past.rows[row := key])))
  {
    var h := s.past.(rows := if key in s.db.conversations then s.past.rows else s.past.rows[row := key]);
    OwnStays(s.past, h);
    HistoryKeeps(s, h);
    var db := Upsert(s.db, key, row, url, deadline);
    forall k | k in db.conversations ensures ConversationKept(h, db.accounts, k, db.conversations[k]) {
      if k != key { assert ConversationKept(h, db.accounts, k, s.db.conversations[k]); }
    }
  }

  lemma WebhookKeeps(s: State, t: Id, key: Key, row: Id, command: Command, url: Option<Id>, deadline: Option<Time>)
    requires Inv(s) && Fresh(s, t) && Fresh(s, row) && url.Some? == deadline.Some?
    ensures Inv(WebhookStep(s, t, key, row, command, url, deadline))
  {
    var s1 := Use(s, {t, row});
    UseKeeps(s, {t, row});
    UpsertKeeps(s1, key, row, url, deadline);
    var s2 := s1.(db := Upsert(s.db, key, row, url, deadline),
                  past := s1.past.(rows := if key in s.db.conversations then s.past.rows else s.past.rows[row := key]));
    var c := s2.db.conversations[key];
    assert ConversationKept(s2.past, s2.db.accounts, key, c);
    match Dispatch(key, c, command, url, deadline)
    case Some(pc) => GoKeeps(s2, t, pc);
    case None => EndKeeps(s2, t);
  }

  /** A fresh account leaves every reference to older accounts as it was. */
  lemma AccountAddedKeeps(s: State, account: Id, token: Id, h: Past)
    requires Inv(s) && Fresh(s, account) && Extends(s.past, h) && account in h.minted
    requires h.paired == s.past.paired && h.latest == s.past.latest && h.attached == s.past.attached
             && h.inbox == s.past.inbox
    requires Coherent(h) && AllOwn(h)
    ensures Inv(s.(db := s.db.(accounts := s.db.accounts[account := Account(token, RATE_LIMIT)]), past := h))
  {
    HistoryKeeps(s, h);
    var accounts := s.db.accounts[account := Account(token, RATE_LIMIT)];
    forall x | x in s.db.sessions ensures SessionKept(h, accounts, x, s.db.sessions[x]) {
      assert SessionKept(s.past, s.db.accounts, x, s.db.sessions[x]);
    }
    forall k | k in s.db.conversations ensures ConversationKept(h, accounts, k, s.db.conversations[k]) {
      assert ConversationKept(s.past, s.db.accounts, k, s.db.conversations[k]);
    }
  }

  /** History once the transaction on a session has committed. */
  function Recorded(h: Past, session: Id, account: Id, effective: bool): Past {
    h.(paired := if effective then h.paired[session := account] else h.paired, latest := h.latest[session := account])
  }

  /** The session's row then: MarkPaired if it was still pending, and the metadata either way. */
  function PairedRow(row: Session, account: Id, token: Id, key: Key, at: Time): Session {
    if row.status == PendingPairing
    then row.(status := SessionStatus.Paired, account := Some(account), key := Some(key), pairedAt := Some(at),
              expiresAt := SENTINEL, metadata := Some(token))
    else row.(metadata := Some(token))
  }

  lemma PairedRowKept(h: Past, accounts: map<Id, Account>, x: Id, row: Session, account: Id, token: Id, key: Key,
                      at: Time)
    requires SessionKept(h, accounts, x, row) && account in accounts && account in h.minted
    requires h.minted[account] == Mint(x, key, token)
    ensures SessionKept(Recorded(h, x, account, row.status == PendingPairing), accounts, x,
                        PairedRow(row, account, token, key, at))
  {
  }

  lemma RecordedKeeps(h: Past, x: Id, account: Id, effective: bool)
    requires Coherent(h) && AllOwn(h) && account in h.minted && h.minted[account].session == x && x in h.used
    requires effective ==> x !in h.paired
    ensures Coherent(Recorded(h, x, account, effective)) && AllOwn(Recorded(h, x, account, effective))
    ensures Extends(h, Recorded(h, x, account, effective))
  {
    OwnStays(h, Recorded(h, x, account, effective));
  }

  lemma CommittedIs(db: Db, session: Id, account: Id, token: Id, key: Key, at: Time)
    requires session in db.sessions && account in db.accounts
    ensures MarkPaired(db, session, account, key, at).Some?
    ensures UpdateMetadata(MarkPaired(db, session, account, key, at).value, session, token)
         == db.(sessions := db.sessions[session := PairedRow(db.sessions[session], account, token, key, at)])
  {
  }

  lemma PairKeeps(s: State, session: Id, account: Id, token: Id, key: Key, at: Time)
    requires Inv(s) && account in s.db.accounts && account in s.past.minted && session in s.db.sessions
    requires s.past.minted[account] == Mint(session, key, token)
    ensures Inv(s.(db := s.db.(sessions := s.db.sessions[session :=
                     PairedRow(s.db.sessions[session], account, token, key, at)]),
                   past := Recorded(s.past, session, account, Pairable(s.db, session))))
  {
    var h := Recorded(s.past, session, account, Pairable(s.db, session));
    var db := s.db.(sessions := s.db.sessions[session := PairedRow(s.db.sessions[session], account, token, key, at)]);
    PairedSessions(s.past, s.db, session, account, token, key, at);
    RecordedKeeps(s.past, session, account, Pairable(s.db, session));
    LinksKeep(s, h);
    ConversationsStay(s.past, h, s.db.accounts, s.db.conversations);
    RepliesIgnoreSessions(h, s.db, db);
  }

  lemma PairedSessions(h: Past, db: Db, session: Id, account: Id, token: Id, key: Key, at: Time)
    requires SessionsKept(h, db.accounts, db.sessions) && h.paired.Keys <= h.latest.Keys
    requires account in db.accounts && account in h.minted && session in db.sessions
             && h.minted[account] == Mint(session, key, token)
    ensures session in h.used && (Pairable(db, session) ==> session !in h.paired)
    ensures SessionsKept(Recorded(h, session, account, Pairable(db, session)), db.accounts,
                         db.sessions[session := PairedRow(db.sessions[session], account, token, key, at)])
  {
    assert SessionKept(h, db.accounts, session, db.sessions[session]);
    PairedRowKept(h, db.accounts, session, db.sessions[session], account, token, key, at);
    RecordedSessions(h, db.accounts, db.sessions, session, account, Pairable(db, session));
  }

  lemma RepliesIgnoreSessions(h: Past, db: Db, db': Db)
    requires RepliesKept(h, db) && db'.outbound == db.outbound && db'.inbound == db.inbound
             && db'.accounts == db.accounts
    ensures RepliesKept(h, db')
  {
    forall o | o in db'.outbound ensures OutboundKept(h, db', o, db'.outbound[o]) {
      assert OutboundKept(h, db, o, db.outbound[o]);
    }
  }

  lemma RecordedSessions(h: Past, accounts: map<Id, Account>, sessions: map<Id, Session>, session: Id, account: Id,
                         effective: bool)
    requires SessionsKept(h, accounts, sessions)
    ensures forall x :: x in sessions && x != session ==>
              SessionKept(Recorded(h, session, account, effective), accounts, x, sessions[x])
  {
    forall x | x in sessions && x != session
      ensures SessionKept(Recorded(h, session, account, effective), accounts, x, sessions[x])
    {
      assert SessionKept(h, accounts, x, sessions[x]);
    }
  }

  /** The account is minted for the thread's own session and key, whatever became of the session meanwhile. */
  lemma TransactKeeps(s: State, t: Id, account: Id, token: Id, at: Time)
    requires Inv(s) && At(s, t) && s.threads[t].Pairing? && Fresh(s, account)
    ensures Inv(TransactStep(s, t, account, token, at))
  {
    var pc := s.threads[t];
    if AccountTokenTaken(s.db, token) {
      EndKeeps(s, t);
    } else {
      var s1 := MintedState(s, account, token, pc.session, pc.key);
      MintKeeps(s, account, token, pc.session, pc.key);
      if pc.session in s.db.sessions {
        CommittedIs(s1.db, pc.session, account, token, pc.key, at);
        PairKeeps(s1, pc.session, account, token, pc.key, at);
        var s2 := s1.(
          db := s1.db.(sessions := s1.db.sessions[pc.session :=
                  PairedRow(s1.db.sessions[pc.session], account, token, pc.key, at)]),
          past := Recorded(s1.past, pc.session, account, Pairable(s1.db, pc.session)));
        GoKeeps(s2, t, Stamping(pc.key, pc.session, account));
        assert TransactStep(s, t, account, token, at) == Go(s2, t, Stamping(pc.key, pc.session, account));
      } else {
        GoKeeps(s1, t, Stamping(pc.key, pc.session, account));
        assert TransactStep(s, t, account, token, at) == Go(s1, t, Stamping(pc.key, pc.session, account));
      }
    }
  }

  function MintedState(s: State, account: Id, token: Id, session: Id, key: Key): State {
    s.(db := s.db.(accounts := s.db.accounts[account := Account(token, RATE_LIMIT)]),
       past := s.past.(used := s.past.used + {account}, minted := s.past.minted[account := Mint(session, key, token)]))
  }

  lemma MintHistory(h: Past, account: Id, mint: Mint)
    requires Coherent(h) && AllOwn(h) && account !in h.used
    ensures var h' := h.(used := h.used + {account}, minted := h.minted[account := mint]);
            Extends(h, h') && Coherent(h') && AllOwn(h')
  {
    OwnStays(h, h.(used := h.used + {account}, minted := h.minted[account := mint]));
  }

  lemma MintKeeps(s: State, account: Id, token: Id, session: Id, key: Key)
    requires Inv(s) && Fresh(s, account)
    ensures Inv(MintedState(s, account, token, session, key))
  {
    MintHistory(s.past, account, Mint(session, key, token));
    AccountAddedKeeps(s, account, token, MintedState(s, account, token, session, key).past);
  }

  lemma AttachedKeeps(s: State, key: Key, account: Id, at: Time)
    requires Inv(s) && key in s.db.conversations && account in s.db.accounts && MintedFor(s.past, account, key)
    ensures UpdateState(s.db, key, PairingState.Paired, Some(account), Some(at)).Some?
    ensures Inv(s.(db := UpdateState(s.db, key, PairingState.Paired, Some(account), Some(at)).value,
                   past := s.past.(attached := s.past.attached[s.db.conversations[key].row := account])))
  {
    var c := s.db.conversations[key];
    var h := s.past.(attached := s.past.attached[c.row := account]);
    var db := UpdateState(s.db, key, PairingState.Paired, Some(account), Some(at)).value;
    assert c.row in s.past.rows by { assert ConversationKept(s.past, s.db.accounts, key, c); }
    OwnStays(s.past, h);
    LinksKeep(s, h);
    SessionsStay(s.past, h, s.db.accounts, s.db.sessions);
    assert RepliesKept(h, db) by { RepliesIgnoreSessions(h, s.db, db); }
    AttachedConversations(s.past, s.db, key, account, at);
  }

  lemma AttachedConversations(h: Past, db: Db, key: Key, account: Id, at: Time)
    requires ConversationsKept(h, db.accounts, db.conversations)
    requires key in db.conversations && account in db.accounts && MintedFor(h, account, key)
    ensures ConversationsKept(h.(attached := h.attached[db.conversations[key].row := account]), db.accounts,
                              UpdateState(db, key, PairingState.Paired, Some(account), Some(at)).value.conversations)
  {
    var h' := h.(attached := h.attached[db.conversations[key].row := account]);
    var after := UpdateState(db, key, PairingState.Paired, Some(account), Some(at)).value.conversations;
    assert ConversationKept(h, db.accounts, key, db.conversations[key]);
    forall k | k in after ensures ConversationKept(h', db.accounts, k, after[k]) {
      assert ConversationKept(h, db.accounts, k, db.conversations[k]);
    }
  }

  lemma AttachKeeps(s: State, t: Id)
    requires Inv(s) && At(s, t) && s.threads[t].Attaching?
    ensures Inv(AttachStep(s, t))
  {
    var pc := s.threads[t];
    var next := Rereading(pc.key, pc.session);
    if pc.key !in s.db.conversations || pc.account !in s.db.accounts {
      GoKeeps(s, t, next);
    } else {
      AttachedKeeps(s, pc.key, pc.account, pc.at);
      GoKeeps(s.(db := UpdateState(s.db, pc.key, PairingState.Paired, Some(pc.account), Some(pc.at)).value,
                 past := s.past.(attached := s.past.attached[s.db.conversations[pc.key].row := pc.account])), t, next);
    }
  }

  lemma DetachKeeps(s: State, t: Id)
    requires Inv(s) && At(s, t) && s.threads[t].Unpairing?
    ensures Inv(DetachStep(s, t))
  {
    EndKeeps(s, t);
    var key := s.threads[t].key;
    if key in s.db.conversations { assert ConversationKept(s.past, s.db.accounts, key, s.db.conversations[key]); }
  }

  lemma EnqueuedKeeps(s: State, m: Id, row: Inbound)
    requires Inv(s) && Fresh(s, m) && row.account in s.db.accounts && MintedFor(s.past, row.account, row.key)
    requires row.status == Queued && row.deliveredAt == None && row.url.Some? == row.deadline.Some?
    ensures Inv(s.(db := s.db.(inbound := s.db.inbound[m := row]),
                   past := s.past.(used := s.past.used + {m}, inbox := s.past.inbox[m := Note(row.account, row.key)])))
  {
    var h := s.past.(used := s.past.used + {m}, inbox := s.past.inbox[m := Note(row.account, row.key)]);
    var db := s.db.(inbound := s.db.inbound[m := row]);
    EnqueuedHistory(s.past, m, row.account, row.key);
    ThreadsStay(s.past, h, s.threads);
    AddressedStays(s.past, h, s.posted);
    SessionsStay(s.past, h, s.db.accounts, s.db.sessions);
    ConversationsStay(s.past, h, s.db.accounts, s.db.conversations);
    EnqueuedRows(s.past, h, s.db, s.now, m, row);
  }

  lemma EnqueuedHistory(h: Past, m: Id, account: Id, key: Key)
    requires Coherent(h) && AllOwn(h) && MintedFor(h, account, key) && m !in h.used
    ensures var h' := h.(used := h.used + {m}, inbox := h.inbox[m := Note(account, key)]);
            Extends(h, h') && Coherent(h') && AllOwn(h')
  {
    OwnStays(h, h.(used := h.used + {m}, inbox := h.inbox[m := Note(account, key)]));
  }

  lemma EnqueuedRows(h: Past, h': Past, db: Db, now: Time, m: Id, row: Inbound)
    requires Extends(h, h') && MessagesKept(h, db.accounts, now, db.inbound) && RepliesKept(h, db)
    requires h'.inbox == h.inbox[m := Note(row.account, row.key)] && m !in h.inbox
    requires row.account in db.accounts && row.status == Queued && row.deliveredAt == None
             && row.url.Some? == row.deadline.Some?
    ensures MessagesKept(h', db.accounts, now, db.inbound[m := row])
            && RepliesKept(h', db.(inbound := db.inbound[m := row]))
  {
    forall i | i in db.inbound ensures InboundKept(h', db.accounts, now, i, db.inbound[i]) {
      assert InboundKept(h, db.accounts, now, i, db.inbound[i]);
    }
    var after := db.(inbound := db.inbound[m := row]);
    forall o | o in db.outbound ensures OutboundKept(h', after, o, db.outbound[o]) {
      assert OutboundKept(h, db, o, db.outbound[o]);
    }
  }

  lemma EnqueueKeeps(s: State, t: Id, message: Id)
    requires Inv(s) && At(s, t) && s.threads[t].Enqueueing? && Fresh(s, message)
    ensures Inv(EnqueueStep(s, t, message))
  {
    var pc := s.threads[t];
    if pc.account !in s.db.accounts {
      EndKeeps(s, t);
    } else {
      var row := Inbound(pc.account, pc.key, pc.url, pc.deadline, Queued, s.now, None);
      EnqueuedKeeps(s, message, row);
      GoKeeps(s.(db := s.db.(inbound := s.db.inbound[message := row]),
                 past := s.past.(used := s.past.used + {message},
                                 inbox := s.past.inbox[message := Note(pc.account, pc.key)])),
              t, Publishing(pc.key, pc.account, message));
    }
  }

  lemma PostKeeps(s: State, t: Id, posts: set<Posting>)
    requires Inv(s) && forall p :: p in posts ==> Addressed(s.past, p)
    ensures Inv(End(s.(posted := s.posted + posts), t))
  {
    EndKeeps(s, t);
  }

  lemma BearerKeeps(s: State, t: Id, session: Id, account: Id)
    requires Inv(s) && t in s.past.used && t !in s.past.bearers && PairedTo(s.past, session, account)
    ensures Inv(s.(past := s.past.(bearers := s.past.bearers[t := Login(session, account)])))
  {
    var h := s.past.(bearers := s.past.bearers[t := Login(session, account)]);
    OwnStays(s.past, h);
    HistoryKeeps(s, h);
  }

  lemma AuthenticateKeeps(s: State, t: Id, session: Id, request: Request)
    requires Inv(s) && Fresh(s, t) && session in s.db.sessions
    ensures Inv(AuthenticateStep(s, t, session, request))
  {
    var row := s.db.sessions[session];
    assert SessionKept(s.past, s.db.accounts, session, row);
    var s1 := Use(s, {t});
    UseKeeps(s, {t});
    if row.status == SessionStatus.Paired && row.account.Some? {
      var h := s1.past.(bearers := s1.past.bearers[t := Login(session, row.account.value)]);
      BearerKeeps(s1, t, session, row.account.value);
      GoKeeps(s1.(past := h), t, Linking(session, row.account.value, request));
    } else {
      WithoutAccountKeeps(s1, t, session, request);
    }
  }

  lemma WithoutAccountKeeps(s: State, t: Id, session: Id, request: Request)
    requires Inv(s) && t in s.past.used
    ensures Inv(WithoutAccount(s, t, session, request))
  {
    if request.Events? { GoKeeps(s, t, Streaming(SessionChannel(session))); } else { EndKeeps(s, t); }
  }

  lemma LinkKeeps(s: State, t: Id, ok: bool)
    requires Inv(s) && At(s, t) && s.threads[t].Linking?
    ensures Inv(LinkStep(s, t, ok))
  {
    var pc := s.threads[t];
    if !ok || pc.account !in s.db.accounts {
      WithoutAccountKeeps(s, t, pc.session, pc.request);
    } else if pc.request.Reply? {
      GoKeeps(s, t, Finding(pc.account, pc.request.message));
    } else {
      GoKeeps(s, t, Queueing(pc.account));
    }
  }

  lemma QueueKeeps(s: State, t: Id, rows: seq<Item>)
    requires Inv(s) && At(s, t) && s.threads[t].Queueing? && Selects(s.db, s.threads[t].account, rows)
    ensures Inv(Go(s, t, Draining(s.threads[t].account, rows)))
  {
    forall item | item in rows ensures Noted(s.past, item.id, s.threads[t].account, item.key) {
      assert InboundKept(s.past, s.db.accounts, s.now, item.id, s.db.inbound[item.id]);
    }
    GoKeeps(s, t, Draining(s.threads[t].account, rows));
  }

  lemma WroteOwn(h: Past, w: Written)
    requires Coherent(h) && AllOwn(h) && Own(h.bearers, h.inbox, w)
    ensures var h' := h.(written := h.written + {w}); Extends(h, h') && Coherent(h') && AllOwn(h')
  {
    var h' := h.(written := h.written + {w});
    forall v | v in h'.written ensures Own(h.bearers, h.inbox, v) {}
  }

  lemma WroteKeeps(s: State, t: Id, event: Event)
    requires Inv(s) && Own(s.past.bearers, s.past.inbox, Written(t, event))
    ensures Inv(Wrote(s, t, event))
  {
    WroteOwn(s.past, Written(t, event));
    HistoryKeeps(s, Wrote(s, t, event).past);
  }

  lemma WriteKeeps(s: State, t: Id)
    requires Inv(s) && At(s, t) && s.threads[t].Draining? && s.threads[t].rest != []
    ensures Inv(WriteStep(s, t))
  {
    var pc := s.threads[t];
    var item := pc.rest[0];
    assert Noted(s.past, item.id, pc.account, item.key);
    WroteKeeps(s, t, Message(item.id, item.key));
    GoKeeps(Wrote(s, t, Message(item.id, item.key)), t, Marking(pc.account, pc.rest));
  }

  function Delivering(h: Past, message: Id, t: Id): Past {
    h.(delivered := if message in h.delivered then h.delivered else h.delivered[message := t])
  }

  lemma DeliveringOwn(h: Past, message: Id, t: Id)
    requires Coherent(h) && AllOwn(h) && WrittenTo(h, t, message) && BearerOf(h, t, h.inbox[message].account)
    ensures Extends(h, Delivering(h, message, t)) && Coherent(Delivering(h, message, t))
            && AllOwn(Delivering(h, message, t))
  {
    var h' := Delivering(h, message, t);
    forall w | w in h'.written ensures Own(h'.bearers, h'.inbox, w) { assert Own(h.bearers, h.inbox, w); }
  }

  lemma MarkedKeeps(s: State, t: Id, message: Id, account: Id, at: Time)
    requires Inv(s) && message in s.past.inbox && s.past.inbox[message].account == account
    requires BearerOf(s.past, t, account) && WrittenTo(s.past, t, message)
    ensures Inv(s.(db := MarkDelivered(s.db, message, at), past := Delivering(s.past, message, t)))
  {
    var h := Delivering(s.past, message, t);
    DeliveringOwn(s.past, message, t);
    HistoryKeeps(s, h);
    MarkedRows(h, s.db, s.now, message, at);
  }

  lemma MarkedRows(h: Past, db: Db, now: Time, message: Id, at: Time)
    requires MessagesKept(h, db.accounts, now, db.inbound) && RepliesKept(h, db) && message in h.delivered
    ensures MessagesKept(h, db.accounts, now, MarkDelivered(db, message, at).inbound)
    ensures RepliesKept(h, MarkDelivered(db, message, at))
  {
    var after := MarkDelivered(db, message, at);
    forall m | m in after.inbound ensures InboundKept(h, after.accounts, now, m, after.inbound[m]) {
      assert InboundKept(h, db.accounts, now, m, db.inbound[m]);
    }
    forall o | o in after.outbound ensures OutboundKept(h, after, o, after.outbound[o]) {
      assert OutboundKept(h, db, o, db.outbound[o]);
    }
  }

  lemma MarkKeeps(s: State, t: Id, ok: bool, at: Time)
    requires Inv(s) && At(s, t) && s.threads[t].Marking? && s.threads[t].rest != []
    ensures Inv(MarkStep(s, t, ok, at))
  {
    var pc := s.threads[t];
    var s1 := Go(s, t, Draining(pc.account, pc.rest[1..]));
    HeldRest(s.past, t, pc.account, pc.rest);
    GoKeeps(s, t, Draining(pc.account, pc.rest[1..]));
    if ok {
      MarkedKeeps(s1, t, pc.rest[0].id, pc.account, at);
      assert MarkStep(s, t, ok, at) == s1.(db := MarkDelivered(s1.db, pc.rest[0].id, at),
                                           past := Delivering(s1.past, pc.rest[0].id, t));
    } else {
      assert MarkStep(s, t, ok, at) == s1;
    }
  }

  lemma HeldRest(h: Past, t: Id, account: Id, rest: seq<Item>)
    requires Held(h, t, Marking(account, rest)) && rest != []
    ensures Held(h, t, Draining(account, rest[1..]))
    ensures BearerOf(h, t, account) && WrittenTo(h, t, rest[0].id) && Noted(h, rest[0].id, account, rest[0].key)
  {
  }

  lemma DeliverKeeps(s: State, t: Id, event: Event)
    requires Inv(s) && At(s, t) && s.threads[t].Streaming? && Posting(s.threads[t].channel, event) in s.posted
    ensures Inv(Wrote(s, t, event))
  {
    assert Addressed(s.past, Posting(s.threads[t].channel, event));
    WroteKeeps(s, t, event);
  }

  lemma FindKeeps(s: State, t: Id, at: Time)
    requires Inv(s) && At(s, t) && s.threads[t].Finding?
    ensures Inv(FindStep(s, t, at))
  {
    var pc := s.threads[t];
    EndKeeps(s, t);
    if pc.message in s.db.inbound && s.db.inbound[pc.message].account == pc.account
       && Answerable(s.db.inbound[pc.message], at) {
      assert InboundKept(s.past, s.db.accounts, s.now, pc.message, s.db.inbound[pc.message]);
      GoKeeps(s, t, Replying(pc.account, pc.message, s.db.inbound[pc.message].key));
    }
  }

  lemma AnsweredKeeps(s: State, outbound: Id, account: Id, message: Id, key: Key)
    requires Inv(s) && Noted(s.past, message, account, key) && outbound in s.past.used && outbound !in s.db.outbound
    requires account in s.db.accounts && message in s.db.inbound
    requires forall u :: u in s.threads && s.threads[u].Calling? ==> s.threads[u].outbound != outbound
    ensures CreateOutbound(s.db, outbound, account, message, key).Some?
    ensures Inv(s.(db := CreateOutbound(s.db, outbound, account, message, key).value))
  {
    var db := CreateOutbound(s.db, outbound, account, message, key).value;
    forall o | o in db.outbound ensures OutboundKept(s.past, db, o, db.outbound[o]) {
      if o != outbound { assert OutboundKept(s.past, s.db, o, s.db.outbound[o]); }
    }
  }

  lemma GoCallingKeeps(s: State, t: Id, outbound: Id)
    requires Inv(s) && t in s.past.used && outbound in s.past.used
    requires outbound in s.db.outbound ==> s.db.outbound[outbound].status == OutboundStatus.Pending
    requires forall u :: u in s.threads && s.threads[u].Calling? ==> s.threads[u].outbound != outbound
    ensures Inv(Go(s, t, Calling(outbound)))
  {
  }

  lemma FreshOutbound(s: State, outbound: Id)
    requires Inv(s) && Fresh(s, outbound)
    ensures outbound !in s.db.outbound
    ensures forall u :: u in s.threads && s.threads[u].Calling? ==> s.threads[u].outbound != outbound
  {
    assert outbound in s.db.outbound ==> OutboundKept(s.past, s.db, outbound, s.db.outbound[outbound]);
    forall u | u in s.threads && s.threads[u].Calling? ensures s.threads[u].outbound != outbound {
      assert Held(s.past, u, s.threads[u]);
    }
  }

  lemma AnswerKeeps(s: State, t: Id, outbound: Id)
    requires Inv(s) && At(s, t) && s.threads[t].Replying? && Fresh(s, outbound)
    ensures Inv(AnswerStep(s, t, outbound))
  {
    var pc := s.threads[t];
    if pc.account !in s.db.accounts || pc.message !in s.db.inbound {
      EndKeeps(s, t);
    } else {
      assert Noted(s.past, pc.message, pc.account, pc.key) by { assert Held(s.past, t, pc); }
      FreshOutbound(s, outbound);
      UseKeeps(s, {outbound});
      var s1 := Use(s, {outbound});
      AnsweredKeeps(s1, outbound, pc.account, pc.message, pc.key);
      GoCallingKeeps(s1.(db := CreateOutbound(s.db, outbound, pc.account, pc.message, pc.key).value), t, outbound);
    }
  }

  lemma StatusSetReplies(h: Past, db: Db, o: Id, row: Outbound)
    requires RepliesKept(h, db) && o in db.outbound
    requires row.account == db.outbound[o].account && row.inbound == db.outbound[o].inbound
             && row.key == db.outbound[o].key
    ensures RepliesKept(h, db.(outbound := db.outbound[o := row]))
  {
    var outbound := db.outbound[o := row];
    forall p | p in outbound ensures OutboundKept(h, db, p, outbound[p]) {
      assert OutboundKept(h, db, p, db.outbound[p]);
    }
  }

  lemma StatusSetKeeps(s: State, o: Id, status: OutboundStatus, sentAt: Option<Time>)
    requires Inv(s) && o in s.db.outbound && forall u :: u in s.threads ==> s.threads[u] != Calling(o)
    ensures Inv(s.(db := s.db.(outbound := s.db.outbound[o := s.db.outbound[o].(status := status, sentAt := sentAt)])))
  {
    StatusSetReplies(s.past, s.db, o, s.db.outbound[o].(status := status, sentAt := sentAt));
  }

  lemma CalledKeeps(s: State, t: Id, ok: bool, at: Time)
    requires Inv(s) && At(s, t) && s.threads[t].Calling?
    ensures Inv(CalledStep(s, t, ok, at))
  {
    EndKeeps(s, t);
    var o := s.threads[t].outbound;
    if o in s.db.outbound {
      if ok { StatusSetKeeps(End(s, t), o, Sent, Some(at)); }
      else { StatusSetKeeps(End(s, t), o, Failed, s.db.outbound[o].sentAt); }
    }
  }

  /** The cascade leaves no row of the account, and no other row refers to what it removed. */
  lemma RemoveAccountMessages(s: State, account: Id)
    requires Inv(s)
    ensures var db := DeleteAccount(s.db, account);
            MessagesKept(s.past, db.accounts, s.now, db.inbound) && RepliesKept(s.past, db)
  {
    var db := DeleteAccount(s.db, account);
    forall m | m in s.db.inbound ensures InboundKept(s.past, s.db.accounts, s.now, m, s.db.inbound[m]) {}
    forall m | m in db.inbound ensures InboundKept(s.past, db.accounts, s.now, m, db.inbound[m]) {}
    forall o | o in db.outbound ensures OutboundKept(s.past, db, o, db.outbound[o]) {
      assert OutboundKept(s.past, s.db, o, s.db.outbound[o]);
    }
  }

  lemma RemoveAccountReferences(s: State, account: Id)
    requires Inv(s)
    ensures var db := DeleteAccount(s.db, account);
            SessionsKept(s.past, db.accounts, db.sessions) && ConversationsKept(s.past, db.accounts, db.conversations)
  {
    var db := DeleteAccount(s.db, account);
    forall x | x in db.sessions ensures SessionKept(s.past, db.accounts, x, db.sessions[x]) {
      assert SessionKept(s.past, s.db.accounts, x, s.db.sessions[x]);
    }
    forall k | k in db.conversations ensures ConversationKept(s.past, db.accounts, k, db.conversations[k]) {
      assert ConversationKept(s.past, s.db.accounts, k, s.db.conversations[k]);
    }
  }

  lemma RemoveAccountKeeps(s: State, account: Id)
    requires Inv(s)
    ensures Inv(s.(db := DeleteAccount(s.db, account)))
  {
    RemoveAccountReferences(s, account);
    RemoveAccountMessages(s, account);
  }

  lemma RegenerateKeeps(s: State, account: Id, token: Id)
    requires Inv(s)
    ensures UpdateToken(s.db, account, token).Some? ==> Inv(s.(db := UpdateToken(s.db, account, token).value))
  {
  }

  lemma RemoveSessionKeeps(s: State, session: Id)
    requires Inv(s)
    ensures Inv(s.(db := DeleteSession(s.db, session)))
  {
  }

  lemma ExpireSessionsKeeps(s: State)
    requires Inv(s)
    ensures Inv(s.(db := DeleteExpired(s.db, s.now)))
  {
  }

  lemma RemoveConversationKeeps(s: State, row: Id)
    requires Inv(s)
    ensures Inv(s.(db := DeleteConversation(s.db, row)))
  {
  }

  lemma ExpireMessagesKeeps(s: State)
    requires Inv(s)
    ensures Inv(s.(db := MarkExpired(s.db, s.now)))
  {
    var db := MarkExpired(s.db, s.now);
    forall m | m in db.inbound ensures InboundKept(s.past, db.accounts, s.now, m, db.inbound[m]) {
      assert InboundKept(s.past, s.db.accounts, s.now, m, s.db.inbound[m]);
    }
  }

  lemma TickKeeps(s: State, d: nat)
    requires Inv(s)
    ensures Inv(s.(now := s.now + d))
  {
    forall m | m in s.db.inbound ensures InboundKept(s.past, s.db.accounts, s.now + d, m, s.db.inbound[m]) {
      assert InboundKept(s.past, s.db.accounts, s.now, m, s.db.inbound[m]);
    }
  }

  lemma RereadKeeps(s: State, t: Id)
    requires Inv(s) && At(s, t) && s.threads[t].Rereading?
    ensures Inv(RereadStep(s, t))
  {
    var pc := s.threads[t];
    EndKeeps(s, t);
    if pc.session in s.db.sessions && s.db.sessions[pc.session].account.Some? {
      GoKeeps(s, t, Announcing(pc.key, pc.session, s.db.sessions[pc.session].account.value));
    }
  }

  lemma AnnounceKeeps(s: State, t: Id)
    requires Inv(s) && At(s, t) && s.threads[t].Announcing?
    ensures Inv(AnnounceStep(s, t))
  {
    var pc := s.threads[t];
    var event := PairingComplete(pc.key);
    PostKeeps(s, t, {Posting(SessionChannel(pc.session), event), Posting(AccountChannel(pc.account), event)});
  }

  lemma PublishKeeps(s: State, t: Id)
    requires Inv(s) && At(s, t) && s.threads[t].Publishing?
    ensures Inv(PublishStep(s, t))
  {
    var pc := s.threads[t];
    PostKeeps(s, t, {Posting(AccountChannel(pc.account), Message(pc.message, pc.key))});
  }

  lemma HookKeeps(s: State, step: HookStep)
    requires Inv(s) && HookEnabled(s, step)
    ensures Inv(ApplyHook(s, step))
  {
    match step
    case Webhook(t, key, row, command, url, deadline) => WebhookKeeps(s, t, key, row, command, url, deadline);
    case Look(t, found) =>
      if found.Some? { GoKeeps(s, t, Pairing(s.threads[t].key, found.value)); } else { EndKeeps(s, t); }
    case Transact(t, account, token, at) => TransactKeeps(s, t, account, token, at);
    case Stamp(t, at) => GoKeeps(s, t, Attaching(s.threads[t].key, s.threads[t].session, s.threads[t].account, at));
    case Attach(t) => AttachKeeps(s, t);
    case AttachFails(t) => GoKeeps(s, t, Rereading(s.threads[t].key, s.threads[t].session));
    case Reread(t) => RereadKeeps(s, t);
    case Announce(t) => AnnounceKeeps(s, t);
    case Detach(t) => DetachKeeps(s, t);
    case Enqueue(t, message) => EnqueueKeeps(s, t, message);
    case Publish(t) => PublishKeeps(s, t);
  }

  lemma BearerStepKeeps(s: State, step: BearerStep)
    requires Inv(s) && BearerEnabled(s, step)
    ensures Inv(ApplyBearer(s, step))
  {
    match step
    case Authenticate(t, _, session, request) => AuthenticateKeeps(s, t, session, request);
    case Link(t, ok) => LinkKeeps(s, t, ok);
    case Queue(t, rows) => QueueKeeps(s, t, rows);
    case Write(t) => WriteKeeps(s, t);
    case Mark(t, ok, at) => MarkKeeps(s, t, ok, at);
    case Drained(t) => GoKeeps(s, t, Streaming(AccountChannel(s.threads[t].account)));
    case Deliver(t, event) => DeliverKeeps(s, t, event);
    case Find(t, at) => FindKeeps(s, t, at);
    case Answer(t, outbound) => AnswerKeeps(s, t, outbound);
    case Called(t, ok, at) => CalledKeeps(s, t, ok, at);
  }

  lemma OtherKeeps(s: State, step: OtherStep)
    requires Inv(s) && OtherEnabled(s, step)
    ensures Inv(ApplyOther(s, step))
  {
    match step
    case Tick(d) => TickKeeps(s, d);
    case Create(session, token, code, expiresAt) => CreateKeeps(s, session, token, code, expiresAt);
    case Status(t, session, _) => UseKeeps(s, {t}); GoKeeps(Use(s, {t}), t, Expiring(session));
    case ExpireStatus(t) =>
      SetStatusKeeps(s, s.threads[t].session, SessionStatus.Expired);
      EndKeeps(s.(db := SetStatus(s.db, s.threads[t].session, SessionStatus.Expired)), t);
    case Abandon(t) => EndKeeps(s, t);
    case RemoveAccount(account) => RemoveAccountKeeps(s, account);
    case Regenerate(account, token) => RegenerateKeeps(s, account, token);
    case Disconnect(session) => SetStatusKeeps(s, session, Disconnected);
    case RemoveSession(session) => RemoveSessionKeeps(s, session);
    case RemoveConversation(row) => RemoveConversationKeeps(s, row);
    case ExpireMessages => ExpireMessagesKeeps(s);
    case ExpireSessions => ExpireSessionsKeeps(s);
  }

  lemma StepKeeps(s: State, step: Step)
    requires Inv(s) && Enabled(s, step)
    ensures Inv(Apply(s, step))
  {
    match step
    case Hook(hook) => HookKeeps(s, hook);
    case Bearer(bearer) => BearerStepKeeps(s, bearer);
    case Other(other) => OtherKeeps(s, other);
  }

  /** In every state of every run the invariant holds. */
  lemma {:induction false} RunKeeps(steps: seq<Step>)
    ensures Run(steps).Some? ==> Inv(Run(steps).value)
  {
    if steps != [] {
      var before := steps[..|steps| - 1];
      RunKeeps(before);
      if Run(steps).Some? { StepKeeps(Run(before).value, steps[|steps| - 1]); }
    }
  }
}
