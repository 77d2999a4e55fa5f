/**
 The five Postgres tables as values, and one function per SQL statement of the repositories. A
 statement that a constraint of the schema can refuse returns None then, and the tables stay.
 Ids, token hashes, pairing codes, conversation keys and callback URLs are numbers: only their
 equality matters here (module Codec has the text of codes and keys).
 */
module Tables {
  import opened Wrappers

  type Key = nat
  type Time = nat   // milliseconds

  /** 9999-12-31 23:59:59 UTC, the expiry of a paired session. */
  const SENTINEL: Time := 253402300799000
  const RATE_LIMIT: nat := 60

  datatype SessionStatus = PendingPairing | Paired | Expired | Disconnected
  datatype PairingState = Unpaired | Pending | Paired | Blocked
  datatype InboundStatus = Queued | Delivered | Expired | Acked
  datatype OutboundStatus = Pending | Sent | Failed

  datatype Account = Account(tokenHash: Id, rateLimit: nat)

  datatype Session = Session(tokenHash: Id, code: Id, status: SessionStatus, account: Option<Id>, key: Option<Key>,
                             metadata: Option<Id>, expiresAt: Time, pairedAt: Option<Time>)

  datatype Conversation = Conversation(row: Id, account: Option<Id>, state: PairingState,
                                       url: Option<Id>, deadline: Option<Time>, pairedAt: Option<Time>)

  datatype Inbound = Inbound(account: Id, key: Key, url: Option<Id>, deadline: Option<Time>, status: InboundStatus,
                             createdAt: Time, deliveredAt: Option<Time>)

  datatype Outbound = Outbound(account: Id, inbound: Option<Id>, key: Key, status: OutboundStatus, sentAt: Option<Time>)

  datatype Db = Db(accounts: map<Id, Account>, sessions: map<Id, Session>, conversations: map<Key, Conversation>,
                   inbound: map<Id, Inbound>, outbound: map<Id, Outbound>)

  const EMPTY: Db := Db(map[], map[], map[], map[], map[])

  // ---------- accounts ----------

  predicate AccountTokenTaken(db: Db, tokenHash: Id) {
    exists a :: a in db.accounts && db.accounts[a].tokenHash == tokenHash
  }

  function CreateAccount(db: Db, id: Id, tokenHash: Id): Option<Db> {
    if AccountTokenTaken(db, tokenHash) then None
    else Some(db.(accounts := db.accounts[id := Account(tokenHash, RATE_LIMIT)]))
  }

  function UpdateToken(db: Db, id: Id, tokenHash: Id): Option<Db> {
    if id !in db.accounts then Some(db)
    else if exists a :: a in db.accounts && a != id && db.accounts[a].tokenHash == tokenHash then None
    else Some(db.(accounts := db.accounts[id := db.accounts[id].(tokenHash := tokenHash)]))
  }

  /** ON DELETE SET NULL and ON DELETE CASCADE, as the schema has them. */
  function DeleteAccount(db: Db, id: Id): Db {
    Db(db.accounts - {id},
       map x | x in db.sessions :: Unlinked(db.sessions[x], id),
       map k | k in db.conversations :: Detached(db.conversations[k], id),
       map m | m in db.inbound && db.inbound[m].account != id :: db.inbound[m],
       map o | o in db.outbound && db.outbound[o].account != id :: Unreferenced(db, db.outbound[o], id))
  }

  function Unlinked(session: Session, account: Id): Session {
    if session.account == Some(account) then session.(account := None) else session
  }

  function Detached(conversation: Conversation, account: Id): Conversation {
    if conversation.account == Some(account) then conversation.(account := None) else conversation
  }

  function Unreferenced(db: Db, outbound: Outbound, account: Id): Outbound {
    match outbound.inbound
    case Some(m) =>
      if m in db.inbound && db.inbound[m].account == account then outbound.(inbound := None) else outbound
    case None => outbound
  }

  // ---------- sessions ----------

  predicate SessionTaken(db: Db, tokenHash: Id, code: Id) {
    exists x :: x in db.sessions && (db.sessions[x].tokenHash == tokenHash || db.sessions[x].code == code)
  }

  function CreateSession(db: Db, id: Id, tokenHash: Id, code: Id, expiresAt: Time): Option<Db> {
    if SessionTaken(db, tokenHash, code) then None
    else
      var row := Session(tokenHash, code, PendingPairing, None, None, None, expiresAt, None);
      Some(db.(sessions := db.sessions[id := row]))
  }

  /** The row a pairing code stands for at time `now`. */
  predicate CodeFinds(db: Db, now: Time, code: Id, x: Id) {
    && x in db.sessions && db.sessions[x].code == code
    && db.sessions[x].status == PendingPairing && db.sessions[x].expiresAt > now
  }

  predicate TokenFinds(db: Db, tokenHash: Id, x: Id) {
    && x in db.sessions && db.sessions[x].tokenHash == tokenHash
    && db.sessions[x].status in {PendingPairing, SessionStatus.Paired}
  }

  /** Whether MarkPaired's WHERE clause selects the row. */
  predicate Pairable(db: Db, id: Id) {
    id in db.sessions && db.sessions[id].status == PendingPairing
  }

  function MarkPaired(db: Db, id: Id, account: Id, key: Key, at: Time): Option<Db> {
    if !Pairable(db, id) then Some(db)
    else if account !in db.accounts then None
    else
      Some(db.(sessions := db.sessions[id := db.sessions[id].(
        status := SessionStatus.Paired, account := Some(account), key := Some(key), pairedAt := Some(at),
        expiresAt := SENTINEL)]))
  }

  function UpdateMetadata(db: Db, id: Id, token: Id): Db {
    if id in db.sessions then db.(sessions := db.sessions[id := db.sessions[id].(metadata := Some(token))]) else db
  }

  function SetStatus(db: Db, id: Id, status: SessionStatus): Db {
    if id in db.sessions then db.(sessions := db.sessions[id := db.sessions[id].(status := status)]) else db
  }

  predicate Stale(session: Session, now: Time) {
    || (session.status == PendingPairing && session.expiresAt < now)
    || session.status in {SessionStatus.Expired, Disconnected}
  }

  function DeleteExpired(db: Db, now: Time): Db {
    db.(sessions := map x | x in db.sessions && !Stale(db.sessions[x], now) :: db.sessions[x])
  }

  function DeleteSession(db: Db, id: Id): Db {
    db.(sessions := db.sessions - {id})
  }

  // ---------- conversations ----------

  /** `row` is the id of the row should the key be new. */
  function Upsert(db: Db, key: Key, row: Id, url: Option<Id>, deadline: Option<Time>): Db {
    db.(conversations := db.conversations[key :=
      if key in db.conversations then db.conversations[key].(url := url, deadline := deadline)
      else Conversation(row, None, Unpaired, url, deadline, None)])
  }

  function Coalesce<T>(first: Option<T>, second: Option<T>): Option<T> {
    if first.Some? then first else second
  }

  function UpdateState(db: Db, key: Key, state: PairingState, account: Option<Id>, at: Option<Time>): Option<Db> {
    if key !in db.conversations then Some(db)
    else if account.Some? && account.value !in db.accounts then None
    else
      var c := db.conversations[key];
      Some(db.(conversations := db.conversations[key :=
        c.(state := state, account := account, pairedAt := Coalesce(at, c.pairedAt))]))
  }

  function DeleteConversation(db: Db, row: Id): Db {
    db.(conversations := map k | k in db.conversations && db.conversations[k].row != row :: db.conversations[k])
  }

  // ---------- messages ----------

  function CreateInbound(db: Db, id: Id, account: Id, key: Key, url: Option<Id>, deadline: Option<Time>,
                         now: Time): Option<Db>
  {
    if account !in db.accounts then None
    else Some(db.(inbound := db.inbound[id := Inbound(account, key, url, deadline, Queued, now, None)]))
  }

  function MarkDelivered(db: Db, id: Id, at: Time): Db {
    if id in db.inbound
    then db.(inbound := db.inbound[id := db.inbound[id].(status := Delivered, deliveredAt := Some(at))])
    else db
  }

  /** A queued message whose callback can no longer be used. */
  predicate Overdue(m: Inbound, now: Time) {
    m.status == Queued && m.deadline.Some? && m.deadline.value < now
  }

  function Lapsed(m: Inbound, now: Time): Inbound {
    if Overdue(m, now) then m.(status := InboundStatus.Expired) else m
  }

  function MarkExpired(db: Db, now: Time): Db {
    db.(inbound := map m | m in db.inbound :: Lapsed(db.inbound[m], now))
  }

  /** Reply's test of the callback, against the clock reading `at`. */
  predicate Answerable(m: Inbound, at: Time) {
    m.url.Some? && (m.deadline.None? || m.deadline.value > at)
  }

  function CreateOutbound(db: Db, id: Id, account: Id, inbound: Id, key: Key): Option<Db> {
    if account !in db.accounts || inbound !in db.inbound then None
    else Some(db.(outbound := db.outbound[id := Outbound(account, Some(inbound), key, OutboundStatus.Pending, None)]))
  }

  function MarkSent(db: Db, id: Id, at: Time): Db {
    if id in db.outbound
    then db.(outbound := db.outbound[id := db.outbound[id].(status := Sent, sentAt := Some(at))])
    else db
  }

  function MarkFailed(db: Db, id: Id): Db {
    if id in db.outbound then db.(outbound := db.outbound[id := db.outbound[id].(status := Failed)]) else db
  }
}
