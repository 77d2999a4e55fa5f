/**
 The pairing and relay protocol as a step system. A step is one SQL statement, one transaction, one
 publish or one write to a stream; a request is a thread whose program counter holds what it has read
 so far, and other steps run in between. `Past` is history only: no step's effect on the tables,
 the threads or the channels depends on it, except that ids and threads are fresh.
 */
module Protocol {
  import opened Wrappers
  import opened Tables

  /** What travels on a channel and is written to streams. */
  datatype Event = Message(id: Id, key: Key) | PairingComplete(key: Key)
  datatype Channel = AccountChannel(account: Id) | SessionChannel(session: Id)
  datatype Posting = Posting(channel: Channel, event: Event)
  datatype Written = Written(stream: Id, event: Event)

  /** What a chat line asks for; /status, /help and a malformed command only read. */
  datatype Command = Pair(code: Id) | Unpair | Chat | Idle

  /** What a bearer of a session token asks for. */
  datatype Request = Events | Reply(message: Id)

  /** One row of the drain's snapshot. */
  datatype Item = Item(id: Id, key: Key)

  /** Where a request is, with its local variables. */
  datatype Pc =
    | Expiring(session: Id)
    | Looking(key: Key, code: Id)
    | Pairing(key: Key, session: Id)
    | Stamping(key: Key, session: Id, account: Id)
    | Attaching(key: Key, session: Id, account: Id, at: Time)
    | Rereading(key: Key, session: Id)
    | Announcing(key: Key, session: Id, account: Id)
    | Unpairing(key: Key)
    | Enqueueing(key: Key, account: Id, url: Option<Id>, deadline: Option<Time>)
    | Publishing(key: Key, account: Id, message: Id)
    | Linking(session: Id, account: Id, request: Request)
    | Queueing(account: Id)
    | Draining(account: Id, rest: seq<Item>)
    | Marking(account: Id, rest: seq<Item>)
    | Streaming(channel: Channel)
    | Finding(account: Id, message: Id)
    | Replying(account: Id, message: Id, key: Key)
    | Calling(outbound: Id)

  /** The /pair that made an account. */
  datatype Mint = Mint(session: Id, key: Key, token: Id)
  datatype Login = Login(session: Id, account: Id)
  datatype Note = Note(account: Id, key: Key)

  datatype Past = Past(
    used: set<Id>,               // every id and thread ever made
    minted: map<Id, Mint>,       // account -> the /pair that made it
    paired: map<Id, Id>,         // session -> the account of the MarkPaired that took effect
    latest: map<Id, Id>,         // session -> the account of the last transaction on the row
    rows: map<Id, Key>,          // conversation row -> its key
    attached: map<Id, Id>,       // conversation row -> the account last attached to it
    inbox: map<Id, Note>,        // inbound message -> its account and key
    bearers: map<Id, Login>,     // request -> the session its token named, and that session's account
    written: set<Written>,       // events written in full
    delivered: map<Id, Id>       // inbound message -> the stream whose loop marked it first
  )

  datatype State = State(now: Time, db: Db, threads: map<Id, Pc>, posted: set<Posting>, past: Past)

  const START: State := State(0, EMPTY, map[], {}, Past({}, map[], map[], map[], map[], map[], map[], map[], {}, map[]))

  /** The steps of a webhook request. */
  datatype HookStep =
    | Webhook(t: Id, key: Key, row: Id, command: Command, url: Option<Id>, deadline: Option<Time>)
    | Look(t: Id, found: Option<Id>)
    | Transact(t: Id, account: Id, token: Id, at: Time)
    | Stamp(t: Id, at: Time)
    | Attach(t: Id)
    | AttachFails(t: Id)
    | Reread(t: Id)
    | Announce(t: Id)
    | Detach(t: Id)
    | Enqueue(t: Id, message: Id)
    | Publish(t: Id)

  /** The steps of a request that carries a session token. */
  datatype BearerStep =
    | Authenticate(t: Id, token: Id, session: Id, request: Request)
    | Link(t: Id, ok: bool)
    | Queue(t: Id, rows: seq<Item>)
    | Write(t: Id)
    | Mark(t: Id, ok: bool, at: Time)
    | Drained(t: Id)
    | Deliver(t: Id, event: Event)
    | Find(t: Id, at: Time)
    | Answer(t: Id, outbound: Id)
    | Called(t: Id, ok: bool, at: Time)

  /** The clock, session creation and status, crashes, the dashboard and the cleanup job. */
  datatype OtherStep =
    | Tick(d: nat)
    | Create(session: Id, token: Id, code: Id, expiresAt: Time)
    | Status(t: Id, session: Id, at: Time)
    | ExpireStatus(t: Id)
    | Abandon(t: Id)
    | RemoveAccount(account: Id)
    | Regenerate(account: Id, token: Id)
    | Disconnect(session: Id)
    | RemoveSession(session: Id)
    | RemoveConversation(row: Id)
    | ExpireMessages
    | ExpireSessions

  datatype Step = Hook(hook: HookStep) | Bearer(bearer: BearerStep) | Other(other: OtherStep)

  // ---------- moving threads ----------

  function Go(s: State, t: Id, pc: Pc): State {
    s.(threads := s.threads[t := pc])
  }

  function End(s: State, t: Id): State {
    s.(threads := s.threads - {t})
  }

  function GoOrEnd(s: State, t: Id, pc: Option<Pc>): State {
    match pc
    case Some(next) => Go(s, t, next)
    case None => End(s, t)
  }

  function Use(s: State, ids: set<Id>): State {
    s.(past := s.past.(used := s.past.used + ids))
  }

  predicate Fresh(s: State, id: Id) {
    id !in s.past.used
  }

  predicate At(s: State, t: Id) {
    t in s.threads
  }

  // ---------- sessions ----------

  function CreateStep(s: State, session: Id, token: Id, code: Id, expiresAt: Time): State {
    match CreateSession(s.db, session, token, code, expiresAt)
    case Some(db) => Use(s.(db := db), {session})
    case None => s
  }

  /** GetStatus reads a pending row whose time is past by its own clock, and then writes. */
  predicate StatusEnabled(s: State, t: Id, session: Id, at: Time) {
    && Fresh(s, t) && session in s.db.sessions
    && s.db.sessions[session].status == PendingPairing && at > s.db.sessions[session].expiresAt
  }

  // ---------- the webhook ----------

  /** What the handler does next with the row the upsert returned. */
  function Dispatch(key: Key, c: Conversation, command: Command, url: Option<Id>, deadline: Option<Time>): Option<Pc> {
    match command
    case Pair(code) => if c.state == PairingState.Paired then None else Some(Looking(key, code))
    case Unpair => if c.state != PairingState.Paired then None else Some(Unpairing(key))
    case Chat =>
      if c.state != PairingState.Paired || c.account.None? then None
      else Some(Enqueueing(key, c.account.value, url, deadline))
    case Idle => None
  }

  function WebhookStep(s: State, t: Id, key: Key, row: Id, command: Command, url: Option<Id>,
                       deadline: Option<Time>): State
  {
    var db := Upsert(s.db, key, row, url, deadline);
    var past := s.past.(used := s.past.used + {t, row},
                        rows := if key in s.db.conversations then s.past.rows else s.past.rows[row := key]);
    GoOrEnd(s.(db := db, past := past), t, Dispatch(key, db.conversations[key], command, url, deadline))
  }

  /** Account, MarkPaired and metadata in one transaction; a taken token rolls it all back. */
  function TransactStep(s: State, t: Id, account: Id, token: Id, at: Time): State
    requires At(s, t) && s.threads[t].Pairing?
  {
    var pc := s.threads[t];
    match Committed(s.db, pc.session, account, token, pc.key, at)
    case None => End(s, t)
    case Some(db) =>
      var past := s.past.(
        used := s.past.used + {account},
        minted := s.past.minted[account := Mint(pc.session, pc.key, token)],
        paired := if Pairable(s.db, pc.session) then s.past.paired[pc.session := account] else s.past.paired,
        latest := if pc.session in s.db.sessions then s.past.latest[pc.session := account] else s.past.latest);
      Go(s.(db := db, past := past), t, Stamping(pc.key, pc.session, account))
  }

  /** The tables after VerifyPairingCode's transaction. */
  function Committed(db: Db, session: Id, account: Id, token: Id, key: Key, at: Time): Option<Db> {
    match CreateAccount(db, account, token)
    case None => None
    case Some(db1) =>
      match MarkPaired(db1, session, account, key, at)
      case None => None
      case Some(db2) => Some(UpdateMetadata(db2, session, token))
  }

  function AttachStep(s: State, t: Id): State
    requires At(s, t) && s.threads[t].Attaching?
  {
    var pc := s.threads[t];
    var next := Rereading(pc.key, pc.session);
    match UpdateState(s.db, pc.key, PairingState.Paired, Some(pc.account), Some(pc.at))
    case None => Go(s, t, next)
    case Some(db) =>
      var past := if pc.key !in s.db.conversations then s.past
                  else s.past.(attached := s.past.attached[s.db.conversations[pc.key].row := pc.account]);
      Go(s.(db := db, past := past), t, next)
  }

  function RereadStep(s: State, t: Id): State
    requires At(s, t) && s.threads[t].Rereading?
  {
    var pc := s.threads[t];
    if pc.session in s.db.sessions && s.db.sessions[pc.session].account.Some?
    then Go(s, t, Announcing(pc.key, pc.session, s.db.sessions[pc.session].account.value))
    else End(s, t)
  }

  function AnnounceStep(s: State, t: Id): State
    requires At(s, t) && s.threads[t].Announcing?
  {
    var pc := s.threads[t];
    var event := PairingComplete(pc.key);
    var posted := {Posting(SessionChannel(pc.session), event), Posting(AccountChannel(pc.account), event)};
    End(s.(posted := s.posted + posted), t)
  }

  function DetachStep(s: State, t: Id): State
    requires At(s, t) && s.threads[t].Unpairing?
  {
    match UpdateState(s.db, s.threads[t].key, PairingState.Unpaired, None, None)
    case None => End(s, t)
    case Some(db) => End(s.(db := db), t)
  }

  function EnqueueStep(s: State, t: Id, message: Id): State
    requires At(s, t) && s.threads[t].Enqueueing?
  {
    var pc := s.threads[t];
    match CreateInbound(s.db, message, pc.account, pc.key, pc.url, pc.deadline, s.now)
    case None => End(s, t)
    case Some(db) =>
      var past := s.past.(used := s.past.used + {message}, inbox := s.past.inbox[message := Note(pc.account, pc.key)]);
      Go(s.(db := db, past := past), t, Publishing(pc.key, pc.account, message))
  }

  function PublishStep(s: State, t: Id): State
    requires At(s, t) && s.threads[t].Publishing?
  {
    var pc := s.threads[t];
    End(s.(posted := s.posted + {Posting(AccountChannel(pc.account), Message(pc.message, pc.key))}), t)
  }

  // ---------- bearers of a session token ----------

  /** The session is in the request's context; a linked account is looked up first. */
  function AuthenticateStep(s: State, t: Id, session: Id, request: Request): State
    requires session in s.db.sessions
  {
    var row := s.db.sessions[session];
    var s1 := Use(s, {t});
    if row.status == SessionStatus.Paired && row.account.Some? then
      Go(s1.(past := s1.past.(bearers := s1.past.bearers[t := Login(session, row.account.value)])),
         t, Linking(session, row.account.value, request))
    else WithoutAccount(s1, t, session, request)
  }

  /** Without an account: events of the session's own channel, and no replies. */
  function WithoutAccount(s: State, t: Id, session: Id, request: Request): State {
    if request.Events? then Go(s, t, Streaming(SessionChannel(session))) else End(s, t)
  }

  function LinkStep(s: State, t: Id, ok: bool): State
    requires At(s, t) && s.threads[t].Linking?
  {
    var pc := s.threads[t];
    if !ok || pc.account !in s.db.accounts then WithoutAccount(s, t, pc.session, pc.request)
    else match pc.request
      case Events => Go(s, t, Queueing(pc.account))
      case Reply(message) => Go(s, t, Finding(pc.account, message))
  }

  /** The drain's SELECT: every queued message of the account, once, oldest first. */
  predicate Selects(db: Db, account: Id, rows: seq<Item>) {
    && (forall i :: 0 <= i < |rows| ==> Listed(db, account, rows[i]))
    && (forall m :: m in db.inbound && db.inbound[m].account == account && db.inbound[m].status == Queued ==>
          Item(m, db.inbound[m].key) in rows)
    && (forall i, j :: 0 <= i < j < |rows| ==>
          rows[i] != rows[j] && CreatedAt(db, rows[i].id) <= CreatedAt(db, rows[j].id))
  }

  predicate Listed(db: Db, account: Id, item: Item) {
    && item.id in db.inbound && db.inbound[item.id].account == account && db.inbound[item.id].status == Queued
    && db.inbound[item.id].key == item.key
  }

  function CreatedAt(db: Db, message: Id): Time {
    if message in db.inbound then db.inbound[message].createdAt else 0
  }

  function WriteStep(s: State, t: Id): State
    requires At(s, t) && s.threads[t].Draining? && s.threads[t].rest != []
  {
    var pc := s.threads[t];
    Go(Wrote(s, t, Message(pc.rest[0].id, pc.rest[0].key)), t, Marking(pc.account, pc.rest))
  }

  function Wrote(s: State, t: Id, event: Event): State {
    s.(past := s.past.(written := s.past.written + {Written(t, event)}))
  }

  /** The loop goes on whether or not the UPDATE succeeds. */
  function MarkStep(s: State, t: Id, ok: bool, at: Time): State
    requires At(s, t) && s.threads[t].Marking? && s.threads[t].rest != []
  {
    var pc := s.threads[t];
    var message := pc.rest[0].id;
    var s1 := Go(s, t, Draining(pc.account, pc.rest[1..]));
    if !ok then s1 else s1.(db := MarkDelivered(s.db, message, at),
                            past := s.past.(delivered := if message in s.past.delivered then s.past.delivered
                                                         else s.past.delivered[message := t]))
  }

  function FindStep(s: State, t: Id, at: Time): State
    requires At(s, t) && s.threads[t].Finding?
  {
    var pc := s.threads[t];
    if pc.message in s.db.inbound && s.db.inbound[pc.message].account == pc.account
       && Answerable(s.db.inbound[pc.message], at)
    then Go(s, t, Replying(pc.account, pc.message, s.db.inbound[pc.message].key))
    else End(s, t)
  }

  function AnswerStep(s: State, t: Id, outbound: Id): State
    requires At(s, t) && s.threads[t].Replying?
  {
    var pc := s.threads[t];
    match CreateOutbound(s.db, outbound, pc.account, pc.message, pc.key)
    case None => End(s, t)
    case Some(db) => Go(Use(s.(db := db), {outbound}), t, Calling(outbound))
  }

  function CalledStep(s: State, t: Id, ok: bool, at: Time): State
    requires At(s, t) && s.threads[t].Calling?
  {
    var o := s.threads[t].outbound;
    End(s.(db := if ok then MarkSent(s.db, o, at) else MarkFailed(s.db, o)), t)
  }

  // ---------- which steps may happen, and what they do ----------

  predicate HookEnabled(s: State, step: HookStep) {
    match step
    case Webhook(t, _, row, _, url, deadline) => Fresh(s, t) && Fresh(s, row) && t != row && url.Some? == deadline.Some?
    case Look(t, found) =>
      && At(s, t) && s.threads[t].Looking?
      && (match found
          case Some(x) => CodeFinds(s.db, s.now, s.threads[t].code, x)
          case None => forall x :: x in s.db.sessions ==> !CodeFinds(s.db, s.now, s.threads[t].code, x))
    case Transact(t, account, _, _) => At(s, t) && s.threads[t].Pairing? && Fresh(s, account)
    case Stamp(t, _) => At(s, t) && s.threads[t].Stamping?
    case Attach(t) => At(s, t) && s.threads[t].Attaching?
    case AttachFails(t) => At(s, t) && s.threads[t].Attaching?
    case Reread(t) => At(s, t) && s.threads[t].Rereading?
    case Announce(t) => At(s, t) && s.threads[t].Announcing?
    case Detach(t) => At(s, t) && s.threads[t].Unpairing?
    case Enqueue(t, message) => At(s, t) && s.threads[t].Enqueueing? && Fresh(s, message)
    case Publish(t) => At(s, t) && s.threads[t].Publishing?
  }

  function ApplyHook(s: State, step: HookStep): State
    requires HookEnabled(s, step)
  {
    match step
    case Webhook(t, key, row, command, url, deadline) => WebhookStep(s, t, key, row, command, url, deadline)
    case Look(t, found) => (match found case Some(x) => Go(s, t, Pairing(s.threads[t].key, x)) case None => End(s, t))
    case Transact(t, account, token, at) => TransactStep(s, t, account, token, at)
    case Stamp(t, at) => Go(s, t, Attaching(s.threads[t].key, s.threads[t].session, s.threads[t].account, at))
    case Attach(t) => AttachStep(s, t)
    case AttachFails(t) => Go(s, t, Rereading(s.threads[t].key, s.threads[t].session))
    case Reread(t) => RereadStep(s, t)
    case Announce(t) => AnnounceStep(s, t)
    case Detach(t) => DetachStep(s, t)
    case Enqueue(t, message) => EnqueueStep(s, t, message)
    case Publish(t) => PublishStep(s, t)
  }

  predicate BearerEnabled(s: State, step: BearerStep) {
    match step
    case Authenticate(t, token, session, _) => Fresh(s, t) && TokenFinds(s.db, token, session)
    case Link(t, _) => At(s, t) && s.threads[t].Linking?
    case Queue(t, rows) => At(s, t) && s.threads[t].Queueing? && Selects(s.db, s.threads[t].account, rows)
    case Write(t) => At(s, t) && s.threads[t].Draining? && s.threads[t].rest != []
    case Mark(t, _, _) => At(s, t) && s.threads[t].Marking? && s.threads[t].rest != []
    case Drained(t) => At(s, t) && (s.threads[t].Queueing? || s.threads[t].Draining?)
    case Deliver(t, event) => At(s, t) && s.threads[t].Streaming? && Posting(s.threads[t].channel, event) in s.posted
    case Find(t, _) => At(s, t) && s.threads[t].Finding?
    case Answer(t, outbound) => At(s, t) && s.threads[t].Replying? && Fresh(s, outbound)
    case Called(t, _, _) => At(s, t) && s.threads[t].Calling?
  }

  function ApplyBearer(s: State, step: BearerStep): State
    requires BearerEnabled(s, step)
  {
    match step
    case Authenticate(t, _, session, request) => AuthenticateStep(s, t, session, request)
    case Link(t, ok) => LinkStep(s, t, ok)
    case Queue(t, rows) => Go(s, t, Draining(s.threads[t].account, rows))
    case Write(t) => WriteStep(s, t)
    case Mark(t, ok, at) => MarkStep(s, t, ok, at)
    case Drained(t) => Go(s, t, Streaming(AccountChannel(s.threads[t].account)))
    case Deliver(t, event) => Wrote(s, t, event)
    case Find(t, at) => FindStep(s, t, at)
    case Answer(t, outbound) => AnswerStep(s, t, outbound)
    case Called(t, ok, at) => CalledStep(s, t, ok, at)
  }

  predicate OtherEnabled(s: State, step: OtherStep) {
    match step
    case Create(session, _, _, _) => Fresh(s, session)
    case Status(t, session, at) => StatusEnabled(s, t, session, at)
    case ExpireStatus(t) => At(s, t) && s.threads[t].Expiring?
    case Abandon(t) => At(s, t)
    case _ => true
  }

  function ApplyOther(s: State, step: OtherStep): State
    requires OtherEnabled(s, step)
  {
    match step
    case Tick(d) => s.(now := s.now + d)
    case Create(session, token, code, expiresAt) => CreateStep(s, session, token, code, expiresAt)
    case Status(t, session, _) => Go(Use(s, {t}), t, Expiring(session))
    case ExpireStatus(t) => End(s.(db := SetStatus(s.db, s.threads[t].session, SessionStatus.Expired)), t)
    case Abandon(t) => End(s, t)
    case RemoveAccount(account) => s.(db := DeleteAccount(s.db, account))
    case Regenerate(account, token) =>
      (match UpdateToken(s.db, account, token) case Some(db) => s.(db := db) case None => s)
    case Disconnect(session) => s.(db := SetStatus(s.db, session, Disconnected))
    case RemoveSession(session) => s.(db := DeleteSession(s.db, session))
    case RemoveConversation(row) => s.(db := DeleteConversation(s.db, row))
    case ExpireMessages => s.(db := MarkExpired(s.db, s.now))
    case ExpireSessions => s.(db := DeleteExpired(s.db, s.now))
  }

  predicate Enabled(s: State, step: Step) {
    match step
    case Hook(hook) => HookEnabled(s, hook)
    case Bearer(bearer) => BearerEnabled(s, bearer)
    case Other(other) => OtherEnabled(s, other)
  }

  function Apply(s: State, step: Step): State
    requires Enabled(s, step)
  {
    match step
    case Hook(hook) => ApplyHook(s, hook)
    case Bearer(bearer) => ApplyBearer(s, bearer)
    case Other(other) => ApplyOther(s, other)
  }

  /** The state after a run from empty tables, if every step of it was enabled. */
  function Run(steps: seq<Step>): Option<State> {
    if steps == [] then Some(START)
    else match Run(steps[..|steps| - 1])
      case None => None
      case Some(s) => if Enabled(s, steps[|steps| - 1]) then Some(Apply(s, steps[|steps| - 1])) else None
  }
}
