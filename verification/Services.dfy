/**
 The service and handler methods that drive the tables, as one request runs them with nothing in
 between. Each statement is the function of module Tables; a fault says which statement or write fails.
 */
module Services {
  import opened Wrappers
  import opened Tables
  import Protocol
  import Cleanup
  import Codec

  /** The database handle that the services share. */
  class Store {
    var db: Db

    constructor ()
      ensures db == EMPTY
    {
      db := EMPTY;
    }
  }

  datatype Fault = Healthy | LookupFails | CreateFails | MarkFails | MetadataFails | CommitFails

  datatype PairResult = PairedWith(session: Id, account: Id, token: Id) | InvalidCode | InternalError

  datatype StatusResult = StatusResult(status: SessionStatus, pairedAt: Option<Time>, account: Option<Id>,
                                       relayToken: Option<Id>, kakaoUserId: Option<string>)

  datatype StatusAnswer = StatusError | NoSession | Reported(result: StatusResult)

  /** Which statement of GetStatus fails; a failed MarkExpired is ignored. */
  datatype StatusFault = StatusHealthy | FindFails | ExpireFails

  class SessionService {
    const store: Store

    constructor (store: Store)
      ensures this.store == store
    {
      this.store := store;
    }

    method FindByPairingCode(now: Time, code: Id) returns (found: Option<Id>)
      ensures match found
              case Some(x) =>
                && x in store.db.sessions && store.db.sessions[x].code == code
                && store.db.sessions[x].status == PendingPairing && now < store.db.sessions[x].expiresAt
              case None => forall x :: x in store.db.sessions && store.db.sessions[x].code == code ==>
                store.db.sessions[x].status != PendingPairing || store.db.sessions[x].expiresAt <= now
    {
      if x :| x in store.db.sessions && CodeFinds(store.db, now, code, x) {
        return Some(x);
      } else {
        return None;
      }
    }

    /** The sessions whose code can be typed now. */
    static function Open(db: Db, now: Time, code: Id): set<Id> {
      set x | x in db.sessions && db.sessions[x].code == code
              && db.sessions[x].status == PendingPairing && now < db.sessions[x].expiresAt
    }

    /**
     All or nothing: the account, the pairing and the metadata are all there, or the tables are as they
     were. Run alone, the pairing always takes effect on the session that the code found.
     */
    method VerifyPairingCode(now: Time, code: Id, key: Key, account: Id, token: Id, at: Time, fault: Fault)
      returns (result: PairResult)
      requires account !in store.db.accounts
      modifies store
      ensures var db := old(store.db);
              var open := Open(db, now, code);
              var taken := exists a :: a in db.accounts && db.accounts[a].tokenHash == token;
              && (result == InvalidCode <==> fault == LookupFails || open == {})
              && (result.PairedWith? <==> fault == Healthy && open != {} && !taken)
              && (result.PairedWith? ==> result.session in open)
      ensures result.PairedWith? ==>
                && result.account == account && result.token == token
                && store.db.accounts == old(store.db).accounts[account := Account(token, 60)]
                && store.db.sessions == old(store.db).sessions[result.session :=
                     old(store.db).sessions[result.session].(
                       status := SessionStatus.Paired, account := Some(account), key := Some(key),
                       metadata := Some(token), pairedAt := Some(at), expiresAt := SENTINEL)]
                && store.db.conversations == old(store.db).conversations
                && store.db.inbound == old(store.db).inbound && store.db.outbound == old(store.db).outbound
      ensures result.PairedWith? ==>
                Protocol.Committed(old(store.db), result.session, account, token, key, at) == Some(store.db)
      ensures !result.PairedWith? ==> store.db == old(store.db)
    {
      if fault == LookupFails { return InvalidCode; }
      var session := FindByPairingCode(now, code);
      if session == None {
        assert Open(store.db, now, code) == {};
        return InvalidCode;
      }
      assert session.value in Open(store.db, now, code);

      // Statements of the transaction work on `tx`; only the commit writes it back.
      var tx := store.db;
      var created := CreateAccount(tx, account, token);
      if fault == CreateFails || created == None { return InternalError; }
      tx := created.value;
      var marked := MarkPaired(tx, session.value, account, key, at);
      if fault == MarkFails || marked == None { return InternalError; }
      tx := marked.value;
      tx := UpdateMetadata(tx, session.value, token);
      if fault == MetadataFails || fault == CommitFails { return InternalError; }
      store.db := tx;
      return PairedWith(session.value, account, token);
    }

    /** The user id read back from the text of a key. */
    static function UserOf(key: Option<Key>, text: Key -> string): Option<string> {
      if key.Some? then Codec.KakaoUserId(text(key.value)) else None
    }

    /** What the caller is told about row x, and what happens to it. */
    static ghost predicate Tells(db: Db, db': Db, x: Id, at: Time, text: Key -> string, fault: StatusFault,
                                 result: StatusResult)
      requires x in db.sessions
    {
      var row := db.sessions[x];
      if row.status == PendingPairing && at > row.expiresAt then
        && db' == (if fault == ExpireFails then db
                   else db.(sessions := db.sessions[x := row.(status := SessionStatus.Expired)]))
        && result == StatusResult(SessionStatus.Expired, None, None, None, None)
      else
        && db' == db
        && var parts := if row.key == None then [] else Codec.Split(text(row.key.value));
           result == StatusResult(row.status, row.pairedAt, row.account, row.metadata,
                                  if |parts| >= 2 then Some(parts[1]) else None)
    }

    /**
     A pending session whose time is past is marked expired, and that is all the caller is told, whether
     or not the UPDATE succeeds. `text` gives the channel:user form of a key.
     */
    method GetStatus(tokenHash: Id, at: Time, text: Key -> string, fault: StatusFault) returns (answer: StatusAnswer)
      modifies store
      ensures answer == StatusError <==> fault == FindFails
      ensures answer.Reported? <==>
                && fault != FindFails
                && exists x :: x in old(store.db).sessions && old(store.db).sessions[x].tokenHash == tokenHash
                               && old(store.db).sessions[x].status in {PendingPairing, SessionStatus.Paired}
      ensures answer.Reported? ==>
                exists x :: x in old(store.db).sessions && old(store.db).sessions[x].tokenHash == tokenHash
                            && old(store.db).sessions[x].status in {PendingPairing, SessionStatus.Paired}
                            && Tells(old(store.db), store.db, x, at, text, fault, answer.result)
      ensures !answer.Reported? ==> store.db == old(store.db)
    {
      if fault == FindFails { return StatusError; }
      if x :| x in store.db.sessions && TokenFinds(store.db, tokenHash, x) {
        var row := store.db.sessions[x];
        if row.status == PendingPairing && at > row.expiresAt {
          if fault != ExpireFails {
            store.db := SetStatus(store.db, x, SessionStatus.Expired);
          }
          return Reported(StatusResult(SessionStatus.Expired, None, None, None, None));
        }
        return Reported(StatusResult(row.status, row.pairedAt, row.account, row.metadata, UserOf(row.key, text)));
      } else {
        return NoSession;
      }
    }
  }

  /** The tables once the loop has marked the first n rows, less those whose UPDATE failed; each reads the clock. */
  function MarkedUpTo(db: Db, rows: seq<Protocol.Item>, n: nat, failing: set<Id>, clock: nat -> Time): Db
    requires n <= |rows|
  {
    if n == 0 then db
    else
      var before := MarkedUpTo(db, rows, n - 1, failing, clock);
      if rows[n - 1].id in failing then before else MarkDelivered(before, rows[n - 1].id, clock(n - 1))
  }

  ghost predicate Apart(rows: seq<Protocol.Item>) {
    forall i, j :: 0 <= i < j < |rows| ==> rows[i].id != rows[j].id
  }

  /** Exactly the first n rows are marked, each at its own time, and no other message is touched. */
  lemma {:induction false} MarkedExactly(db: Db, rows: seq<Protocol.Item>, n: nat, failing: set<Id>, clock: nat -> Time)
    requires n <= |rows| && Apart(rows)
    ensures var db' := MarkedUpTo(db, rows, n, failing, clock);
      && db'.inbound.Keys == db.inbound.Keys
      && (forall i :: 0 <= i < n && rows[i].id in db.inbound && rows[i].id !in failing ==>
            db'.inbound[rows[i].id] == db.inbound[rows[i].id].(status := Delivered, deliveredAt := Some(clock(i))))
      && (forall m :: m in db.inbound && (m in failing || forall i :: 0 <= i < n ==> rows[i].id != m) ==>
            db'.inbound[m] == db.inbound[m])
  {
    if n > 0 {
      MarkedExactly(db, rows, n - 1, failing, clock);
    }
  }

  /** No other table is touched at all. */
  lemma {:induction false} MarkedInbound(db: Db, rows: seq<Protocol.Item>, n: nat, failing: set<Id>, clock: nat -> Time)
    requires n <= |rows|
    ensures MarkedUpTo(db, rows, n, failing, clock) ==
              db.(inbound := MarkedUpTo(db, rows, n, failing, clock).inbound)
  {
    if n > 0 { MarkedInbound(db, rows, n - 1, failing, clock); }
  }

  /** What a drain of n rows of a snapshot leaves of each row. */
  ghost predicate DrainedTo(db: Db, db': Db, rows: seq<Protocol.Item>, n: nat, failing: set<Id>, clock: nat -> Time) {
    forall i :: 0 <= i < |rows| ==>
      && rows[i].id in db'.inbound && rows[i].id in db.inbound
      && db'.inbound[rows[i].id] ==
         var row := db.inbound[rows[i].id];
         if i < n && rows[i].id !in failing then row.(status := Delivered, deliveredAt := Some(clock(i))) else row
  }

  lemma DrainMarks(db: Db, account: Id, rows: seq<Protocol.Item>, n: nat, failing: set<Id>, clock: nat -> Time)
    requires n <= |rows| && Protocol.Selects(db, account, rows)
    ensures DrainedTo(db, MarkedUpTo(db, rows, n, failing, clock), rows, n, failing, clock)
  {
    SelectedApart(db, account, rows);
    MarkedExactly(db, rows, n, failing, clock);
  }

  class EventsHandler {
    const store: Store
    var sent: seq<Protocol.Event>   // what went out on the response, in full

    constructor (store: Store)
      ensures this.store == store && sent == []
    {
      this.store := store;
      sent := [];
    }

    /**
     The drain. A SELECT that fails ends it at once. The write of row `broken` fails and ends the loop: rows
     before it have been sent, in order, and marked unless their UPDATE failed; rows from it on are
     neither sent nor marked.
     */
    method SendQueuedMessages(account: Id, selected: Option<seq<Protocol.Item>>, broken: nat, failing: set<Id>,
                              clock: nat -> Time)
      returns (ok: bool)
      requires selected.Some? ==> Protocol.Selects(store.db, account, selected.value)
      modifies this`sent, store
      ensures ok == (selected.Some? && broken >= |selected.value|)
      ensures selected.None? ==> sent == old(sent) && store.db == old(store.db)
      ensures selected.Some? ==>
                var rows := selected.value;
                var n := if ok then |rows| else broken;
                && sent == old(sent) + seq(n, i requires 0 <= i < n => Protocol.Message(rows[i].id, rows[i].key))
                && store.db == MarkedUpTo(old(store.db), rows, n, failing, clock)
                && DrainedTo(old(store.db), store.db, rows, n, failing, clock)
    {
      if selected.None? { return false; }
      var n := SendRows(selected.value, broken, failing, clock);
      ok := n == |selected.value|;
      DrainMarks(old(store.db), account, selected.value, n, failing, clock);
    }

    /** The loop of the drain. */
    method SendRows(rows: seq<Protocol.Item>, broken: nat, failing: set<Id>, clock: nat -> Time) returns (k: nat)
      modifies this`sent, store
      ensures k == if broken < |rows| then broken else |rows|
      ensures sent == old(sent) + seq(k, i requires 0 <= i < k => Protocol.Message(rows[i].id, rows[i].key))
      ensures store.db == MarkedUpTo(old(store.db), rows, k, failing, clock)
    {
      k := 0;
      while k < |rows|
        invariant 0 <= k <= |rows| && k <= broken
        invariant sent == old(sent) + seq(k, i requires 0 <= i < k => Protocol.Message(rows[i].id, rows[i].key))
        invariant store.db == MarkedUpTo(old(store.db), rows, k, failing, clock)
      {
        if k == broken { break; }
        sent := sent + [Protocol.Message(rows[k].id, rows[k].key)];
        if rows[k].id !in failing {
          store.db := MarkDelivered(store.db, rows[k].id, clock(k));
        }
        k := k + 1;
      }
    }
  }

  /** The rows of a snapshot are queued rows of the table, each with its own id. */
  lemma SelectedApart(db: Db, account: Id, rows: seq<Protocol.Item>)
    requires Protocol.Selects(db, account, rows)
    ensures forall i :: 0 <= i < |rows| ==> rows[i].id in db.inbound && db.inbound[rows[i].id].status == Queued
    ensures Apart(rows)
  {
    forall i | 0 <= i < |rows| ensures Protocol.Listed(db, account, rows[i]) {}
  }

  datatype ReplyResult =
    NotFound | CallbackExpired | DatabaseError | CallbackFailed(outbound: Id) | Answered(outbound: Id)

  /** Which statement of Reply fails; a failed mark is ignored. */
  datatype ReplyFault = ReplyHealthy | LookFails | InsertFails | OutcomeFails

  class OpenClawHandler {
    const store: Store

    constructor (store: Store)
      ensures this.store == store
    {
      this.store := store;
    }

    /** Past every check, and with the insert accepted. */
    static ghost predicate Accepted(db: Db, account: Id, message: Id, at: Time, fault: ReplyFault) {
      && fault !in {LookFails, InsertFails}
      && message in db.inbound && db.inbound[message].account == account && account in db.accounts
      && db.inbound[message].url != None
      && (db.inbound[message].deadline == None || at < db.inbound[message].deadline.value)
    }

    /**
     A reply is recorded before the callback goes out, and its row says how the callback went, unless
     that last UPDATE fails: then the row stays pending while the caller is told the outcome all the same.
     */
    method Reply(account: Id, message: Id, at: Time, outbound: Id, works: bool, sentAt: Time, fault: ReplyFault)
      returns (result: ReplyResult)
      requires outbound !in store.db.outbound
      modifies store
      ensures result.Answered? || result.CallbackFailed? <==> Accepted(old(store.db), account, message, at, fault)
      ensures result.Answered? || result.CallbackFailed? ==>
                && result.outbound == outbound && result.Answered? == works
                && var row := Outbound(account, Some(message), old(store.db).inbound[message].key,
                                       OutboundStatus.Pending, None);
                   store.db == old(store.db).(outbound := old(store.db).outbound[outbound :=
                     if fault == OutcomeFails then row
                     else if works then row.(status := Sent, sentAt := Some(sentAt)) else row.(status := Failed)])
      ensures result == NotFound <==> (&& fault != LookFails
                                       && !(&& message in old(store.db).inbound
                                            && old(store.db).inbound[message].account == account))
      ensures result == CallbackExpired <==> (&& fault != LookFails
                                              && message in old(store.db).inbound
                                              && old(store.db).inbound[message].account == account
                                              && var row := old(store.db).inbound[message];
                                                 row.url == None
                                                 || (row.deadline != None && row.deadline.value <= at))
      ensures result in {NotFound, CallbackExpired, DatabaseError} ==> store.db == old(store.db)
    {
      if fault == LookFails { return DatabaseError; }
      if message !in store.db.inbound || store.db.inbound[message].account != account { return NotFound; }
      var inbound := store.db.inbound[message];
      if !Answerable(inbound, at) { return CallbackExpired; }
      var created := CreateOutbound(store.db, outbound, account, message, inbound.key);
      if fault == InsertFails || created == None { return DatabaseError; }
      store.db := created.value;
      if !works {
        if fault != OutcomeFails {
          store.db := MarkFailed(store.db, outbound);
        }
        return CallbackFailed(outbound);
      }
      if fault != OutcomeFails {
        store.db := MarkSent(store.db, outbound, sentAt);
      }
      return Answered(outbound);
    }
  }

  class CleanupJob {
    const store: Store

    /** Paired, or pending with its time not past. */
    static predicate Stays(session: Session, now: Time) {
      || session.status == SessionStatus.Paired
      || (session.status == PendingPairing && now <= session.expiresAt)
    }

    /** Queued past its deadline, a message expires. */
    static function Settled(m: Inbound, now: Time): Inbound {
      if m.status == Queued && m.deadline != None && m.deadline.value < now then m.(status := InboundStatus.Expired)
      else m
    }

    constructor (store: Store)
      ensures this.store == store
    {
      this.store := store;
    }

    /** A statement that fails is logged, and the other one runs all the same. */
    method RunCleanup(now: Time, messagesFail: bool, sessionsFail: bool)
      modifies store
      ensures !messagesFail && !sessionsFail ==> store.db == Cleanup.Cleaned(old(store.db), now)
      ensures store.db.sessions ==
              if sessionsFail then old(store.db).sessions
              else (map x | x in old(store.db).sessions && Stays(old(store.db).sessions[x], now) ::
                      old(store.db).sessions[x])
      ensures store.db.inbound ==
              if messagesFail then old(store.db).inbound
              else map m | m in old(store.db).inbound :: Settled(old(store.db).inbound[m], now)
      ensures store.db.accounts == old(store.db).accounts && store.db.conversations == old(store.db).conversations
      ensures store.db.outbound == old(store.db).outbound
    {
      if !messagesFail {
        store.db := MarkExpired(store.db, now);
      }
      if !sessionsFail {
        store.db := DeleteExpired(store.db, now);
      }
    }
  }
}
