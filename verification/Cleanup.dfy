/** The cleanup job: what a pass over the tables hides, and what it does not. */
module Cleanup {
  import opened Wrappers
  import opened Tables
  import opened Protocol

  /** Both statements of a pass, at one time. */
  function Cleaned(db: Db, now: Time): Db {
    DeleteExpired(MarkExpired(db, now), now)
  }

  /** The token's session is paired with the account, and the account exists. */
  ghost predicate ResolvesTo(db: Db, token: Id, account: Id) {
    exists x ::
      && TokenFinds(db, token, x) && db.sessions[x].status == SessionStatus.Paired
      && db.sessions[x].account == Some(account) && account in db.accounts
  }

  /** Reply accepts the message from the account when its clock reads `at`. */
  predicate CanAnswer(db: Db, account: Id, message: Id, at: Time) {
    message in db.inbound && db.inbound[message].account == account && Answerable(db.inbound[message], at)
  }

  /**
   From then on, at any later time, the same codes can pair, the same tokens resolve to the same
   accounts, and the same messages can be answered.
   */
  lemma LookupsStay(db: Db, now: Time, later: Time)
    requires now <= later
    ensures forall code, x :: CodeFinds(Cleaned(db, now), later, code, x) <==> CodeFinds(db, later, code, x)
    ensures forall token, account :: ResolvesTo(Cleaned(db, now), token, account) <==> ResolvesTo(db, token, account)
    ensures forall account, m, at :: CanAnswer(Cleaned(db, now), account, m, at) <==> CanAnswer(db, account, m, at)
  {
    var after := Cleaned(db, now);
    forall token: Id, account: Id ensures ResolvesTo(after, token, account) <==> ResolvesTo(db, token, account) {
      if ResolvesTo(db, token, account) {
        var x :| TokenFinds(db, token, x) && db.sessions[x].status == SessionStatus.Paired
            && db.sessions[x].account == Some(account);
        assert TokenFinds(after, token, x);
      }
      if ResolvesTo(after, token, account) {
        var x :| TokenFinds(after, token, x) && after.sessions[x].status == SessionStatus.Paired
            && after.sessions[x].account == Some(account);
        assert TokenFinds(db, token, x);
      }
    }
  }

  /** What is visible: a bare session token stops working exactly when its pairing time had run out. */
  lemma TokensCut(db: Db, now: Time, token: Id, x: Id)
    ensures TokenFinds(Cleaned(db, now), token, x)
       <==> TokenFinds(db, token, x) && !(db.sessions[x].status == PendingPairing && db.sessions[x].expiresAt < now)
  {
  }

  /** A pairing in flight is cut off exactly when its session's time ran out before the transaction. */
  lemma PairingCut(db: Db, now: Time, x: Id)
    ensures Pairable(Cleaned(db, now), x) <==> Pairable(db, x) && db.sessions[x].expiresAt >= now
  {
  }

  /** A pass changes a message only to expire it, and only when no reply could use its callback any more. */
  lemma ExpiresOnlyTheDead(db: Db, now: Time, m: Id)
    requires m in db.inbound
    ensures m in Cleaned(db, now).inbound
    ensures Cleaned(db, now).inbound[m] == db.inbound[m]
            || Cleaned(db, now).inbound[m] == db.inbound[m].(status := InboundStatus.Expired)
    ensures Cleaned(db, now).inbound[m] != db.inbound[m] <==>
              db.inbound[m].status == Queued && db.inbound[m].deadline != None && db.inbound[m].deadline.value < now
    ensures Cleaned(db, now).inbound[m] != db.inbound[m] ==> forall at | at >= now :: !Answerable(db.inbound[m], at)
  {
  }

  /** A pass is thorough: no overdue message stays queued, and of the sessions exactly the stale ones go. */
  lemma Thorough(db: Db, now: Time)
    ensures forall m :: m in Cleaned(db, now).inbound ==>
              var row := Cleaned(db, now).inbound[m];
              row.status == Queued ==> row.deadline == None || now <= row.deadline.value
    ensures forall x :: x in Cleaned(db, now).sessions <==>
              x in db.sessions && (db.sessions[x].status == SessionStatus.Paired
                                   || (db.sessions[x].status == PendingPairing && db.sessions[x].expiresAt >= now))
    ensures forall x :: x in Cleaned(db, now).sessions ==> Cleaned(db, now).sessions[x] == db.sessions[x]
  {
  }

  /** A second pass at the same time changes nothing. */
  lemma Idempotent(db: Db, now: Time)
    ensures Cleaned(Cleaned(db, now), now) == Cleaned(db, now)
  {
    var once := Cleaned(db, now);
    var twice := Cleaned(once, now);
    assert once.sessions == twice.sessions;
    assert once.inbound == twice.inbound;
  }

  // ---------- the drain ----------

  /** The messages a pass at `now` expires. */
  function Lapsing(db: Db, now: Time): set<Id> {
    set m | m in db.inbound && Overdue(db.inbound[m], now)
  }

  /** The same message, delivered or expired as it may be. */
  predicate SameMessage(m: Inbound, m': Inbound) {
    m'.(status := m.status, deliveredAt := m.deliveredAt) == m
  }

  /** Two inbound tables that differ only in the fate of the messages in `gone`, which the second has not queued. */
  ghost predicate SameButGone(inbound: map<Id, Inbound>, inbound': map<Id, Inbound>, gone: set<Id>) {
    && (forall m :: m in inbound <==> m in inbound')
    && (forall m :: m in inbound && m !in gone ==> inbound'[m] == inbound[m])
    && (forall m :: m in inbound && m in gone ==> SameMessage(inbound[m], inbound'[m]) && inbound'[m].status != Queued)
  }

  /** A drain's snapshot without some messages. */
  function Without(rows: seq<Item>, gone: set<Id>): (r: seq<Item>)
    ensures forall item :: item in r <==> item in rows && item.id !in gone
  {
    if rows == [] then []
    else if rows[0].id in gone then Without(rows[1..], gone)
    else [rows[0]] + Without(rows[1..], gone)
  }

  ghost predicate Ordered(db: Db, rows: seq<Item>) {
    forall i, j :: 0 <= i < j < |rows| ==> rows[i] != rows[j] && CreatedAt(db, rows[i].id) <= CreatedAt(db, rows[j].id)
  }

  lemma {:induction false} WithoutOrdered(db: Db, rows: seq<Item>, gone: set<Id>)
    requires Ordered(db, rows)
    ensures Ordered(db, Without(rows, gone))
  {
    if rows != [] {
      WithoutOrdered(db, rows[1..], gone);
      var rest := Without(rows[1..], gone);
      forall other | other in rest ensures other != rows[0] && CreatedAt(db, rows[0].id) <= CreatedAt(db, other.id) {
        assert other in rows[1..];
      }
    }
  }

  /**
   A drain of the second table sends what one of the first would, in the same order, less the messages that
   are gone.
   */
  lemma {:induction false} DrainWithout(db: Db, db': Db, account: Id, rows: seq<Item>, gone: set<Id>)
    requires SameButGone(db.inbound, db'.inbound, gone) && Selects(db, account, rows)
    ensures Selects(db', account, Without(rows, gone))
  {
    var kept := Without(rows, gone);
    WithoutOrdered(db, rows, gone);
    forall i | 0 <= i < |kept| ensures Listed(db', account, kept[i]) {
      assert kept[i] in rows;
      assert Listed(db, account, kept[i]);
    }
    forall m | m in db'.inbound && db'.inbound[m].account == account && db'.inbound[m].status == Queued
      ensures Item(m, db'.inbound[m].key) in kept
    {
      assert Item(m, db.inbound[m].key) in rows;
    }
    forall i, j | 0 <= i < j < |kept|
      ensures kept[i] != kept[j] && CreatedAt(db', kept[i].id) <= CreatedAt(db', kept[j].id)
    {
      assert CreatedAt(db', kept[i].id) == CreatedAt(db, kept[i].id)
             && CreatedAt(db', kept[j].id) == CreatedAt(db, kept[j].id);
    }
  }

  /** So a drain after the pass sends what it would have sent, less the dead messages. */
  lemma DrainAfterCleanup(db: Db, now: Time, account: Id, rows: seq<Item>)
    requires Selects(db, account, rows)
    ensures Selects(Cleaned(db, now), account, Without(rows, Lapsing(db, now)))
  {
    DrainWithout(db, Cleaned(db, now), account, rows, Lapsing(db, now));
  }
}
