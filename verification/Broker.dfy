/**
 The SSE broker: buckets of clients by account, a bounded queue per client, and one relay of the
 account's Redis channel for every time its bucket is opened. A relay's broadcast is a sequence of
 offers, one per client, each atomic. Ghost logs record what was published, offered and received.
 */
module Broker {
  import opened Wrappers

  datatype Event = Event(kind: string, data: string)

  const QUEUE_CAPACITY: nat := 100

  /** An offer of a published event: which relay made it, and the event's place on the channel. */
  datatype Delivery = Delivery(relay: nat, index: nat, event: Event)

  /** A relay of one account's channel: where it began, and a `cursor` past everything it has handled. */
  datatype Relay = Relay(account: Id, start: nat, cursor: nat)

  /** Each relay's deliveries come in publish order, none twice. */
  ghost predicate InOrder(log: seq<Delivery>) {
    forall i, j :: 0 <= i < j < |log| && log[i].relay == log[j].relay ==> log[i].index < log[j].index
  }

  predicate Subsequence(a: seq<Delivery>, b: seq<Delivery>) {
    if a == [] then true
    else if b == [] then false
    else if a[|a| - 1] == b[|b| - 1] && Subsequence(a[..|a| - 1], b[..|b| - 1]) then true
    else Subsequence(a, b[..|b| - 1])
  }

  lemma SubsequenceAppend(a: seq<Delivery>, b: seq<Delivery>, x: Delivery)
    requires Subsequence(a, b)
    ensures Subsequence(a + [x], b + [x]) && Subsequence(a, b + [x])
  {
    assert (a + [x])[..|a|] == a && (b + [x])[..|b|] == b;
  }

  lemma {:induction false} SubsequenceMembers(a: seq<Delivery>, b: seq<Delivery>)
    requires Subsequence(a, b)
    ensures forall x :: x in a ==> x in b
  {
    if a != [] {
      var b' := b[..|b| - 1];
      if a[|a| - 1] == b[|b| - 1] && Subsequence(a[..|a| - 1], b') {
        SubsequenceMembers(a[..|a| - 1], b');
        assert a == a[..|a| - 1] + [a[|a| - 1]];
      } else {
        SubsequenceMembers(a, b');
      }
      assert forall x :: x in b' ==> x in b;
    }
  }

  lemma {:induction false} SubsequenceInOrder(a: seq<Delivery>, b: seq<Delivery>)
    requires Subsequence(a, b) && InOrder(b)
    ensures InOrder(a)
  {
    if a != [] {
      var n, m := |a| - 1, |b| - 1;
      if a[n] == b[m] && Subsequence(a[..n], b[..m]) {
        SubsequenceInOrder(a[..n], b[..m]);
        SubsequenceMembers(a[..n], b[..m]);
        forall i | 0 <= i < n && a[i].relay == a[n].relay ensures a[i].index < a[n].index {
          assert a[i] == a[..n][i] && a[i] in b[..m];
          var k :| 0 <= k < m && b[..m][k] == a[i];
          assert b[k] == a[i];
        }
        forall i, j | 0 <= i < j < |a| && a[i].relay == a[j].relay ensures a[i].index < a[j].index {
          if j < n { assert a[..n][i] == a[i] && a[..n][j] == a[j]; }
        }
      } else {
        SubsequenceInOrder(a, b[..m]);
      }
    }
  }

  // ---------- the wire: channels, relays, openings ----------

  /** What Redis was given on each channel, every relay ever started (none ends before Close), and
      how often each account's bucket went from absent to present. */
  datatype Wire = Wire(published: map<Id, seq<Event>>, relays: seq<Relay>, openings: map<Id, nat>) {
    function Channel(account: Id): seq<Event> {
      if account in published then published[account] else []
    }

    function Openings(account: Id): nat {
      if account in openings then openings[account] else 0
    }

    function Published(account: Id, event: Event): Wire {
      this.(published := published[account := Channel(account) + [event]])
    }

    /** Opening a bucket starts a relay at the end of the channel. */
    function Opened(account: Id): Wire {
      this.(relays := relays + [Relay(account, |Channel(account)|, |Channel(account)|)],
            openings := openings[account := Openings(account) + 1])
    }

    function Advanced(i: nat, index: nat): Wire
      requires i < |relays|
    {
      this.(relays := relays[i := Relay(relays[i].account, relays[i].start, index + 1)])
    }

    /** One relay per opening of a bucket, and no relay is behind its start or ahead of its channel. */
    ghost predicate Relayed() {
      && (forall a :: RelaysOf(relays, a) == Openings(a))
      && (forall i :: 0 <= i < |relays| ==> relays[i].start <= relays[i].cursor <= |Channel(relays[i].account)|)
    }

    /** The delivery came from a relay of the account and carries what was published there. */
    ghost predicate Explains(account: Id, d: Delivery) {
      && d.relay < |relays| && relays[d.relay].account == account
      && relays[d.relay].start <= d.index < relays[d.relay].cursor
      && d.index < |Channel(account)| && Channel(account)[d.index] == d.event
    }

    ghost predicate ExplainsAll(account: Id, log: seq<Delivery>) {
      forall d :: d in log ==> Explains(account, d)
    }
  }

  /** How many relays serve an account. */
  function RelaysOf(relays: seq<Relay>, account: Id): nat {
    if relays == [] then 0 else
      var n := |relays| - 1;
      RelaysOf(relays[..n], account) + if relays[n].account == account then 1 else 0
  }

  lemma RelaysAppend(relays: seq<Relay>, r: Relay, account: Id)
    ensures RelaysOf(relays + [r], account) == RelaysOf(relays, account) + if r.account == account then 1 else 0
  {
    assert (relays + [r])[..|relays|] == relays;
  }

  lemma {:induction false} RelaysUpdate(relays: seq<Relay>, i: nat, r: Relay, account: Id)
    requires i < |relays| && relays[i].account == r.account
    ensures RelaysOf(relays[i := r], account) == RelaysOf(relays, account)
  {
    var n := |relays| - 1;
    if i < n {
      RelaysUpdate(relays[..n], i, r, account);
      assert relays[i := r][..n] == relays[..n][i := r];
    } else {
      assert relays[i := r][..n] == relays[..n];
    }
  }

  lemma {:induction false} OneRelaySame(relays: seq<Relay>, account: Id, i: nat, j: nat)
    requires i < |relays| && j < |relays| && relays[i].account == account == relays[j].account
    requires RelaysOf(relays, account) <= 1
    ensures i == j
  {
    var n := |relays| - 1;
    if i < n && j < n {
      OneRelaySame(relays[..n], account, i, j);
    } else if i < n {
      HasRelay(relays[..n], account, i);
    } else if j < n {
      HasRelay(relays[..n], account, j);
    }
  }

  lemma {:induction false} HasRelay(relays: seq<Relay>, account: Id, i: nat)
    requires i < |relays| && relays[i].account == account
    ensures RelaysOf(relays, account) >= 1
  {
    var n := |relays| - 1;
    if i < n { HasRelay(relays[..n], account, i); }
  }

  lemma PublishedKeeps(w: Wire, account: Id, event: Event)
    requires w.Relayed()
    ensures w.Published(account, event).Relayed()
    ensures forall a, log :: w.ExplainsAll(a, log) ==> w.Published(account, event).ExplainsAll(a, log)
  {
  }

  lemma OpenedKeeps(w: Wire, account: Id)
    requires w.Relayed()
    ensures w.Opened(account).Relayed()
    ensures forall a, log :: w.ExplainsAll(a, log) ==> w.Opened(account).ExplainsAll(a, log)
  {
    var r := Relay(account, |w.Channel(account)|, |w.Channel(account)|);
    forall a ensures RelaysOf(w.relays + [r], a) == w.Opened(account).Openings(a) {
      RelaysAppend(w.relays, r, a);
    }
  }

  lemma AdvancedKeeps(w: Wire, i: nat, index: nat)
    requires w.Relayed() && i < |w.relays| && w.relays[i].cursor <= index < |w.Channel(w.relays[i].account)|
    ensures w.Advanced(i, index).Relayed()
    ensures forall a, log :: w.ExplainsAll(a, log) ==> w.Advanced(i, index).ExplainsAll(a, log)
  {
    forall a ensures RelaysOf(w.Advanced(i, index).relays, a) == w.Openings(a) {
      RelaysUpdate(w.relays, i, Relay(w.relays[i].account, w.relays[i].start, index + 1), a);
    }
  }

  /** The history of one client's queue: what was offered and accepted, and how many were taken or dropped. */
  datatype Inbox = Inbox(offered: seq<Delivery>, accepted: seq<Delivery>, received: nat, dropped: nat) {
    /** Conservation: what was offered was received, is queued, or was dropped. */
    ghost predicate Accounts(events: seq<Event>) {
      && |offered| == received + |events| + dropped
      && |accepted| == received + |events|
      && |events| <= QUEUE_CAPACITY
      && (forall i :: 0 <= i < |events| ==> events[i] == accepted[received + i].event)
      && Subsequence(accepted, offered) && InOrder(offered)
    }

    /** The delivery is later than all earlier ones of its relay. */
    ghost predicate Later(d: Delivery) {
      forall x :: x in offered && x.relay == d.relay ==> x.index < d.index
    }

    /** A full queue drops, and only a full queue does. */
    function Offered(d: Delivery, full: bool): Inbox {
      if full then this.(offered := offered + [d], dropped := dropped + 1)
      else this.(offered := offered + [d], accepted := accepted + [d])
    }
  }

  lemma OfferInOrder(inbox: Inbox, d: Delivery)
    requires InOrder(inbox.offered) && inbox.Later(d)
    ensures InOrder(inbox.offered + [d])
  {
    var offered := inbox.offered + [d];
    forall i, j | 0 <= i < j < |offered| && offered[i].relay == offered[j].relay
      ensures offered[i].index < offered[j].index
    {
      if j == |inbox.offered| { assert offered[i] in inbox.offered; }
    }
  }

  lemma OfferAccounts(inbox: Inbox, events: seq<Event>, d: Delivery)
    requires inbox.Accounts(events) && inbox.Later(d)
    ensures if |events| == QUEUE_CAPACITY then inbox.Offered(d, true).Accounts(events)
            else inbox.Offered(d, false).Accounts(events + [d.event])
  {
    SubsequenceAppend(inbox.accepted, inbox.offered, d);
    OfferInOrder(inbox, d);
  }

  class Client {
    const account: Id
    var events: seq<Event>        // the buffered channel
    var done: bool                // the Done channel is closed
    ghost var closes: nat         // how often it was closed; Go panics at the second
    ghost var inbox: Inbox

    ghost predicate Valid()
      reads `events, `inbox
    {
      inbox.Accounts(events)
    }

    constructor (account: Id)
      ensures Valid() && this.account == account && !done && closes == 0
      ensures events == [] && inbox == Inbox([], [], 0, 0)
    {
      this.account := account;
      events, done, closes := [], false, 0;
      inbox := Inbox([], [], 0, 0);
    }

    /** A non-blocking send: a full queue drops the event. */
    method Offer(event: Event, ghost d: Delivery)
      requires Valid() && d.event == event && inbox.Later(d)
      modifies `events, `inbox
      ensures Valid() && inbox == old(inbox).Offered(d, |old(events)| == 100)
      ensures events == if |old(events)| == 100 then old(events) else old(events) + [event]
    {
      OfferAccounts(inbox, events, d);
      inbox := inbox.Offered(d, |events| == QUEUE_CAPACITY);
      if |events| < QUEUE_CAPACITY {
        events := events + [event];
      }
    }

    /** The stream handler takes the oldest queued event. */
    method Receive() returns (event: Event)
      requires Valid() && events != []
      modifies `events, `inbox
      ensures Valid() && old(inbox).received < |inbox.accepted|
      ensures event == old(events)[0] == inbox.accepted[old(inbox).received].event
      ensures events == old(events)[1..] && inbox == old(inbox).(received := old(inbox).received + 1)
    {
      event := events[0];
      events := events[1..];
      inbox := inbox.(received := inbox.received + 1);
    }

    method CloseDone()
      modifies `done, `closes
      ensures done && closes == old(closes) + 1
    {
      done := true;
      closes := closes + 1;
    }
  }

  // ---------- the index of live clients ----------

  predicate Live(clients: map<Id, set<Client>>, c: Client) {
    c.account in clients && c in clients[c.account]
  }

  /** Buckets are never empty and hold only clients of their own account, so they are disjoint. */
  ghost predicate Indexed(clients: map<Id, set<Client>>, all: set<Client>) {
    forall a :: a in clients ==> clients[a] != {} && forall c :: c in clients[a] ==> c in all && c.account == a
  }

  function Bucket(clients: map<Id, set<Client>>, account: Id): set<Client> {
    if account in clients then clients[account] else {}
  }

  function Added(clients: map<Id, set<Client>>, c: Client): map<Id, set<Client>> {
    clients[c.account := Bucket(clients, c.account) + {c}]
  }

  function Removed(clients: map<Id, set<Client>>, c: Client): map<Id, set<Client>> {
    var bucket := Bucket(clients, c.account) - {c};
    if bucket == {} then clients - {c.account} else clients[c.account := bucket]
  }

  lemma AddedIndex(clients: map<Id, set<Client>>, all: set<Client>, c: Client)
    requires Indexed(clients, all)
    ensures Indexed(Added(clients, c), all + {c})
    ensures forall d :: Live(Added(clients, c), d) <==> Live(clients, d) || d == c
  {
  }

  lemma RemovedIndex(clients: map<Id, set<Client>>, all: set<Client>, c: Client)
    requires Indexed(clients, all)
    ensures Indexed(Removed(clients, c), all)
    ensures forall d :: Live(Removed(clients, c), d) <==> Live(clients, d) && d != c
  {
    var after := Removed(clients, c);
    forall a | a != c.account ensures a in after <==> a in clients {}
    assert forall d: Client :: d.account == c.account ==> (Live(after, d) <==> d in Bucket(clients, c.account) - {c});
  }

  lemma WriteTwice(clients: map<Id, set<Client>>, account: Id, before: set<Client>, after: set<Client>)
    ensures clients[account := before][account := after] == clients[account := after]
  {
  }

  /** What a relay hands on next is later than all it handed on before. */
  lemma RelayedLater(w: Wire, account: Id, inbox: Inbox, d: Delivery)
    requires w.ExplainsAll(account, inbox.offered) && d.relay < |w.relays| && w.relays[d.relay].cursor <= d.index
    ensures inbox.Later(d)
  {
    forall x | x in inbox.offered && x.relay == d.relay ensures x.index < d.index {
      assert w.Explains(account, x);
    }
  }

  lemma RelayedExplains(w: Wire, account: Id, inbox: Inbox, d: Delivery)
    requires w.Relayed()
    requires w.ExplainsAll(account, inbox.offered)
    requires d.relay < |w.relays| && w.relays[d.relay].account == account && w.relays[d.relay].cursor <= d.index
    requires d.index < |w.Channel(account)| && w.Channel(account)[d.index] == d.event
    ensures w.Advanced(d.relay, d.index).ExplainsAll(account, inbox.offered + [d])
  {
    var after := w.Advanced(d.relay, d.index);
    forall x | x in inbox.offered + [d] ensures after.Explains(account, x) {
      if x != d { assert w.Explains(account, x); }
    }
  }

  /** What one client's Done channel may look like while the broker is used in an orderly way. */
  ghost predicate Settled(clients: map<Id, set<Client>>, unsubscribed: set<Client>, cancelled: bool, c: Client,
                          closes: nat)
  {
    && closes <= 1
    && (Live(clients, c) ==> closes == 0 && c !in unsubscribed)
    && (!Live(clients, c) && !cancelled ==> c in unsubscribed)
  }

  lemma SettledStays(before: map<Id, set<Client>>, after: map<Id, set<Client>>, unsubscribed: set<Client>,
                     cancelled: bool, c: Client, closes: nat)
    requires Settled(before, unsubscribed, cancelled, c, closes) && (Live(after, c) <==> Live(before, c))
    ensures Settled(after, unsubscribed, cancelled, c, closes)
  {
  }

  /** A first Unsubscribe, even one after Close, closes no channel a second time. */
  lemma SettledAfter(before: map<Id, set<Client>>, after: map<Id, set<Client>>, unsubscribed: set<Client>,
                     cancelled: bool, client: Client, c: Client, closes: nat, now: nat)
    requires Settled(before, unsubscribed, cancelled, c, closes) && client !in unsubscribed
    requires cancelled ==> before == map[]
    requires Live(after, c) <==> Live(before, c) && c != client
    requires now == closes + if c == client && client.account in before then 1 else 0
    ensures Settled(after, unsubscribed + {client}, cancelled, c, now)
  {
  }

  ghost predicate AllSettled(clients: map<Id, set<Client>>, unsubscribed: set<Client>, cancelled: bool,
                             all: set<Client>)
    reads all`closes
  {
    forall c :: c in all ==> Settled(clients, unsubscribed, cancelled, c, c.closes)
  }

  /** However the broker is used, the clients whose Done is open are the live ones. */
  ghost predicate Dones(clients: map<Id, set<Client>>, all: set<Client>)
    reads all`done, all`closes
  {
    forall c :: c in all ==> (Live(clients, c) <==> c.closes == 0) && (c.done <==> c.closes > 0)
  }

  class Broker {
    var clients: map<Id, set<Client>>
    var cancelled: bool
    ghost var all: set<Client>            // every client ever made
    ghost var wire: Wire
    ghost var unsubscribed: set<Client>
    ghost var orderly: bool               // no second Unsubscribe of a client, no Subscribe after Close

    ghost predicate Logged()
      reads `all, `wire, all`events, all`inbox
    {
      forall c :: c in all ==> c.Valid() && wire.ExplainsAll(c.account, c.inbox.offered)
    }

    /** While the broker is used as the handlers use it, no Done channel is closed twice. */
    ghost predicate Closing()
      reads `orderly, `cancelled, `clients, `unsubscribed, `all, all`closes
    {
      orderly ==> (cancelled ==> clients == map[]) && AllSettled(clients, unsubscribed, cancelled, all)
    }

    ghost predicate Valid()
      reads this, all
    {
      Indexed(clients, all) && wire.Relayed() && Logged() && Dones(clients, all) && Closing() && unsubscribed <= all
    }

    constructor ()
      ensures Valid() && clients == map[] && !cancelled && orderly && all == {} && wire == Wire(map[], [], map[])
    {
      clients, cancelled := map[], false;
      all, wire, unsubscribed, orderly := {}, Wire(map[], [], map[]), {}, true;
    }

    /** Puts the client in its bucket; a new bucket gets a relay of its own. */
    method AddClient(client: Client)
      requires Indexed(clients, all) && wire.Relayed() && Logged()
      modifies `clients, `wire
      ensures clients == Added(old(clients), client) && Indexed(clients, all + {client})
      ensures forall c :: Live(clients, c) <==> Live(old(clients), c) || c == client
      ensures wire == if client.account in old(clients) then old(wire) else old(wire).Opened(client.account)
      ensures wire.Relayed() && Logged()
    {
      AddedIndex(clients, all, client);
      WriteTwice(clients, client.account, {}, {client});
      if client.account !in clients {
        clients := clients[client.account := {}];
        OpenedKeeps(wire, client.account);
        wire := wire.Opened(client.account);
      }
      clients := clients[client.account := clients[client.account] + {client}];
    }

    lemma WillSettle(client: Client)
      requires Closing() && Dones(clients, all) && Indexed(clients, all) && unsubscribed <= all
      requires client !in all && client.closes == 0 && !client.done
      ensures Dones(Added(clients, client), all + {client})
      ensures orderly && !cancelled ==> AllSettled(Added(clients, client), unsubscribed, cancelled, all + {client})
    {
      AddedIndex(clients, all, client);
      forall c | orderly && !cancelled && c in all
        ensures Settled(Added(clients, client), unsubscribed, cancelled, c, c.closes)
      {
        SettledStays(clients, Added(clients, client), unsubscribed, cancelled, c, c.closes);
      }
    }

    /** The client is on record; a Subscribe after Close is out of order. */
    ghost method Admit(client: Client)
      requires Indexed(clients, all + {client}) && wire.Relayed() && Logged() && unsubscribed <= all
      requires client.Valid() && client.inbox.offered == [] && Dones(clients, all + {client})
      requires orderly && !cancelled ==> AllSettled(clients, unsubscribed, cancelled, all + {client})
      modifies `all, `orderly
      ensures Valid() && all == old(all) + {client} && orderly == (old(orderly) && !cancelled)
    {
      all := all + {client};
      orderly := orderly && !cancelled;
    }

    /** Under the lock: a client that nobody has yet becomes one of the broker's. */
    method Register(client: Client)
      requires Valid() && client !in all && client.Valid() && client.inbox.offered == []
      requires client.closes == 0 && !client.done
      modifies `clients, `all, `wire, `orderly
      ensures Valid() && all == old(all) + {client} && clients == Added(old(clients), client)
      ensures wire == if client.account in old(clients) then old(wire) else old(wire).Opened(client.account)
      ensures orderly == (old(orderly) && !cancelled)
    {
      WillSettle(client);
      AddClient(client);
      Admit(client);
    }

    method Subscribe(account: Id) returns (client: Client)
      requires Valid()
      modifies `clients, `all, `wire, `orderly
      ensures Valid() && fresh(client) && client.account == account && client.closes == 0
      ensures client.events == [] && client.inbox == Inbox([], [], 0, 0)
      ensures all == old(all) + {client} && clients == Added(old(clients), client)
      ensures wire == if account in old(clients) then old(wire) else old(wire).Opened(account)
      ensures account !in old(clients) ==>
                && |wire.relays| == |old(wire).relays| + 1
                && var end := |old(wire).Channel(account)|;
                   wire.relays[|old(wire).relays|] == Relay(account, end, end)
      ensures orderly == (old(orderly) && !cancelled)
    {
      client := new Client(account);
      Register(client);
    }

    /** Deletes the client from its bucket, and the bucket with its last client. */
    method DeleteClient(client: Client)
      requires client.account in clients && Indexed(clients, all)
      modifies `clients
      ensures clients == Removed(old(clients), client) && Indexed(clients, all)
      ensures forall c :: Live(clients, c) <==> Live(old(clients), c) && c != client
    {
      RemovedIndex(clients, all, client);
      var bucket := clients[client.account] - {client};
      clients := clients[client.account := bucket];
      if bucket == {} {
        clients := clients - {client.account};
        assert clients == old(clients) - {client.account};
      }
    }

    /** Under the lock: the client leaves the index, and Done closes if its account had a bucket. */
    method Leave(client: Client)
      requires client in all && Indexed(clients, all)
      modifies `clients, client`done, client`closes
      ensures Indexed(clients, all)
      ensures clients == if client.account in old(clients) then Removed(old(clients), client) else old(clients)
      ensures forall c :: Live(clients, c) <==> Live(old(clients), c) && c != client
      ensures client.closes == old(client.closes) + if client.account in old(clients) then 1 else 0
      ensures client.done == (old(client.done) || client.account in old(clients))
    {
      if client.account in clients {
        DeleteClient(client);
        client.CloseDone();
      }
    }

    method Depart(client: Client)
      requires client in all && Indexed(clients, all) && Dones(clients, all) && Closing()
      modifies `clients, `unsubscribed, `orderly, client`done, client`closes
      ensures Indexed(clients, all) && Dones(clients, all) && Closing()
      ensures unsubscribed == old(unsubscribed) + {client}
      ensures orderly == (old(orderly) && client !in old(unsubscribed))
      ensures client.closes == old(client.closes) + if client.account in old(clients) then 1 else 0
      ensures clients == if client.account in old(clients) then Removed(old(clients), client) else old(clients)
    {
      orderly := orderly && client !in unsubscribed;
      unsubscribed := unsubscribed + {client};
      Leave(client);
      forall c | orderly && c in all ensures Settled(clients, unsubscribed, cancelled, c, c.closes) {
        SettledAfter(old(clients), clients, old(unsubscribed), cancelled, client, c, old(c.closes), c.closes);
      }
    }

    /**
     Closes Done whenever the bucket is still there, whether or not the client is in it: a second time
     exactly when the client is not, but others are.
     */
    method Unsubscribe(client: Client)
      requires Valid() && client in all
      modifies `clients, `unsubscribed, `orderly, client`done, client`closes
      ensures Valid() && unsubscribed == old(unsubscribed) + {client}
      ensures orderly == (old(orderly) && client !in old(unsubscribed))
      ensures client.closes == old(client.closes) + if client.account in old(clients) then 1 else 0
      ensures clients == if client.account in old(clients) then Removed(old(clients), client) else old(clients)
      ensures old(client.closes) >= 1 && client.closes > old(client.closes)
         <==> client.account in old(clients) && !Live(old(clients), client)
    {
      Depart(client);
    }

    /** What any instance hands to Redis. */
    ghost method Publish(account: Id, event: Event)
      requires Valid()
      modifies `wire
      ensures Valid() && wire == old(wire).Published(account, event)
    {
      PublishedKeeps(wire, account, event);
      wire := wire.Published(account, event);
    }

    /** One turn of a relay's loop: Redis hands it a message at or after its cursor. */
    method RelayStep(ghost i: nat, account: Id, ghost index: nat, event: Event)
      requires Valid() && i < |wire.relays| && wire.relays[i].account == account
      requires wire.relays[i].cursor <= index < |wire.Channel(account)| && wire.Channel(account)[index] == event
      modifies `wire, all`events, all`inbox
      ensures Valid() && wire == old(wire).Advanced(i, index)
      ensures forall c :: c in Bucket(clients, account) ==>
                c.inbox == old(c.inbox).Offered(Delivery(i, index, event), |old(c.events)| == QUEUE_CAPACITY)
      ensures forall c :: c in all - Bucket(clients, account) ==> c.inbox == old(c.inbox)
    {
      ghost var d := Delivery(i, index, event);
      forall c | c in Bucket(clients, account) ensures c.inbox.Later(d) {
        RelayedLater(wire, account, c.inbox, d);
      }
      AdvancedKeeps(wire, i, index);
      Broadcast(account, event, d);
      wire := wire.Advanced(i, index);
      forall c | c in all ensures c.Valid() && wire.ExplainsAll(c.account, c.inbox.offered) {
        if c in Bucket(clients, account) { RelayedExplains(old(wire), account, old(c.inbox), d); }
      }
    }

    /** Offers the event to every client of the bucket. */
    method Broadcast(account: Id, event: Event, ghost d: Delivery)
      requires event == d.event
      requires forall c :: c in Bucket(clients, account) ==> c.Valid() && c.inbox.Later(d)
      modifies Bucket(clients, account)`events, Bucket(clients, account)`inbox
      ensures forall c :: c in Bucket(clients, account) ==>
                c.Valid() && c.inbox == old(c.inbox).Offered(d, |old(c.events)| == QUEUE_CAPACITY)
    {
      OfferAll(if account in clients then clients[account] else {}, event, d);
    }

    /** The loop of `Broadcast`. */
    static method OfferAll(bucket: set<Client>, event: Event, ghost d: Delivery)
      requires event == d.event && forall c :: c in bucket ==> c.Valid() && c.inbox.Later(d)
      modifies bucket`events, bucket`inbox
      ensures forall c :: c in bucket ==>
                c.Valid() && c.inbox == old(c.inbox).Offered(d, |old(c.events)| == QUEUE_CAPACITY)
    {
      var rest := bucket;
      while rest != {}
        invariant rest <= bucket
        invariant forall c :: c in rest ==> c.inbox == old(c.inbox) && c.events == old(c.events)
        invariant forall c :: c in bucket - rest ==>
                    c.Valid() && c.inbox == old(c.inbox).Offered(d, |old(c.events)| == QUEUE_CAPACITY)
        decreases |rest|
      {
        var client :| client in rest;
        client.Offer(event, d);
        rest := rest - {client};
      }
    }

    /** A stream takes an event from its client; nothing the broker knows is put in question. */
    method Take(client: Client) returns (event: Event)
      requires Valid() && client in all && client.events != []
      modifies client`events, client`inbox
      ensures Valid() && event == old(client.events)[0] && client.events == old(client.events)[1..]
      ensures client.inbox == old(client.inbox).(received := old(client.inbox).received + 1)
    {
      event := client.Receive();
    }

    method Close()
      requires Valid()
      modifies `clients, `cancelled, all`done, all`closes
      ensures Valid() && cancelled && clients == map[]
      ensures forall c :: c in all ==> c.closes == old(c.closes) + if Live(old(clients), c) then 1 else 0
      ensures forall c :: c in all && c.closes > old(c.closes) ==> c.closes == 1
    {
      cancelled := true;
      CloseBuckets();
      clients := map[];
      forall c | orderly && c in all ensures Settled(clients, unsubscribed, cancelled, c, c.closes) {
        assert Settled(old(clients), unsubscribed, old(cancelled), c, old(c.closes));
      }
    }

    /** The outer loop of `Close`. */
    method CloseBuckets()
      requires Indexed(clients, all)
      modifies all`done, all`closes
      ensures forall c :: c in all ==> c.closes == old(c.closes) + if Live(clients, c) then 1 else 0
      ensures forall c :: c in all ==> c.done == (old(c.done) || Live(clients, c))
    {
      var keys := clients.Keys;
      while keys != {}
        invariant keys <= clients.Keys
        invariant forall c :: c in all ==>
                    c.closes == old(c.closes) + if Live(clients, c) && c.account !in keys then 1 else 0
        invariant forall c :: c in all ==> c.done == (old(c.done) || (Live(clients, c) && c.account !in keys))
        decreases |keys|
      {
        var key :| key in keys;
        CloseBucket(clients[key]);
        keys := keys - {key};
      }
    }

    /** The inner loop of `Close`. */
    method CloseBucket(bucket: set<Client>)
      requires bucket <= all
      modifies bucket`done, bucket`closes
      ensures forall c :: c in all ==> c.closes == old(c.closes) + if c in bucket then 1 else 0
      ensures forall c :: c in all ==> c.done == (old(c.done) || c in bucket)
    {
      var rest := bucket;
      while rest != {}
        invariant rest <= bucket
        invariant forall c :: c in all ==> c.closes == old(c.closes) + if c in bucket && c !in rest then 1 else 0
        invariant forall c :: c in all ==> c.done == (old(c.done) || (c in bucket && c !in rest))
        decreases |rest|
      {
        var client :| client in rest;
        client.CloseDone();
        rest := rest - {client};
      }
    }

    method ClientCount(account: Id) returns (count: nat)
      requires Valid()
      ensures count == |set c | c in all && Live(clients, c) && c.account == account|
    {
      count := if account in clients then |clients[account]| else 0;
      assert (set c | c in all && Live(clients, c) && c.account == account) == Bucket(clients, account);
    }

    /** The sum of the bucket sizes is the number of live clients: no client is counted twice. */
    method TotalClients() returns (total: nat)
      requires Valid()
      ensures total == |set c | c in all && Live(clients, c)|
    {
      total := 0;
      var keys := clients.Keys;
      ghost var counted: set<Client> := {};
      while keys != {}
        invariant keys <= clients.Keys && total == |counted|
        invariant forall c :: c in counted <==> c in all && Live(clients, c) && c.account !in keys
        decreases |keys|
      {
        var key :| key in keys;
        assert counted !! clients[key];
        total := total + |clients[key]|;
        counted := counted + clients[key];
        keys := keys - {key};
      }
      assert counted == set c | c in all && Live(clients, c);
    }
  }

  lemma OneOpeningInOrder(w: Wire, account: Id, accepted: seq<Delivery>, offered: seq<Delivery>)
    requires w.Relayed() && w.Openings(account) <= 1
    requires Subsequence(accepted, offered) && InOrder(offered) && w.ExplainsAll(account, offered)
    ensures forall i, j :: 0 <= i < j < |accepted| ==> accepted[i].index < accepted[j].index
    ensures forall i :: 0 <= i < |accepted| ==>
              accepted[i].index < |w.Channel(account)| && accepted[i].event == w.Channel(account)[accepted[i].index]
  {
    SubsequenceInOrder(accepted, offered);
    SubsequenceMembers(accepted, offered);
    forall i | 0 <= i < |accepted| ensures w.Explains(account, accepted[i]) {
      assert accepted[i] in offered;
    }
    forall i, j | 0 <= i < j < |accepted| ensures accepted[i].relay == accepted[j].relay {
      OneRelaySame(w.relays, account, accepted[i].relay, accepted[j].relay);
    }
  }

  /** A client is offered only what was published on its account's channel, and after its bucket was opened. */
  lemma OfferedSinceOpening(b: Broker, client: Client, d: Delivery)
    requires b.Valid() && client in b.all && d in client.inbox.offered
    ensures d.relay < |b.wire.relays|
    ensures var relay, channel := b.wire.relays[d.relay], b.wire.Channel(client.account);
            relay.account == client.account && relay.start <= d.index < |channel| && channel[d.index] == d.event
  {
    assert b.wire.ExplainsAll(client.account, client.inbox.offered);
  }

  /**
   While an account's bucket has been opened only once, each of its clients has accepted published
   events at strictly increasing places of the channel: publish order, nothing twice.
   */
  lemma SingleOpeningInOrder(b: Broker, client: Client)
    requires b.Valid() && client in b.all && b.wire.Openings(client.account) <= 1
    ensures var accepted, channel := client.inbox.accepted, b.wire.Channel(client.account);
      && (forall i, j :: 0 <= i < j < |accepted| ==> accepted[i].index < accepted[j].index)
      && (forall i :: 0 <= i < |accepted| ==>
            accepted[i].index < |channel| && accepted[i].event == channel[accepted[i].index])
  {
    OneOpeningInOrder(b.wire, client.account, client.inbox.accepted, client.inbox.offered);
  }

  /** Two acceptances of one event come from two relays. */
  lemma AcceptedOncePerRelay(accepted: seq<Delivery>, offered: seq<Delivery>, i: nat, j: nat)
    requires Subsequence(accepted, offered) && InOrder(offered)
    requires i < j < |accepted| && accepted[i].index == accepted[j].index
    ensures accepted[i].relay != accepted[j].relay
  {
    SubsequenceInOrder(accepted, offered);
  }

  /** How often the first n acceptances are of the event at a place of the channel. */
  function Copies(accepted: seq<Delivery>, n: nat, index: nat): nat
    requires n <= |accepted|
  {
    if n == 0 then 0 else Copies(accepted, n - 1, index) + if accepted[n - 1].index == index then 1 else 0
  }

  /** The relays they came from. */
  function Sources(accepted: seq<Delivery>, n: nat, index: nat): set<nat>
    requires n <= |accepted|
  {
    if n == 0 then {} else
      Sources(accepted, n - 1, index) + if accepted[n - 1].index == index then {accepted[n - 1].relay} else {}
  }

  lemma {:induction false} SourceOf(accepted: seq<Delivery>, n: nat, index: nat, r: nat) returns (k: nat)
    requires n <= |accepted| && r in Sources(accepted, n, index)
    ensures k < n && accepted[k].index == index && accepted[k].relay == r
  {
    k := n - 1;
    if accepted[k].index != index || accepted[k].relay != r { k := SourceOf(accepted, k, index, r); }
  }

  /** In order, a relay has brought the event at a place before its own at most once. */
  lemma NewSource(accepted: seq<Delivery>, n: nat)
    requires n < |accepted| && InOrder(accepted)
    ensures accepted[n].relay !in Sources(accepted, n, accepted[n].index)
  {
    if accepted[n].relay in Sources(accepted, n, accepted[n].index) {
      var k := SourceOf(accepted, n, accepted[n].index, accepted[n].relay);
      assert false;
    }
  }

  lemma OneMoreSource(accepted: seq<Delivery>, n: nat, index: nat)
    requires n < |accepted| && |Sources(accepted, n, index)| == Copies(accepted, n, index)
    requires accepted[n].index == index ==> accepted[n].relay !in Sources(accepted, n, index)
    ensures |Sources(accepted, n + 1, index)| == Copies(accepted, n + 1, index)
  {
    if accepted[n].index != index { assert Sources(accepted, n + 1, index) == Sources(accepted, n, index); }
  }

  lemma {:induction false} CopiesAreSources(accepted: seq<Delivery>, n: nat, index: nat)
    requires n <= |accepted| && InOrder(accepted)
    ensures |Sources(accepted, n, index)| == Copies(accepted, n, index)
  {
    if n > 0 {
      CopiesAreSources(accepted, n - 1, index);
      if accepted[n - 1].index == index { NewSource(accepted, n - 1); }
      OneMoreSource(accepted, n - 1, index);
    }
  }

  /** The places of an account's relays. */
  function RelaysFor(relays: seq<Relay>, n: nat, account: Id): set<nat>
    requires n <= |relays|
  {
    set i: nat | i < n && relays[i].account == account
  }

  lemma {:induction false} RelaysCounted(relays: seq<Relay>, account: Id)
    ensures |RelaysFor(relays, |relays|, account)| == RelaysOf(relays, account)
  {
    if relays != [] {
      var n := |relays| - 1;
      RelaysCounted(relays[..n], account);
      assert RelaysFor(relays[..n], n, account) == RelaysFor(relays, n, account);
      assert RelaysFor(relays, n + 1, account) ==
             RelaysFor(relays, n, account) + if relays[n].account == account then {n} else {};
    }
  }

  lemma CopiesBounded(w: Wire, account: Id, accepted: seq<Delivery>, offered: seq<Delivery>, index: nat)
    requires w.Relayed() && Subsequence(accepted, offered) && InOrder(offered) && w.ExplainsAll(account, offered)
    ensures Copies(accepted, |accepted|, index) <= w.Openings(account)
  {
    SubsequenceInOrder(accepted, offered);
    SubsequenceMembers(accepted, offered);
    CopiesAreSources(accepted, |accepted|, index);
    RelaysCounted(w.relays, account);
    forall r | r in Sources(accepted, |accepted|, index) ensures r in RelaysFor(w.relays, |w.relays|, account) {
      var k := SourceOf(accepted, |accepted|, index, r);
      assert accepted[k] in offered && w.Explains(account, accepted[k]);
    }
    SubsetSize(Sources(accepted, |accepted|, index), RelaysFor(w.relays, |w.relays|, account));
  }

  /** The copies of an event that a client accepts never outnumber the openings of its bucket. */
  lemma CopiesWithinOpenings(b: Broker, client: Client, index: nat)
    requires b.Valid() && client in b.all
    ensures Copies(client.inbox.accepted, |client.inbox.accepted|, index) <= b.wire.Openings(client.account)
  {
    CopiesBounded(b.wire, client.account, client.inbox.accepted, client.inbox.offered, index);
  }

  lemma {:induction false} SomeRelay(relays: seq<Relay>, account: Id) returns (i: nat)
    requires RelaysOf(relays, account) >= 1
    ensures i < |relays| && relays[i].account == account
  {
    var n := |relays| - 1;
    if relays[n].account == account { i := n; } else { i := SomeRelay(relays[..n], account); }
  }

  lemma {:induction false} TwoRelays(relays: seq<Relay>, account: Id) returns (i: nat, j: nat)
    requires RelaysOf(relays, account) >= 2
    ensures i < j < |relays| && relays[i].account == account == relays[j].account
  {
    var n := |relays| - 1;
    if relays[n].account == account {
      i := SomeRelay(relays[..n], account);
      j := n;
    } else {
      i, j := TwoRelays(relays[..n], account);
    }
  }

  lemma AcceptedTwice(inbox: Inbox, d: Delivery, e: Delivery)
    ensures inbox.Offered(d, false).Offered(e, false).accepted == inbox.accepted + [d, e]
  {
  }

  /**
   The converse: in any open broker whose account's bucket has been opened twice or more, the next event
   can reach a client with two free places twice.
   */
  method DuplicateDelivery(b: Broker, client: Client, account: Id, event: Event) returns (ghost i: nat, ghost j: nat)
    requires b.Valid() && !b.cancelled && b.wire.Openings(account) >= 2
    requires client in Bucket(b.clients, account) && |client.events| + 2 <= QUEUE_CAPACITY
    modifies b`wire, b.all`events, b.all`inbox
    ensures b.Valid() && i != j
    ensures var n := |old(b.wire).Channel(account)|;
            client.inbox.accepted == old(client.inbox).accepted + [Delivery(i, n, event), Delivery(j, n, event)]
  {
    ghost var n := |b.wire.Channel(account)|;
    ghost var inbox := client.inbox;
    assert client in b.all;
    b.Publish(account, event);
    i, j := TwoRelays(b.wire.relays, account);
    ghost var w := b.wire;
    assert w.Channel(account)[n] == event && w.relays[i].cursor <= n && w.relays[j].cursor <= n;
    b.RelayStep(i, account, n, event);
    assert client.inbox == inbox.Offered(Delivery(i, n, event), false) && |client.events| < QUEUE_CAPACITY;
    assert b.wire.relays[j] == w.relays[j] && b.wire.Channel(account) == w.Channel(account);
    b.RelayStep(j, account, n, event);
    assert client.inbox == inbox.Offered(Delivery(i, n, event), false).Offered(Delivery(j, n, event), false);
    AcceptedTwice(inbox, Delivery(i, n, event), Delivery(j, n, event));
  }

  lemma OpenedTwice(account: Id)
    ensures Wire(map[], [], map[]).Opened(account).Opened(account)
         == Wire(map[], [Relay(account, 0, 0), Relay(account, 0, 0)], map[account := 2])
  {
    assert Wire(map[], [], map[]).Opened(account) == Wire(map[], [Relay(account, 0, 0)], map[account := 1]);
  }

  lemma AddedThenRemoved(c: Client)
    ensures Removed(Added(map[], c), c) == map[]
  {
    assert Bucket(map[], c.account) + {c} == {c};
    assert Added(map[], c) == map[c.account := {c}];
  }

  method ComeAndGo(account: Id) returns (b: Broker)
    ensures fresh(b) && fresh(b.all) && b.Valid() && !b.cancelled && b.clients == map[]
    ensures b.wire == Wire(map[], [], map[]).Opened(account)
  {
    b := new Broker();
    var early := b.Subscribe(account);
    AddedThenRemoved(early);
    assert b.clients == Added(map[], early) && b.all == {early};
    b.Unsubscribe(early);
  }

  /** One client leaves and another comes: the bucket is opened twice, and both relays run on. */
  method ReopenBucket(account: Id) returns (b: Broker, late: Client)
    ensures fresh(b) && b.Valid() && !b.cancelled && Bucket(b.clients, account) == {late} && late.account == account
    ensures late.events == [] && late.inbox == Inbox([], [], 0, 0)
    ensures b.wire == Wire(map[], [Relay(account, 0, 0), Relay(account, 0, 0)], map[account := 2])
    ensures fresh(b.all)
  {
    b := ComeAndGo(account);
    late := b.Subscribe(account);
    OpenedTwice(account);
    assert b.clients == Added(map[], late);
  }

  /** Relays outlive their bucket: after a client leaves and another comes, the newcomer gets one event twice. */
  method ReopenedBucketDuplicates(account: Id, event: Event)
    returns (b: Broker, late: Client, ghost i: nat, ghost j: nat)
    ensures late.account == account && i != j
    ensures late.inbox.accepted == [Delivery(i, 0, event), Delivery(j, 0, event)]
  {
    b, late := ReopenBucket(account);
    i, j := DuplicateDelivery(b, late, account, event);
  }

  /** A second Unsubscribe closes Done again as long as another client keeps the bucket. */
  method UnsubscribeTwiceClosesTwice(b: Broker, client: Client, other: Client)
    requires b.Valid() && client != other && {client, other} <= Bucket(b.clients, client.account)
    modifies b`clients, b`unsubscribed, b`orderly, client`done, client`closes
    ensures b.Valid() && client.closes == 2
  {
    assert client in Bucket(b.clients, client.account) && other in Bucket(b.clients, client.account);
    b.Unsubscribe(client);
    assert other in Bucket(b.clients, client.account);
    b.Unsubscribe(client);
  }

  /** Subscribing after Close reopens the bucket, and a late Unsubscribe then closes Done again. */
  method ResubscribeAfterCloseClosesTwice(account: Id) returns (b: Broker, client: Client)
    ensures b.Valid() && client in b.all && client.closes == 2
  {
    b := new Broker();
    client := b.Subscribe(account);
    b.Close();
    var other := b.Subscribe(account);
    b.Unsubscribe(client);
  }
}
