/**
 Whole requests: what each program of the protocol brings about when, in a state of any run, nothing else
 comes in between.
 */
module Programs {
  import opened Wrappers
  import opened Tables
  import opened Protocol
  import opened Isolation
  import opened Conduct
  import Cleanup
  import CleanupUndone

  lemma Next(steps: seq<Step>, s: State, step: Step)
    requires Run(steps) == Some(s) && Enabled(s, step)
    ensures Run(steps + [step]) == Some(Apply(s, step))
  {
    assert (steps + [step])[..|steps|] == steps;
  }

  lemma ThreadsUsed(steps: seq<Step>, t: Id)
    requires Run(steps).Some? && t !in Run(steps).value.past.used
    ensures t !in Run(steps).value.threads
  {
    RunKeeps(steps);
  }

  // ---------- /pair ----------

  /** Some other account has the token already. */
  ghost predicate Taken(s: State, token: Id) {
    exists a :: a in s.db.accounts && s.db.accounts[a].tokenHash == token
  }

  /** The code of session x can be typed now. */
  predicate Open(s: State, code: Id, x: Id) {
    && x in s.db.sessions && s.db.sessions[x].code == code
    && s.db.sessions[x].status == PendingPairing && s.now < s.db.sessions[x].expiresAt
  }

  lemma PairLooks(before: seq<Step>, t: Id, key: Key, row: Id, code: Id, url: Option<Id>, deadline: Option<Time>, x: Id)
    returns (s: State)
    requires Run(before).Some? && url.Some? == deadline.Some?
    requires t !in Run(before).value.past.used && row !in Run(before).value.past.used && t != row
    requires Upserted(Run(before).value, key, row, url, deadline).state != PairingState.Paired
    requires Open(Run(before).value, code, x)
    ensures Run(before + [Hook(Webhook(t, key, row, Command.Pair(code), url, deadline))] + [Hook(Look(t, Some(x)))])
            == Some(s)
    ensures var b := Run(before).value;
      && s.now == b.now && s.posted == b.posted && s.threads == b.threads[t := Pairing(key, x)]
      && s.past.used == b.past.used + {t, row}
      && s.db == b.db.(conversations := b.db.conversations[key := Upserted(b, key, row, url, deadline)])
  {
    var b := Run(before).value;
    ThreadsUsed(before, t);
    WebhookDecides(b, t, key, row, Command.Pair(code), url, deadline);
    var typed := Hook(Webhook(t, key, row, Command.Pair(code), url, deadline));
    Next(before, b, typed);
    LookDecides(Apply(b, typed), t, x);
    Next(before + [typed], Apply(b, typed), Hook(Look(t, Some(x))));
    s := Apply(Apply(b, typed), Hook(Look(t, Some(x))));
    assert s.threads == b.threads[t := Pairing(key, x)];
  }

  /** From the lookup to the commit. */
  lemma PairCommits(before: seq<Step>, t: Id, key: Key, row: Id, code: Id, url: Option<Id>, deadline: Option<Time>,
                    x: Id, account: Id, token: Id, at: Time) returns (s': State)
    requires Run(before).Some? && url.Some? == deadline.Some? && t != row && account != t && account != row
    requires {t, row, account} !! Run(before).value.past.used
    requires Upserted(Run(before).value, key, row, url, deadline).state != PairingState.Paired
    requires Open(Run(before).value, code, x) && !Taken(Run(before).value, token)
    ensures Run(before + [Hook(Webhook(t, key, row, Command.Pair(code), url, deadline))] + [Hook(Look(t, Some(x)))]
                + [Hook(Transact(t, account, token, at))]) == Some(s')
    ensures var s := Run(before).value;
            var session := s.db.sessions[x];
      && s'.now == s.now && s'.posted == s.posted && s'.threads == s.threads[t := Stamping(key, x, account)]
      && s'.db.accounts == s.db.accounts[account := Account(token, 60)]
      && s'.db.sessions == s.db.sessions[x := Session(session.tokenHash, code, SessionStatus.Paired, Some(account),
                                                      Some(key), Some(token), 253402300799000, Some(at))]
      && s'.db.conversations == s.db.conversations[key := Upserted(s, key, row, url, deadline)]
      && s'.db.inbound == s.db.inbound && s'.db.outbound == s.db.outbound
  {
    var s2 := PairLooks(before, t, key, row, code, url, deadline, x);
    var a, b := Hook(Webhook(t, key, row, Command.Pair(code), url, deadline)), Hook(Look(t, Some(x)));
    TransactDecides(s2, t, account, token, at);
    Next(before + [a] + [b], s2, Hook(Transact(t, account, token, at)));
    s' := Apply(s2, Hook(Transact(t, account, token, at)));
    assert s'.threads == Run(before).value.threads[t := Stamping(key, x, account)];
  }

  lemma PairAttaches(steps: seq<Step>, s: State, t: Id, at: Time) returns (s': State)
    requires Run(steps) == Some(s) && t in s.threads && s.threads[t].Stamping?
    requires s.threads[t].key in s.db.conversations && s.threads[t].account in s.db.accounts
    ensures Run(steps + [Hook(Stamp(t, at))] + [Hook(Attach(t))]) == Some(s')
    ensures var pc := s.threads[t];
            var c := s.db.conversations[pc.key];
      && s'.now == s.now && s'.posted == s.posted
      && s'.threads == s.threads[t := Rereading(pc.key, pc.session)]
      && s'.db == s.db.(conversations := s.db.conversations[pc.key :=
           Conversation(c.row, Some(pc.account), PairingState.Paired, c.url, c.deadline, Some(at))])
  {
    AttachWrites(s, t, at);
    Next(steps, s, Hook(Stamp(t, at)));
    var stamped := Apply(s, Hook(Stamp(t, at)));
    AttachWrites(stamped, t, at);
    Next(steps + [Hook(Stamp(t, at))], stamped, Hook(Attach(t)));
    s' := Apply(stamped, Hook(Attach(t)));
    assert s'.threads == s.threads[t := Rereading(s.threads[t].key, s.threads[t].session)];
  }

  lemma PairAnnounces(steps: seq<Step>, s: State, t: Id) returns (s': State)
    requires Run(steps) == Some(s) && t in s.threads && s.threads[t].Rereading?
    requires var x := s.threads[t].session; x in s.db.sessions && s.db.sessions[x].account.Some?
    ensures Run(steps + [Hook(Reread(t))] + [Hook(Announce(t))]) == Some(s')
    ensures var pc := s.threads[t];
      s' == s.(threads := s.threads - {t}, posted := s.posted + {
                 Posting(SessionChannel(pc.session), PairingComplete(pc.key)),
                 Posting(AccountChannel(s.db.sessions[pc.session].account.value), PairingComplete(pc.key))})
  {
    var pc := s.threads[t];
    RereadDecides(s, t);
    Next(steps, s, Hook(Reread(t)));
    var reread := Apply(s, Hook(Reread(t)));
    AnnouncesTwice(reread, t, pc.key, pc.session, s.db.sessions[pc.session].account.value);
    Next(steps + [Hook(Reread(t))], reread, Hook(Announce(t)));
    s' := Apply(reread, Hook(Announce(t)));
    assert s'.threads == s.threads - {t};
  }

  /** From the commit to the end. */
  lemma PairEnds(steps: seq<Step>, s: State, t: Id, at: Time) returns (s': State)
    requires Run(steps) == Some(s) && t in s.threads && s.threads[t].Stamping?
    requires s.threads[t].key in s.db.conversations && s.threads[t].account in s.db.accounts
    requires var x := s.threads[t].session; x in s.db.sessions && s.db.sessions[x].account.Some?
    ensures Run(steps + [Hook(Stamp(t, at))] + [Hook(Attach(t))] + [Hook(Reread(t))] + [Hook(Announce(t))]) == Some(s')
    ensures var pc := s.threads[t];
            var c := s.db.conversations[pc.key];
      && s'.now == s.now && s'.threads == s.threads - {t}
      && s'.posted == s.posted + {
           Posting(SessionChannel(pc.session), PairingComplete(pc.key)),
           Posting(AccountChannel(s.db.sessions[pc.session].account.value), PairingComplete(pc.key))}
      && s'.db == s.db.(conversations := s.db.conversations[pc.key :=
           Conversation(c.row, Some(pc.account), PairingState.Paired, c.url, c.deadline, Some(at))])
  {
    var attached := PairAttaches(steps, s, t, at);
    s' := PairAnnounces(steps + [Hook(Stamp(t, at))] + [Hook(Attach(t))], attached, t);
    assert s'.threads == s.threads - {t};
  }

  lemma SevenSteps(before: seq<Step>, a: Step, b: Step, c: Step, d: Step, e: Step, f: Step, g: Step)
    ensures before + [a] + [b] + [c] + [d] + [e] + [f] + [g] == before + [a, b, c, d, e, f, g]
  {
  }

  lemma ThreadGone(threads: map<Id, Pc>, t: Id, pc: Pc)
    requires t !in threads
    ensures threads[t := pc] - {t} == threads
  {
  }

  lemma WrittenTwice(conversations: map<Key, Conversation>, key: Key, c: Conversation, d: Conversation)
    ensures conversations[key := c][key := d] == conversations[key := d]
  {
  }

  /** The program of /pair, with the choices of a run that nothing disturbs. */
  function PairSteps(t: Id, key: Key, row: Id, code: Id, url: Option<Id>, deadline: Option<Time>, x: Id, account: Id,
                     token: Id, at: Time, later: Time): seq<Step>
  {
    [Hook(Webhook(t, key, row, Command.Pair(code), url, deadline)), Hook(Look(t, Some(x))),
     Hook(Transact(t, account, token, at)), Hook(Stamp(t, later)), Hook(Attach(t)),
     Hook(Reread(t)), Hook(Announce(t))]
  }

  /**
   /pair with an open code, typed in a conversation that is not paired: account, session and conversation
   are tied to each other, and both the session's own channel and the account's are told.
   */
  lemma PairAlone(before: seq<Step>, t: Id, key: Key, row: Id, code: Id, url: Option<Id>, deadline: Option<Time>, x: Id,
                  account: Id, token: Id, at: Time, later: Time) returns (s': State)
    requires Run(before).Some? && url.Some? == deadline.Some? && t != row && account != t && account != row
    requires {t, row, account} !! Run(before).value.past.used
    requires Upserted(Run(before).value, key, row, url, deadline).state != PairingState.Paired
    requires Open(Run(before).value, code, x) && !Taken(Run(before).value, token)
    ensures Run(before + PairSteps(t, key, row, code, url, deadline, x, account, token, at, later)) == Some(s')
    ensures var s := Run(before).value;
            var session, c := s.db.sessions[x], Upserted(s, key, row, url, deadline);
      && s'.now == s.now && s'.threads == s.threads
      && s'.posted == s.posted + {Posting(SessionChannel(x), PairingComplete(key)),
                                  Posting(AccountChannel(account), PairingComplete(key))}
      && s'.db.accounts == s.db.accounts[account := Account(token, 60)]
      && s'.db.sessions == s.db.sessions[x := Session(session.tokenHash, code, SessionStatus.Paired, Some(account),
                                                      Some(key), Some(token), 253402300799000, Some(at))]
      && s'.db.conversations == s.db.conversations[key :=
           Conversation(c.row, Some(account), PairingState.Paired, url, deadline, Some(later))]
      && s'.db.inbound == s.db.inbound && s'.db.outbound == s.db.outbound
  {
    var s := Run(before).value;
    ThreadsUsed(before, t);
    var committed := PairCommits(before, t, key, row, code, url, deadline, x, account, token, at);
    var a, b := Hook(Webhook(t, key, row, Command.Pair(code), url, deadline)), Hook(Look(t, Some(x)));
    var steps := before + [a] + [b] + [Hook(Transact(t, account, token, at))];
    s' := PairEnds(steps, committed, t, later);
    SevenSteps(before, a, b, Hook(Transact(t, account, token, at)), Hook(Stamp(t, later)), Hook(Attach(t)),
               Hook(Reread(t)), Hook(Announce(t)));
    ThreadGone(s.threads, t, Stamping(key, x, account));
    WrittenTwice(s.db.conversations, key, Upserted(s, key, row, url, deadline), s'.db.conversations[key]);
  }

  /** So an agent that waits with the token of the pending session hears of its pairing. */
  lemma AgentHearsPairing(before: seq<Step>, t: Id, key: Key, row: Id, code: Id, x: Id, account: Id, token: Id,
                          at: Time, u: Id)
    requires Run(before).Some? && t != row && account != t && account != row
    requires {t, row, account} !! Run(before).value.past.used
    requires Upserted(Run(before).value, key, row, None, None).state != PairingState.Paired
    requires Open(Run(before).value, code, x) && !Taken(Run(before).value, token)
    requires u in Run(before).value.threads && Run(before).value.threads[u] == Streaming(SessionChannel(x))
    ensures var steps := before + PairSteps(t, key, row, code, None, None, x, account, token, at, at);
            Run(steps).Some? && Enabled(Run(steps).value, Bearer(Deliver(u, PairingComplete(key))))
  {
    var s' := PairAlone(before, t, key, row, code, None, None, x, account, token, at, at);
    StreamDecides(s', u, PairingComplete(key));
  }

  /** /pair with a code that is not open, or a token that is taken, changes nothing but the callback. */
  lemma PairRefused(before: seq<Step>, t: Id, key: Key, row: Id, code: Id, url: Option<Id>, deadline: Option<Time>)
    requires Run(before).Some? && url.Some? == deadline.Some? && t != row
    requires t !in Run(before).value.past.used && row !in Run(before).value.past.used
    requires Upserted(Run(before).value, key, row, url, deadline).state != PairingState.Paired
    requires forall x :: !Open(Run(before).value, code, x)
    ensures var typed := Hook(Webhook(t, key, row, Command.Pair(code), url, deadline));
            var steps := before + [typed] + [Hook(Look(t, None))];
            Run(steps).Some?
            && var s, s' := Run(before).value, Run(steps).value;
            && s'.threads == s.threads && s'.posted == s.posted
            && s'.db == s.db.(conversations := s.db.conversations[key := Upserted(s, key, row, url, deadline)])
  {
    var s, typed := Run(before).value, Hook(Webhook(t, key, row, Command.Pair(code), url, deadline));
    ThreadsUsed(before, t);
    WebhookDecides(s, t, key, row, Command.Pair(code), url, deadline);
    Next(before, s, typed);
    var s1 := Apply(s, typed);
    forall x ensures !Enabled(s1, Hook(Look(t, Some(x)))) {
      LookDecides(s1, t, x);
      assert !Open(s, code, x);
    }
    LookDecides(s1, t, 0);
    Next(before + [typed], s1, Hook(Look(t, None)));
    assert Apply(s1, Hook(Look(t, None))).threads == s.threads;
  }

  // ---------- /unpair and chat lines ----------

  /** /unpair takes the account from a paired conversation. */
  lemma UnpairAlone(before: seq<Step>, t: Id, key: Key, row: Id, url: Option<Id>, deadline: Option<Time>)
    requires Run(before).Some? && url.Some? == deadline.Some? && t != row
    requires t !in Run(before).value.past.used && row !in Run(before).value.past.used
    requires Upserted(Run(before).value, key, row, url, deadline).state == PairingState.Paired
    ensures var steps := before + [Hook(Webhook(t, key, row, Unpair, url, deadline))] + [Hook(Detach(t))];
            Run(steps).Some?
            && var s, s' := Run(before).value, Run(steps).value;
            && var c := Upserted(s, key, row, url, deadline);
            && s'.threads == s.threads && s'.posted == s.posted
            && s'.db == s.db.(conversations := s.db.conversations[key :=
                 Conversation(c.row, None, Unpaired, url, deadline, c.pairedAt)])
  {
    var s, typed := Run(before).value, Hook(Webhook(t, key, row, Unpair, url, deadline));
    ThreadsUsed(before, t);
    WebhookDecides(s, t, key, row, Unpair, url, deadline);
    Next(before, s, typed);
    var s1 := Apply(s, typed);
    DetachWrites(s1, t);
    Next(before + [typed], s1, Hook(Detach(t)));
    var s2 := Apply(s1, Hook(Detach(t)));
    assert s2.threads == s.threads;
    assert s2.db.conversations == s.db.conversations[key := s2.db.conversations[key]];
  }

  /** A chat line of a paired conversation is stored for its account, and published to it. */
  lemma ChatAlone(before: seq<Step>, t: Id, key: Key, row: Id, url: Option<Id>, deadline: Option<Time>, message: Id)
    returns (s': State)
    requires Run(before).Some? && url.Some? == deadline.Some? && t != row && message != t && message != row
    requires {t, row, message} !! Run(before).value.past.used
    requires var c := Upserted(Run(before).value, key, row, url, deadline);
             c.state == PairingState.Paired && c.account.Some? && c.account.value in Run(before).value.db.accounts
    ensures Run(before + [Hook(Webhook(t, key, row, Chat, url, deadline))] + [Hook(Enqueue(t, message))]
                + [Hook(Publish(t))]) == Some(s')
    ensures var s, c := Run(before).value, Upserted(Run(before).value, key, row, url, deadline);
      && s'.now == s.now && s'.threads == s.threads
      && s'.posted == s.posted + {Posting(AccountChannel(c.account.value), Message(message, key))}
      && s'.db == s.db.(
           conversations := s.db.conversations[key := c],
           inbound := s.db.inbound[message := Inbound(c.account.value, key, url, deadline, Queued, s.now, None)])
  {
    var s, typed := Run(before).value, Hook(Webhook(t, key, row, Chat, url, deadline));
    ThreadsUsed(before, t);
    WebhookDecides(s, t, key, row, Chat, url, deadline);
    Next(before, s, typed);
    var s1 := Apply(s, typed);
    EnqueueWrites(s1, t, message);
    Next(before + [typed], s1, Hook(Enqueue(t, message)));
    var s2 := Apply(s1, Hook(Enqueue(t, message)));
    PublishPosts(s2, t);
    Next(before + [typed] + [Hook(Enqueue(t, message))], s2, Hook(Publish(t)));
    s' := Apply(s2, Hook(Publish(t)));
    assert s'.threads == s.threads;
  }

  /** So every live stream of the account hears it. */
  lemma StreamHearsChat(before: seq<Step>, t: Id, key: Key, row: Id, url: Option<Id>, deadline: Option<Time>,
                        message: Id, u: Id)
    requires Run(before).Some? && url.Some? == deadline.Some? && t != row && message != t && message != row
    requires {t, row, message} !! Run(before).value.past.used
    requires var c := Upserted(Run(before).value, key, row, url, deadline);
             && c.state == PairingState.Paired && c.account.Some? && c.account.value in Run(before).value.db.accounts
             && u in Run(before).value.threads
             && Run(before).value.threads[u] == Streaming(AccountChannel(c.account.value))
    ensures var steps := before + [Hook(Webhook(t, key, row, Chat, url, deadline))] + [Hook(Enqueue(t, message))]
                         + [Hook(Publish(t))];
            Run(steps).Some? && Enabled(Run(steps).value, Bearer(Deliver(u, Message(message, key))))
  {
    var s' := ChatAlone(before, t, key, row, url, deadline, message);
    StreamDecides(s', u, Message(message, key));
  }

  // ---------- a stream ----------

  /** There is always a snapshot for the drain to take. */
  lemma SnapshotExists(s: State, t: Id) returns (rows: seq<Item>)
    requires t in s.threads && s.threads[t].Queueing?
    ensures Enabled(s, Bearer(Queue(t, rows)))
  {
    var account := s.threads[t].account;
    var messages := set m | m in s.db.inbound && s.db.inbound[m].account == account && s.db.inbound[m].status == Queued;
    rows := CleanupUndone.PutBack(s.db, [], messages, messages);
    assert Cleanup.Ordered(s.db, rows);
    forall i | 0 <= i < |rows| ensures Listed(s.db, account, rows[i]) { assert rows[i] in rows; }
  }

  lemma SnapshotIds(s: State, t: Id, rows: seq<Item>)
    requires t in s.threads && s.threads[t].Queueing? && Enabled(s, Bearer(Queue(t, rows)))
    ensures forall m :: m in s.db.inbound ==>
              (m in Ids(rows) <==>
                 s.db.inbound[m].account == s.threads[t].account && s.db.inbound[m].status == Queued)
  {
    QueueDecides(s, t, rows);
    forall m | m in s.db.inbound
      ensures m in Ids(rows) <==> s.db.inbound[m].account == s.threads[t].account && s.db.inbound[m].status == Queued
    {
      if s.db.inbound[m].account == s.threads[t].account && s.db.inbound[m].status == Queued {
        assert Item(m, s.db.inbound[m].key) in rows;
      }
      if m in Ids(rows) {
        var i :| 0 <= i < |rows| && rows[i].id == m;
        assert rows[i] in rows;
      }
    }
  }

  function Ids(rest: seq<Item>): set<Id> {
    set i | 0 <= i < |rest| :: rest[i].id
  }

  /** The row of a message once the drain has written and marked what it had listed. */
  function Handled(row: Inbound, m: Id, ids: set<Id>, at: Time): Inbound {
    if m in ids then Inbound(row.account, row.key, row.url, row.deadline, Delivered, row.createdAt, Some(at)) else row
  }

  lemma FirstId(rest: seq<Item>)
    requires rest != []
    ensures Ids(rest) == {rest[0].id} + Ids(rest[1..])
  {
    forall id | id in Ids(rest) ensures id == rest[0].id || id in Ids(rest[1..]) {
      var i :| 0 <= i < |rest| && rest[i].id == id;
      if i > 0 { assert rest[1..][i - 1].id == id; }
    }
    forall id | id in Ids(rest[1..]) ensures id in Ids(rest) {
      var i :| 0 <= i < |rest[1..]| && rest[1..][i].id == id;
      assert rest[i + 1].id == id;
    }
  }

  /** From s to s' the thread wrote the listed events and marked their rows. */
  ghost predicate Drains(s: State, s': State, t: Id, rest: seq<Item>, at: Time) {
    && s'.now == s.now && s'.posted == s.posted && s'.past.used == s.past.used
    && s'.db == s.db.(inbound := s'.db.inbound) && s'.db.inbound.Keys == s.db.inbound.Keys
    && (forall m :: m in s.db.inbound ==> s'.db.inbound[m] == Handled(s.db.inbound[m], m, Ids(rest), at))
    && s.past.written <= s'.past.written
    && forall item :: item in rest ==> Written(t, Message(item.id, item.key)) in s'.past.written
  }

  lemma DrainsOneMore(s: State, s': State, s'': State, t: Id, rest: seq<Item>, at: Time)
    requires rest != [] && Drains(s, s', t, rest[..1], at) && Drains(s', s'', t, rest[1..], at)
    ensures Drains(s, s'', t, rest, at)
  {
    FirstId(rest);
    FirstId(rest[..1]);
    assert Ids(rest[..1]) == {rest[0].id};
    assert rest == rest[..1] + rest[1..];
  }

  lemma DrainOne(steps: seq<Step>, s: State, t: Id, at: Time) returns (s': State)
    requires Run(steps) == Some(s) && t in s.threads && s.threads[t].Draining? && s.threads[t].rest != []
    ensures Run(steps + [Bearer(Write(t))] + [Bearer(Mark(t, true, at))]) == Some(s')
    ensures s'.threads == s.threads[t := Draining(s.threads[t].account, s.threads[t].rest[1..])]
    ensures Drains(s, s', t, s.threads[t].rest[..1], at)
  {
    var rest := s.threads[t].rest;
    DrainWrites(s, t, true, at);
    Next(steps, s, Bearer(Write(t)));
    var written := Apply(s, Bearer(Write(t)));
    DrainWrites(written, t, true, at);
    Next(steps + [Bearer(Write(t))], written, Bearer(Mark(t, true, at)));
    s' := Apply(written, Bearer(Mark(t, true, at)));
    FirstId(rest[..1]);
    assert Ids(rest[..1]) == {rest[0].id};
    assert s'.threads == s.threads[t := Draining(s.threads[t].account, rest[1..])];
  }

  lemma {:induction false} DrainRows(steps: seq<Step>, s: State, t: Id, at: Time) returns (longer: seq<Step>, s': State)
    requires Run(steps) == Some(s) && t in s.threads && s.threads[t].Draining?
    ensures steps <= longer && Run(longer) == Some(s') && Drains(s, s', t, s.threads[t].rest, at)
    ensures s'.threads == s.threads[t := Draining(s.threads[t].account, [])]
    decreases |s.threads[t].rest|
  {
    var account, rest := s.threads[t].account, s.threads[t].rest;
    if rest == [] {
      longer, s' := steps, s;
      assert s.threads == s.threads[t := Draining(account, [])];
    } else {
      var s2 := DrainOne(steps, s, t, at);
      longer, s' := DrainRows(steps + [Bearer(Write(t))] + [Bearer(Mark(t, true, at))], s2, t, at);
      DrainsOneMore(s, s2, s', t, rest, at);
      assert s'.threads == s.threads[t := Draining(account, [])];
    }
  }

  /**
   A stream of an account first gets every message that is queued for it, each of which is marked, and then
   is live on the account's channel.
   */
  lemma DrainAlone(before: seq<Step>, t: Id, at: Time) returns (steps: seq<Step>, s': State)
    requires Run(before).Some? && t in Run(before).value.threads && Run(before).value.threads[t].Queueing?
    ensures before <= steps && Run(steps) == Some(s')
    ensures var s := Run(before).value;
            var account := s.threads[t].account;
      && s'.now == s.now && s'.posted == s.posted && s'.past.used == s.past.used
      && s'.threads == s.threads[t := Streaming(AccountChannel(account))]
      && s'.db == s.db.(inbound := s'.db.inbound) && s'.db.inbound.Keys == s.db.inbound.Keys
      && forall m :: m in s.db.inbound ==>
           var row := s.db.inbound[m];
           if row.account == account && row.status == Queued
           then
             && s'.db.inbound[m] ==
                  Inbound(row.account, row.key, row.url, row.deadline, Delivered, row.createdAt, Some(at))
             && Written(t, Message(m, row.key)) in s'.past.written
           else s'.db.inbound[m] == row
  {
    var s := Run(before).value;
    var account := s.threads[t].account;
    var rows := SnapshotExists(s, t);
    QueueDecides(s, t, rows);
    Next(before, s, Bearer(Queue(t, rows)));
    var drained, s2 := DrainRows(before + [Bearer(Queue(t, rows))], Apply(s, Bearer(Queue(t, rows))), t, at);
    StreamDecides(s2, t, Message(0, 0));
    Next(drained, s2, Bearer(Drained(t)));
    s' := Apply(s2, Bearer(Drained(t)));
    steps := drained + [Bearer(Drained(t))];
    assert s'.threads == s.threads[t := Streaming(AccountChannel(account))];
    SnapshotIds(s, t, rows);
    forall m | m in s.db.inbound && s.db.inbound[m].account == account && s.db.inbound[m].status == Queued
      ensures Written(t, Message(m, s.db.inbound[m].key)) in s'.past.written
    {
      assert Item(m, s.db.inbound[m].key) in rows;
    }
  }

  /** The token of a session that is paired with a living account opens a stream of that account. */
  lemma TokenOpensStream(before: seq<Step>, t: Id, token: Id, x: Id, account: Id, request: Request) returns (s': State)
    requires Run(before).Some? && t !in Run(before).value.past.used
    requires var db := Run(before).value.db;
             && x in db.sessions && db.sessions[x].tokenHash == token && db.sessions[x].status == SessionStatus.Paired
             && db.sessions[x].account == Some(account) && account in db.accounts
    ensures Run(before + [Bearer(Authenticate(t, token, x, request))] + [Bearer(Link(t, true))]) == Some(s')
    ensures var s := Run(before).value;
      && s'.now == s.now && s'.posted == s.posted && s'.db == s.db && s'.past.used == s.past.used + {t}
      && s'.threads == s.threads[t := if request == Events then Queueing(account)
                                      else Finding(account, request.message)]
  {
    var s := Run(before).value;
    TokenAdmits(s, t, token, x, request);
    BearerDecides(s, t, token, x, request);
    Next(before, s, Bearer(Authenticate(t, token, x, request)));
    var s1 := Apply(s, Bearer(Authenticate(t, token, x, request)));
    LinkDecides(s1, t, true);
    Next(before + [Bearer(Authenticate(t, token, x, request))], s1, Bearer(Link(t, true)));
    s' := Apply(s1, Bearer(Link(t, true)));
    assert s'.threads == s.threads[t := s'.threads[t]];
  }

  // ---------- a reply ----------

  /** A reply that may go out is recorded. */
  lemma ReplyRecords(before: seq<Step>, t: Id, at: Time, outbound: Id) returns (s': State)
    requires Run(before).Some? && t in Run(before).value.threads && Run(before).value.threads[t].Finding?
    requires outbound !in Run(before).value.past.used && InTime(Run(before).value, t, at)
    ensures Run(before + [Bearer(Find(t, at))] + [Bearer(Answer(t, outbound))]) == Some(s')
    ensures var s := Run(before).value;
            var pc := s.threads[t];
      && s'.now == s.now && s'.posted == s.posted && s'.threads == s.threads[t := Calling(outbound)]
      && s'.db == s.db.(outbound := s.db.outbound[outbound :=
           Outbound(pc.account, Some(pc.message), s.db.inbound[pc.message].key, OutboundStatus.Pending, None)])
  {
    RunKeeps(before);
    var s := Run(before).value;
    var pc := s.threads[t];
    assert InboundKept(s.past, s.db.accounts, s.now, pc.message, s.db.inbound[pc.message]);
    FindDecides(s, t, at);
    Next(before, s, Bearer(Find(t, at)));
    var s1 := Apply(s, Bearer(Find(t, at)));
    AnswerWrites(s1, t, outbound);
    Next(before + [Bearer(Find(t, at))], s1, Bearer(Answer(t, outbound)));
    s' := Apply(s1, Bearer(Answer(t, outbound)));
    assert s'.threads == s.threads[t := Calling(outbound)];
  }

  /** The message is the account's own, and its callback can be used at the clock reading. */
  predicate InTime(s: State, t: Id, at: Time)
    requires t in s.threads && s.threads[t].Finding?
  {
    var pc := s.threads[t];
    && pc.message in s.db.inbound && s.db.inbound[pc.message].account == pc.account
    && s.db.inbound[pc.message].url != None
    && (s.db.inbound[pc.message].deadline == None || at < s.db.inbound[pc.message].deadline.value)
  }

  /** A reply in time is stored with its message's conversation, and then says how the callback went. */
  lemma ReplyAlone(before: seq<Step>, t: Id, at: Time, outbound: Id, ok: bool, later: Time) returns (s': State)
    requires Run(before).Some? && t in Run(before).value.threads && Run(before).value.threads[t].Finding?
    requires outbound !in Run(before).value.past.used && InTime(Run(before).value, t, at)
    ensures Run(before + [Bearer(Find(t, at))] + [Bearer(Answer(t, outbound))] + [Bearer(Called(t, ok, later))])
            == Some(s')
    ensures var s := Run(before).value;
            var pc := s.threads[t];
      && s'.now == s.now && s'.posted == s.posted && s'.threads == s.threads - {t}
      && s'.db == s.db.(outbound := s.db.outbound[outbound :=
           Outbound(pc.account, Some(pc.message), s.db.inbound[pc.message].key,
                    if ok then Sent else OutboundStatus.Failed, if ok then Some(later) else None)])
  {
    var s := Run(before).value;
    var recorded := ReplyRecords(before, t, at, outbound);
    var steps := before + [Bearer(Find(t, at))] + [Bearer(Answer(t, outbound))];
    CalledWrites(recorded, t, ok, later);
    Next(steps, recorded, Bearer(Called(t, ok, later)));
    s' := Apply(recorded, Bearer(Called(t, ok, later)));
    assert s'.threads == s.threads - {t};
    assert s'.db.outbound == s.db.outbound[outbound := s'.db.outbound[outbound]];
  }

  /** And a reply out of time, or to another account's message, ends with nothing changed. */
  lemma ReplyRefused(before: seq<Step>, t: Id, at: Time)
    requires Run(before).Some? && t in Run(before).value.threads && Run(before).value.threads[t].Finding?
    requires !InTime(Run(before).value, t, at)
    ensures var s := Run(before).value;
            Run(before + [Bearer(Find(t, at))]) == Some(s.(threads := s.threads - {t}))
  {
    FindDecides(Run(before).value, t, at);
    Next(before, Run(before).value, Bearer(Find(t, at)));
  }

  // ---------- what the lookups of module Cleanup mean to a request ----------

  lemma OpenCodesPair(s: State, t: Id, x: Id)
    requires t in s.threads && s.threads[t].Looking?
    ensures CodeFinds(s.db, s.now, s.threads[t].code, x) <==> Enabled(s, Hook(Look(t, Some(x))))
  {
    LookDecides(s, t, x);
  }

  /** A token resolves to an account exactly if a stream that comes with it is the account's. */
  lemma ResolvingOpensStream(s: State, t: Id, token: Id, account: Id)
    requires t !in s.past.used
    ensures Cleanup.ResolvesTo(s.db, token, account) <==> exists x :: OpensStream(s, t, token, x, account)
  {
    forall x ensures OpensStream(s, t, token, x, account) <==>
                     && x in s.db.sessions && s.db.sessions[x].tokenHash == token && account in s.db.accounts
                     && s.db.sessions[x].status == SessionStatus.Paired && s.db.sessions[x].account == Some(account)
    {
      TokenAdmits(s, t, token, x, Events);
      if Enabled(s, Bearer(Authenticate(t, token, x, Events))) {
        BearerDecides(s, t, token, x, Events);
        var s1 := Apply(s, Bearer(Authenticate(t, token, x, Events)));
        if t in s1.threads && s1.threads[t].Linking? { LinkDecides(s1, t, true); }
      }
    }
    if Cleanup.ResolvesTo(s.db, token, account) {
      var x :| TokenFinds(s.db, token, x) && s.db.sessions[x].status == SessionStatus.Paired
               && s.db.sessions[x].account == Some(account);
      assert OpensStream(s, t, token, x, account);
    }
    if x :| OpensStream(s, t, token, x, account) {
      assert TokenFinds(s.db, token, x);
    }
  }

  ghost predicate OpensStream(s: State, t: Id, token: Id, x: Id, account: Id) {
    && Enabled(s, Bearer(Authenticate(t, token, x, Events)))
    && var s1 := Apply(s, Bearer(Authenticate(t, token, x, Events)));
    && Enabled(s1, Bearer(Link(t, true)))
    && var s2 := Apply(s1, Bearer(Link(t, true)));
    && t in s2.threads && s2.threads[t] == Queueing(account)
  }

  /** And a message can be answered exactly if a reply to it goes on. */
  lemma AnswerableGoesOn(s: State, t: Id, at: Time)
    requires t in s.threads && s.threads[t].Finding?
    ensures Enabled(s, Bearer(Find(t, at)))
    ensures Cleanup.CanAnswer(s.db, s.threads[t].account, s.threads[t].message, at) <==>
              t in Apply(s, Bearer(Find(t, at))).threads
  {
    FindDecides(s, t, at);
  }
}
