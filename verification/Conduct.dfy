/**
 What each step of the protocol does, said in the columns of the rows, the channels and the threads: when
 it may happen, where it takes its request, and all that it writes.
 */
module Conduct {
  import opened Wrappers
  import opened Tables
  import opened Protocol

  // ---------- the webhook ----------

  /** The row that a webhook's upsert returns: a new one, or the old one with this request's callback. */
  function Upserted(s: State, key: Key, row: Id, url: Option<Id>, deadline: Option<Time>): Conversation {
    if key in s.db.conversations
    then
      var c := s.db.conversations[key];
      Conversation(c.row, c.account, c.state, url, deadline, c.pairedAt)
    else Conversation(row, None, Unpaired, url, deadline, None)
  }

  /**
   A webhook may come at any time. /pair goes on exactly from an unpaired conversation, /unpair exactly
   from a paired one, and a chat line exactly from one that is paired with an account.
   */
  lemma WebhookDecides(s: State, t: Id, key: Key, row: Id, command: Command, url: Option<Id>, deadline: Option<Time>)
    requires t !in s.past.used && row !in s.past.used && t != row && url.Some? == deadline.Some?
    requires t !in s.threads
    ensures var step, c := Hook(Webhook(t, key, row, command, url, deadline)), Upserted(s, key, row, url, deadline);
      && Enabled(s, step)
      && var s' := Apply(s, step);
      && s'.now == s.now && s'.posted == s.posted && s'.past.used == s.past.used + {t, row}
      && s'.db == s.db.(conversations := s.db.conversations[key := c])
      && (forall code :: command == Pair(code) ==>
            s'.threads == if c.state != PairingState.Paired then s.threads[t := Looking(key, code)] else s.threads)
      && (command == Unpair ==>
            s'.threads == if c.state == PairingState.Paired then s.threads[t := Unpairing(key)] else s.threads)
      && (command == Chat ==>
            s'.threads == if c.state == PairingState.Paired && c.account.Some?
                          then s.threads[t := Enqueueing(key, c.account.value, url, deadline)] else s.threads)
      && (command == Idle ==> s'.threads == s.threads)
  {
    assert s.threads - {t} == s.threads;
  }

  /** A code stands for a pending session whose time is not past, and for no other. */
  lemma LookDecides(s: State, t: Id, x: Id)
    requires t in s.threads && s.threads[t].Looking?
    ensures var found, none, pc := Hook(Look(t, Some(x))), Hook(Look(t, None)), s.threads[t];
      && (Enabled(s, found) <==>
            && x in s.db.sessions && s.db.sessions[x].code == pc.code
            && s.db.sessions[x].status == PendingPairing && s.now < s.db.sessions[x].expiresAt)
      && (Enabled(s, found) ==> Apply(s, found) == s.(threads := s.threads[t := Pairing(pc.key, x)]))
      && (Enabled(s, none) <==> !exists y :: y in s.db.sessions && Enabled(s, Hook(Look(t, Some(y)))))
      && (Enabled(s, none) ==> Apply(s, none) == s.(threads := s.threads - {t}))
  {
    forall y ensures Enabled(s, Hook(Look(t, Some(y)))) <==> CodeFinds(s.db, s.now, s.threads[t].code, y) {}
  }

  /** The session's row after the transaction: paired if it was pending, and with the new token in any case. */
  function Transacted(row: Session, account: Id, token: Id, key: Key, at: Time): Session {
    if row.status == PendingPairing
    then Session(row.tokenHash, row.code, SessionStatus.Paired, Some(account), Some(key), Some(token),
                 253402300799000, Some(at))
    else Session(row.tokenHash, row.code, row.status, row.account, row.key, Some(token), row.expiresAt, row.pairedAt)
  }

  /** A token that another account has rolls everything back; nothing else does. */
  lemma TransactDecides(s: State, t: Id, account: Id, token: Id, at: Time)
    requires t in s.threads && s.threads[t].Pairing? && account !in s.past.used
    ensures var step, pc := Hook(Transact(t, account, token, at)), s.threads[t];
      && Enabled(s, step)
      && var s' := Apply(s, step);
      && s'.now == s.now && s'.posted == s.posted
      && if exists a :: a in s.db.accounts && s.db.accounts[a].tokenHash == token
         then s'.db == s.db && s'.past == s.past && s'.threads == s.threads - {t}
         else
           && s'.threads == s.threads[t := Stamping(pc.key, pc.session, account)]
           && s'.past.used == s.past.used + {account}
           && s'.db.accounts == s.db.accounts[account := Account(token, 60)]
           && s'.db.sessions == (if pc.session !in s.db.sessions then s.db.sessions
                                 else s.db.sessions[pc.session :=
                                   Transacted(s.db.sessions[pc.session], account, token, pc.key, at)])
           && s'.db.conversations == s.db.conversations
           && s'.db.inbound == s.db.inbound && s'.db.outbound == s.db.outbound
  {
    CommitWrites(s.db, s.threads[t].session, account, token, s.threads[t].key, at);
  }

  lemma CommitWrites(db: Db, session: Id, account: Id, token: Id, key: Key, at: Time)
    ensures Committed(db, session, account, token, key, at) ==
            if exists a :: a in db.accounts && db.accounts[a].tokenHash == token then None
            else Some(Db(db.accounts[account := Account(token, 60)],
                         if session !in db.sessions then db.sessions
                         else db.sessions[session := Transacted(db.sessions[session], account, token, key, at)],
                         db.conversations, db.inbound, db.outbound))
  {
    var committed := Committed(db, session, account, token, key, at);
    if committed.Some? && session in db.sessions {
      assert committed.value.sessions ==
             db.sessions[session := Transacted(db.sessions[session], account, token, key, at)];
    }
  }

  /** The conversation is paired at the clock reading taken just before, unless it or the account is gone. */
  lemma AttachWrites(s: State, t: Id, at: Time)
    requires t in s.threads && (s.threads[t].Stamping? || s.threads[t].Attaching?)
    ensures var pc := s.threads[t];
      && (pc.Stamping? ==>
            && Enabled(s, Hook(Stamp(t, at)))
            && Apply(s, Hook(Stamp(t, at))) ==
               s.(threads := s.threads[t := Attaching(pc.key, pc.session, pc.account, at)]))
      && (pc.Attaching? ==>
            && Enabled(s, Hook(Attach(t))) && Enabled(s, Hook(AttachFails(t)))
            && Apply(s, Hook(AttachFails(t))) == s.(threads := s.threads[t := Rereading(pc.key, pc.session)])
            && var s' := Apply(s, Hook(Attach(t)));
            && s'.now == s.now && s'.posted == s.posted && s'.past.used == s.past.used
            && s'.threads == s.threads[t := Rereading(pc.key, pc.session)]
            && if pc.key !in s.db.conversations || pc.account !in s.db.accounts
               then s'.db == s.db && s'.past == s.past
               else
                 var c := s.db.conversations[pc.key];
                 s'.db == s.db.(conversations := s.db.conversations[pc.key :=
                   Conversation(c.row, Some(pc.account), PairingState.Paired, c.url, c.deadline, Some(pc.at))]))
  {
  }

  /** The session is read again; one that is gone or has lost its account is not announced. */
  lemma RereadDecides(s: State, t: Id)
    requires t in s.threads && s.threads[t].Rereading?
    ensures var pc := s.threads[t];
      && Enabled(s, Hook(Reread(t)))
      && Apply(s, Hook(Reread(t))) == s.(threads :=
           if pc.session in s.db.sessions && s.db.sessions[pc.session].account.Some?
           then s.threads[t := Announcing(pc.key, pc.session, s.db.sessions[pc.session].account.value)]
           else s.threads - {t})
  {
  }

  /** The announcement goes to whoever waits on the session and to whoever listens to its account. */
  lemma AnnouncesTwice(s: State, t: Id, key: Key, session: Id, account: Id)
    requires t in s.threads && s.threads[t] == Announcing(key, session, account)
    ensures var step := Hook(Announce(t));
      && Enabled(s, step)
      && Apply(s, step).posted == s.posted + {Posting(SessionChannel(session), PairingComplete(key)),
                                              Posting(AccountChannel(account), PairingComplete(key))}
      && Apply(s, step) == s.(posted := Apply(s, step).posted, threads := s.threads - {t})
  {
  }

  /** So the agent that waits with the token of a pending session gets it. */
  lemma WaitingStreamHears(s: State, t: Id, u: Id, key: Key, session: Id, account: Id)
    requires t in s.threads && s.threads[t] == Announcing(key, session, account)
    requires u in s.threads && s.threads[u] == Streaming(SessionChannel(session))
    ensures Enabled(s, Hook(Announce(t)))
    ensures var s' := Apply(s, Hook(Announce(t)));
      && Enabled(s', Bearer(Deliver(u, PairingComplete(key))))
      && var s'' := Apply(s', Bearer(Deliver(u, PairingComplete(key))));
         Written(u, PairingComplete(key)) in s''.past.written && s''.threads == s'.threads
  {
  }

  /** /unpair takes the account off and keeps the time of the last pairing. */
  lemma DetachWrites(s: State, t: Id)
    requires t in s.threads && s.threads[t].Unpairing?
    ensures var step, key := Hook(Detach(t)), s.threads[t].key;
      && Enabled(s, step)
      && Apply(s, step) == s.(
           threads := s.threads - {t},
           db := if key !in s.db.conversations then s.db
                 else
                   var c := s.db.conversations[key];
                   s.db.(conversations := s.db.conversations[key :=
                     Conversation(c.row, None, Unpaired, c.url, c.deadline, c.pairedAt)]))
  {
  }

  /** A chat line becomes a queued message of the account, if the account still exists. */
  lemma EnqueueWrites(s: State, t: Id, message: Id)
    requires t in s.threads && s.threads[t].Enqueueing? && message !in s.past.used
    ensures var step, pc := Hook(Enqueue(t, message)), s.threads[t];
      && Enabled(s, step)
      && var s' := Apply(s, step);
      && s'.now == s.now && s'.posted == s.posted
      && if pc.account !in s.db.accounts
         then s'.db == s.db && s'.past == s.past && s'.threads == s.threads - {t}
         else
           && s'.db == s.db.(inbound := s.db.inbound[message :=
                Inbound(pc.account, pc.key, pc.url, pc.deadline, Queued, s.now, None)])
           && s'.past.used == s.past.used + {message}
           && s'.threads == s.threads[t := Publishing(pc.key, pc.account, message)]
  {
  }

  lemma PublishPosts(s: State, t: Id)
    requires t in s.threads && s.threads[t].Publishing?
    ensures var step, pc := Hook(Publish(t)), s.threads[t];
      && Enabled(s, step)
      && Apply(s, step) == s.(threads := s.threads - {t}, posted :=
           s.posted + {Posting(AccountChannel(pc.account), Message(pc.message, pc.key))})
  {
  }

  // ---------- bearers of a session token ----------

  /** A token is good exactly while its session is pending or paired. */
  lemma TokenAdmits(s: State, t: Id, token: Id, x: Id, request: Request)
    ensures Enabled(s, Bearer(Authenticate(t, token, x, request))) <==>
              && t !in s.past.used && x in s.db.sessions && s.db.sessions[x].tokenHash == token
              && (s.db.sessions[x].status == PendingPairing || s.db.sessions[x].status == SessionStatus.Paired)
  {
  }

  /** Without an account behind it, its bearer may only wait for events of the session itself. */
  lemma BearerDecides(s: State, t: Id, token: Id, x: Id, request: Request)
    requires Enabled(s, Bearer(Authenticate(t, token, x, request)))
    ensures x in s.db.sessions
    ensures var s', row := Apply(s, Bearer(Authenticate(t, token, x, request))), s.db.sessions[x];
      && s'.db == s.db && s'.now == s.now && s'.posted == s.posted && s'.past.used == s.past.used + {t}
      && s'.threads ==
           if row.status == SessionStatus.Paired && row.account.Some?
           then s.threads[t := Linking(x, row.account.value, request)]
           else if request == Events then s.threads[t := Streaming(SessionChannel(x))]
           else s.threads - {t}
  {
    assert Apply(s, Bearer(Authenticate(t, token, x, request))) == AuthenticateStep(s, t, x, request);
  }

  /** The linked account is looked up, and what is not found is treated like a session without one. */
  lemma LinkDecides(s: State, t: Id, ok: bool)
    requires t in s.threads && s.threads[t].Linking?
    ensures var step, pc := Bearer(Link(t, ok)), s.threads[t];
      && Enabled(s, step)
      && Apply(s, step) == s.(threads :=
           if ok && pc.account in s.db.accounts
           then s.threads[t := if pc.request == Events then Queueing(pc.account)
                               else Finding(pc.account, pc.request.message)]
           else if pc.request == Events then s.threads[t := Streaming(SessionChannel(pc.session))]
           else s.threads - {t})
  {
  }

  /** The snapshot of a drain: each queued message of the account, once, the oldest first, and nothing else. */
  lemma QueueDecides(s: State, t: Id, rows: seq<Item>)
    requires t in s.threads && s.threads[t].Queueing?
    ensures var step, account := Bearer(Queue(t, rows)), s.threads[t].account;
      && (Enabled(s, step) <==>
            && (forall item :: item in rows <==>
                  && item.id in s.db.inbound && s.db.inbound[item.id].account == account
                  && s.db.inbound[item.id].status == Queued && s.db.inbound[item.id].key == item.key)
            && (forall i, j :: 0 <= i < j < |rows| ==>
                  && rows[i] != rows[j] && rows[i].id in s.db.inbound && rows[j].id in s.db.inbound
                  && s.db.inbound[rows[i].id].createdAt <= s.db.inbound[rows[j].id].createdAt))
      && (Enabled(s, step) ==> Apply(s, step) == s.(threads := s.threads[t := Draining(account, rows)]))
  {
    var account := s.threads[t].account;
    if Enabled(s, Bearer(Queue(t, rows))) {
      forall item | item in rows ensures Listed(s.db, account, item) {
        var i :| 0 <= i < |rows| && rows[i] == item;
        assert Listed(s.db, account, rows[i]);
      }
      forall i, j | 0 <= i < j < |rows| ensures rows[i].id in s.db.inbound && rows[j].id in s.db.inbound {
        assert rows[i] in rows && rows[j] in rows;
      }
    }
    if forall item :: item in rows <==>
        && item.id in s.db.inbound && s.db.inbound[item.id].account == account
        && s.db.inbound[item.id].status == Queued && s.db.inbound[item.id].key == item.key
    {
      forall i | 0 <= i < |rows| ensures Listed(s.db, account, rows[i]) { assert rows[i] in rows; }
    }
  }

  /** One turn of the drain: the event goes out in full, and then its row is marked at its own time. */
  lemma DrainWrites(s: State, t: Id, ok: bool, at: Time)
    requires t in s.threads && (s.threads[t].Draining? || s.threads[t].Marking?) && s.threads[t].rest != []
    ensures var pc := s.threads[t];
      && var item := pc.rest[0];
      && (pc.Draining? ==>
            && Enabled(s, Bearer(Write(t)))
            && Apply(s, Bearer(Write(t))) == s.(
                 threads := s.threads[t := Marking(pc.account, pc.rest)],
                 past := s.past.(written := s.past.written + {Written(t, Message(item.id, item.key))})))
      && (pc.Marking? ==>
            && Enabled(s, Bearer(Mark(t, ok, at)))
            && var s' := Apply(s, Bearer(Mark(t, ok, at)));
            && s'.now == s.now && s'.posted == s.posted && s'.past.used == s.past.used
            && s'.past.written == s.past.written
            && s'.threads == s.threads[t := Draining(pc.account, pc.rest[1..])]
            && if !ok || item.id !in s.db.inbound then s'.db == s.db
               else
                 var m := s.db.inbound[item.id];
                 s'.db == s.db.(inbound := s.db.inbound[item.id :=
                   Inbound(m.account, m.key, m.url, m.deadline, Delivered, m.createdAt, Some(at))]))
  {
  }

  /** After the drain, or when a write breaks it off, the stream is live on its account's channel. */
  lemma StreamDecides(s: State, t: Id, event: Event)
    requires t in s.threads
    ensures var pc := s.threads[t];
      && (Enabled(s, Bearer(Drained(t))) <==> pc.Queueing? || pc.Draining?)
      && (pc.Queueing? || pc.Draining? ==>
            Apply(s, Bearer(Drained(t))) == s.(threads := s.threads[t := Streaming(AccountChannel(pc.account))]))
      && (Enabled(s, Bearer(Deliver(t, event))) <==> pc.Streaming? && Posting(pc.channel, event) in s.posted)
      && (Enabled(s, Bearer(Deliver(t, event))) ==>
            Apply(s, Bearer(Deliver(t, event))) ==
              s.(past := s.past.(written := s.past.written + {Written(t, event)})))
  {
  }

  /** A reply finds its message exactly if it is the account's own and its callback can still be used. */
  lemma FindDecides(s: State, t: Id, at: Time)
    requires t in s.threads && s.threads[t].Finding?
    ensures var step, pc := Bearer(Find(t, at)), s.threads[t];
      && Enabled(s, step)
      && Apply(s, step) == s.(threads :=
           if && pc.message in s.db.inbound && s.db.inbound[pc.message].account == pc.account
              && s.db.inbound[pc.message].url != None
              && (s.db.inbound[pc.message].deadline == None || at < s.db.inbound[pc.message].deadline.value)
           then s.threads[t := Replying(pc.account, pc.message, s.db.inbound[pc.message].key)]
           else s.threads - {t})
  {
  }

  /** The reply is recorded as pending before the callback goes out. */
  lemma AnswerWrites(s: State, t: Id, outbound: Id)
    requires t in s.threads && s.threads[t].Replying? && outbound !in s.past.used
    ensures var step, pc := Bearer(Answer(t, outbound)), s.threads[t];
      && Enabled(s, step)
      && var s' := Apply(s, step);
      && s'.now == s.now && s'.posted == s.posted
      && if pc.account !in s.db.accounts || pc.message !in s.db.inbound
         then s'.db == s.db && s'.past == s.past && s'.threads == s.threads - {t}
         else
           && s'.past == s.past.(used := s.past.used + {outbound})
           && s'.threads == s.threads[t := Calling(outbound)]
           && s'.db == s.db.(outbound := s.db.outbound[outbound :=
                Outbound(pc.account, Some(pc.message), pc.key, OutboundStatus.Pending, None)])
  {
  }

  /** And settled by how it went. */
  lemma CalledWrites(s: State, t: Id, ok: bool, at: Time)
    requires t in s.threads && s.threads[t].Calling?
    ensures var step, outbound := Bearer(Called(t, ok, at)), s.threads[t].outbound;
      && Enabled(s, step)
      && Apply(s, step) == s.(
           threads := s.threads - {t},
           db := if outbound !in s.db.outbound then s.db
                 else
                   var o := s.db.outbound[outbound];
                   s.db.(outbound := s.db.outbound[outbound :=
                     if ok then Outbound(o.account, o.inbound, o.key, Sent, Some(at))
                     else Outbound(o.account, o.inbound, o.key, Failed, o.sentAt)]))
  {
  }

  // ---------- sessions, the dashboard and the clock ----------

  /** A session is made pending and bare; a token or a code that any other row has is refused. */
  lemma CreateDecides(s: State, x: Id, token: Id, code: Id, expiresAt: Time)
    requires x !in s.past.used
    ensures var step := Other(Create(x, token, code, expiresAt));
      && Enabled(s, step)
      && Apply(s, step) ==
         if exists y :: y in s.db.sessions && (s.db.sessions[y].tokenHash == token || s.db.sessions[y].code == code)
         then s
         else s.(past := s.past.(used := s.past.used + {x}), db := s.db.(sessions := s.db.sessions[x :=
                   Session(token, code, PendingPairing, None, None, None, expiresAt, None)]))
  {
  }

  /** A status request goes on to write exactly for a pending session whose time is past by its own clock. */
  lemma StatusDecides(s: State, t: Id, x: Id, at: Time)
    ensures var step := Other(Status(t, x, at));
      && (Enabled(s, step) <==>
            && t !in s.past.used && x in s.db.sessions
            && s.db.sessions[x].status == PendingPairing && s.db.sessions[x].expiresAt < at)
      && (Enabled(s, step) ==>
            Apply(s, step) == s.(past := s.past.(used := s.past.used + {t}), threads := s.threads[t := Expiring(x)]))
    ensures t in s.threads && s.threads[t] == Expiring(x) ==>
      && Enabled(s, Other(ExpireStatus(t)))
      && Apply(s, Other(ExpireStatus(t))) == s.(
           threads := s.threads - {t},
           db := if x !in s.db.sessions then s.db
                 else s.db.(sessions := s.db.sessions[x := s.db.sessions[x].(status := SessionStatus.Expired)]))
  {
  }

  /** The statements of the dashboard, the clock, and a request that is cut off. */
  lemma DashboardWrites(s: State, x: Id, d: nat)
    ensures Enabled(s, Other(Tick(d))) && Apply(s, Other(Tick(d))) == s.(now := s.now + d)
    ensures Enabled(s, Other(Disconnect(x)))
    ensures Apply(s, Other(Disconnect(x))) == s.(db :=
              if x !in s.db.sessions then s.db
              else s.db.(sessions := s.db.sessions[x := s.db.sessions[x].(status := Disconnected)]))
    ensures Enabled(s, Other(RemoveSession(x)))
    ensures Apply(s, Other(RemoveSession(x))) == s.(db := s.db.(sessions := s.db.sessions - {x}))
    ensures Enabled(s, Other(Abandon(x))) <==> x in s.threads
    ensures x in s.threads ==> Apply(s, Other(Abandon(x))) == s.(threads := s.threads - {x})
  {
  }

  lemma ConversationRemoved(s: State, row: Id, k: Key)
    ensures Enabled(s, Other(RemoveConversation(row)))
    ensures var s' := Apply(s, Other(RemoveConversation(row)));
      && s' == s.(db := s.db.(conversations := s'.db.conversations))
      && (k in s'.db.conversations <==> k in s.db.conversations && s.db.conversations[k].row != row)
      && (k in s'.db.conversations ==> s'.db.conversations[k] == s.db.conversations[k])
  {
  }

  /** An account takes its messages and replies with it; what else referred to them or to it is set to null. */
  lemma AccountRemoved(s: State, account: Id, x: Id, k: Key, m: Id, o: Id)
    ensures Enabled(s, Other(RemoveAccount(account)))
    ensures var s' := Apply(s, Other(RemoveAccount(account)));
            var db, db' := s.db, s'.db;
      && s' == s.(db := db') && db'.accounts == db.accounts - {account}
      && db'.sessions.Keys == db.sessions.Keys && db'.conversations.Keys == db.conversations.Keys
      && (x in db.sessions ==> db'.sessions[x] == db.sessions[x].(account :=
            if db.sessions[x].account == Some(account) then None else db.sessions[x].account))
      && (k in db.conversations ==> db'.conversations[k] == db.conversations[k].(account :=
            if db.conversations[k].account == Some(account) then None else db.conversations[k].account))
      && (m in db'.inbound <==> m in db.inbound && db.inbound[m].account != account)
      && (m in db'.inbound ==> db'.inbound[m] == db.inbound[m])
      && (o in db'.outbound <==> o in db.outbound && db.outbound[o].account != account)
      && (o in db'.outbound ==> db'.outbound[o] == db.outbound[o].(inbound :=
            if && db.outbound[o].inbound.Some? && db.outbound[o].inbound.value in db.inbound
               && db.inbound[db.outbound[o].inbound.value].account == account
            then None else db.outbound[o].inbound))
  {
  }

  /** A new relay token is refused only if another account has it. */
  lemma RegenerateDecides(s: State, account: Id, token: Id)
    ensures var step := Other(Regenerate(account, token));
      && Enabled(s, step)
      && Apply(s, step) ==
         if account !in s.db.accounts
            || exists a :: a in s.db.accounts && a != account && s.db.accounts[a].tokenHash == token
         then s
         else s.(db := s.db.(accounts := s.db.accounts[account :=
                   Account(token, s.db.accounts[account].rateLimit)]))
  {
  }

  /** The job: a queued message expires exactly if its deadline is past, and a session goes exactly if it is stale. */
  lemma JobWrites(s: State, m: Id, x: Id)
    ensures Enabled(s, Other(ExpireMessages)) && Enabled(s, Other(ExpireSessions))
    ensures var s' := Apply(s, Other(ExpireMessages));
      && s' == s.(db := s.db.(inbound := s'.db.inbound)) && s'.db.inbound.Keys == s.db.inbound.Keys
      && (m in s.db.inbound ==>
            var row := s.db.inbound[m];
            s'.db.inbound[m] ==
              if row.status == Queued && row.deadline != None && row.deadline.value < s.now
              then row.(status := InboundStatus.Expired) else row)
    ensures var s' := Apply(s, Other(ExpireSessions));
      && s' == s.(db := s.db.(sessions := s'.db.sessions))
      && (x in s'.db.sessions <==>
            && x in s.db.sessions
            && (s.db.sessions[x].status == SessionStatus.Paired
                || (s.db.sessions[x].status == PendingPairing && s.now <= s.db.sessions[x].expiresAt)))
      && (x in s'.db.sessions ==> s'.db.sessions[x] == s.db.sessions[x])
  {
  }
}
