/** What the invariant and the lifecycle give a user of the relay, in every interleaving. */
module Guarantees {
  import opened Wrappers
  import opened Tables
  import opened Protocol
  import opened Isolation
  import opened Lifecycle

  /** The conversation whose /pair made the account. */
  function Home(h: Past, account: Id): Option<Key> {
    if account in h.minted then Some(h.minted[account].key) else None
  }

  /** The session whose code that /pair used. */
  function Owner(h: Past, account: Id): Option<Id> {
    if account in h.minted then Some(h.minted[account].session) else None
  }

  /**
   End-to-end isolation, even when several /pair requests race on one code: whatever mentions an
   account mentions the one conversation it was made for, and a stream that gets that conversation's
   messages came with the token of the session whose code the conversation typed.
   */
  lemma {:induction false} RunIsolates(steps: seq<Step>)
    requires Run(steps).Some?
    ensures var s := Run(steps).value;
      && (forall x :: x in s.db.sessions && s.db.sessions[x].account.Some? ==>
            && Home(s.past, s.db.sessions[x].account.value) == s.db.sessions[x].key
            && Owner(s.past, s.db.sessions[x].account.value) == Some(x))
      && (forall k :: k in s.db.conversations && s.db.conversations[k].account.Some? ==>
            Home(s.past, s.db.conversations[k].account.value) == Some(k))
      && (forall m :: m in s.db.inbound ==> Home(s.past, s.db.inbound[m].account) == Some(s.db.inbound[m].key))
      && (forall o :: o in s.db.outbound ==> Home(s.past, s.db.outbound[o].account) == Some(s.db.outbound[o].key))
      && (forall p :: p in s.posted && p.event.Message? ==>
            p.channel.AccountChannel? && Home(s.past, p.channel.account) == Some(p.event.key))
      && (forall w :: w in s.past.written && w.event.Message? ==>
            && w.stream in s.past.bearers
            && Home(s.past, s.past.bearers[w.stream].account) == Some(w.event.key)
            && Owner(s.past, s.past.bearers[w.stream].account) == Some(s.past.bearers[w.stream].session))
  {
    RunKeeps(steps);
    var s := Run(steps).value;
    forall x | x in s.db.sessions ensures SessionKept(s.past, s.db.accounts, x, s.db.sessions[x]) {}
    forall k | k in s.db.conversations ensures ConversationKept(s.past, s.db.accounts, k, s.db.conversations[k]) {}
    forall m | m in s.db.inbound ensures InboundKept(s.past, s.db.accounts, s.now, m, s.db.inbound[m]) {}
    forall o | o in s.db.outbound ensures OutboundKept(s.past, s.db, o, s.db.outbound[o]) {}
    forall p | p in s.posted ensures Addressed(s.past, p) {}
    forall w | w in s.past.written ensures Own(s.past.bearers, s.past.inbox, w) {}
  }

  /** Pending rows are bare, paired rows have the sentinel expiry, and an account goes only with the account itself. */
  lemma {:induction false} RunSessions(steps: seq<Step>, x: Id)
    requires Run(steps).Some? && x in Run(steps).value.db.sessions
    ensures var s := Run(steps).value;
            var row := s.db.sessions[x];
      && (row.status == PendingPairing ==> row.account == None && row.key == None && row.metadata == None)
      && (row.status == SessionStatus.Paired ==> row.expiresAt == SENTINEL && row.key.Some? && x in s.past.paired)
      && (x in s.past.paired ==>
          row.account == if s.past.paired[x] in s.db.accounts then Some(s.past.paired[x]) else None)
      && (x !in s.past.paired ==> row.account == None && row.key == None)
  {
    RunKeeps(steps);
    assert SessionKept(Run(steps).value.past, Run(steps).value.db.accounts, x, Run(steps).value.db.sessions[x]);
  }

  /** The step is a transaction whose MarkPaired takes effect on the session. */
  ghost predicate Pairs(s: State, step: Step, x: Id) {
    && step.Hook? && step.hook.Transact? && HookEnabled(s, step.hook)
    && s.threads[step.hook.t].session == x && Pairable(s.db, x) && !AccountTokenTaken(s.db, step.hook.token)
  }

  lemma PairsRecords(s: State, step: Step, x: Id)
    requires Pairs(s, step, x)
    ensures x in Apply(s, step).past.paired
  {
  }

  /** However many /pair requests race on a code, MarkPaired takes effect for at most one of them. */
  lemma {:induction false} OnePairing(steps: seq<Step>, i: nat, j: nat, x: Id)
    requires Run(steps).Some? && i < j < |steps|
    requires Run(steps[..i]).Some? && Pairs(Run(steps[..i]).value, steps[i], x)
    ensures Run(steps[..j]).Some? && !Pairs(Run(steps[..j]).value, steps[j], x)
  {
    RunLeads(steps, j);
    assert steps[..i + 1][..i] == steps[..i] && steps[..j][..i + 1] == steps[..i + 1];
    RunLeads(steps[..j], i + 1);
    PairsRecords(Run(steps[..i]).value, steps[i], x);
    var s := Run(steps[..j]).value;
    RunKeeps(steps[..j]);
    assert x in s.past.paired;
    if x in s.db.sessions { assert SessionKept(s.past, s.db.accounts, x, s.db.sessions[x]); }
  }

  /**
   The relay token in a session's metadata is the one of the last transaction on its row, while its
   account is the first one's: they belong together if and only if the row was still pending.
   */
  lemma TokenMatchesAccount(s: State, t: Id, account: Id, token: Id, at: Time)
    requires Inv(s) && HookEnabled(s, Transact(t, account, token, at)) && !AccountTokenTaken(s.db, token)
    requires s.threads[t].session in s.db.sessions
    ensures var x := s.threads[t].session;
            var s' := TransactStep(s, t, account, token, at);
      && x in s'.db.sessions && s'.db.sessions[x].metadata == Some(token)
      && account in s'.db.accounts && s'.db.accounts[account].tokenHash == token
      && (s'.db.sessions[x].account == Some(account) <==> s.db.sessions[x].status == PendingPairing)
  {
    var x := s.threads[t].session;
    assert SessionKept(s.past, s.db.accounts, x, s.db.sessions[x]);
  }

  /**
   The pairing_complete of a /pair that races is announced to an account of another conversation exactly
   when the session it reads again is paired with another key.
   */
  lemma AnnouncesHome(s: State, t: Id)
    requires Inv(s) && At(s, t) && s.threads[t].Rereading?
    requires var x := s.threads[t].session; x in s.db.sessions && s.db.sessions[x].account.Some?
    ensures var pc, row := s.threads[t], s.db.sessions[s.threads[t].session];
      && RereadStep(s, t).threads[t] == Announcing(pc.key, pc.session, row.account.value)
      && (Home(s.past, row.account.value) == Some(pc.key) <==> row.key == Some(pc.key))
  {
    var x := s.threads[t].session;
    assert SessionKept(s.past, s.db.accounts, x, s.db.sessions[x]);
  }

  /**
   Two states of one run: the status of a session only rises, its key is written once, and its account
   is cleared only when the account is gone.
   */
  lemma {:induction false} RunRaisesSessions(steps: seq<Step>, i: nat, x: Id)
    requires i <= |steps| && Run(steps).Some? && x in Run(steps).value.db.sessions
    requires Run(steps[..i]).Some? && x in Run(steps[..i]).value.past.used
    ensures var s, s' := Run(steps[..i]).value, Run(steps).value;
      && x in s.db.sessions
      && Rank(s.db.sessions[x].status) <= Rank(s'.db.sessions[x].status)
      && (s.db.sessions[x].key.Some? ==> s'.db.sessions[x].key == s.db.sessions[x].key)
      && (s.db.sessions[x].account.Some? && s.db.sessions[x].account.value in s'.db.accounts ==>
            s'.db.sessions[x].account == s.db.sessions[x].account)
  {
    RunLeads(steps, i);
  }

  /**
   Every row is unpaired or paired; unpaired has no account, and paired without one means that the account
   is gone.
   */
  lemma {:induction false} RunConversations(steps: seq<Step>, k: Key)
    requires Run(steps).Some? && k in Run(steps).value.db.conversations
    ensures var s := Run(steps).value;
            var c := s.db.conversations[k];
      && c.state in {Unpaired, PairingState.Paired}
      && (c.state == Unpaired ==> c.account == None)
      && (c.state == PairingState.Paired ==> c.pairedAt.Some? && c.row in s.past.attached)
      && (c.state == PairingState.Paired ==> (c.account == None <==> s.past.attached[c.row] !in s.db.accounts))
      && (c.account.Some? ==> c.state == PairingState.Paired && c.account.value == s.past.attached[c.row])
  {
    RunKeeps(steps);
    assert ConversationKept(Run(steps).value.past, Run(steps).value.db.accounts, k,
                            Run(steps).value.db.conversations[k]);
  }

  /** While its row exists, a conversation's pairing time never becomes null again. */
  lemma {:induction false} RunKeepsPairedAt(steps: seq<Step>, i: nat, k: Key)
    requires i <= |steps| && Run(steps).Some? && k in Run(steps).value.db.conversations
    requires Run(steps[..i]).Some? && Run(steps).value.db.conversations[k].row in Run(steps[..i]).value.past.used
    ensures var s, s' := Run(steps[..i]).value, Run(steps).value;
      && k in s.db.conversations && s.db.conversations[k].row == s'.db.conversations[k].row
      && (s.db.conversations[k].pairedAt.Some? ==> s'.db.conversations[k].pairedAt.Some?)
  {
    RunLeads(steps, i);
  }

  /** The pairing of an existing row: everything but the callback. */
  function PairingOf(c: Conversation): (PairingState, Option<Id>, Option<Time>) {
    (c.state, c.account, c.pairedAt)
  }

  /** A webhook's upsert never changes a pairing. */
  lemma UpsertKeepsPairing(s: State, step: HookStep, k: Key)
    requires HookEnabled(s, step) && step.Webhook? && k in s.db.conversations
    ensures k in ApplyHook(s, step).db.conversations
    ensures ApplyHook(s, step).db.conversations[k].row == s.db.conversations[k].row
    ensures PairingOf(ApplyHook(s, step).db.conversations[k]) == PairingOf(s.db.conversations[k])
    ensures k != step.key ==> ApplyHook(s, step).db.conversations[k] == s.db.conversations[k]
    ensures k == step.key ==>
              && ApplyHook(s, step).db.conversations[k].url == step.url
              && ApplyHook(s, step).db.conversations[k].deadline == step.deadline
  {
    assert ApplyHook(s, step).db == Upsert(s.db, step.key, step.row, step.url, step.deadline);
  }

  lemma HookKeepsConversations(s: State, step: HookStep)
    requires HookEnabled(s, step) && !step.Webhook? && !step.Attach? && !step.Detach?
    ensures ApplyHook(s, step).db.conversations == s.db.conversations
  {
  }

  lemma BearerKeepsConversations(s: State, step: BearerStep)
    requires BearerEnabled(s, step)
    ensures ApplyBearer(s, step).db.conversations == s.db.conversations
  {
  }

  /** Only the UPDATEs of /pair and /unpair and the removal of the account change a pairing. */
  lemma PairingChanges(s: State, step: Step, k: Key)
    requires Enabled(s, step) && k in s.db.conversations && k in Apply(s, step).db.conversations
    requires PairingOf(Apply(s, step).db.conversations[k]) != PairingOf(s.db.conversations[k])
    ensures || (step.Hook? && step.hook.Attach? && s.threads[step.hook.t].key == k)
            || (step.Hook? && step.hook.Detach? && s.threads[step.hook.t].key == k)
            || (step.Other? && step.other.RemoveAccount? && s.db.conversations[k].account == Some(step.other.account))
  {
    match step
    case Hook(hook) => HookPairings(s, hook, k);
    case Bearer(bearer) => BearerKeepsConversations(s, bearer);
    case Other(other) => OtherKeepsPairings(s, other, k);
  }

  lemma HookPairings(s: State, step: HookStep, k: Key)
    requires HookEnabled(s, step) && k in s.db.conversations
    ensures k in ApplyHook(s, step).db.conversations
    ensures PairingOf(ApplyHook(s, step).db.conversations[k]) == PairingOf(s.db.conversations[k])
         || ((step.Attach? || step.Detach?) && s.threads[step.t].key == k)
  {
    if step.Webhook? { UpsertKeepsPairing(s, step, k); }
    else if !step.Attach? && !step.Detach? { HookKeepsConversations(s, step); }
  }

  lemma OtherKeepsPairings(s: State, step: OtherStep, k: Key)
    requires OtherEnabled(s, step) && k in s.db.conversations && k in ApplyOther(s, step).db.conversations
    ensures ApplyOther(s, step).db.conversations[k] == s.db.conversations[k]
         || (step.RemoveAccount? && s.db.conversations[k].account == Some(step.account))
  {
  }

  /**
   The pairing time moves back exactly when a /pair writes a clock reading older than the stored one:
   the reading is taken before the UPDATE, and another /pair may write in between.
   */
  lemma PairedAtMovesBack(s: State, step: Step, k: Key)
    requires Enabled(s, step) && k in s.db.conversations && k in Apply(s, step).db.conversations
    requires s.db.conversations[k].pairedAt.Some?
    ensures Apply(s, step).db.conversations[k].pairedAt.Some?
    ensures Apply(s, step).db.conversations[k].pairedAt.value < s.db.conversations[k].pairedAt.value
       <==> (&& step.Hook? && step.hook.Attach? && s.threads[step.hook.t].key == k
             && s.threads[step.hook.t].account in s.db.accounts
             && s.threads[step.hook.t].at < s.db.conversations[k].pairedAt.value)
  {
    if PairingOf(Apply(s, step).db.conversations[k]) != PairingOf(s.db.conversations[k]) { PairingChanges(s, step, k); }
  }

  /**
   No message of a live account is lost: it is queued, or expired with its callback dead, or delivered
   after being written in full to a stream that authenticated for its account.
   */
  lemma {:induction false} RunLosesNoMessage(steps: seq<Step>, m: Id)
    requires Run(steps).Some? && m in Run(steps).value.past.inbox
    requires Run(steps).value.past.inbox[m].account in Run(steps).value.db.accounts
    ensures var s := Run(steps).value;
      && m in s.db.inbound
      && var row := s.db.inbound[m];
      && Note(row.account, row.key) == s.past.inbox[m]
      && match row.status
         case Queued => row.deliveredAt == None
         case Expired => row.deliveredAt == None && row.deadline.Some? && row.deadline.value < s.now
         case Delivered =>
           && row.deliveredAt.Some? && m in s.past.delivered
           && Written(s.past.delivered[m], Message(m, row.key)) in s.past.written
           && s.past.delivered[m] in s.past.bearers && s.past.bearers[s.past.delivered[m]].account == row.account
         case Acked => false
  {
    RunKeeps(steps);
    var s := Run(steps).value;
    assert InboundKept(s.past, s.db.accounts, s.now, m, s.db.inbound[m]);
  }

  lemma PostedNoted(steps: seq<Step>, j: nat, q: nat, m: Id)
    requires Run(steps).Some? && j <= q <= |steps|
    ensures Run(steps[..q]).Some? && Run(steps[..j]).Some?
    ensures forall p :: p in Run(steps[..j]).value.posted && p.event.Message? && p.event.id == m ==>
              m in Run(steps[..q]).value.past.inbox
  {
    RunLeads(steps, q);
    RunLeads(steps[..q], j);
    assert steps[..q][..j] == steps[..j];
    RunKeeps(steps[..j]);
    var h := Run(steps[..j]).value.past;
    forall p | p in Run(steps[..j]).value.posted && p.event.Message? && p.event.id == m ensures m in h.inbox {
      assert Addressed(h, p);
    }
  }

  lemma SelectsAt(steps: seq<Step>, q: nat, t: Id, rows: seq<Item>)
    requires Run(steps).Some? && q < |steps| && steps[q] == Bearer(Queue(t, rows))
    ensures Run(steps[..q]).Some?
    ensures var s := Run(steps[..q]).value;
            At(s, t) && s.threads[t].Queueing? && Selects(s.db, s.threads[t].account, rows)
  {
    RunLeads(steps, q + 1);
    assert steps[..q + 1][..q] == steps[..q];
  }

  lemma SeenBefore(steps: seq<Step>, q: nat, m: Id)
    requires Run(steps).Some? && q <= |steps| && Run(steps[..q]).Some?
    requires m in Run(steps).value.db.inbound && m in Run(steps[..q]).value.past.used
    ensures var s, row := Run(steps[..q]).value, Run(steps).value.db.inbound[m];
      && m in s.db.inbound && s.db.inbound[m].account == row.account && s.db.inbound[m].key == row.key
      && s.db.inbound[m].status in {Queued, InboundStatus.Expired, Delivered}
  {
    RunLeads(steps, q);
    RunKeeps(steps[..q]);
    var s := Run(steps[..q]).value;
    assert MessageMoves(s.db.inbound[m], Run(steps).value.db.inbound[m]);
    assert InboundKept(s.past, s.db.accounts, s.now, m, s.db.inbound[m]);
  }

  /**
   A stream subscribes at step j, some time before its drain's SELECT at step q. Then no message of its
   account falls between the two: it is in the snapshot, or has been marked or has expired by then, or
   it is made only after the SELECT and so published after the subscription.
   */
  lemma DrainMissesNothing(steps: seq<Step>, j: nat, q: nat, t: Id, rows: seq<Item>, m: Id)
    requires Run(steps).Some? && j <= q < |steps| && steps[q] == Bearer(Queue(t, rows))
    requires Run(steps[..j]).Some? && Run(steps[..q]).Some? && At(Run(steps[..q]).value, t)
    requires m in Run(steps).value.db.inbound
    requires Run(steps[..q]).value.threads[t] == Queueing(Run(steps).value.db.inbound[m].account)
    ensures var s, row := Run(steps[..q]).value, Run(steps).value.db.inbound[m];
      || Item(m, row.key) in rows
      || (m in s.db.inbound && s.db.inbound[m].status in {InboundStatus.Expired, Delivered})
      || (m !in s.past.used
          && forall key :: Posting(AccountChannel(row.account), Message(m, key)) !in Run(steps[..j]).value.posted)
  {
    SelectsAt(steps, q, t, rows);
    var s, row := Run(steps[..q]).value, Run(steps).value.db.inbound[m];
    if m in s.past.used {
      SeenBefore(steps, q, m);
    } else {
      PostedNoted(steps, j, q, m);
      RunKeeps(steps[..q]);
      assert m !in s.past.inbox;
    }
  }

  /** A message never returns to an earlier status: once expired or delivered it is not queued again. */
  lemma {:induction false} RunMovesMessages(steps: seq<Step>, i: nat, m: Id)
    requires i <= |steps| && Run(steps).Some? && m in Run(steps).value.db.inbound
    requires Run(steps[..i]).Some? && m in Run(steps[..i]).value.past.used
    ensures var s, s' := Run(steps[..i]).value, Run(steps).value;
      m in s.db.inbound && MessageMoves(s.db.inbound[m], s'.db.inbound[m])
  {
    RunLeads(steps, i);
  }

  /** Every reply answers a message of its own account and conversation that still exists. */
  lemma {:induction false} RunReplies(steps: seq<Step>, o: Id)
    requires Run(steps).Some? && o in Run(steps).value.db.outbound
    ensures var s := Run(steps).value;
            var row := s.db.outbound[o];
      && row.inbound.Some? && row.inbound.value in s.db.inbound
      && s.db.inbound[row.inbound.value].account == row.account && s.db.inbound[row.inbound.value].key == row.key
  {
    RunKeeps(steps);
    var s := Run(steps).value;
    assert OutboundKept(s.past, s.db, o, s.db.outbound[o]);
    var m := s.db.outbound[o].inbound.value;
    assert InboundKept(s.past, s.db.accounts, s.now, m, s.db.inbound[m]);
  }

  /** Pending becomes sent or failed at most once; after that the row stays as it is. */
  lemma {:induction false} RunSettlesReplies(steps: seq<Step>, i: nat, o: Id)
    requires i <= |steps| && Run(steps).Some? && o in Run(steps).value.db.outbound
    requires Run(steps[..i]).Some? && o in Run(steps[..i]).value.past.used
    ensures var s, s' := Run(steps[..i]).value, Run(steps).value;
      && o in s.db.outbound
      && (s.db.outbound[o].status != OutboundStatus.Pending ==> s'.db.outbound[o] == s.db.outbound[o])
  {
    RunLeads(steps, i);
  }

  /** Removing an account removes its messages and replies, empties every reference to it, and touches nothing else. */
  lemma RemovalIsComplete(s: State, account: Id)
    requires Inv(s)
    ensures var db, db' := s.db, ApplyOther(s, RemoveAccount(account)).db;
      && (forall a :: a in db'.accounts <==> a in db.accounts && a != account)
      && (forall a :: a in db'.accounts ==> db'.accounts[a] == db.accounts[a])
      && (forall m :: m in db'.inbound <==> m in db.inbound && db.inbound[m].account != account)
      && (forall m :: m in db'.inbound ==> db'.inbound[m] == db.inbound[m])
      && (forall o :: o in db'.outbound <==> o in db.outbound && db.outbound[o].account != account)
      && (forall o :: o in db'.outbound ==> db'.outbound[o] == db.outbound[o])
      && db'.sessions.Keys == db.sessions.Keys
      && (forall x :: x in db'.sessions && db.sessions[x].account == Some(account) ==>
            db'.sessions[x] == db.sessions[x].(account := None))
      && (forall x :: x in db'.sessions && db.sessions[x].account != Some(account) ==>
          db'.sessions[x] == db.sessions[x])
      && db'.conversations.Keys == db.conversations.Keys
      && (forall k :: k in db'.conversations && db.conversations[k].account == Some(account) ==>
            db'.conversations[k] == db.conversations[k].(account := None))
      && (forall k :: k in db'.conversations && db.conversations[k].account != Some(account) ==>
            db'.conversations[k] == db.conversations[k])
  {
    CascadeKeepsReferences(s, account);
  }
}
