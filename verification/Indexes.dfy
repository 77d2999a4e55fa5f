/** The unique indexes: in every run a token or a code names at most one row, so a lookup has one answer. */
module Indexes {
  import opened Wrappers
  import opened Tables
  import opened Protocol
  import Codec

  ghost predicate AccountsDistinct(accounts: map<Id, Account>) {
    forall a, b :: a in accounts && b in accounts && accounts[a].tokenHash == accounts[b].tokenHash ==> a == b
  }

  ghost predicate SessionsDistinct(sessions: map<Id, Session>) {
    forall x, y :: x in sessions && y in sessions && x != y ==>
      sessions[x].tokenHash != sessions[y].tokenHash && sessions[x].code != sessions[y].code
  }

  ghost predicate Distinct(db: Db) {
    AccountsDistinct(db.accounts) && SessionsDistinct(db.sessions)
  }

  /** Rows only go, and those that stay keep their token and code. */
  ghost predicate NoNewSessions(sessions: map<Id, Session>, sessions': map<Id, Session>) {
    forall x :: x in sessions' ==>
      x in sessions && sessions'[x].tokenHash == sessions[x].tokenHash && sessions'[x].code == sessions[x].code
  }

  lemma NoNewDistinct(sessions: map<Id, Session>, sessions': map<Id, Session>)
    requires SessionsDistinct(sessions) && NoNewSessions(sessions, sessions')
    ensures SessionsDistinct(sessions')
  {
  }

  lemma CreateAccountDistinct(db: Db, id: Id, token: Id)
    requires AccountsDistinct(db.accounts) && CreateAccount(db, id, token).Some?
    ensures AccountsDistinct(CreateAccount(db, id, token).value.accounts)
  {
    assert forall a :: a in db.accounts ==> db.accounts[a].tokenHash != token;
  }

  lemma UpdateTokenDistinct(db: Db, id: Id, token: Id)
    requires AccountsDistinct(db.accounts) && UpdateToken(db, id, token).Some?
    ensures AccountsDistinct(UpdateToken(db, id, token).value.accounts)
  {
    assert id in db.accounts ==> forall a :: a in db.accounts && a != id ==> db.accounts[a].tokenHash != token;
  }

  lemma CreateSessionDistinct(db: Db, id: Id, token: Id, code: Id, expiresAt: Time)
    requires SessionsDistinct(db.sessions) && CreateSession(db, id, token, code, expiresAt).Some?
    ensures SessionsDistinct(CreateSession(db, id, token, code, expiresAt).value.sessions)
  {
    assert forall x :: x in db.sessions ==> db.sessions[x].tokenHash != token && db.sessions[x].code != code;
  }

  lemma TransactDistinct(db: Db, session: Id, account: Id, token: Id, key: Key, at: Time)
    requires Distinct(db) && Committed(db, session, account, token, key, at).Some?
    ensures Distinct(Committed(db, session, account, token, key, at).value)
  {
    CreateAccountDistinct(db, account, token);
    NoNewDistinct(db.sessions, Committed(db, session, account, token, key, at).value.sessions);
  }

  lemma HookDistinct(s: State, step: HookStep)
    requires HookEnabled(s, step) && Distinct(s.db)
    ensures Distinct(ApplyHook(s, step).db)
  {
    if step.Transact? {
      var pc := s.threads[step.t];
      if Committed(s.db, pc.session, step.account, step.token, pc.key, step.at).Some? {
        TransactDistinct(s.db, pc.session, step.account, step.token, pc.key, step.at);
      }
    } else {
      assert ApplyHook(s, step).db.accounts == s.db.accounts && ApplyHook(s, step).db.sessions == s.db.sessions;
    }
  }

  lemma BearerDistinct(s: State, step: BearerStep)
    requires BearerEnabled(s, step) && Distinct(s.db)
    ensures Distinct(ApplyBearer(s, step).db)
  {
    assert ApplyBearer(s, step).db.accounts == s.db.accounts && ApplyBearer(s, step).db.sessions == s.db.sessions;
  }

  lemma OtherDistinct(s: State, step: OtherStep)
    requires OtherEnabled(s, step) && Distinct(s.db)
    ensures Distinct(ApplyOther(s, step).db)
  {
    match step
    case Create(session, token, code, expiresAt) =>
      if CreateSession(s.db, session, token, code, expiresAt).Some? {
        CreateSessionDistinct(s.db, session, token, code, expiresAt);
      }
    case Regenerate(account, token) =>
      if UpdateToken(s.db, account, token).Some? { UpdateTokenDistinct(s.db, account, token); }
    case _ =>
      NoNewDistinct(s.db.sessions, ApplyOther(s, step).db.sessions);
  }

  /** In every run a pairing code and a session token each find at most one session. */
  lemma {:induction false} RunLookupsUnique(steps: seq<Step>)
    requires Run(steps).Some?
    ensures Distinct(Run(steps).value.db)
    ensures forall now, code, x, y ::
              CodeFinds(Run(steps).value.db, now, code, x) && CodeFinds(Run(steps).value.db, now, code, y) ==> x == y
    ensures forall token, x, y ::
              TokenFinds(Run(steps).value.db, token, x) && TokenFinds(Run(steps).value.db, token, y) ==> x == y
  {
    if steps != [] {
      var before := steps[..|steps| - 1];
      RunLookupsUnique(before);
      match steps[|steps| - 1]
      case Hook(hook) => HookDistinct(Run(before).value, hook);
      case Bearer(bearer) => BearerDistinct(Run(before).value, bearer);
      case Other(other) => OtherDistinct(Run(before).value, other);
    }
  }

  // ---------- the (channel, user) index of conversations ----------

  datatype Talk = Talk(channel: string, user: string)

  /** A webhook of a conversation, or the dashboard's removal of a row. */
  datatype Filing = Arrived(talk: Talk) | Removed(key: string)

  function KeyOf(talk: Talk): string {
    Codec.BuildConversationKey(talk.channel, talk.user)
  }

  /** The upsert by key: an old row keeps the channel and user of its first webhook. */
  function File(rows: map<string, Talk>, filing: Filing): map<string, Talk> {
    match filing
    case Arrived(talk) => if KeyOf(talk) in rows then rows else rows[KeyOf(talk) := talk]
    case Removed(key) => rows - {key}
  }

  function Filed(filings: seq<Filing>): map<string, Talk> {
    if filings == [] then map[] else File(Filed(filings[..|filings| - 1]), filings[|filings| - 1])
  }

  /** A webhook adds at most its own key's row, a removal takes exactly its key's, and no other row is touched. */
  lemma FilingTakesEffect(filings: seq<Filing>, filing: Filing, k: string)
    ensures var rows, rows' := Filed(filings), Filed(filings + [filing]);
      && (filing.Arrived? ==>
            (k in rows' <==> k in rows || k == KeyOf(filing.talk)) && (k in rows ==> rows'[k] == rows[k]))
      && (filing.Removed? ==>
            (k in rows' <==> k in rows && k != filing.key) && (k in rows' ==> rows'[k] == rows[k]))
  {
    assert (filings + [filing])[..|filings|] == filings;
  }

  /** No channel of a webhook continues another one's after a colon. */
  ghost predicate ChannelsApart(filings: seq<Filing>) {
    forall v, w :: v in filings && w in filings && v.Arrived? && w.Arrived? ==>
      !Codec.Continues(v.talk.channel, w.talk.channel)
  }

  /** Every row is filed under its own key, and came with some webhook. */
  lemma {:induction false} FiledUnderOwnKey(filings: seq<Filing>)
    ensures forall k :: k in Filed(filings) ==> k == KeyOf(Filed(filings)[k]) && Arrived(Filed(filings)[k]) in filings
  {
    if filings != [] {
      var before := filings[..|filings| - 1];
      FiledUnderOwnKey(before);
      assert forall f :: f in before ==> f in filings;
    }
  }

  /** Whatever is filed and removed, an insert by key never meets a row with the same channel and user. */
  lemma IndexesAgree(filings: seq<Filing>)
    ensures forall k, l ::
              k in Filed(filings) && l in Filed(filings) && Filed(filings)[k] == Filed(filings)[l] ==> k == l
    ensures forall talk :: KeyOf(talk) !in Filed(filings) ==> talk !in Filed(filings).Values
  {
    FiledUnderOwnKey(filings);
  }

  /** While no channel continues another, each webhook finds or makes the row of its own conversation. */
  lemma WebhooksFindTheirOwn(filings: seq<Filing>, talk: Talk)
    requires filings != [] && filings[|filings| - 1] == Arrived(talk) && ChannelsApart(filings)
    ensures KeyOf(talk) in Filed(filings) && Filed(filings)[KeyOf(talk)] == talk
  {
    var before := filings[..|filings| - 1];
    FiledUnderOwnKey(before);
    if KeyOf(talk) in Filed(before) {
      var other := Filed(before)[KeyOf(talk)];
      assert Arrived(other) in filings && Arrived(talk) in filings;
      Codec.KeyApart(other.channel, other.user, talk.channel, talk.user);
    }
  }

  /** And when one does, a webhook can find another conversation's row. */
  lemma ContinuedChannelsMisfile(channel1: string, channel2: string, user: string)
    returns (filings: seq<Filing>, talk: Talk)
    requires Codec.Continues(channel1, channel2)
    ensures filings != [] && filings[|filings| - 1] == Arrived(talk) && talk.channel == channel1
    ensures KeyOf(talk) in Filed(filings) && Filed(filings)[KeyOf(talk)] == Talk(channel2, user) != talk
  {
    var user1 := Codec.ContinuesClash(channel1, channel2, user);
    talk := Talk(channel1, user1);
    var first := Arrived(Talk(channel2, user));
    filings := [first, Arrived(talk)];
    assert filings[..1] == [first] && [first][..0] == [];
    assert Filed([first]) == map[KeyOf(talk) := Talk(channel2, user)];
  }
}
