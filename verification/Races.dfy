/** Runs that show where the protocol gives less than one might expect; each starts from empty tables. */
module Races {
  import opened Wrappers
  import opened Tables
  import opened Protocol

  ghost predicate Reaches(steps: seq<Step>, s: State) {
    Run(steps) == Some(s)
  }

  lemma Then(steps: seq<Step>, s: State, step: Step) returns (steps': seq<Step>, s': State)
    requires Reaches(steps, s) && Enabled(s, step)
    ensures steps' == steps + [step] && s' == Apply(s, step) && Reaches(steps', s')
  {
    steps', s' := steps + [step], Apply(s, step);
    assert steps'[..|steps|] == steps;
  }

  /** Session 1 with code 7, and conversation 10 types it. */
  lemma OneWrites() returns (steps: seq<Step>, s: State)
    ensures Reaches(steps, s)
    ensures s.now == 0 && s.posted == {} && s.threads == map[2 := Looking(10, 7)]
    ensures s.db == Db(map[], map[1 := Session(100, 7, PendingPairing, None, None, None, 300000, None)],
                       map[10 := Conversation(3, None, Unpaired, None, None, None)], map[], map[])
    ensures s.past == START.past.(used := {1, 2, 3}, rows := map[3 := 10])
  {
    steps, s := Then([], START, Other(Create(1, 100, 7, 300000)));
    steps, s := Then(steps, s, Hook(Webhook(2, 10, 3, Pair(7), None, None)));
  }

  /** Session 1 with code 7; conversations 10 and 20 both type it and look it up before either transaction. */
  lemma BothWrite() returns (steps: seq<Step>, s: State)
    ensures Reaches(steps, s)
    ensures s.now == 0 && s.posted == {} && s.threads == map[2 := Looking(10, 7), 4 := Looking(20, 7)]
    ensures s.db == Db(map[], map[1 := Session(100, 7, PendingPairing, None, None, None, 300000, None)],
                       map[10 := Conversation(3, None, Unpaired, None, None, None),
                           20 := Conversation(5, None, Unpaired, None, None, None)], map[], map[])
    ensures s.past == START.past.(used := {1, 2, 3, 4, 5}, rows := map[3 := 10, 5 := 20])
  {
    steps, s := OneWrites();
    steps, s := Then(steps, s, Hook(Webhook(4, 20, 5, Pair(7), None, None)));
  }

  lemma BothLook() returns (steps: seq<Step>, s: State)
    ensures Reaches(steps, s)
    ensures s.now == 0 && s.posted == {} && s.threads == map[2 := Pairing(10, 1), 4 := Pairing(20, 1)]
    ensures s.db == Db(map[], map[1 := Session(100, 7, PendingPairing, None, None, None, 300000, None)],
                       map[10 := Conversation(3, None, Unpaired, None, None, None),
                           20 := Conversation(5, None, Unpaired, None, None, None)], map[], map[])
    ensures s.past == START.past.(used := {1, 2, 3, 4, 5}, rows := map[3 := 10, 5 := 20])
  {
    steps, s := BothWrite();
    steps, s := Then(steps, s, Hook(Look(2, Some(1))));
    steps, s := Then(steps, s, Hook(Look(4, Some(1))));
  }

  lemma OneCommits() returns (steps: seq<Step>, s: State)
    ensures Reaches(steps, s)
    ensures s.threads == map[2 := Stamping(10, 1, 6), 4 := Pairing(20, 1)] && s.posted == {}
            && s.past.used == {1, 2, 3, 4, 5, 6}
    ensures s.db.accounts == map[6 := Account(200, RATE_LIMIT)]
    ensures s.db.sessions ==
              map[1 := Session(100, 7, SessionStatus.Paired, Some(6), Some(10), Some(200), SENTINEL, Some(0))]
    ensures s.db.conversations == map[10 := Conversation(3, None, Unpaired, None, None, None),
                                      20 := Conversation(5, None, Unpaired, None, None, None)]
    ensures s.past.minted == map[6 := Mint(1, 10, 200)]
  {
    steps, s := BothLook();
    steps, s := Then(steps, s, Hook(Transact(2, 6, 200, 0)));
  }

  /** Both transactions commit: the second mints account 8 for nobody, and leaves its token in the session. */
  lemma BothCommit() returns (steps: seq<Step>, s: State)
    ensures Reaches(steps, s)
    ensures s.threads == map[2 := Stamping(10, 1, 6), 4 := Stamping(20, 1, 8)] && s.posted == {}
    ensures s.db.accounts == map[6 := Account(200, RATE_LIMIT), 8 := Account(201, RATE_LIMIT)]
    ensures s.db.sessions ==
              map[1 := Session(100, 7, SessionStatus.Paired, Some(6), Some(10), Some(201), SENTINEL, Some(0))]
    ensures s.db.conversations == map[10 := Conversation(3, None, Unpaired, None, None, None),
                                      20 := Conversation(5, None, Unpaired, None, None, None)]
    ensures s.past.minted == map[6 := Mint(1, 10, 200), 8 := Mint(1, 20, 201)]
  {
    steps, s := OneCommits();
    steps, s := Then(steps, s, Hook(Transact(4, 8, 201, 0)));
  }

  lemma BothAttach() returns (steps: seq<Step>, s: State)
    ensures Reaches(steps, s)
    ensures s.threads == map[2 := Rereading(10, 1), 4 := Rereading(20, 1)] && s.posted == {}
    ensures s.db.accounts == map[6 := Account(200, RATE_LIMIT), 8 := Account(201, RATE_LIMIT)]
    ensures s.db.sessions ==
              map[1 := Session(100, 7, SessionStatus.Paired, Some(6), Some(10), Some(201), SENTINEL, Some(0))]
    ensures s.db.conversations == map[10 := Conversation(3, Some(6), PairingState.Paired, None, None, Some(0)),
                                      20 := Conversation(5, Some(8), PairingState.Paired, None, None, Some(0))]
  {
    steps, s := BothCommit();
    steps, s := Then(steps, s, Hook(Stamp(2, 0)));
    steps, s := Then(steps, s, Hook(Attach(2)));
    steps, s := Then(steps, s, Hook(Stamp(4, 0)));
    steps, s := Then(steps, s, Hook(Attach(4)));
  }

  /**
   One code, two accounts: conversation 20 is told that it is connected, but no session reaches its
   account; the session's relay token is the other account's; and the session's own channel, account 6's,
   gets the pairing_complete of conversation 20.
   */
  lemma OneCodeTwoAccounts() returns (steps: seq<Step>, s: State)
    ensures Reaches(steps, s)
    ensures s.db.accounts == map[6 := Account(200, RATE_LIMIT), 8 := Account(201, RATE_LIMIT)]
    ensures s.db.conversations == map[10 := Conversation(3, Some(6), PairingState.Paired, None, None, Some(0)),
                                      20 := Conversation(5, Some(8), PairingState.Paired, None, None, Some(0))]
    ensures s.db.sessions.Keys == {1} && s.db.sessions[1].account == Some(6) && s.db.sessions[1].key == Some(10)
    ensures s.db.sessions[1].metadata == Some(201)
    ensures Posting(AccountChannel(6), PairingComplete(20)) in s.posted
  {
    steps, s := BothAttach();
    steps, s := Then(steps, s, Hook(Reread(4)));
    steps, s := Then(steps, s, Hook(Announce(4)));
  }

  lemma TwoSessions() returns (steps: seq<Step>, s: State)
    ensures Reaches(steps, s)
    ensures s == START.(past := START.past.(used := {1, 9}), db := s.db) && s.db == EMPTY.(sessions := s.db.sessions)
    ensures s.db.sessions == map[1 := Session(100, 7, PendingPairing, None, None, None, 300000, None),
                                 9 := Session(109, 8, PendingPairing, None, None, None, 300000, None)]
  {
    steps, s := Then([], START, Other(Create(1, 100, 7, 300000)));
    steps, s := Then(steps, s, Other(Create(9, 109, 8, 300000)));
  }

  /** Conversation 10 types the codes of sessions 1 and 9, and both are looked up. */
  lemma TwoCodes() returns (steps: seq<Step>, s: State)
    ensures Reaches(steps, s)
    ensures s.now == 0 && s.threads == map[2 := Pairing(10, 1), 4 := Pairing(10, 9)]
            && s.past.used == {1, 9, 2, 3, 4, 5}
    ensures s.db.accounts == map[] && s.db.conversations == map[10 := Conversation(3, None, Unpaired, None, None, None)]
    ensures s.db.sessions == map[1 := Session(100, 7, PendingPairing, None, None, None, 300000, None),
                                 9 := Session(109, 8, PendingPairing, None, None, None, 300000, None)]
  {
    steps, s := TwoSessions();
    steps, s := Then(steps, s, Hook(Webhook(2, 10, 3, Pair(7), None, None)));
    steps, s := Then(steps, s, Hook(Webhook(4, 10, 5, Pair(8), None, None)));
    steps, s := Then(steps, s, Hook(Look(2, Some(1))));
    steps, s := Then(steps, s, Hook(Look(4, Some(9))));
  }

  lemma FirstCodeCommits() returns (steps: seq<Step>, s: State)
    ensures Reaches(steps, s)
    ensures s.now == 0 && s.threads == map[2 := Stamping(10, 1, 6), 4 := Pairing(10, 9)]
            && s.past.used == {1, 9, 2, 3, 4, 5, 6}
    ensures s.db.accounts == map[6 := Account(200, RATE_LIMIT)]
    ensures s.db.conversations == map[10 := Conversation(3, None, Unpaired, None, None, None)]
  {
    steps, s := TwoCodes();
    steps, s := Then(steps, s, Hook(Transact(2, 6, 200, 0)));
  }

  lemma TwoCodesCommit() returns (steps: seq<Step>, s: State)
    ensures Reaches(steps, s)
    ensures s.now == 0 && s.threads == map[2 := Stamping(10, 1, 6), 4 := Stamping(10, 9, 8)]
    ensures s.db.accounts == map[6 := Account(200, RATE_LIMIT), 8 := Account(201, RATE_LIMIT)]
    ensures s.db.conversations == map[10 := Conversation(3, None, Unpaired, None, None, None)]
  {
    steps, s := FirstCodeCommits();
    steps, s := Then(steps, s, Hook(Transact(4, 8, 201, 0)));
  }

  /** The UPDATE with the earlier clock reading comes last, and takes the pairing time back. */
  lemma PairedAtGoesBack() returns (steps: seq<Step>, s: State, step: Step)
    ensures Reaches(steps, s) && Enabled(s, step)
    ensures 10 in s.db.conversations && s.db.conversations[10].pairedAt == Some(1)
    ensures 10 in Apply(s, step).db.conversations && Apply(s, step).db.conversations[10].pairedAt == Some(0)
    ensures Apply(s, step).db.conversations[10].row == s.db.conversations[10].row
  {
    steps, s := TwoCodesCommit();
    steps, s := Then(steps, s, Hook(Stamp(2, 0)));
    steps, s := Then(steps, s, Other(Tick(1)));
    steps, s := Then(steps, s, Hook(Stamp(4, 1)));
    steps, s := Then(steps, s, Hook(Attach(4)));
    step := Hook(Attach(2));
  }

  /** Conversation 10 types the code of session 1, and it is looked up. */
  lemma Looked() returns (steps: seq<Step>, s: State)
    ensures Reaches(steps, s)
    ensures s.now == 0 && s.posted == {} && s.past.written == {} && s.past.used == {1, 2, 3}
    ensures s.threads == map[2 := Pairing(10, 1)]
    ensures s.db == Db(map[], map[1 := Session(100, 7, PendingPairing, None, None, None, 300000, None)],
                       map[10 := Conversation(3, None, Unpaired, None, None, None)], map[], map[])
  {
    steps, s := OneWrites();
    steps, s := Then(steps, s, Hook(Look(2, Some(1))));
  }

  lemma StatusRead() returns (steps: seq<Step>, s: State)
    ensures Reaches(steps, s)
    ensures s.threads == map[2 := Pairing(10, 1), 4 := Expiring(1)] && s.past.used == {1, 2, 3, 4}
    ensures s.db == Db(map[], map[1 := Session(100, 7, PendingPairing, None, None, None, 300000, None)],
                       map[10 := Conversation(3, None, Unpaired, None, None, None)], map[], map[])
  {
    steps, s := Looked();
    steps, s := Then(steps, s, Other(Tick(300001)));
    steps, s := Then(steps, s, Other(Status(4, 1, 300001)));
  }

  /** A status request reads the row just before the transaction on it. */
  lemma StatusThenPaired() returns (steps: seq<Step>, s: State)
    ensures Reaches(steps, s)
    ensures s.threads == map[4 := Expiring(1), 2 := Stamping(10, 1, 6)]
            && s.db.accounts == map[6 := Account(200, RATE_LIMIT)]
    ensures s.db.sessions ==
              map[1 := Session(100, 7, SessionStatus.Paired, Some(6), Some(10), Some(200), SENTINEL, Some(300001))]
    ensures s.db.conversations == map[10 := Conversation(3, None, Unpaired, None, None, None)]
  {
    steps, s := StatusRead();
    steps, s := Then(steps, s, Hook(Transact(2, 6, 200, 300001)));
  }

  /**
   A status request that read the row while it was pending expires it after the pairing: the
   conversation is connected to an account that no session token reaches.
   */
  lemma StaleStatusExpiresPairing() returns (steps: seq<Step>, s: State)
    ensures Reaches(steps, s)
    ensures 1 in s.db.sessions && s.db.sessions[1].status == SessionStatus.Expired
            && s.db.sessions[1].account == Some(6)
    ensures forall token, x :: !TokenFinds(s.db, token, x)
    ensures 10 in s.db.conversations && s.db.conversations[10].account == Some(6)
  {
    steps, s := StatusThenPaired();
    steps, s := Then(steps, s, Hook(Stamp(2, 300001)));
    steps, s := Then(steps, s, Hook(Attach(2)));
    steps, s := Then(steps, s, Other(ExpireStatus(4)));
  }

  lemma Committing() returns (steps: seq<Step>, s: State)
    ensures Reaches(steps, s)
    ensures s.now == 0 && s.posted == {} && s.past.written == {} && s.past.used == {1, 2, 3, 6}
    ensures s.threads == map[2 := Stamping(10, 1, 6)]
    ensures s.db == Db(map[6 := Account(200, RATE_LIMIT)],
                       map[1 := Session(100, 7, SessionStatus.Paired, Some(6), Some(10), Some(200), SENTINEL, Some(0))],
                       map[10 := Conversation(3, None, Unpaired, None, None, None)], map[], map[])
  {
    steps, s := Looked();
    steps, s := Then(steps, s, Hook(Transact(2, 6, 200, 0)));
  }

  lemma PairedUp() returns (steps: seq<Step>, s: State)
    ensures Reaches(steps, s)
    ensures s.now == 0 && s.posted == {} && s.past.written == {} && s.past.used == {1, 2, 3, 6}
    ensures s.threads == map[2 := Rereading(10, 1)]
    ensures s.db == Db(map[6 := Account(200, RATE_LIMIT)],
                       map[1 := Session(100, 7, SessionStatus.Paired, Some(6), Some(10), Some(200), SENTINEL, Some(0))],
                       map[10 := Conversation(3, Some(6), PairingState.Paired, None, None, Some(0))], map[], map[])
  {
    steps, s := Committing();
    steps, s := Then(steps, s, Hook(Stamp(2, 0)));
    steps, s := Then(steps, s, Hook(Attach(2)));
  }

  lemma Linked() returns (steps: seq<Step>, s: State)
    ensures Reaches(steps, s)
    ensures s.now == 0 && s.posted == {} && s.past.written == {} && s.past.used == {1, 2, 3, 6, 11}
    ensures s.threads == map[2 := Rereading(10, 1), 11 := Queueing(6)]
    ensures s.db.accounts == map[6 := Account(200, RATE_LIMIT)] && s.db.inbound == map[]
    ensures s.db.conversations == map[10 := Conversation(3, Some(6), PairingState.Paired, None, None, Some(0))]
  {
    steps, s := PairedUp();
    steps, s := Then(steps, s, Bearer(Authenticate(11, 100, 1, Events)));
    steps, s := Then(steps, s, Bearer(Link(11, true)));
  }

  /** The bearer of session 1's token connects: stream 11 has drained nothing and is live. */
  lemma StreamOpen() returns (steps: seq<Step>, s: State)
    ensures Reaches(steps, s)
    ensures s.now == 0 && s.posted == {} && s.past.written == {} && s.past.used == {1, 2, 3, 6, 11}
    ensures s.threads == map[2 := Rereading(10, 1), 11 := Streaming(AccountChannel(6))]
    ensures s.db.accounts == map[6 := Account(200, RATE_LIMIT)] && s.db.inbound == map[]
    ensures s.db.conversations == map[10 := Conversation(3, Some(6), PairingState.Paired, None, None, Some(0))]
  {
    steps, s := Linked();
    steps, s := Then(steps, s, Bearer(Queue(11, [])));
    steps, s := Then(steps, s, Bearer(Drained(11)));
  }

  lemma ChatTyped() returns (steps: seq<Step>, s: State)
    ensures Reaches(steps, s)
    ensures s.now == 0 && s.posted == {} && s.past.written == {} && 13 !in s.past.used
    ensures s.threads == map[2 := Rereading(10, 1), 11 := Streaming(AccountChannel(6)),
                             12 := Enqueueing(10, 6, Some(50), Some(60000))]
    ensures s.db.accounts == map[6 := Account(200, RATE_LIMIT)] && s.db.inbound == map[]
  {
    steps, s := StreamOpen();
    steps, s := Then(steps, s, Hook(Webhook(12, 10, 14, Chat, Some(50), Some(60000))));
  }

  lemma ChatPublished() returns (steps: seq<Step>, s: State)
    ensures Reaches(steps, s)
    ensures s.now == 0 && s.posted == {Posting(AccountChannel(6), Message(13, 10))} && s.past.written == {}
    ensures s.threads == map[2 := Rereading(10, 1), 11 := Streaming(AccountChannel(6))]
    ensures s.db.inbound == map[13 := Inbound(6, 10, Some(50), Some(60000), Queued, 0, None)]
  {
    steps, s := ChatTyped();
    steps, s := Then(steps, s, Hook(Enqueue(12, 13)));
    steps, s := Then(steps, s, Hook(Publish(12)));
  }

  /** A message delivered live is not marked: it can still expire, or be sent again to the next stream. */
  lemma LiveDeliveryIsNotMarked() returns (steps: seq<Step>, s: State)
    ensures Reaches(steps, s)
    ensures Written(11, Message(13, 10)) in s.past.written
    ensures 13 in s.db.inbound && s.db.inbound[13].status == InboundStatus.Expired
            && s.db.inbound[13].deliveredAt == None
  {
    steps, s := ChatPublished();
    steps, s := Then(steps, s, Bearer(Deliver(11, Message(13, 10))));
    steps, s := Then(steps, s, Other(Tick(60001)));
    steps, s := Then(steps, s, Other(ExpireMessages));
  }

  lemma CleanedUp() returns (steps: seq<Step>, s: State)
    ensures Reaches(steps, s)
    ensures s.threads == map[2 := Pairing(10, 1)] && s.past.used == {1, 2, 3}
    ensures s.db == Db(map[], map[], map[10 := Conversation(3, None, Unpaired, None, None, None)], map[], map[])
  {
    steps, s := Looked();
    steps, s := Then(steps, s, Other(Tick(300001)));
    steps, s := Then(steps, s, Other(ExpireSessions));
  }

  /** A cleanup between the lookup and the transaction: the account is attached, and its session is gone. */
  lemma CleanupBreaksPairing() returns (steps: seq<Step>, s: State)
    ensures Reaches(steps, s)
    ensures s.db.sessions == map[] && 10 in s.db.conversations && s.db.conversations[10].account == Some(6)
  {
    steps, s := CleanedUp();
    steps, s := Then(steps, s, Hook(Transact(2, 6, 200, 300001)));
    steps, s := Then(steps, s, Hook(Stamp(2, 300001)));
    steps, s := Then(steps, s, Hook(Attach(2)));
  }
}
