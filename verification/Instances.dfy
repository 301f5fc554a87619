/** Concrete requests and runs behind the conditions of the general results: where one of them fails, this is
    an input at which it does. */
module Instances {
  import opened Wrappers
  import opened Text
  import opened HashChain
  import opened Journals
  import opened Ledger
  import opened Naming
  import opened Soundness
  import opened Guarantees
  import opened Spelling
  import opened Protocol
  import opened Deadlocks
  import opened Runs
  import opened Refusals
  import opened Invariant
  import opened Solo

  // ---- ids in upper case ----

  /** A version 4 uuid, the same digit throughout. */
  function Uuid(c: char): string {
    seq(36, i => if i in {8, 13, 18, 23} then '-' else if i == 14 then '4' else if i == 19 then '8' else c)
  }

  lemma UuidStored(c: char)
    requires 'A' <= c <= 'F'
    ensures StoredId(Uuid(c)) == Uuid(LowerCase(c)) && !AsStored(Uuid(c)) && AsStored(Uuid(LowerCase(c)))
  {
    assert Uuid(c)[0] == c && Uuid(LowerCase(c))[0] == LowerCase(c);
  }

  /** Two users, each with nothing. */
  function Users(): Db {
    var accounts := map[
      Uuid('a') := Account(Uuid('a'), false, "USD", Some(0), Some("alice")),
      Uuid('b') := Account(Uuid('b'), false, "USD", Some(0), Some("bob"))];
    Db(accounts, map a | a in accounts :: BalanceRow(0, None), [], [], [], map[])
  }

  function Five(from: string, to: string): TransferInput { TransferInput(from, to, "5", "USD", "bob", "") }

  lemma FiveIsBuilt(from: string, to: string, id: string)
    requires from != to
    ensures BuildTransfer(Five(from, to), id).Ok? && ParseAmount("5") == Some(5)
  {
    assert "5"[..0] == [];
    TransferMovesAmount(id, from, to, 5, "USD");
  }

  lemma UsersFiled()
    ensures Filed(Users().accounts) && Users().balances.Keys == Users().accounts.Keys == {Uuid('a'), Uuid('b')}
    ensures Uuid('a') != Uuid('b')
    ensures Users().accounts[Uuid('a')] == Account(Uuid('a'), false, "USD", Some(0), Some("alice"))
    ensures Users().accounts[Uuid('b')] == Account(Uuid('b'), false, "USD", Some(0), Some("bob"))
    ensures Users().balances[Uuid('a')] == BalanceRow(0, None) && Users().balances[Uuid('b')] == BalanceRow(0, None)
  {
    UuidStored('A');
    UuidStored('B');
    assert Uuid('a')[0] == 'a' && Uuid('b')[0] == 'b';
  }

  /** Neither owner nor floor is asked when the debited account is named in upper case; both are when it is
      named as stored. */
  lemma UpperCaseDebit(digest: Digest, id: string)
    ensures
      var (after, outcome) := Transfer(digest, Users(), id, Five(Uuid('A'), Uuid('b')));
      outcome.Success? && Uuid('a') in after.balances && after.balances[Uuid('a')].balance == -5
    ensures !Transfer(digest, Users(), id, Five(Uuid('a'), Uuid('b'))).1.Success?
  {
    UuidStored('A');
    UuidStored('B');
    UsersFiled();
    assert Uuid('A')[0] == 'A' && Uuid('b')[0] == 'b';
    FiveIsBuilt(Uuid('A'), Uuid('b'), id);
    FiveIsBuilt(Uuid('a'), Uuid('b'), id);
    TransferDecides(digest, Users(), id, Five(Uuid('A'), Uuid('b')));
    TransferDecides(digest, Users(), id, Five(Uuid('a'), Uuid('b')));
    var amount := TransferEffect(digest, Users(), id, Five(Uuid('A'), Uuid('b')));
  }

  /** Between two spellings of one account a transfer changes the balance, which its postings do not. */
  lemma SelfTransferBetweenSpellings(digest: Digest, id: string)
    ensures
      var (after, outcome) := Transfer(digest, Users(), id, Five(Uuid('A'), Uuid('a')));
      && outcome.Success? && Uuid('a') in after.balances && after.balances[Uuid('a')].balance == 5
      && !Reconciled(after)
  {
    UuidStored('A');
    UsersFiled();
    assert Uuid('A')[0] == 'A' && Uuid('a')[0] == 'a';
    FiveIsBuilt(Uuid('A'), Uuid('a'), id);
    TransferDecides(digest, Users(), id, Five(Uuid('A'), Uuid('a')));
    var amount := TransferEffect(digest, Users(), id, Five(Uuid('A'), Uuid('a')));
    forall a | a in Users().balances ensures Users().balances[a].balance == Sum(AccountLog(Users().postings, a)) {}
    ReconciledExactly(digest, Users(), id, Five(Uuid('A'), Uuid('a')));
  }

  // ---- two transfers that wait for each other ----

  /** From b, in upper case, to a; and from a to b. */
  function Crossing(digest: Digest): Config {
    Config(digest, Users(), [], 1,
           [TransferRequest(Uuid('c'), Five(Uuid('B'), Uuid('a'))),
            TransferRequest(Uuid('d'), Five(Uuid('a'), Uuid('b')).(ownerId := "alice"))])
  }

  lemma CrossingBetween(digest: Digest)
    ensures Between(Crossing(digest), 0, Uuid('a'), Uuid('b')) && Between(Crossing(digest), 1, Uuid('a'), Uuid('b'))
    ensures Less(Uuid('a'), Uuid('b')) && !LocksInRowOrder(Crossing(digest).requests[0])
    ensures NamesAsStored(Crossing(digest).requests[1]) && LocksInRowOrder(Crossing(digest).requests[1])
  {
    UsersFiled();
    UuidStored('A');
    UuidStored('B');
    assert Uuid('B')[0] == 'B' && Uuid('a')[0] == 'a' && Uuid('b')[0] == 'b';
    FiveIsBuilt(Uuid('B'), Uuid('a'), Uuid('c'));
    FiveIsBuilt(Uuid('a'), Uuid('b'), Uuid('d'));
    var first, second := Five(Uuid('B'), Uuid('a')), Five(Uuid('a'), Uuid('b')).(ownerId := "alice");
    var amount := BuiltLegs(first, Uuid('c'));
    TransferAdmitted(Users(), Uuid('c'), first, amount);
    assert BuildTransfer(second, Uuid('d')) == BuildTransfer(Five(Uuid('a'), Uuid('b')), Uuid('d'));
    amount := BuiltLegs(second, Uuid('d'));
    TransferAdmitted(Users(), Uuid('d'), second, amount);
  }

  lemma CrossingIsWellFormed(digest: Digest)
    ensures WellFormed(Crossing(digest)) && Sound(digest, Users())
  {
    UsersSound(digest);
    UuidStored('C');
    UuidStored('D');
    assert Uuid('c')[0] == 'c' && Uuid('d')[0] == 'd' && Uuid('a')[0] == 'a' && Uuid('b')[0] == 'b';
    GenesisIsWellFormed(digest, Users().accounts, Crossing(digest).requests);
  }

  lemma UsersSound(digest: Digest)
    ensures Sound(digest, Users()) && Users().accounts.Keys == {Uuid('a'), Uuid('b')}
    ensures forall a | a in Users().accounts :: AccountSound(a, Users().accounts[a])
  {
    UsersFiled();
    UuidStored('A');
    UuidStored('B');
    GenesisIsSound(digest, Users().accounts);
  }

  /** Everything that is asked of a proper run, except that the first request spells an id in upper case; and a
      schedule that ends with each of the two holding a row and waiting for the other's. */
  lemma CrossingDeadlocks(digest: Digest)
    ensures
      var cfg := Crossing(digest);
      && WellFormed(cfg) && Sound(digest, cfg.initial) && NamesAsStored(cfg.requests[1])
      && exists schedule :: EndsStuck(cfg, schedule)
  {
    var cfg := Crossing(digest);
    CrossingIsWellFormed(digest);
    CrossingBetween(digest);
    DeadlockExactly(cfg, Uuid('a'), Uuid('b'));
  }

  // ---- a reversal that comes too late ----

  /** A world account, and a user without money. */
  function WorldAndUser(): Db {
    var accounts := map[
      "a" := Account("a", true, "USD", None, None),
      "b" := Account("b", false, "USD", Some(0), Some("bob"))];
    Db(accounts, map a | a in accounts :: BalanceRow(0, None), [], [], [], map[])
  }

  function Deposit(): TransferInput { Five("a", "b") }

  lemma LettersStored()
    ensures Plain("a") && Plain("b") && Plain("t") && Plain("r") && Plain("q") && StoredId("t") == "t"
  {
    assert forall s: string | |s| == 1 && 'a' <= s[0] <= 'z' :: AsStored(s);
  }

  /** After the deposit, transaction `t`. */
  function Deposited(digest: Digest): Db { Transfer(digest, WorldAndUser(), "t", Deposit()).0 }

  lemma DepositWorks(digest: Digest)
    ensures
      var db := Deposited(digest);
      && Sound(digest, db) && |db.postings| == 2 && |db.journals| == 1 && db.journals[0] == JournalRow("t", "USD", None)
      && db.accounts == WorldAndUser().accounts && db.balances.Keys == {"a", "b"} && db.balances["b"].balance == 5
      && Stored(db, 0) == TransferJournal("t", Deposit(), 5)
  {
    LettersStored();
    DepositSucceeds(digest);
    TransferKeepsSound(digest, WorldAndUser(), "t", Deposit());
    DepositEffect(digest);
    DepositStored(digest);
  }

  lemma WorldAndUserSound(digest: Digest)
    ensures Sound(digest, WorldAndUser()) && Registered(WorldAndUser())
  {
    LettersStored();
    GenesisIsSound(digest, WorldAndUser().accounts);
  }

  lemma DepositSucceeds(digest: Digest)
    ensures Sound(digest, WorldAndUser()) && Transfer(digest, WorldAndUser(), "t", Deposit()).1.Success?
  {
    LettersStored();
    WorldAndUserSound(digest);
    FiveIsBuilt("a", "b", "t");
    TransferDecides(digest, WorldAndUser(), "t", Deposit());
  }

  lemma DepositEffect(digest: Digest)
    requires Transfer(digest, WorldAndUser(), "t", Deposit()).1.Success?
    ensures
      var db := Deposited(digest);
      db.accounts == WorldAndUser().accounts && db.balances.Keys == {"a", "b"} && db.balances["b"].balance == 5
  {
    LettersStored();
    WorldAndUserSound(digest);
    FiveIsBuilt("a", "b", "t");
    var amount := TransferEffect(digest, WorldAndUser(), "t", Deposit());
  }

  lemma DepositStored(digest: Digest)
    requires Transfer(digest, WorldAndUser(), "t", Deposit()).1.Success? && Plain("a") && Plain("b") && Plain("t")
    ensures
      var db := Deposited(digest);
      |db.journals| == 1 && |db.postings| == 2 && db.journals[0] == JournalRow("t", "USD", None)
        && Stored(db, 0) == TransferJournal("t", Deposit(), 5)
  {
    var db0, j, o := WorldAndUser(), TransferJournal("t", Deposit(), 5), TransferOptions(Deposit());
    FiveIsBuilt("a", "b", "t");
    var amount := BuiltLegs(Deposit(), "t");
    TransferIsPostable(db0, "t", Deposit());
    PostRefinesFold(digest, db0, j, o);
    var st := PostRan(digest, db0, j, o);
  }

  /** After its reversal, transaction `r`. */
  function Reversed(digest: Digest): Db { Reverse(digest, Deposited(digest), "r", "t").0 }

  function Withdrawal(id: string): Journal { Journal(id, "USD", [Posting("a", 5, "USD"), Posting("b", -5, "USD")]) }

  lemma DepositNegated()
    ensures Negated(TransferJournal("t", Deposit(), 5).postings) == Withdrawal("").postings
  {
  }

  lemma WithdrawnLegs(digest: Digest, id: string)
    ensures BuildReversal(Deposited(digest), "t", id) == Ok(Withdrawal(id))
  {
    LettersStored();
    DepositWorks(digest);
    assert JournalSound(Deposited(digest), 0);
    StoredReversalBuilds(Deposited(digest), 0, "t", id);
    DepositNegated();
  }

  lemma WithdrawalStored(id: string)
    ensures LegsAsStored(Withdrawal(id).postings) && Involved(Withdrawal(id).postings) == {"a", "b"}
    ensures |LockOrder(Withdrawal(id).postings)| == 2
  {
    LettersStored();
    TwoInvolved(Posting("a", 5, "USD"), Posting("b", -5, "USD"));
    OrderOfTwo(Posting("a", 5, "USD"), Posting("b", -5, "USD"));
  }

  /** The withdrawal fits if and only if the user has five. */
  lemma WithdrawalFits(db: Db, id: string)
    requires Registered(db) && db.accounts == WorldAndUser().accounts
    ensures AllLegsFit(db.accounts, db.balances, Withdrawal(id).postings) <==> db.balances["b"].balance >= 5
    ensures CheckAccounts(db.accounts, "USD", Withdrawal(id).postings).None?
  {
    LettersStored();
    WithdrawalStored(id);
    TwoLegsFit(db.accounts, db.balances, Posting("a", 5, "USD"), Posting("b", -5, "USD"));
    CheckAccountsDecides(db.accounts, "USD", Withdrawal(id).postings);
  }

  lemma WithdrawalPosts(digest: Digest, db: Db)
    requires Registered(db) && db.accounts == WorldAndUser().accounts && db.balances["b"].balance >= 5
    requires !HasReversal(db.journals, "t")
    ensures Post(digest, db, Withdrawal("r"), ReversalOptions("t")).Ok?
  {
    LettersStored();
    WithdrawalStored("r");
    WithdrawalFits(db, "r");
    FitsAsStored(db, Withdrawal("r"));
    PostDecides(digest, db, Withdrawal("r"), ReversalOptions("t"));
  }

  lemma ReversalWorks(digest: Digest)
    ensures Reverse(digest, Deposited(digest), "r", "t").1.Success?
  {
    LettersStored();
    DepositWorks(digest);
    WithdrawnLegs(digest, "r");
    assert !HasReversal(Deposited(digest).journals, "t");
    WithdrawalPosts(digest, Deposited(digest));
  }

  lemma DepositNet()
    ensures Net(TransferJournal("t", Deposit(), 5).postings, "b") == 5
  {
    FiveIsBuilt("a", "b", "t");
    var amount := BuiltLegs(Deposit(), "t");
    TransferMovesAmount("t", "a", "b", 5, "USD");
  }

  lemma ReversedBalance(digest: Digest)
    ensures
      var db := Reversed(digest);
      && db.accounts == WorldAndUser().accounts && "b" in db.balances && db.balances["b"].balance == 0
      && HasReversal(db.journals, "t")
  {
    LettersStored();
    DepositWorks(digest);
    ReversalWorks(digest);
    DepositNet();
    assert JournalSound(Deposited(digest), 0);
    ReversalLeavesNothing(digest, Deposited(digest));
  }

  lemma ReversalLeavesNothing(digest: Digest, db: Db)
    requires Registered(db) && DistinctJournals(db.journals) && |db.journals| == 1 && JournalSound(db, 0)
    requires db.journals[0] == JournalRow("t", "USD", None) && StoredId("t") == "t"
    requires "b" in db.balances && db.balances["b"].balance == LegNet(db, 0, "b")
    requires Reverse(digest, db, "r", "t").1.Success?
    ensures
      var db' := Reverse(digest, db, "r", "t").0;
      db'.accounts == db.accounts && "b" in db'.balances && db'.balances["b"].balance == 0
        && HasReversal(db'.journals, "t")
  {
    ReversalEffect(digest, db, "r", "t", 0);
    assert Reverse(digest, db, "r", "t").0.journals[1].reverses == Some("t");
  }

  lemma ReversedRegistered(digest: Digest)
    ensures Registered(Reversed(digest))
  {
    LettersStored();
    DepositWorks(digest);
    ReverseKeepsSound(digest, Deposited(digest), "r", "t");
  }

  /** Two reversals of `t`, on a ledger that holds it. */
  function RaceOn(digest: Digest, db: Db): Config {
    Config(digest, db, [1, 2], 3, [ReversalRequest("r", "t"), ReversalRequest("q", "t")])
  }

  function Race(digest: Digest): Config { RaceOn(digest, Deposited(digest)) }

  lemma RaceOnIsProper(digest: Digest, db: Db)
    requires Sound(digest, db) && |db.postings| == 2 && |db.journals| == 1
    requires db.journals[0] == JournalRow("t", "USD", None)
    ensures Proper(RaceOn(digest, db)) && !HasReversal(db.journals, "t")
  {
    RaceIsFresh(digest, db);
    RaceIsOrdered(db.postings);
  }

  lemma RaceIsOrdered(postings: seq<PostingRow>)
    requires |postings| == 2
    ensures Ordered(postings, [1, 2]) && forall i | 0 <= i < 2 :: [1, 2][i] < 3
  {
  }

  lemma RaceIsFresh(digest: Digest, db: Db)
    requires |db.journals| == 1 && db.journals[0] == JournalRow("t", "USD", None)
    ensures forall p | 0 <= p < 2 :: FreshRequest(db, RaceOn(digest, db).requests[p])
    ensures forall p | 0 <= p < 2 :: NamesAsStored(RaceOn(digest, db).requests[p])
  {
    LettersStored();
    assert FreshJournal(db, "r") && FreshJournal(db, "q");
  }

  lemma RaceIsProper(digest: Digest)
    ensures Proper(Race(digest)) && !HasReversal(Deposited(digest).journals, "t")
  {
    DepositWorks(digest);
    RaceOnIsProper(digest, Deposited(digest));
  }

  /** A reversal begins and passes its pre-check. */
  lemma {:induction false} PassesPreCheck(cfg: Config, schedule: seq<Action>, p: nat, s: State,
                                          j: Journal) returns (more: seq<Action>)
    requires p < |cfg.requests| && s == Exec(cfg, schedule) && s.procs[p].Idle? && cfg.requests[p].ReversalRequest?
    requires BuildReversal(s.db, cfg.requests[p].target, cfg.requests[p].id) == Ok(j)
    requires !HasReversal(s.db.journals, StoredId(cfg.requests[p].target))
    ensures Exec(cfg, schedule + more) == Goto(s, p, Admitting(j))
  {
    RunOneStep(cfg, schedule, p, Goto(s, p, PreChecking(j)));
    GotoTwice(s, p, PreChecking(j), Admitting(j));
    RunOneStep(cfg, schedule + [Run(p)], p, Goto(s, p, Admitting(j)));
    more := [Run(p), Run(p)];
    assert schedule + more == schedule + [Run(p)] + [Run(p)];
  }

  lemma BothPass(digest: Digest) returns (schedule: seq<Action>, s: State)
    ensures s == Exec(Race(digest), schedule) && s.db == Deposited(digest)
    ensures s.procs == [Admitting(Withdrawal("r")), Admitting(Withdrawal("q"))]
  {
    LettersStored();
    RaceIsProper(digest);
    WithdrawnLegs(digest, "r");
    WithdrawnLegs(digest, "q");
    schedule, s := BothPassOn(Race(digest), Withdrawal("r"), Withdrawal("q"));
  }

  lemma BothPassOn(cfg: Config, j: Journal, k: Journal) returns (schedule: seq<Action>, s: State)
    requires |cfg.requests| == 2 && cfg.requests[0].ReversalRequest? && cfg.requests[1].ReversalRequest?
    requires BuildReversal(cfg.initial, cfg.requests[0].target, cfg.requests[0].id) == Ok(j)
    requires BuildReversal(cfg.initial, cfg.requests[1].target, cfg.requests[1].id) == Ok(k)
    requires !HasReversal(cfg.initial.journals, StoredId(cfg.requests[0].target))
    requires !HasReversal(cfg.initial.journals, StoredId(cfg.requests[1].target))
    ensures s == Exec(cfg, schedule) && s.db == cfg.initial && s.procs == [Admitting(j), Admitting(k)]
  {
    var first := PassesPreCheck(cfg, [], 0, Start(cfg), j);
    assert [] + first == first;
    var second := PassesPreCheck(cfg, first, 1, Exec(cfg, first), k);
    schedule := first + second;
    s := Exec(cfg, schedule);
  }

  /** A reversal that would succeed, alone with another one that has only passed its pre-check, commits. */
  lemma {:induction false} CommitsFirst(cfg: Config, before: seq<Action>, s0: State) returns (more: seq<Action>)
    requires WellFormed(cfg) && s0 == Exec(cfg, before) && |s0.procs| == |cfg.requests| == 2
    requires cfg.requests[0].ReversalRequest? && cfg.requests[1].ReversalRequest?
    requires s0.procs[0].Admitting? && s0.procs[1].Admitting? && !IsReversed(s0.db, cfg.requests[0])
    ensures
      var s := Exec(cfg, before + more);
      && |s.procs| == 2 && s.procs[1] == s0.procs[1] && s.procs[0].Done?
      && (s.db, s.procs[0].outcome) == Serve(cfg.digest, s0.db, cfg.requests[0])
  {
    assert Quiet(cfg.requests[1], s0.procs[1]);
    more := SoloServes(cfg, before, 0);
    assert OnlyMoved(s0, Exec(cfg, before + more), 0);
  }

  /** The first one commits. */
  lemma FirstCommits(digest: Digest) returns (schedule: seq<Action>, s: State)
    ensures s == Exec(Race(digest), schedule) && s.db == Reversed(digest) && |s.procs| == 2
    ensures s.procs[0].Done? && s.procs[0].outcome.Success? && s.procs[1] == Admitting(Withdrawal("q"))
  {
    LettersStored();
    RaceIsProper(digest);
    ReversalWorks(digest);
    var before, s0 := BothPass(digest);
    var more := CommitsFirst(Race(digest), before, s0);
    schedule := before + more;
    s := Exec(Race(digest), schedule);
  }

  /** A request that nobody stands in the way of locks both its rows. */
  lemma {:induction false} LocksBoth(cfg: Config, schedule: seq<Action>, p: nat, s: State, j: Journal, a: string,
                                     b: string)
    returns (more: seq<Action>)
    requires p < |cfg.requests| && s == Exec(cfg, schedule) && s.procs[p] == Admitting(j)
    requires Admit(s.db.accounts, j, OptionsOf(cfg.requests[p]).requireOwner).None? && LockOrder(j.postings) == [a, b]
    requires StoredId(a) in s.db.balances && StoredId(b) in s.db.balances
    requires !RowTaken(s.procs, p, StoredId(a)) && !RowTaken(s.procs, p, StoredId(b))
    ensures Exec(cfg, schedule + more) ==
      Goto(s, p, Locking(j, 2, map[a := s.db.balances[StoredId(a)]][b := s.db.balances[StoredId(b)]]))
  {
    var one := map[a := s.db.balances[StoredId(a)]];
    var s0, s1, s2 := Locking(j, 0, map[]), Locking(j, 1, one), Locking(j, 2, one[b := s.db.balances[StoredId(b)]]);
    RunOneStep(cfg, schedule, p, Goto(s, p, s0));
    GotoTwice(s, p, s0, s1);
    StillFree(s, p, s0, StoredId(a));
    RunOneStep(cfg, schedule + [Run(p)], p, Goto(s, p, s1));
    GotoTwice(s, p, s1, s2);
    StillFree(s, p, s1, StoredId(b));
    RunOneStep(cfg, schedule + [Run(p)] + [Run(p)], p, Goto(s, p, s2));
    more := [Run(p), Run(p), Run(p)];
    assert schedule + more == schedule + [Run(p)] + [Run(p)] + [Run(p)];
  }

  /** Both pass the pre-check, one commits, and the other, with its rows locked, is told that it lacks funds, where
      the serial ledger says that the transaction is reversed already. */
  lemma LateReversalLacksFunds(digest: Digest) returns (schedule: seq<Action>)
    ensures
      var s := Exec(Race(digest), schedule);
      && Proper(Race(digest)) && s.procs[0].Done? && s.procs[0].outcome.Success?
      && s.procs[1] == Done(Refused(InsufficientFunds))
      && Serve(digest, s.db, Race(digest).requests[1]) == (s.db, Refused(AlreadyReversed))
  {
    RaceIsProper(digest);
    var before, s0 := FirstCommits(digest);
    var locks, s1 := SecondLocks(digest, before, s0);
    var more := EndsSecond(Race(digest), before + locks, s1);
    schedule := before + locks + more;
    LateAnswer(digest, before + locks, more, s1);
  }

  lemma {:induction false} EndsSecond(cfg: Config, before: seq<Action>, s1: State) returns (more: seq<Action>)
    requires WellFormed(cfg) && s1 == Exec(cfg, before) && |s1.procs| == |cfg.requests| == 2
    requires s1.procs[0].Done? && s1.procs[1].Locking?
    ensures Exec(cfg, before + more).procs[0] == s1.procs[0] && EndedOn(cfg, s1.db, Exec(cfg, before + more), 1)
  {
    assert Quiet(cfg.requests[0], s1.procs[0]);
    more := SoloServes(cfg, before, 1);
    assert OnlyMoved(s1, Exec(cfg, before + more), 1);
  }

  lemma SecondLocks(digest: Digest, before: seq<Action>, s0: State) returns (locks: seq<Action>, s1: State)
    requires s0 == Exec(Race(digest), before) && s0.db == Reversed(digest) && |s0.procs| == 2
    requires s0.procs[0].Done? && s0.procs[1] == Admitting(Withdrawal("q"))
    ensures s1 == Exec(Race(digest), before + locks) && s1.db == s0.db && s1.procs == s0.procs[1 := s1.procs[1]]
    ensures s1.procs[1].Locking? && s1.procs[1].j == Withdrawal("q") && s1.procs[1].taken == 2
  {
    LettersStored();
    ReversedBalance(digest);
    ReversedRegistered(digest);
    WithdrawalFits(s0.db, "q");
    OrderOfTwo(Posting("a", 5, "USD"), Posting("b", -5, "USD"));
    locks, s1 := SecondLocksOn(Race(digest), before, s0, Withdrawal("q"), "a", "b");
  }

  lemma {:induction false} SecondLocksOn(cfg: Config, before: seq<Action>, s0: State, j: Journal, a: string, b: string)
    returns (locks: seq<Action>, s1: State)
    requires |cfg.requests| == 2 && s0 == Exec(cfg, before) && s0.procs[0].Done? && s0.procs[1] == Admitting(j)
    requires Admit(s0.db.accounts, j, OptionsOf(cfg.requests[1]).requireOwner).None? && LockOrder(j.postings) == [a, b]
    requires StoredId(a) in s0.db.balances && StoredId(b) in s0.db.balances
    ensures s1 == Exec(cfg, before + locks) && s1.db == s0.db && s1.procs == s0.procs[1 := s1.procs[1]]
    ensures s1.procs[1].Locking? && s1.procs[1].j == j && s1.procs[1].taken == 2
  {
    locks := LocksBoth(cfg, before, 1, s0, j, a, b);
    s1 := Exec(cfg, before + locks);
  }

  lemma {:induction false} LateAnswer(digest: Digest, schedule: seq<Action>, more: seq<Action>, s1: State)
    requires s1 == Exec(Race(digest), schedule) && s1.db == Reversed(digest) && |s1.procs| == 2
    requires s1.procs[1].Locking? && s1.procs[1].j == Withdrawal("q") && s1.procs[1].taken == 2
    requires EndedOn(Race(digest), s1.db, Exec(Race(digest), schedule + more), 1)
    ensures
      var s := Exec(Race(digest), schedule + more);
      && s.procs[1] == Done(Refused(InsufficientFunds))
      && Serve(digest, s.db, Race(digest).requests[1]) == (s.db, Refused(AlreadyReversed))
  {
    var cfg, request := Race(digest), Race(digest).requests[1];
    LettersStored();
    RaceIsProper(digest);
    ReversedBalance(digest);
    ReversedRegistered(digest);
    WithdrawalFits(s1.db, "q");
    WithdrawalStored("q");
    LosingReversal(cfg, schedule, more, 1, Withdrawal("q"), s1.procs[1].locked);
    EveryRequestGood(cfg, schedule);
    assert Good(cfg, s1.db, request, s1.procs[1]);
    ReversedServes(cfg, s1.db, request, Withdrawal("q"));
  }

  // ---- one amount, two texts ----

  /** The fingerprint covers the amount as it was typed: a retry that spells the amount differently conflicts
      with the completed key, and one that spells it alike does not, or two canonical texts collide. */
  lemma AmountTextIsCompared(digest: Digest, db: Db, id: string, first: TransferInput, text: string)
    requires Sendable(first) && NoBar(first.from) && NoBar(first.to)
    requires PositiveText(text) && Value(text) == Value(first.amount)
    requires first.key != "" && first.key in db.keys && db.keys[first.key].fingerprint == Fingerprint(digest, first)
    ensures
      var retry := first.(amount := text);
      || (Transfer(digest, db, id, retry).1 == Refused(IdempotencyConflict) <==> text != first.amount)
      || (Canonical(retry) != Canonical(first) && digest(Canonical(retry)) == digest(Canonical(first)))
  {
    var retry := first.(amount := text);
    BuildsExactly(first, id);
    BuildsExactly(retry, id);
    if Canonical(retry) == Canonical(first) { CanonicalInjective(retry, first); }
  }

  /** `5` and `05` are one amount and two fingerprints. */
  lemma LeadingZeroConflicts(digest: Digest, db: Db, id: string, first: TransferInput)
    requires first.amount == "5" && Supported(first.currency) && first.from != first.to && NoBar(first.from)
    requires NoBar(first.to)
    requires first.key != "" && first.key in db.keys && db.keys[first.key].fingerprint == Fingerprint(digest, first)
    ensures
      var retry := first.(amount := "05");
      || Transfer(digest, db, id, retry).1 == Refused(IdempotencyConflict)
      || (Canonical(retry) != Canonical(first) && digest(Canonical(retry)) == digest(Canonical(first)))
  {
    assert "5"[..0] == [] && "05"[..1] == "0" && "0"[..0] == [];
    assert Value("5") == 5 && Value("05") == 5;
    AmountTextIsCompared(digest, db, id, first, "05");
  }
}
