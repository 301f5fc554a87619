/** Every state of every schedule satisfies the invariant. */
module Runs {
  import opened Wrappers
  import opened Text
  import opened HashChain
  import opened Journals
  import opened Ledger
  import opened Soundness
  import opened Guarantees
  import opened Protocol
  import opened Invariant
  import opened Commits

  lemma BeginTransferPermitted(cfg: Config, s: State, p: nat)
    requires p < |s.procs| == |cfg.requests| && Exclusive(cfg, s.procs)
    requires s.procs[p].Idle? && FreshRequest(s.db, cfg.requests[p]) && cfg.requests[p].TransferRequest?
    ensures
      var s' := Begin(cfg, s, p);
      s' == Goto(s, p, s'.procs[p]) && Permitted(cfg, s, p, s'.procs[p], s.nextSeq)
  {
    var TransferRequest(id, input) := cfg.requests[p];
    var built := BuildTransfer(input, id);
    if built.Err? {
      RefusalPermitted(cfg, s, p, built.error);
    } else {
      var amount := BuiltLegs(input, id);
      QuietPermitted(cfg, s, p, if input.key == "" then Admitting(built.value) else Claiming(built.value));
    }
  }

  lemma OnlyUnknownTransaction(db: Db, target: string, id: string)
    requires Kept(db)
    ensures BuildReversal(db, target, id).Err? ==> BuildReversal(db, target, id).error == UnknownTransaction
  {
    ReversalAlwaysBuilds(db, target, id);
    FindJournalFinds(db.journals, StoredId(target));
  }

  lemma BeginReversalPermitted(cfg: Config, s: State, p: nat, built: Result<Journal, Failure>)
    requires p < |s.procs| == |cfg.requests| && Exclusive(cfg, s.procs)
    requires s.procs[p].Idle? && FreshRequest(s.db, cfg.requests[p]) && cfg.requests[p].ReversalRequest?
    requires built == BuildReversal(s.db, cfg.requests[p].target, cfg.requests[p].id)
    requires built.Err? ==> built.error == UnknownTransaction
    ensures
      var s' := Begin(cfg, s, p);
      s' == Goto(s, p, s'.procs[p]) && Permitted(cfg, s, p, s'.procs[p], s.nextSeq)
  {
    if built.Err? {
      RefusalPermitted(cfg, s, p, built.error);
    } else {
      QuietPermitted(cfg, s, p, PreChecking(built.value));
    }
  }

  lemma BeginPermitted(cfg: Config, s: State, p: nat)
    requires p < |s.procs| == |cfg.requests| && Exclusive(cfg, s.procs) && Kept(s.db)
    requires s.procs[p].Idle? && FreshRequest(s.db, cfg.requests[p])
    requires !cfg.requests[p].OpenRequest?
    ensures
      var s' := Begin(cfg, s, p);
      s' == Goto(s, p, s'.procs[p]) && Permitted(cfg, s, p, s'.procs[p], s.nextSeq)
  {
    match cfg.requests[p]
    case TransferRequest(_, _) => BeginTransferPermitted(cfg, s, p);
    case ReversalRequest(id, target) =>
      OnlyUnknownTransaction(s.db, target, id);
      BeginReversalPermitted(cfg, s, p, BuildReversal(s.db, target, id));
    case OpenRequest(_, _, _) =>
  }

  lemma PreCheckPermitted(cfg: Config, s: State, p: nat, j: Journal)
    requires p < |s.procs| == |cfg.requests| && Exclusive(cfg, s.procs)
    requires s.procs[p] == PreChecking(j) && Good(cfg, s.db, cfg.requests[p], s.procs[p])
    ensures Permitted(cfg, s, p, Done(Refused(AlreadyReversed)), s.nextSeq)
    ensures Permitted(cfg, s, p, Admitting(j), s.nextSeq)
  {
    RefusalPermitted(cfg, s, p, AlreadyReversed);
    QuietPermitted(cfg, s, p, Admitting(j));
  }

  lemma AdmitPermitted(cfg: Config, s: State, p: nat, j: Journal)
    requires p < |s.procs| == |cfg.requests| && Exclusive(cfg, s.procs) && Registered(s.db) && Attributed(s.db)
    requires s.procs[p] == Admitting(j) && Good(cfg, s.db, cfg.requests[p], s.procs[p])
    ensures
      var denied := Admit(s.db.accounts, j, OptionsOf(cfg.requests[p]).requireOwner);
      Permitted(cfg, s, p, if denied.Some? then Done(Refused(denied.value)) else Locking(j, 0, map[]), s.nextSeq)
  {
    var denied := Admit(s.db.accounts, j, OptionsOf(cfg.requests[p]).requireOwner);
    if denied.Some? {
      DenialIsDeclared(s.db, cfg.requests[p], j);
      RefusalPermitted(cfg, s, p, denied.value);
    } else {
      assert LockedRows(s.db.balances, FirstLocks(j, 0)) == map[];
      QuietPermitted(cfg, s, p, Locking(j, 0, map[]));
    }
  }

  lemma DenialIsDeclared(db: Db, request: Request, j: Journal)
    requires Registered(db) && Attributed(db) && Built(db, request, j)
    ensures
      var denied := Admit(db.accounts, j, OptionsOf(request).requireOwner);
      denied.Some? ==> Declared(request, denied.value) && denied.value != IdempotencyConflict
  {
    if request.ReversalRequest? {
      ReversalAdmitted(db, request.target, request.id);
    } else {
      DenialIsNoFault(db.accounts, j.currency, j.postings);
    }
  }

  lemma {:induction false} DenialIsNoFault(accounts: map<string, Account>, currency: string, ps: seq<Posting>)
    ensures
      var denied := CheckAccounts(accounts, currency, ps);
      denied.Some? ==> denied.value == UnknownAccount || denied.value == AccountCurrencyMismatch
  {
    if ps != [] { DenialIsNoFault(accounts, currency, ps[..|ps| - 1]); }
  }

  lemma UntouchedByFinish(cfg: Config, procs: seq<Proc>, p: nat)
    requires p < |procs| == |cfg.requests| && DistinctRequests(cfg)
    ensures forall q | 0 <= q < |procs| && q != p ::
      Untouched(cfg.requests[q], procs[q], Footprint({}, cfg.requests[p].id, "", None))
  {
    forall q | 0 <= q < |procs| && q != p ensures cfg.requests[q].id != cfg.requests[p].id {
      if q < p {
        assert cfg.requests[q].id != cfg.requests[p].id;
      } else {
        assert cfg.requests[p].id != cfg.requests[q].id;
      }
    }
  }

  lemma FinishKeepsSequenced(s: State, s': State, p: nat, outcome: Outcome)
    requires p < |s.procs| && Sequenced(s) && s'.procs == s.procs[p := Done(outcome)]
    requires s'.db.postings == s.db.postings && s'.seqs == s.seqs && s'.nextSeq == s.nextSeq
    ensures Sequenced(s')
  {
    forall q | 0 <= q < |s'.procs| ensures DrawnAbove(s', s'.procs[q]) {
      if q != p { assert DrawnAbove(s, s.procs[q]); }
    }
  }

  /** A step that answers the caller and writes the tables `db'` atomically, without drawing seqs. */
  lemma FinishStep(cfg: Config, s: State, db': Db, p: nat, outcome: Outcome)
    requires Inv(cfg, s) && DistinctRequests(cfg) && p < |s.procs| && !s.procs[p].Done?
    requires Serve(cfg.digest, s.db, cfg.requests[p]) == (db', outcome) && Succeeded(outcome)
    requires Kept(db') && db'.postings == s.db.postings
    requires Grows(s.db, db', Footprint({}, cfg.requests[p].id, "", None))
    requires Answered(cfg.digest, db', cfg.requests[p], outcome)
    ensures Inv(cfg, State(db', s.seqs, s.nextSeq, s.procs[p := Done(outcome)], s.history + [p]))
  {
    var s' := State(db', s.seqs, s.nextSeq, s.procs[p := Done(outcome)], s.history + [p]);
    UntouchedByFinish(cfg, s.procs, p);
    OthersSurvive(cfg, s.db, db', Footprint({}, cfg.requests[p].id, "", None), s.procs, p, outcome);
    FinishKeepsExclusive(cfg, s.procs, p, outcome);
    FinishKeepsHistoric(cfg, s, s', p, outcome);
    FinishKeepsSequenced(s, s', p, outcome);
  }

  lemma OpenStep(cfg: Config, s: State, p: nat)
    requires Inv(cfg, s) && DistinctRequests(cfg) && p < |s.procs| && s.procs[p].Idle? && cfg.requests[p].OpenRequest?
    ensures Inv(cfg, Begin(cfg, s, p))
  {
    var OpenRequest(id, currency, ownerId) := cfg.requests[p];
    assert Good(cfg, s.db, cfg.requests[p], s.procs[p]);
    if Supported(currency) {
      ServeKeepsKept(cfg.digest, s.db, cfg.requests[p]);
      OpenGrows(s.db, id, currency, ownerId);
      FinishStep(cfg, s, Begin(cfg, s, p).db, p, AccountOpened);
    } else {
      var failure := if CurrencyOf(currency).None? then UnknownCurrency else Internal(NoCurrencyCode);
      RefusalPermitted(cfg, s, p, failure);
      PrivateStep(cfg, s, p, Done(Refused(failure)), s.nextSeq);
      assert Begin(cfg, s, p) == Goto(s, p, Done(Refused(failure))).(nextSeq := s.nextSeq);
    }
  }

  lemma KeyComplete(db: Db, key: string)
    requires Keyed(db) && key in db.keys
    ensures db.keys[key].response.Some?
  {
    var m: nat :| KeyServedBy(db, key, m);
  }

  /** Reading a committed key answers exactly as the serial ledger would, and changes no table. */
  lemma ReplayServes(cfg: Config, db: Db, request: Request)
    requires Keyed(db) && Good(cfg, db, request, ReadingKey)
    ensures
      var outcome := Replay(db.keys[request.input.key], Fingerprint(cfg.digest, request.input));
      && Serve(cfg.digest, db, request) == (db, outcome)
      && Answered(cfg.digest, db, request, outcome)
      && (outcome.Refused? ==> outcome == Refused(IdempotencyConflict))
  {
    KeyComplete(db, request.input.key);
    var m: nat :| KeyServedBy(db, request.input.key, m);
    assert db.keys[request.input.key].response == Some(db.outbox[m].payload);
  }

  lemma NothingGrows(db: Db, id: string)
    ensures Grows(db, db, Footprint({}, id, "", None))
  {
  }

  lemma ReadKeyStep(cfg: Config, s: State, p: nat)
    requires Inv(cfg, s) && DistinctRequests(cfg) && p < |s.procs| && s.procs[p].ReadingKey?
    requires cfg.requests[p].TransferRequest?
    ensures Inv(cfg, ReadKey(cfg, s, p))
  {
    assert Good(cfg, s.db, cfg.requests[p], s.procs[p]);
    ReplayServes(cfg, s.db, cfg.requests[p]);
    var outcome := Replay(s.db.keys[cfg.requests[p].input.key], Fingerprint(cfg.digest, cfg.requests[p].input));
    if outcome.Success? {
      ReplaySucceeds(cfg, s, p, outcome);
    } else {
      ReplayConflicts(cfg, s, p);
    }
  }

  lemma ReplaySucceeds(cfg: Config, s: State, p: nat, outcome: Outcome)
    requires Inv(cfg, s) && DistinctRequests(cfg) && p < |s.procs| && !s.procs[p].Done?
    requires Serve(cfg.digest, s.db, cfg.requests[p]) == (s.db, outcome) && outcome.Success?
    requires Answered(cfg.digest, s.db, cfg.requests[p], outcome)
    ensures Inv(cfg, State(s.db, s.seqs, s.nextSeq, s.procs[p := Done(outcome)], s.history + [p]))
  {
    NothingGrows(s.db, cfg.requests[p].id);
    FinishStep(cfg, s, s.db, p, outcome);
  }

  lemma ReplayConflicts(cfg: Config, s: State, p: nat)
    requires Inv(cfg, s) && p < |s.procs| && s.procs[p].ReadingKey? && cfg.requests[p].TransferRequest?
    requires ReadKey(cfg, s, p) == Goto(s, p, Done(Refused(IdempotencyConflict)))
    requires Answered(cfg.digest, s.db, cfg.requests[p], Refused(IdempotencyConflict))
    ensures Inv(cfg, ReadKey(cfg, s, p))
  {
    RefusalPermitted(cfg, s, p, IdempotencyConflict);
    PrivateStep(cfg, s, p, Done(Refused(IdempotencyConflict)), s.nextSeq);
    assert ReadKey(cfg, s, p) == Goto(s, p, Done(Refused(IdempotencyConflict))).(nextSeq := s.nextSeq);
  }

  /** The steps that touch nothing but the request's own state and the sequence. */
  predicate Private(proc: Proc, request: Request) {
    !Finished(proc) && !proc.Committing? && !proc.ReadingKey? && !(proc.Idle? && request.OpenRequest?)
  }

  ghost predicate PermittedTo(cfg: Config, s: State, p: nat, s': State)
    requires p < |s.procs| == |cfg.requests| == |s'.procs|
  {
    && s'.nextSeq >= s.nextSeq
    && s' == Goto(s, p, s'.procs[p]).(nextSeq := s'.nextSeq)
    && Permitted(cfg, s, p, s'.procs[p], s'.nextSeq)
  }

  lemma EarlyStepPermitted(cfg: Config, s: State, p: nat, s': State)
    requires p < |s.procs| == |cfg.requests| == |s'.procs| && Exclusive(cfg, s.procs) && Kept(s.db)
    requires Good(cfg, s.db, cfg.requests[p], s.procs[p]) && Private(s.procs[p], cfg.requests[p])
    requires Advance(cfg, s, p) == Some(s')
    requires s.procs[p].Idle? || s.procs[p].Claiming? || s.procs[p].PreChecking? || s.procs[p].Admitting?
    ensures PermittedTo(cfg, s, p, s')
  {
    match s.procs[p]
    case Idle => BeginPermitted(cfg, s, p);
    case Claiming(j) => ClaimPermitted(cfg, s, p, j);
    case PreChecking(j) => PreCheckPermitted(cfg, s, p, j);
    case Admitting(j) => AdmitPermitted(cfg, s, p, j);
    case _ =>
  }

  lemma LockStepPermitted(cfg: Config, s: State, p: nat, s': State, j: Journal, taken: nat,
                          locked: map<string, BalanceRow>)
    requires p < |s.procs| == |cfg.requests| == |s'.procs| && Exclusive(cfg, s.procs) && Registered(s.db)
    requires Good(cfg, s.db, cfg.requests[p], s.procs[p]) && s.procs[p] == Locking(j, taken, locked)
    requires LockNext(cfg, s, p, j, taken, locked) == Some(s')
    ensures PermittedTo(cfg, s, p, s')
  {
    if taken < |LockOrder(j.postings)| {
      RowPermitted(cfg, s, p, j, taken, locked);
    } else {
      LoopPermitted(cfg, s, p, j, taken, locked);
    }
  }

  lemma InsertStepPermitted(cfg: Config, s: State, p: nat, s': State)
    requires p < |s.procs| == |cfg.requests| == |s'.procs| && Exclusive(cfg, s.procs)
    requires Good(cfg, s.db, cfg.requests[p], s.procs[p]) && s.procs[p].Inserting? && Advance(cfg, s, p) == Some(s')
    ensures PermittedTo(cfg, s, p, s')
  {
    if Unreversed(s.db, cfg.requests[p]) {
      InsertPermitted(cfg, s, p, s.procs[p].j, s.procs[p].st);
    } else {
      RefusalPermitted(cfg, s, p, AlreadyReversed);
    }
  }

  lemma AppendStepPermitted(cfg: Config, s: State, p: nat, s': State)
    requires p < |s.procs| == |cfg.requests| == |s'.procs| && Exclusive(cfg, s.procs) && Sequenced(s)
    requires Good(cfg, s.db, cfg.requests[p], s.procs[p]) && s.procs[p].Appending? && Advance(cfg, s, p) == Some(s')
    ensures PermittedTo(cfg, s, p, s')
  {
    AppendPermitted(cfg, s, p, s.procs[p].j, s.procs[p].st, s.procs[p].drawn);
  }

  lemma AdvanceKeepsCount(cfg: Config, s: State, p: nat)
    requires p < |s.procs| == |cfg.requests|
    ensures Advance(cfg, s, p).Some? ==> |Advance(cfg, s, p).value.procs| == |s.procs|
  {
  }

  lemma AdvanceKeepsInv(cfg: Config, s: State, p: nat, s': State)
    requires Inv(cfg, s) && DistinctRequests(cfg) && p < |s.procs| && Advance(cfg, s, p) == Some(s')
    ensures Inv(cfg, s')
  {
    assert Good(cfg, s.db, cfg.requests[p], s.procs[p]);
    if s.procs[p].Committing? {
      CommitStep(cfg, s, p, s', s.procs[p]);
    } else if s.procs[p].ReadingKey? {
      ReadKeyStep(cfg, s, p);
    } else if s.procs[p].Idle? && cfg.requests[p].OpenRequest? {
      OpenStep(cfg, s, p);
    } else {
      PrivateAdvanceKeepsInv(cfg, s, p, s');
    }
  }

  lemma PrivateAdvanceKeepsInv(cfg: Config, s: State, p: nat, s': State)
    requires Inv(cfg, s) && p < |s.procs| && Private(s.procs[p], cfg.requests[p]) && Advance(cfg, s, p) == Some(s')
    ensures Inv(cfg, s')
  {
    assert Good(cfg, s.db, cfg.requests[p], s.procs[p]);
    AdvanceKeepsCount(cfg, s, p);
    PrivateAdvance(cfg, s, p, s');
    PrivateStep(cfg, s, p, s'.procs[p], s'.nextSeq);
  }

  lemma PrivateAdvance(cfg: Config, s: State, p: nat, s': State)
    requires p < |s.procs| == |cfg.requests| == |s'.procs| && Exclusive(cfg, s.procs) && Kept(s.db)
    requires Sequenced(s)
    requires Good(cfg, s.db, cfg.requests[p], s.procs[p]) && Private(s.procs[p], cfg.requests[p])
    requires Advance(cfg, s, p) == Some(s')
    ensures PermittedTo(cfg, s, p, s')
  {
    if s.procs[p].Locking? {
      LockStepPermitted(cfg, s, p, s', s.procs[p].j, s.procs[p].taken, s.procs[p].locked);
    } else if s.procs[p].Inserting? {
      InsertStepPermitted(cfg, s, p, s');
    } else if s.procs[p].Appending? {
      AppendStepPermitted(cfg, s, p, s');
    } else {
      EarlyStepPermitted(cfg, s, p, s');
    }
  }

  lemma CrashKeepsInv(cfg: Config, s: State, p: nat)
    requires Inv(cfg, s) && p < |s.procs| && !Finished(s.procs[p])
    ensures Inv(cfg, Goto(s, p, Crashed))
  {
    assert Good(cfg, s.db, cfg.requests[p], s.procs[p]);
    QuietPermitted(cfg, s, p, Crashed);
    PrivateStep(cfg, s, p, Crashed, s.nextSeq);
    assert Goto(s, p, Crashed).(nextSeq := s.nextSeq) == Goto(s, p, Crashed);
  }

  lemma StartSatisfiesInv(cfg: Config)
    requires WellFormed(cfg)
    ensures Inv(cfg, Start(cfg))
  {
    var s := Start(cfg);
    forall p | 0 <= p < |s.procs| ensures DrawnAbove(s, s.procs[p]) {}
    forall p, q | 0 <= p < |s.procs| && 0 <= q < |s.procs| && p != q ensures Apart(cfg, s.procs, p, q) {}
  }

  /** The migrated ledger with any requests under fresh ids is such a starting point. */
  lemma GenesisIsWellFormed(digest: Digest, accounts: map<string, Account>, requests: seq<Request>)
    requires forall a | a in accounts :: AccountSound(a, accounts[a])
    requires forall p | 0 <= p < |requests| :: Plain(requests[p].id) && requests[p].id !in accounts
    requires forall p, q | 0 <= p < q < |requests| :: requests[p].id != requests[q].id
    ensures
      var genesis := Db(accounts, map a | a in accounts :: BalanceRow(0, None), [], [], [], map[]);
      var cfg := Config(digest, genesis, [], 1, requests);
      WellFormed(cfg) && (Proper(cfg) <==> forall p | 0 <= p < |requests| :: NamesAsStored(requests[p]))
  {
    GenesisIsSound(digest, accounts);
  }

  /** Every reachable state satisfies the invariant: any number of requests, any interleaving, crashes anywhere. */
  lemma {:induction false} EveryStateGood(cfg: Config, schedule: seq<Action>)
    requires WellFormed(cfg)
    ensures Inv(cfg, Exec(cfg, schedule))
  {
    if schedule == [] {
      StartSatisfiesInv(cfg);
    } else {
      var n := |schedule| - 1;
      EveryStateGood(cfg, schedule[..n]);
      TakeKeepsInv(cfg, Exec(cfg, schedule[..n]), schedule[n]);
    }
  }

  lemma TakeKeepsInv(cfg: Config, s: State, action: Action)
    requires Inv(cfg, s) && DistinctRequests(cfg)
    ensures Take(cfg, s, action).Some? ==> Inv(cfg, Take(cfg, s, action).value)
  {
    if action.p < |s.procs| {
      match action
      case Run(p) => if Advance(cfg, s, p).Some? { AdvanceKeepsInv(cfg, s, p, Advance(cfg, s, p).value); }
      case Crash(p) => if !Finished(s.procs[p]) { CrashKeepsInv(cfg, s, p); }
    }
  }

  lemma {:induction false} EveryRequestGood(cfg: Config, schedule: seq<Action>)
    requires WellFormed(cfg)
    ensures AllGood(cfg, Exec(cfg, schedule).db, Exec(cfg, schedule).procs) && Historic(cfg, Exec(cfg, schedule))
  {
    EveryStateGood(cfg, schedule);
  }

  lemma {:induction false} EveryLedgerKept(cfg: Config, schedule: seq<Action>)
    requires WellFormed(cfg)
    ensures Kept(Exec(cfg, schedule).db)
  {
    EveryStateGood(cfg, schedule);
  }
}
