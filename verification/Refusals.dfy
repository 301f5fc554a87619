/** Refusals over whole runs: each one is what the serial ledger would say, with one exact exception. */
module Refusals {
  import opened Wrappers
  import opened Text
  import opened Journals
  import opened Ledger
  import opened Soundness
  import opened Guarantees
  import opened Protocol
  import opened Invariant
  import opened Runs
  import opened Serializability
  import opened Commits

  // ---- every refusal is justified ----

  predicate IsReversed(db: Db, request: Request) {
    request.ReversalRequest? && HasReversal(db.journals, StoredId(request.target))
  }

  /** The serial ledger gives this very answer on these tables; or a reversal lost to another one after its
      pre-check, and is told that it lacks funds instead of that it came too late. */
  ghost predicate Justified(cfg: Config, db: Db, request: Request, failure: Failure) {
    || Serve(cfg.digest, db, request) == (db, Refused(failure))
    || (failure == InsufficientFunds && IsReversed(db, request)
        && Serve(cfg.digest, db, request) == (db, Refused(AlreadyReversed)))
  }

  lemma ReversedServes(cfg: Config, db: Db, request: Request, j: Journal)
    requires request.ReversalRequest? && Built(db, request, j) && IsReversed(db, request)
    ensures Serve(cfg.digest, db, request) == (db, Refused(AlreadyReversed))
  {
  }

  /** A request that is ready fails as its posting does, unless it has been reversed already. */
  lemma PostingFailureServes(cfg: Config, db: Db, request: Request, j: Journal, failure: Failure)
    requires Ready(db, request, j) && !IsReversed(db, request)
    requires Post(cfg.digest, db, j, OptionsOf(request)) == Err(failure)
    ensures Serve(cfg.digest, db, request) == (db, Refused(failure))
  {
    match request
    case TransferRequest(id, input) =>
    case ReversalRequest(id, target) =>
    case OpenRequest(_, _, _) =>
  }

  lemma BeginJustified(cfg: Config, s: State, p: nat, s': State, failure: Failure)
    requires p < |s.procs| == |cfg.requests| == |s'.procs| && s.procs[p].Idle? && Advance(cfg, s, p) == Some(s')
    requires s'.procs[p] == Done(Refused(failure))
    ensures Justified(cfg, s.db, cfg.requests[p], failure)
  {
  }

  lemma AdmitJustified(cfg: Config, db: Db, request: Request, j: Journal, failure: Failure)
    requires Registered(db) && Attributed(db) && Ready(db, request, j)
    requires Admit(db.accounts, j, OptionsOf(request).requireOwner) == Some(failure)
    ensures Justified(cfg, db, request, failure)
  {
    if request.ReversalRequest? { ReversalAdmitted(db, request.target, request.id); }
    PostingFailureServes(cfg, db, request, j, failure);
  }

  lemma LoopJustified(cfg: Config, db: Db, request: Request, j: Journal)
    requires Admitted(db, request, j) && Rows(Involved(j.postings)) <= db.balances.Keys
    requires Loop(cfg.digest, db, j) == Err(InsufficientFunds)
    ensures Justified(cfg, db, request, InsufficientFunds)
  {
    if IsReversed(db, request) {
      ReversedServes(cfg, db, request, j);
    } else {
      PostingFailureServes(cfg, db, request, j, InsufficientFunds);
    }
  }

  lemma LockJustified(cfg: Config, s: State, p: nat, s': State, failure: Failure)
    requires p < |s.procs| == |cfg.requests| == |s'.procs| && Registered(s.db)
    requires Good(cfg, s.db, cfg.requests[p], s.procs[p])
    requires s.procs[p].Locking? && Advance(cfg, s, p) == Some(s') && s'.procs[p] == Done(Refused(failure))
    ensures Justified(cfg, s.db, cfg.requests[p], failure)
  {
    var Locking(j, taken, locked) := s.procs[p];
    if taken < |LockOrder(j.postings)| {
      RowStepGood(cfg, s.db, cfg.requests[p], j, taken, locked);
    } else {
      LoopStepGood(cfg, s.db, cfg.requests[p], j, taken, locked);
      LoopNeverFaults(cfg.digest, s.db, cfg.requests[p], j);
      LoopJustified(cfg, s.db, cfg.requests[p], j);
    }
  }

  lemma InsertJustified(cfg: Config, s: State, p: nat, s': State, failure: Failure)
    requires p < |s.procs| == |cfg.requests| == |s'.procs| && Good(cfg, s.db, cfg.requests[p], s.procs[p])
    requires s.procs[p].Inserting? || s.procs[p].PreChecking?
    requires Advance(cfg, s, p) == Some(s') && s'.procs[p] == Done(Refused(failure))
    ensures Justified(cfg, s.db, cfg.requests[p], failure)
  {
    ReversedServes(cfg, s.db, cfg.requests[p], s.procs[p].j);
  }

  lemma StepJustified(cfg: Config, s: State, p: nat, s': State, failure: Failure)
    requires p < |s.procs| == |cfg.requests| == |s'.procs| && Kept(s.db) && AllGood(cfg, s.db, s.procs)
    requires Advance(cfg, s, p) == Some(s') && s'.procs[p] == Done(Refused(failure))
    ensures Justified(cfg, s.db, cfg.requests[p], failure)
  {
    assert Good(cfg, s.db, cfg.requests[p], s.procs[p]);
    match s.procs[p]
    case Idle => BeginJustified(cfg, s, p, s', failure);
    case ReadingKey => ReplayServes(cfg, s.db, cfg.requests[p]);
    case Admitting(j) => AdmitJustified(cfg, s.db, cfg.requests[p], j, failure);
    case Locking(_, _, _) => LockJustified(cfg, s, p, s', failure);
    case PreChecking(_) => InsertJustified(cfg, s, p, s', failure);
    case Inserting(_, _) => InsertJustified(cfg, s, p, s', failure);
    case _ =>
  }

  lemma StepMovesOne(cfg: Config, s: State, p: nat, q: nat)
    requires p < |s.procs| == |cfg.requests| && q < |s.procs| && q != p
    ensures Advance(cfg, s, p).Some? ==>
      |Advance(cfg, s, p).value.procs| == |s.procs| && Advance(cfg, s, p).value.procs[q] == s.procs[q]
  {
  }

  /** The moment `n` at which request `p` was refused, and the tables of that moment. */
  ghost predicate RefusedAt(cfg: Config, schedule: seq<Action>, p: nat, failure: Failure, n: nat) {
    && n < |schedule| && p < |cfg.requests| && schedule[n] == Run(p)
    && Exec(cfg, schedule[..n + 1]).procs[p] == Done(Refused(failure))
    && Justified(cfg, Exec(cfg, schedule[..n]).db, cfg.requests[p], failure)
  }

  /** No request is refused without reason: each refusal is the serial ledger's answer on the tables of the
      step that decided it, apart from a reversal that lost the race and is told it lacks funds. */
  lemma {:induction false} RefusalsAreJustified(cfg: Config, schedule: seq<Action>, p: nat)
    requires WellFormed(cfg) && p < |cfg.requests|
    requires Exec(cfg, schedule).procs[p].Done? && Exec(cfg, schedule).procs[p].outcome.Refused?
    ensures exists n: nat :: RefusedAt(cfg, schedule, p, Exec(cfg, schedule).procs[p].outcome.failure, n)
  {
    var m := |schedule| - 1;
    var failure := Exec(cfg, schedule).procs[p].outcome.failure;
    assert schedule != [] by { assert schedule == [] ==> Exec(cfg, schedule) == Start(cfg); }
    var s := Exec(cfg, schedule[..m]);
    if s.procs[p] == Done(Refused(failure)) {
      RefusalsAreJustified(cfg, schedule[..m], p);
      var n: nat :| RefusedAt(cfg, schedule[..m], p, failure, n);
      assert schedule[..m][..n] == schedule[..n] && schedule[..m][..n + 1] == schedule[..n + 1];
      assert RefusedAt(cfg, schedule, p, failure, n);
    } else {
      LastStepRefused(cfg, schedule, p, failure);
      assert RefusedAt(cfg, schedule, p, failure, m);
    }
  }

  lemma {:induction false} LastStepRefused(cfg: Config, schedule: seq<Action>, p: nat, failure: Failure)
    requires WellFormed(cfg) && p < |cfg.requests| && schedule != []
    requires Exec(cfg, schedule).procs[p] == Done(Refused(failure))
    requires Exec(cfg, schedule[..|schedule| - 1]).procs[p] != Done(Refused(failure))
    ensures RefusedAt(cfg, schedule, p, failure, |schedule| - 1)
  {
    var m := |schedule| - 1;
    var s, action := Exec(cfg, schedule[..m]), schedule[m];
    assert schedule[..m + 1] == schedule;
    EveryRequestGood(cfg, schedule[..m]);
    EveryLedgerKept(cfg, schedule[..m]);
    if action.Run? && action.p != p && action.p < |s.procs| { StepMovesOne(cfg, s, action.p, p); }
    assert action == Run(p);
    AdvanceKeepsCount(cfg, s, p);
    StepJustified(cfg, s, p, Advance(cfg, s, p).value, failure);
  }

  // ---- the reversal that comes too late ----

  /** A reversal that holds all its rows while its target has been reversed by another, and what becomes of
      it: `fits` says whether its legs keep to the floors of the rows it holds. */
  ghost predicate Losing(cfg: Config, s: State, p: nat, fits: bool)
    requires p < |s.procs| == |cfg.requests|
  {
    IsReversed(s.db, cfg.requests[p]) &&
    match s.procs[p]
    case Locking(j, taken, locked) =>
      taken == |LockOrder(j.postings)| && (AllLegsFit(ById(s.db.accounts, j.postings), locked, j.postings) <==> fits)
    case Inserting(_, _) => fits
    case Done(outcome) => outcome == Refused(if fits then AlreadyReversed else InsufficientFunds)
    case Crashed => true
    case _ => false
  }

  lemma LosingSteps(cfg: Config, s: State, p: nat, fits: bool)
    requires p < |s.procs| == |cfg.requests| && Registered(s.db) && Good(cfg, s.db, cfg.requests[p], s.procs[p])
    requires Losing(cfg, s, p, fits) && Advance(cfg, s, p).Some? && |Advance(cfg, s, p).value.procs| == |s.procs|
    ensures Losing(cfg, Advance(cfg, s, p).value, p, fits)
  {
    if s.procs[p].Locking? {
      var Locking(j, taken, locked) := s.procs[p];
      LoopStepGood(cfg, s.db, cfg.requests[p], j, taken, locked);
      LoopRefinesFold(cfg.digest, j.id, ById(s.db.accounts, j.postings), locked, j.postings);
    }
  }

  lemma ReversedForGood(db: Db, db': Db, request: Request)
    requires IsReversed(db, request) && db.journals <= db'.journals
    ensures IsReversed(db', request)
  {
    var k :| 0 <= k < |db.journals| && db.journals[k].reverses == Some(StoredId(request.target));
    assert db'.journals[k].reverses == Some(StoredId(request.target));
  }

  lemma LosingStays(cfg: Config, s: State, s': State, p: nat, fits: bool)
    requires p < |s.procs| == |cfg.requests| == |s'.procs| && Good(cfg, s.db, cfg.requests[p], s.procs[p])
    requires Losing(cfg, s, p, fits) && Extends(s, s') && (s'.procs[p] == s.procs[p] || s'.procs[p] == Crashed)
    ensures Losing(cfg, s', p, fits)
  {
    ReversedForGood(s.db, s'.db, cfg.requests[p]);
    if s.procs[p].Locking? {
      var j := s.procs[p].j;
      AdmittedAccounts(s.db.accounts, j, OptionsOf(cfg.requests[p]).requireOwner);
      ByIdSurvives(s.db.accounts, s'.db.accounts, j.postings);
    }
  }

  lemma {:induction false} LosingAction(cfg: Config, schedule: seq<Action>, action: Action, p: nat, fits: bool)
    requires WellFormed(cfg) && p < |cfg.requests| && Losing(cfg, Exec(cfg, schedule), p, fits)
    ensures Losing(cfg, Exec(cfg, schedule + [action]), p, fits)
  {
    var s := Exec(cfg, schedule);
    EveryRequestGood(cfg, schedule);
    ExecSnoc(cfg, schedule, action);
    if action == Run(p) && Advance(cfg, s, p).Some? {
      EveryLedgerKept(cfg, schedule);
      AdvanceKeepsCount(cfg, s, p);
      LosingSteps(cfg, s, p, fits);
    } else {
      LastActionExtends(cfg, schedule, action);
      if action.Run? && action.p != p && action.p < |s.procs| { StepMovesOne(cfg, s, action.p, p); }
      LosingStays(cfg, s, Exec(cfg, schedule + [action]), p, fits);
    }
  }

  lemma {:induction false} LosingRun(cfg: Config, schedule: seq<Action>, more: seq<Action>, p: nat, fits: bool)
    requires WellFormed(cfg) && p < |cfg.requests| && Losing(cfg, Exec(cfg, schedule), p, fits)
    ensures Losing(cfg, Exec(cfg, schedule + more), p, fits)
  {
    if more == [] {
      assert schedule + more == schedule;
    } else {
      var n := |more| - 1;
      LosingRun(cfg, schedule, more[..n], p, fits);
      LosingAction(cfg, schedule + more[..n], more[n], p, fits);
      ScheduleSnoc(schedule, more);
    }
  }

  /** A reversal past its pre-check, with all rows locked, whose target has been reversed meanwhile: in whatever
      way the run goes on, it is refused with `insufficient_funds` if and only if its legs do not keep to the
      floors, and with `already_reversed` otherwise (unless its connection is lost). */
  lemma {:induction false} LosingReversal(cfg: Config, schedule: seq<Action>, more: seq<Action>, p: nat, j: Journal,
                                          locked: map<string, BalanceRow>)
    requires WellFormed(cfg) && p < |cfg.requests| && IsReversed(Exec(cfg, schedule).db, cfg.requests[p])
    requires Exec(cfg, schedule).procs[p] == Locking(j, |LockOrder(j.postings)|, locked)
    ensures
      var db, proc := Exec(cfg, schedule).db, Exec(cfg, schedule + more).procs[p];
      Finished(proc) ==> proc == Crashed || proc == Done(Refused(
        if AllLegsFit(db.accounts, db.balances, j.postings) then AlreadyReversed else InsufficientFunds))
  {
    EveryRequestGood(cfg, schedule);
    EveryLedgerKept(cfg, schedule);
    var s := Exec(cfg, schedule);
    assert Good(cfg, s.db, cfg.requests[p], s.procs[p]);
    ReversalNamesStored(s.db, cfg.requests[p], j);
    LoopStepGood(cfg, s.db, cfg.requests[p], j, |LockOrder(j.postings)|, locked);
    FitsAsStored(s.db, j);
    LosingRun(cfg, schedule, more, p, AllLegsFit(s.db.accounts, s.db.balances, j.postings));
  }
}
