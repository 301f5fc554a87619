/** The invariant of the concurrent protocol and its preservation by every step of every schedule. */
module Invariant {
  import opened Wrappers
  import opened Text
  import opened HashChain
  import opened Journals
  import opened Ledger
  import opened Soundness
  import opened Guarantees
  import opened Protocol

  // ---- what each request knows ----

  ghost predicate Built(db: Db, request: Request, j: Journal) {
    match request
    case TransferRequest(id, input) => BuildTransfer(input, id) == Ok(j)
    case ReversalRequest(id, target) => BuildReversal(db, target, id) == Ok(j)
    case OpenRequest(_, _, _) => false
  }

  /** The journal is the one asked for, its id is unused, and so is the key. */
  ghost predicate Ready(db: Db, request: Request, j: Journal) {
    && FreshRequest(db, request) && Built(db, request, j)
    && (KeyOf(request) != "" ==> KeyOf(request) !in db.keys)
  }

  ghost predicate Admitted(db: Db, request: Request, j: Journal) {
    Ready(db, request, j) && Admit(db.accounts, j, OptionsOf(request).requireOwner).None?
  }

  function FirstLocks(j: Journal, taken: nat): (ids: set<string>)
    requires taken <= |LockOrder(j.postings)|
  {
    set i | 0 <= i < taken :: LockOrder(j.postings)[i]
  }

  /** The loop's result is still what the loop would compute on the committed rows. */
  ghost predicate Computed(digest: Digest, db: Db, request: Request, j: Journal, st: LoopState) {
    && Admitted(db, request, j)
    && Rows(Involved(j.postings)) <= db.balances.Keys
    && Loop(digest, db, j) == Ok(st)
  }

  ghost predicate Unreversed(db: Db, request: Request) {
    OptionsOf(request).reverses.Some? ==> !HasReversal(db.journals, OptionsOf(request).reverses.value)
  }

  /** Is `failure` one of the errors the request's service declares? Anything else reaches the caller as a fault. */
  predicate Declared(request: Request, failure: Failure) {
    match failure
    case UnknownCurrency => !request.ReversalRequest?
    case NonPositiveAmount => request.TransferRequest?
    case SameAccount => request.TransferRequest?
    case UnknownAccount => request.TransferRequest?
    case AccountCurrencyMismatch => request.TransferRequest?
    case NotAccountOwner => request.TransferRequest?
    case IdempotencyConflict => request.TransferRequest?
    case InsufficientFunds => !request.OpenRequest?
    case UnknownTransaction => request.ReversalRequest?
    case AlreadyReversed => request.ReversalRequest?
    case Internal(_) => false
  }

  /** An account is opened in a currency that the lookup finds but that has no code: the insert fails. */
  predicate OpensWithoutCode(request: Request) {
    request.OpenRequest? && CurrencyOf(request.currency).Some? && !Supported(request.currency)
  }

  /** What a response promises about the committed tables. */
  ghost predicate Answered(digest: Digest, db: Db, request: Request, outcome: Outcome) {
    && (outcome.Refused? ==>
          (Declared(request, outcome.failure) <==> !OpensWithoutCode(request)) && FreshRequest(db, request))
    && (outcome == Refused(IdempotencyConflict) ==>
          && request.TransferRequest? && KeyOf(request) in db.keys
          && db.keys[KeyOf(request)].fingerprint != Fingerprint(digest, request.input))
    && (outcome.Success? ==> exists m | 0 <= m < |db.outbox| :: db.outbox[m].payload == outcome.receipt)
    && (outcome.Success? ==> FreshRequest(db, request) || outcome.receipt.id == request.id)
    && (outcome.Success? && KeyOf(request) != "" ==>
          && KeyOf(request) in db.keys
          && db.keys[KeyOf(request)].fingerprint == Fingerprint(digest, request.input)
          && db.keys[KeyOf(request)].response == Some(outcome.receipt))
  }

  ghost predicate Good(cfg: Config, db: Db, request: Request, proc: Proc) {
    match proc
    case Idle => FreshRequest(db, request)
    case Claiming(j) => FreshRequest(db, request) && Built(db, request, j) && KeyOf(request) != ""
    case ReadingKey =>
      && FreshRequest(db, request) && request.TransferRequest? && BuildTransfer(request.input, request.id).Ok?
      && KeyOf(request) != "" && KeyOf(request) in db.keys
    case PreChecking(j) => Ready(db, request, j) && request.ReversalRequest?
    case Admitting(j) => Ready(db, request, j)
    case Locking(j, taken, locked) =>
      Admitted(db, request, j) && taken <= |LockOrder(j.postings)| && Rows(FirstLocks(j, taken)) <= db.balances.Keys
      && locked == LockedRows(db.balances, FirstLocks(j, taken))
    case Inserting(j, st) => Computed(cfg.digest, db, request, j, st)
    case Appending(j, st, drawn) =>
      Computed(cfg.digest, db, request, j, st) && Unreversed(db, request) && |drawn| <= |j.postings|
    case Committing(j, st, drawn, w, receipt) =>
      && Computed(cfg.digest, db, request, j, st) && Unreversed(db, request) && |drawn| == |j.postings|
      && w == WritesOf(cfg, request, j, st) && receipt == ReceiptOf(j, st.lines)
    case Done(outcome) => Answered(cfg.digest, db, request, outcome)
    case Crashed => FreshRequest(db, request)
  }

  ghost predicate AllGood(cfg: Config, db: Db, procs: seq<Proc>)
    requires |procs| == |cfg.requests|
  {
    forall p | 0 <= p < |procs| :: Good(cfg, db, cfg.requests[p], procs[p])
  }

  // ---- mutual exclusion ----

  /** Two transactions never hold the same row, the same uncommitted key, or reversal links to the same target. */
  ghost predicate Apart(cfg: Config, procs: seq<Proc>, p: nat, q: nat)
    requires p < |procs| == |cfg.requests| && q < |procs|
  {
    && Held(procs[p]) !! Held(procs[q])
    && (PastClaim(procs[p]) && PastClaim(procs[q]) && KeyOf(cfg.requests[p]) != "" ==>
          KeyOf(cfg.requests[p]) != KeyOf(cfg.requests[q]))
    && (HasInserted(procs[p]) && HasInserted(procs[q]) && OptionsOf(cfg.requests[p]).reverses.Some? ==>
          OptionsOf(cfg.requests[p]).reverses != OptionsOf(cfg.requests[q]).reverses)
  }

  ghost predicate Exclusive(cfg: Config, procs: seq<Proc>)
    requires |procs| == |cfg.requests|
  {
    forall p, q | 0 <= p < |procs| && 0 <= q < |procs| && p != q :: Apart(cfg, procs, p, q)
  }

  // ---- sequence numbers ----

  function DrawnBy(proc: Proc): seq<nat> {
    match proc
    case Appending(_, _, drawn) => drawn
    case Committing(_, _, drawn, _, _) => drawn
    case _ => []
  }

  /** Seqs drawn under locks exceed every committed seq on the locked accounts. */
  ghost predicate DrawnAbove(s: State, proc: Proc) {
    var drawn := DrawnBy(proc);
    && (forall i, k | 0 <= i < k < |drawn| :: drawn[i] < drawn[k])
    && (forall i | 0 <= i < |drawn| :: drawn[i] < s.nextSeq)
    && (forall i, k | 0 <= i < |s.seqs| && 0 <= k < |drawn| && i < |s.db.postings| ::
          s.db.postings[i].accountId in Held(proc) ==> s.seqs[i] < drawn[k])
  }

  ghost predicate Sequenced(s: State) {
    && Ordered(s.db.postings, s.seqs)
    && (forall i | 0 <= i < |s.seqs| :: s.seqs[i] < s.nextSeq)
    && (forall p | 0 <= p < |s.procs| :: DrawnAbove(s, s.procs[p]))
  }

  // ---- history ----

  predicate Succeeded(outcome: Outcome) { !outcome.Refused? }

  /** The `i`-th committed request got the answer the serial ledger gives at that point. */
  ghost predicate ServedSerially(cfg: Config, s: State, i: nat)
    requires Indices(cfg, s.history) && i < |s.history| && |s.procs| == |cfg.requests|
  {
    var p := s.history[i];
    var outcome := Serve(cfg.digest, Serial(cfg, s.history[..i]), cfg.requests[p]).1;
    Succeeded(outcome) && s.procs[p] == Done(outcome)
  }

  ghost predicate Historic(cfg: Config, s: State)
    requires |s.procs| == |cfg.requests|
  {
    && Indices(cfg, s.history)
    && s.db == Serial(cfg, s.history)
    && (forall i | 0 <= i < |s.history| :: ServedSerially(cfg, s, i))
    && (forall i, k | 0 <= i < k < |s.history| :: s.history[i] != s.history[k])
    && (forall p | 0 <= p < |s.procs| && s.procs[p].Done? && Succeeded(s.procs[p].outcome) :: p in s.history)
  }

  ghost predicate Inv(cfg: Config, s: State) {
    && |s.procs| == |cfg.requests|
    && Kept(s.db)
    && AllGood(cfg, s.db, s.procs)
    && Exclusive(cfg, s.procs)
    && Sequenced(s)
    && Historic(cfg, s)
  }

  // ---- steps that leave the tables alone ----

  ghost predicate ApartFromOthers(cfg: Config, procs: seq<Proc>, p: nat)
    requires p < |procs| == |cfg.requests|
  {
    forall q | 0 <= q < |procs| && q != p :: Apart(cfg, procs, p, q)
  }

  lemma UpdateKeepsExclusive(cfg: Config, procs: seq<Proc>, p: nat, proc: Proc)
    requires p < |procs| == |cfg.requests| && Exclusive(cfg, procs)
    requires ApartFromOthers(cfg, procs[p := proc], p)
    ensures Exclusive(cfg, procs[p := proc])
  {
    var procs' := procs[p := proc];
    forall q, r | 0 <= q < |procs'| && 0 <= r < |procs'| && q != r ensures Apart(cfg, procs', q, r) {
      assert Apart(cfg, procs, q, r);
      if r == p { assert Apart(cfg, procs', p, q); }
      if q == p { assert Apart(cfg, procs', p, r); }
    }
  }

  lemma UpdateKeepsHistoric(cfg: Config, s: State, p: nat, proc: Proc, nextSeq: nat)
    requires p < |s.procs| == |cfg.requests| && Historic(cfg, s) && !s.procs[p].Done?
    requires proc.Done? ==> proc.outcome.Refused?
    ensures Historic(cfg, Goto(s, p, proc).(nextSeq := nextSeq))
  {
    var s' := Goto(s, p, proc).(nextSeq := nextSeq);
    forall i | 0 <= i < |s'.history| ensures ServedSerially(cfg, s', i) {
      assert ServedSerially(cfg, s, i);
    }
  }

  lemma UpdateKeepsSequenced(s: State, p: nat, proc: Proc, nextSeq: nat)
    requires p < |s.procs| && Sequenced(s) && nextSeq >= s.nextSeq
    requires DrawnAbove(s.(nextSeq := nextSeq), proc)
    ensures Sequenced(Goto(s, p, proc).(nextSeq := nextSeq))
  {
    var s' := Goto(s, p, proc).(nextSeq := nextSeq);
    forall q | 0 <= q < |s'.procs| ensures DrawnAbove(s', s'.procs[q]) {
      if q != p { assert DrawnAbove(s, s.procs[q]); }
    }
  }

  /** `proc` is a state request `p` may move to without committing anything. */
  ghost predicate Permitted(cfg: Config, s: State, p: nat, proc: Proc, nextSeq: nat)
    requires p < |s.procs| == |cfg.requests|
  {
    && Good(cfg, s.db, cfg.requests[p], proc)
    && ApartFromOthers(cfg, s.procs[p := proc], p)
    && DrawnAbove(s.(nextSeq := nextSeq), proc)
    && (proc.Done? ==> proc.outcome.Refused?)
  }

  lemma PrivateStep(cfg: Config, s: State, p: nat, proc: Proc, nextSeq: nat)
    requires Inv(cfg, s) && p < |s.procs| && !s.procs[p].Done? && nextSeq >= s.nextSeq
    requires Permitted(cfg, s, p, proc, nextSeq)
    ensures Inv(cfg, Goto(s, p, proc).(nextSeq := nextSeq))
  {
    UpdateKeepsExclusive(cfg, s.procs, p, proc);
    UpdateKeepsHistoric(cfg, s, p, proc, nextSeq);
    UpdateKeepsSequenced(s, p, proc, nextSeq);
  }

  /** Moving on without taking anything new keeps the exclusions. */
  lemma StaysApart(cfg: Config, procs: seq<Proc>, p: nat, proc: Proc)
    requires p < |procs| == |cfg.requests| && Exclusive(cfg, procs)
    requires Held(proc) <= Held(procs[p])
    requires PastClaim(proc) && KeyOf(cfg.requests[p]) != "" ==> PastClaim(procs[p])
    requires HasInserted(proc) && OptionsOf(cfg.requests[p]).reverses.Some? ==> HasInserted(procs[p])
    ensures ApartFromOthers(cfg, procs[p := proc], p)
  {
    var procs' := procs[p := proc];
    forall q | 0 <= q < |procs| && q != p ensures Apart(cfg, procs', p, q) {
      assert Apart(cfg, procs, p, q);
    }
  }

  lemma QuietPermitted(cfg: Config, s: State, p: nat, proc: Proc)
    requires p < |s.procs| == |cfg.requests| && Exclusive(cfg, s.procs)
    requires Good(cfg, s.db, cfg.requests[p], proc)
    requires Held(proc) <= Held(s.procs[p]) && DrawnBy(proc) == [] && !HasInserted(proc)
    requires PastClaim(proc) && KeyOf(cfg.requests[p]) != "" ==> PastClaim(s.procs[p])
    requires proc.Done? ==> proc.outcome.Refused?
    ensures Permitted(cfg, s, p, proc, s.nextSeq)
  {
    StaysApart(cfg, s.procs, p, proc);
  }

  lemma RefusalPermitted(cfg: Config, s: State, p: nat, failure: Failure)
    requires p < |s.procs| == |cfg.requests| && Exclusive(cfg, s.procs)
    requires Answered(cfg.digest, s.db, cfg.requests[p], Refused(failure))
    ensures Permitted(cfg, s, p, Done(Refused(failure)), s.nextSeq)
  {
    QuietPermitted(cfg, s, p, Done(Refused(failure)));
  }

  lemma ClaimApart(cfg: Config, procs: seq<Proc>, p: nat, proc: Proc)
    requires p < |procs| == |cfg.requests| && Exclusive(cfg, procs)
    requires !KeyTaken(cfg, procs, p, KeyOf(cfg.requests[p]))
    requires Held(proc) == {} && !HasInserted(proc)
    ensures ApartFromOthers(cfg, procs[p := proc], p)
  {
    var procs' := procs[p := proc];
    forall q | 0 <= q < |procs| && q != p ensures Apart(cfg, procs', p, q) {
      assert !OwnsKey(cfg, procs, q, KeyOf(cfg.requests[p]));
    }
  }

  lemma RowApart(cfg: Config, procs: seq<Proc>, p: nat, proc: Proc, a: string)
    requires p < |procs| == |cfg.requests| && Exclusive(cfg, procs)
    requires !RowTaken(procs, p, a)
    requires Held(proc) <= Held(procs[p]) + {a} && !HasInserted(proc) && PastClaim(procs[p])
    ensures ApartFromOthers(cfg, procs[p := proc], p)
  {
    var procs' := procs[p := proc];
    forall q | 0 <= q < |procs| && q != p ensures Apart(cfg, procs', p, q) {
      assert Apart(cfg, procs, p, q);
    }
  }

  lemma ReversalApart(cfg: Config, procs: seq<Proc>, p: nat, proc: Proc)
    requires p < |procs| == |cfg.requests| && Exclusive(cfg, procs)
    requires OptionsOf(cfg.requests[p]).reverses.Some? ==>
      !ReversalTaken(cfg, procs, p, OptionsOf(cfg.requests[p]).reverses.value)
    requires Held(proc) <= Held(procs[p]) && PastClaim(procs[p])
    ensures ApartFromOthers(cfg, procs[p := proc], p)
  {
    var procs' := procs[p := proc];
    forall q | 0 <= q < |procs| && q != p ensures Apart(cfg, procs', p, q) {
      assert Apart(cfg, procs, p, q);
      assert OptionsOf(cfg.requests[p]).reverses.Some? ==>
        !OwnsReversal(cfg, procs, q, OptionsOf(cfg.requests[p]).reverses.value);
    }
  }

  lemma ClaimPermitted(cfg: Config, s: State, p: nat, j: Journal)
    requires p < |s.procs| == |cfg.requests| && Exclusive(cfg, s.procs)
    requires Good(cfg, s.db, cfg.requests[p], Claiming(j)) && !KeyTaken(cfg, s.procs, p, KeyOf(cfg.requests[p]))
    ensures
      Permitted(cfg, s, p, if KeyOf(cfg.requests[p]) in s.db.keys then ReadingKey else Admitting(j), s.nextSeq)
  {
    ClaimApart(cfg, s.procs, p, ReadingKey);
    ClaimApart(cfg, s.procs, p, Admitting(j));
  }

  lemma FirstLocksGrow(j: Journal, taken: nat)
    requires taken < |LockOrder(j.postings)|
    ensures FirstLocks(j, taken + 1) == FirstLocks(j, taken) + {LockOrder(j.postings)[taken]}
  {
  }

  lemma AllLocksTaken(j: Journal)
    ensures FirstLocks(j, |LockOrder(j.postings)|) == Involved(j.postings)
  {
    var order := LockOrder(j.postings);
    forall a ensures a in FirstLocks(j, |order|) <==> a in Involved(j.postings) {
      assert a in order <==> a in Involved(j.postings);
    }
  }

  lemma LoopNeverFaults(digest: Digest, db: Db, request: Request, j: Journal)
    requires Registered(db) && Admitted(db, request, j)
    ensures Rows(Involved(j.postings)) <= db.balances.Keys
    ensures Loop(digest, db, j).Err? ==> Loop(digest, db, j).error == InsufficientFunds
  {
    AllRowsFound(db, j);
    LoopRefinesFold(digest, j.id, ById(db.accounts, j.postings), LockedRows(db.balances, Involved(j.postings)),
                    j.postings);
  }

  lemma LocksGrow(balances: map<string, BalanceRow>, j: Journal, taken: nat)
    requires taken < |LockOrder(j.postings)| && Rows(Involved(j.postings)) <= balances.Keys
    ensures
      var a := LockOrder(j.postings)[taken];
      && StoredId(a) in balances
      && LockedRows(balances, FirstLocks(j, taken))[a := balances[StoredId(a)]] ==
        LockedRows(balances, FirstLocks(j, taken + 1))
  {
    var a := LockOrder(j.postings)[taken];
    assert a in LockOrder(j.postings);
    assert StoredId(a) in Rows(Involved(j.postings));
    FirstLocksGrow(j, taken);
  }

  lemma RowsOfUnion(ids: set<string>, a: string)
    ensures Rows(ids + {a}) == Rows(ids) + {StoredId(a)}
  {
  }

  lemma LockedKeys(balances: map<string, BalanceRow>, ids: set<string>)
    requires Rows(ids) <= balances.Keys
    ensures LockedRows(balances, ids).Keys == ids
  {
    forall a | a in ids ensures StoredId(a) in balances { assert StoredId(a) in Rows(ids); }
  }

  /** The next balance row exists, and locking it keeps the request good. */
  lemma RowStepGood(cfg: Config, db: Db, request: Request, j: Journal, taken: nat, locked: map<string, BalanceRow>)
    requires Registered(db) && Good(cfg, db, request, Locking(j, taken, locked)) && taken < |LockOrder(j.postings)|
    ensures
      var a := LockOrder(j.postings)[taken];
      StoredId(a) in db.balances && Good(cfg, db, request, Locking(j, taken + 1, locked[a := db.balances[StoredId(a)]]))
  {
    LoopNeverFaults(cfg.digest, db, request, j);
    LocksGrow(db.balances, j, taken);
    FirstLocksGrow(j, taken);
    RowsOfUnion(FirstLocks(j, taken), LockOrder(j.postings)[taken]);
  }

  lemma RowStepHolds(j: Journal, taken: nat, locked: map<string, BalanceRow>, a: string, row: BalanceRow)
    ensures Held(Locking(j, taken + 1, locked[a := row])) == Held(Locking(j, taken, locked)) + {StoredId(a)}
  {
    RowsOfUnion(locked.Keys, a);
    assert locked[a := row].Keys == locked.Keys + {a};
  }

  /** With every row locked, the loop runs on the committed rows. */
  lemma LoopStepGood(cfg: Config, db: Db, request: Request, j: Journal, taken: nat, locked: map<string, BalanceRow>)
    requires Registered(db) && Good(cfg, db, request, Locking(j, taken, locked)) && taken == |LockOrder(j.postings)|
    ensures locked == LockedRows(db.balances, Involved(j.postings))
    ensures Loop(cfg.digest, db, j).Err? ==> Loop(cfg.digest, db, j).error == InsufficientFunds
    ensures Loop(cfg.digest, db, j).Ok? ==> Good(cfg, db, request, Inserting(j, Loop(cfg.digest, db, j).value))
    ensures Held(Locking(j, taken, locked)) == Rows(Involved(j.postings))
  {
    LoopNeverFaults(cfg.digest, db, request, j);
    AllLocksTaken(j);
    LockedKeys(db.balances, Involved(j.postings));
  }

  lemma RowPermitted(cfg: Config, s: State, p: nat, j: Journal, taken: nat, locked: map<string, BalanceRow>)
    requires p < |s.procs| == |cfg.requests| && Exclusive(cfg, s.procs) && Registered(s.db)
    requires s.procs[p] == Locking(j, taken, locked) && Good(cfg, s.db, cfg.requests[p], s.procs[p])
    requires taken < |LockOrder(j.postings)| && !RowTaken(s.procs, p, StoredId(LockOrder(j.postings)[taken]))
    ensures
      var a := LockOrder(j.postings)[taken];
      && StoredId(a) in s.db.balances
      && Permitted(cfg, s, p, Locking(j, taken + 1, locked[a := s.db.balances[StoredId(a)]]), s.nextSeq)
  {
    var a := LockOrder(j.postings)[taken];
    RowStepGood(cfg, s.db, cfg.requests[p], j, taken, locked);
    RowStepHolds(j, taken, locked, a, s.db.balances[StoredId(a)]);
    RowApart(cfg, s.procs, p, Locking(j, taken + 1, locked[a := s.db.balances[StoredId(a)]]), StoredId(a));
  }

  lemma LoopPermitted(cfg: Config, s: State, p: nat, j: Journal, taken: nat, locked: map<string, BalanceRow>)
    requires p < |s.procs| == |cfg.requests| && Exclusive(cfg, s.procs) && Registered(s.db)
    requires s.procs[p] == Locking(j, taken, locked) && Good(cfg, s.db, cfg.requests[p], s.procs[p])
    requires taken >= |LockOrder(j.postings)|
    ensures
      var loop := RunLoop(cfg.digest, j.id, ById(s.db.accounts, j.postings), locked, j.postings);
      Permitted(cfg, s, p, if loop.Err? then Done(Refused(loop.error)) else Inserting(j, loop.value), s.nextSeq)
  {
    LoopStepGood(cfg, s.db, cfg.requests[p], j, taken, locked);
    var loop := Loop(cfg.digest, s.db, j);
    if loop.Err? {
      RefusalPermitted(cfg, s, p, loop.error);
    } else {
      QuietPermitted(cfg, s, p, Inserting(j, loop.value));
    }
  }

  lemma InsertPermitted(cfg: Config, s: State, p: nat, j: Journal, st: LoopState)
    requires p < |s.procs| == |cfg.requests| && Exclusive(cfg, s.procs)
    requires s.procs[p] == Inserting(j, st) && Good(cfg, s.db, cfg.requests[p], s.procs[p])
    requires OptionsOf(cfg.requests[p]).reverses.Some? ==>
      !ReversalTaken(cfg, s.procs, p, OptionsOf(cfg.requests[p]).reverses.value)
    requires Unreversed(s.db, cfg.requests[p])
    ensures Permitted(cfg, s, p, Appending(j, st, []), s.nextSeq)
  {
    ReversalApart(cfg, s.procs, p, Appending(j, st, []));
  }

  lemma DrawsAbove(s: State, j: Journal, st: LoopState, drawn: seq<nat>)
    requires DrawnAbove(s, Appending(j, st, drawn)) && forall i | 0 <= i < |s.seqs| :: s.seqs[i] < s.nextSeq
    ensures DrawnAbove(s.(nextSeq := s.nextSeq + 1), Appending(j, st, drawn + [s.nextSeq]))
  {
    var more := drawn + [s.nextSeq];
    assert Held(Appending(j, st, drawn)) == Held(Appending(j, st, more)) && DrawnBy(Appending(j, st, more)) == more;
    assert DrawnBy(Appending(j, st, drawn)) == drawn;
    forall i, k | 0 <= i < |s.seqs| && 0 <= k < |more| && i < |s.db.postings|
      && s.db.postings[i].accountId in Rows(Involved(j.postings))
      ensures s.seqs[i] < more[k]
    {
      if k < |drawn| { assert s.seqs[i] < drawn[k]; }
    }
  }

  lemma DrawPermitted(cfg: Config, s: State, p: nat, j: Journal, st: LoopState, drawn: seq<nat>)
    requires p < |s.procs| == |cfg.requests| && Exclusive(cfg, s.procs) && Sequenced(s)
    requires s.procs[p] == Appending(j, st, drawn) && Good(cfg, s.db, cfg.requests[p], s.procs[p])
    requires |drawn| < |j.postings|
    ensures Permitted(cfg, s, p, Appending(j, st, drawn + [s.nextSeq]), s.nextSeq + 1)
  {
    assert DrawnAbove(s, s.procs[p]);
    DrawsAbove(s, j, st, drawn);
    StaysApart(cfg, s.procs, p, Appending(j, st, drawn + [s.nextSeq]));
  }

  lemma WritePermitted(cfg: Config, s: State, p: nat, j: Journal, st: LoopState, drawn: seq<nat>, proc: Proc)
    requires p < |s.procs| == |cfg.requests| && Exclusive(cfg, s.procs) && DrawnAbove(s, s.procs[p])
    requires s.procs[p] == Appending(j, st, drawn) && Good(cfg, s.db, cfg.requests[p], s.procs[p])
    requires |drawn| >= |j.postings| == |st.lines|
    requires proc == Committing(j, st, drawn, WritesOf(cfg, cfg.requests[p], j, st), ReceiptOf(j, st.lines))
    ensures Permitted(cfg, s, p, proc, s.nextSeq)
  {
    StaysApart(cfg, s.procs, p, proc);
    assert DrawnBy(proc) == DrawnBy(s.procs[p]) && Held(proc) == Held(s.procs[p]);
  }

  lemma AppendPermitted(cfg: Config, s: State, p: nat, j: Journal, st: LoopState, drawn: seq<nat>)
    requires p < |s.procs| == |cfg.requests| && Exclusive(cfg, s.procs) && Sequenced(s)
    requires s.procs[p] == Appending(j, st, drawn) && Good(cfg, s.db, cfg.requests[p], s.procs[p])
    ensures |j.postings| == |st.lines|
    ensures |drawn| < |j.postings| ==> Permitted(cfg, s, p, Appending(j, st, drawn + [s.nextSeq]), s.nextSeq + 1)
    ensures |drawn| >= |j.postings| ==>
      Permitted(cfg, s, p, Committing(j, st, drawn, WritesOf(cfg, cfg.requests[p], j, st), ReceiptOf(j, st.lines)),
        s.nextSeq)
  {
    if |drawn| < |j.postings| {
      DrawPermitted(cfg, s, p, j, st, drawn);
    } else {
      assert DrawnAbove(s, s.procs[p]);
      WritePermitted(cfg, s, p, j, st, drawn,
                     Committing(j, st, drawn, WritesOf(cfg, cfg.requests[p], j, st), ReceiptOf(j, st.lines)));
    }
  }
}
