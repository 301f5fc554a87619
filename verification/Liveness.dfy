/** Deadlock freedom and completion. */
module Liveness {
  import opened Wrappers
  import opened Text
  import opened Ledger
  import opened Naming
  import opened Soundness
  import opened Protocol
  import opened Invariant
  import opened Commits
  import opened Guarantees
  import opened Journals
  import opened Runs
  import opened Serializability

  // ---- no deadlock ----

  /** The balance row the request is about to lock. */
  function NextRow(proc: Proc): Option<string> {
    if proc.Locking? && proc.taken < |LockOrder(proc.j.postings)|
    then Some(StoredId(LockOrder(proc.j.postings)[proc.taken]))
    else None
  }

  /** Rows come in ascending order; one row may come twice, under two texts. */
  ghost predicate RowsRise(order: seq<string>) {
    forall i, k | 0 <= i < k < |order| ::
      StoredId(order[i]) == StoredId(order[k]) || Less(StoredId(order[i]), StoredId(order[k]))
  }

  lemma TwoRowsRise(p: Posting, q: Posting)
    requires p.accountId != q.accountId && InRowOrder(p.accountId, q.accountId)
    ensures RowsRise(LockOrder([p, q]))
  {
    OrderOfTwo(p, q);
    LessTotal(p.accountId, q.accountId);
    LessTotal(StoredId(p.accountId), StoredId(q.accountId));
  }

  lemma StoredRowsRise(ps: seq<Posting>)
    requires LegsAsStored(ps)
    ensures RowsRise(LockOrder(ps))
  {
    var order := LockOrder(ps);
    InvolvedAsStored(ps);
    forall i, k | 0 <= i < k < |order| ensures Less(StoredId(order[i]), StoredId(order[k])) {
      assert order[i] in order && order[k] in order && AsStored(order[i]) && AsStored(order[k]);
    }
  }

  lemma LockOrderRises(db: Db, request: Request, j: Journal)
    requires Kept(db) && Built(db, request, j) && LocksInRowOrder(request)
    ensures RowsRise(LockOrder(j.postings))
  {
    match request
    case TransferRequest(id, input) =>
      var amount := BuiltLegs(input, id);
      TwoRowsRise(j.postings[0], j.postings[1]);
    case ReversalRequest(_, _) =>
      ReversalNamesStored(db, request, j);
      StoredRowsRise(j.postings);
    case OpenRequest(_, _, _) =>
  }

  /** Whoever holds a row and waits for another waits for a later one, or for the same row under another text. */
  lemma WaitsForLater(cfg: Config, db: Db, request: Request, proc: Proc, a: string)
    requires Kept(db) && Good(cfg, db, request, proc) && LocksInRowOrder(request)
    requires a in Held(proc) && NextRow(proc).Some?
    ensures a == NextRow(proc).value || Less(a, NextRow(proc).value)
  {
    var order := LockOrder(proc.j.postings);
    LockOrderRises(db, request, proc.j);
    LockedKeys(db.balances, FirstLocks(proc.j, proc.taken));
    var i :| 0 <= i < proc.taken && StoredId(order[i]) == a;
  }

  function WaitersAbove(procs: seq<Proc>, a: string): set<nat> {
    set p: nat | p < |procs| && NextRow(procs[p]).Some? && Less(a, NextRow(procs[p]).value)
  }

  lemma WaitersShrink(procs: seq<Proc>, a: string, h: nat, b: string)
    requires h < |procs| && NextRow(procs[h]) == Some(b) && Less(a, b)
    ensures WaitersAbove(procs, b) < WaitersAbove(procs, a)
  {
    LessIrreflexive(b);
    assert h in WaitersAbove(procs, a) && h !in WaitersAbove(procs, b);
    forall p | p in WaitersAbove(procs, b) ensures p in WaitersAbove(procs, a) {
      LessTransitive(a, b, NextRow(procs[p]).value);
    }
  }

  /** Every request locks rows in their order: what a caller can check of each transfer's two texts. */
  predicate InOrder(cfg: Config) { forall p | 0 <= p < |cfg.requests| :: LocksInRowOrder(cfg.requests[p]) }

  /** The parts of the invariant that progress needs. */
  ghost predicate Steady(cfg: Config, s: State) {
    |s.procs| == |cfg.requests| && Kept(s.db) && AllGood(cfg, s.db, s.procs) && Exclusive(cfg, s.procs)
  }

  ghost predicate CanRun(cfg: Config, s: State, p: nat) {
    p < |s.procs| == |cfg.requests| && Advance(cfg, s, p).Some?
  }

  /** The unique index behind reversal links never makes anybody wait. */
  lemma InsertNeverWaits(cfg: Config, s: State, p: nat)
    requires Steady(cfg, s) && p < |s.procs| && s.procs[p].Inserting?
    ensures CanRun(cfg, s, p)
  {
    if OptionsOf(cfg.requests[p]).reverses.Some? { NobodyElseReverses(cfg, s, p); }
  }

  lemma NobodyElseReverses(cfg: Config, s: State, p: nat)
    requires |s.procs| == |cfg.requests| && AllGood(cfg, s.db, s.procs) && Exclusive(cfg, s.procs)
    requires p < |s.procs| && PastLocks(s.procs[p]) && OptionsOf(cfg.requests[p]).reverses.Some?
    ensures !ReversalTaken(cfg, s.procs, p, OptionsOf(cfg.requests[p]).reverses.value)
  {
    var target := OptionsOf(cfg.requests[p]).reverses.value;
    forall q | 0 <= q < |s.procs| && q != p ensures !OwnsReversal(cfg, s.procs, q, target) {
      if OwnsReversal(cfg, s.procs, q, target) { ReversalsExclude(cfg, s, p, q); }
    }
  }

  lemma AppendNeverWaits(cfg: Config, s: State, p: nat)
    requires |s.procs| == |cfg.requests| && AllGood(cfg, s.db, s.procs) && p < |s.procs| && s.procs[p].Appending?
    ensures CanRun(cfg, s, p)
  {
    assert Good(cfg, s.db, cfg.requests[p], s.procs[p]);
  }

  /** Past its claim, a request can wait only for a balance row. */
  lemma OnlyRowsAwaited(cfg: Config, s: State, p: nat)
    requires Steady(cfg, s) && p < |s.procs| && PastClaim(s.procs[p])
    ensures CanRun(cfg, s, p) || (NextRow(s.procs[p]).Some? && RowTaken(s.procs, p, NextRow(s.procs[p]).value))
  {
    if s.procs[p].Inserting? {
      InsertNeverWaits(cfg, s, p);
    } else if s.procs[p].Appending? {
      AppendNeverWaits(cfg, s, p);
    }
  }

  lemma NobodyElseHolds(cfg: Config, s: State, h: nat, a: string)
    requires |s.procs| == |cfg.requests| && Exclusive(cfg, s.procs) && h < |s.procs| && a in Held(s.procs[h])
    ensures !RowTaken(s.procs, h, a)
  {
    forall q | 0 <= q < |s.procs| && q != h ensures a !in Held(s.procs[q]) { assert Apart(cfg, s.procs, h, q); }
  }

  /** Following the holders of awaited rows upwards in the lock order ends at somebody who can run. */
  lemma {:induction false} RowWaitEnds(cfg: Config, s: State, p: nat, a: string) returns (r: nat)
    requires Steady(cfg, s) && InOrder(cfg) && p < |s.procs|
    requires NextRow(s.procs[p]) == Some(a) && RowTaken(s.procs, p, a)
    ensures CanRun(cfg, s, r)
    decreases WaitersAbove(s.procs, a)
  {
    var h :| 0 <= h < |s.procs| && h != p && a in Held(s.procs[h]);
    OnlyRowsAwaited(cfg, s, h);
    if CanRun(cfg, s, h) {
      r := h;
    } else {
      var b := NextRow(s.procs[h]).value;
      assert Good(cfg, s.db, cfg.requests[h], s.procs[h]);
      WaitsForLater(cfg, s.db, cfg.requests[h], s.procs[h], a);
      NobodyElseHolds(cfg, s, h, a);
      WaitersShrink(s.procs, a, h, b);
      r := RowWaitEnds(cfg, s, h, b);
    }
  }

  lemma HolderLeadsToRunner(cfg: Config, s: State, p: nat) returns (r: nat)
    requires Steady(cfg, s) && InOrder(cfg) && p < |s.procs| && PastClaim(s.procs[p])
    ensures CanRun(cfg, s, r)
  {
    OnlyRowsAwaited(cfg, s, p);
    if CanRun(cfg, s, p) { r := p; } else { r := RowWaitEnds(cfg, s, p, NextRow(s.procs[p]).value); }
  }

  lemma SomebodyRuns(cfg: Config, s: State, p: nat) returns (r: nat)
    requires Steady(cfg, s) && InOrder(cfg) && p < |s.procs| && !Finished(s.procs[p])
    ensures CanRun(cfg, s, r)
  {
    assert Good(cfg, s.db, cfg.requests[p], s.procs[p]);
    if PastClaim(s.procs[p]) {
      r := HolderLeadsToRunner(cfg, s, p);
    } else if s.procs[p].Claiming? && KeyTaken(cfg, s.procs, p, KeyOf(cfg.requests[p])) {
      var q :| 0 <= q < |s.procs| && q != p && OwnsKey(cfg, s.procs, q, KeyOf(cfg.requests[p]));
      r := HolderLeadsToRunner(cfg, s, q);
    } else {
      r := p;
    }
  }

  /** Deadlock freedom, for requests that lock rows in order: in every reachable state with an unfinished request
      somebody can take a step. */
  lemma {:induction false} NoDeadlock(cfg: Config, schedule: seq<Action>)
    requires WellFormed(cfg) && InOrder(cfg)
    requires exists p | 0 <= p < |cfg.requests| :: !Finished(Exec(cfg, schedule).procs[p])
    ensures exists r: nat :: CanRun(cfg, Exec(cfg, schedule), r)
  {
    EveryStateGood(cfg, schedule);
    var p :| 0 <= p < |cfg.requests| && !Finished(Exec(cfg, schedule).procs[p]);
    var r := SomebodyRuns(cfg, Exec(cfg, schedule), p);
  }

  // ---- completion ----

  function StepsLeft(proc: Proc): nat {
    match proc
    case Idle => 0
    case Claiming(j) => |LockOrder(j.postings)| + |j.postings| + 6
    case PreChecking(j) => |LockOrder(j.postings)| + |j.postings| + 6
    case ReadingKey => 1
    case Admitting(j) => |LockOrder(j.postings)| + |j.postings| + 5
    case Locking(j, taken, _) =>
      (if taken < |LockOrder(j.postings)| then |LockOrder(j.postings)| - taken else 0) + |j.postings| + 4
    case Inserting(j, _) => |j.postings| + 3
    case Appending(j, _, drawn) => (if |drawn| < |j.postings| then |j.postings| - |drawn| else 0) + 2
    case Committing(_, _, _, _, _) => 1
    case Done(_) => 0
    case Crashed => 0
  }

  function IdleCount(procs: seq<Proc>): nat {
    if procs == [] then 0 else IdleCount(procs[..|procs| - 1]) + if procs[|procs| - 1].Idle? then 1 else 0
  }

  function TotalSteps(procs: seq<Proc>): nat {
    if procs == [] then 0 else TotalSteps(procs[..|procs| - 1]) + StepsLeft(procs[|procs| - 1])
  }

  lemma {:induction false} UpdateTotals(procs: seq<Proc>, p: nat, proc: Proc)
    requires p < |procs|
    ensures TotalSteps(procs[p := proc]) == TotalSteps(procs) - StepsLeft(procs[p]) + StepsLeft(proc)
    ensures IdleCount(procs[p := proc]) ==
      IdleCount(procs) - (if procs[p].Idle? then 1 else 0) + if proc.Idle? then 1 else 0
  {
    var n := |procs| - 1;
    if p < n {
      UpdateTotals(procs[..n], p, proc);
      assert procs[p := proc][..n] == procs[..n][p := proc];
    } else {
      assert procs[p := proc][..n] == procs[..n];
    }
  }

  /** Fewer requests yet to arrive, or as many and fewer statements left. */
  ghost predicate Closer(s: State, t: State) {
    || IdleCount(s.procs) < IdleCount(t.procs)
    || (IdleCount(s.procs) == IdleCount(t.procs) && TotalSteps(s.procs) < TotalSteps(t.procs))
  }

  lemma UpdateDecreases(s: State, s': State, p: nat, proc: Proc)
    requires p < |s.procs| && s'.procs == s.procs[p := proc] && !proc.Idle?
    requires s.procs[p].Idle? || StepsLeft(proc) < StepsLeft(s.procs[p])
    ensures Closer(s', s)
  {
    UpdateTotals(s.procs, p, proc);
  }

  lemma EarlyDecreases(cfg: Config, s: State, p: nat, s': State)
    requires p < |s.procs| == |cfg.requests| && Advance(cfg, s, p) == Some(s')
    requires s.procs[p].Idle? || s.procs[p].ReadingKey? || s.procs[p].Claiming? || s.procs[p].PreChecking?
      || s.procs[p].Admitting?
    ensures Closer(s', s)
  {
    UpdateDecreases(s, s', p, s'.procs[p]);
  }

  lemma LateDecreases(cfg: Config, s: State, p: nat, s': State)
    requires p < |s.procs| == |cfg.requests| && Advance(cfg, s, p) == Some(s')
    requires s.procs[p].Locking? || s.procs[p].Inserting? || s.procs[p].Appending? || s.procs[p].Committing?
    ensures Closer(s', s)
  {
    UpdateDecreases(s, s', p, s'.procs[p]);
  }

  /** Every step that is taken brings its request closer to the end. */
  lemma StepDecreases(cfg: Config, s: State, action: Action, s': State)
    requires |s.procs| == |cfg.requests| && Take(cfg, s, action) == Some(s')
    ensures Closer(s', s)
  {
    var proc := s.procs[action.p];
    if action.Crash? {
      UpdateDecreases(s, s', action.p, Crashed);
    } else if PastClaim(proc) && !proc.Admitting? {
      LateDecreases(cfg, s, action.p, s');
    } else {
      EarlyDecreases(cfg, s, action.p, s');
    }
  }

  function Prefix(next: nat -> Action, n: nat): seq<Action> { seq(n, i requires 0 <= i < n => next(i)) }

  lemma {:induction false} StopsAfter(cfg: Config, next: nat -> Action, n: nat) returns (m: nat)
    ensures Take(cfg, Exec(cfg, Prefix(next, m)), next(m)).None?
    decreases IdleCount(Exec(cfg, Prefix(next, n)).procs), TotalSteps(Exec(cfg, Prefix(next, n)).procs)
  {
    var s := Exec(cfg, Prefix(next, n));
    if Take(cfg, s, next(n)).None? {
      m := n;
    } else {
      assert Prefix(next, n + 1) == Prefix(next, n) + [next(n)];
      ExecSnoc(cfg, Prefix(next, n), next(n));
      StepDecreases(cfg, s, next(n), Take(cfg, s, next(n)).value);
      m := StopsAfter(cfg, next, n + 1);
    }
  }

  /** No run of finitely many requests goes on forever: every infinite schedule asks, at some point, for a
      step that cannot be taken. */
  lemma NoInfiniteRun(cfg: Config, next: nat -> Action)
    ensures exists n: nat :: Take(cfg, Exec(cfg, Prefix(next, n)), next(n)).None?
  {
    var m := StopsAfter(cfg, next, 0);
  }

  ghost predicate AllFinished(s: State) { forall p | 0 <= p < |s.procs| :: Finished(s.procs[p]) }

  predicate WithoutCrash(schedule: seq<Action>) { forall i | 0 <= i < |schedule| :: schedule[i].Run? }

  lemma {:induction false} RunOne(cfg: Config, schedule: seq<Action>) returns (r: nat)
    requires WellFormed(cfg) && InOrder(cfg) && !AllFinished(Exec(cfg, schedule))
    ensures Closer(Exec(cfg, schedule + [Run(r)]), Exec(cfg, schedule))
  {
    var s := Exec(cfg, schedule);
    NoDeadlock(cfg, schedule);
    r :| CanRun(cfg, s, r);
    StepDecreases(cfg, s, Run(r), Take(cfg, s, Run(r)).value);
    ExecSnoc(cfg, schedule, Run(r));
  }

  /** Every run can be completed, without crashes, until every request is finished. */
  lemma {:induction false} EveryRunCompletes(cfg: Config, schedule: seq<Action>) returns (more: seq<Action>)
    requires WellFormed(cfg) && InOrder(cfg)
    ensures WithoutCrash(more) && AllFinished(Exec(cfg, schedule + more))
    decreases IdleCount(Exec(cfg, schedule).procs), TotalSteps(Exec(cfg, schedule).procs)
  {
    if AllFinished(Exec(cfg, schedule)) {
      more := [];
      assert schedule + more == schedule;
    } else {
      var r := RunOne(cfg, schedule);
      var rest := EveryRunCompletes(cfg, schedule + [Run(r)]);
      more := [Run(r)] + rest;
      ConcatAssociates(schedule, [Run(r)], rest);
    }
  }
}
