/** When two transfers can wait for each other. */
module Deadlocks {
  import opened Wrappers
  import opened Text
  import opened Journals
  import opened Ledger
  import opened Soundness
  import opened Guarantees
  import opened Spelling
  import opened Protocol
  import opened Invariant
  import opened Runs
  import opened Serializability
  import opened Liveness

  lemma {:induction false} RunOneStep(cfg: Config, schedule: seq<Action>, p: nat, s': State)
    requires p < |cfg.requests| && Advance(cfg, Exec(cfg, schedule), p) == Some(s')
    ensures Exec(cfg, schedule + [Run(p)]) == s'
  {
    ExecSnoc(cfg, schedule, Run(p));
  }

  lemma StillFree(s: State, p: nat, proc: Proc, a: string)
    requires p < |s.procs| && !RowTaken(s.procs, p, a)
    ensures !RowTaken(Goto(s, p, proc).procs, p, a)
  {
  }

  lemma GotoTwice(s: State, p: nat, x: Proc, y: Proc)
    requires p < |s.procs|
    ensures Goto(Goto(s, p, x), p, y) == Goto(s, p, y)
  {
  }

  /** A key may be claimed: there is none, or nobody has it. */
  predicate Claimable(cfg: Config, s: State, p: nat)
    requires p < |s.procs| == |cfg.requests|
  {
    var key := KeyOf(cfg.requests[p]);
    key != "" ==> key !in s.db.keys && !KeyTaken(cfg, s.procs, p, key)
  }

  lemma KeyStillFree(cfg: Config, s: State, p: nat, proc: Proc, key: string)
    requires p < |s.procs| == |cfg.requests| && !KeyTaken(cfg, s.procs, p, key)
    ensures !KeyTaken(cfg, Goto(s, p, proc).procs, p, key)
  {
    var procs := Goto(s, p, proc).procs;
    forall q | 0 <= q < |procs| && q != p ensures !OwnsKey(cfg, procs, q, key) {
      assert !OwnsKey(cfg, s.procs, q, key);
    }
  }

  /** A transfer whose key may be claimed begins, and claims it. */
  lemma {:induction false} PassesClaim(cfg: Config, schedule: seq<Action>, p: nat, s: State, j: Journal)
    returns (more: seq<Action>)
    requires p < |cfg.requests| && s == Exec(cfg, schedule) && s.procs[p].Idle? && Claimable(cfg, s, p)
    requires cfg.requests[p].TransferRequest? && BuildTransfer(cfg.requests[p].input, cfg.requests[p].id) == Ok(j)
    ensures Exec(cfg, schedule + more) == Goto(s, p, Admitting(j))
  {
    var key := KeyOf(cfg.requests[p]);
    if key == "" {
      RunOneStep(cfg, schedule, p, Goto(s, p, Admitting(j)));
      more := [Run(p)];
    } else {
      RunOneStep(cfg, schedule, p, Goto(s, p, Claiming(j)));
      KeyStillFree(cfg, s, p, Claiming(j), key);
      GotoTwice(s, p, Claiming(j), Admitting(j));
      RunOneStep(cfg, schedule + [Run(p)], p, Goto(s, p, Admitting(j)));
      more := [Run(p), Run(p)];
      assert schedule + more == schedule + [Run(p)] + [Run(p)];
    }
  }

  /** It goes on until it holds the first row of its lock order. */
  lemma {:induction false} LocksFirst(cfg: Config, schedule: seq<Action>, p: nat, s: State, j: Journal)
    returns (more: seq<Action>)
    requires p < |cfg.requests| && s == Exec(cfg, schedule) && s.procs[p] == Admitting(j)
    requires Admit(s.db.accounts, j, OptionsOf(cfg.requests[p]).requireOwner).None?
    requires LockOrder(j.postings) != [] && StoredId(LockOrder(j.postings)[0]) in s.db.balances
    requires !RowTaken(s.procs, p, StoredId(LockOrder(j.postings)[0]))
    ensures
      var a := LockOrder(j.postings)[0];
      Exec(cfg, schedule + more) == Goto(s, p, Locking(j, 1, map[a := s.db.balances[StoredId(a)]]))
  {
    var a := LockOrder(j.postings)[0];
    var none, one := Locking(j, 0, map[]), Locking(j, 1, map[a := s.db.balances[StoredId(a)]]);
    RunOneStep(cfg, schedule, p, Goto(s, p, none));
    StillFree(s, p, none, StoredId(a));
    LocksOne(cfg, Goto(s, p, none), p, j);
    GotoTwice(s, p, none, one);
    RunOneStep(cfg, schedule + [Run(p)], p, Goto(s, p, one));
    more := [Run(p), Run(p)];
    assert schedule + more == schedule + [Run(p)] + [Run(p)];
  }

  lemma LocksOne(cfg: Config, s: State, p: nat, j: Journal)
    requires p < |s.procs| == |cfg.requests| && s.procs[p] == Locking(j, 0, map[]) && LockOrder(j.postings) != []
    requires StoredId(LockOrder(j.postings)[0]) in s.db.balances
    requires !RowTaken(s.procs, p, StoredId(LockOrder(j.postings)[0]))
    ensures
      var a := LockOrder(j.postings)[0];
      Advance(cfg, s, p) == Some(Goto(s, p, Locking(j, 1, map[a := s.db.balances[StoredId(a)]])))
  {
  }

  /** Nobody is finished, and nobody can take a step. */
  ghost predicate Stuck(cfg: Config, s: State) {
    (forall p | 0 <= p < |s.procs| :: !Finished(s.procs[p])) && forall p: nat :: !CanRun(cfg, s, p)
  }

  /** Does the schedule end in a deadlock? */
  ghost predicate EndsStuck(cfg: Config, schedule: seq<Action>) { Stuck(cfg, Exec(cfg, schedule)) }

  lemma HoldsOne(j: Journal, a: string, b: string, row: BalanceRow)
    requires LockOrder(j.postings) == [a, b]
    ensures Held(Locking(j, 1, map[a := row])) == {StoredId(a)}
    ensures NextRow(Locking(j, 1, map[a := row])) == Some(StoredId(b))
  {
  }

  lemma NothingTaken(cfg: Config, p: nat)
    requires p < |cfg.requests|
    ensures forall a :: !RowTaken(Start(cfg).procs, p, a)
    ensures forall key :: !KeyTaken(cfg, Start(cfg).procs, p, key)
  {
  }

  /** Beside another request that has one row and another key. */
  lemma FreeBeside(cfg: Config, s: State, a: string)
    requires |s.procs| == |cfg.requests| == 2 && a !in Held(s.procs[0])
    requires s.db == cfg.initial && KeysApart(cfg)
    ensures !RowTaken(s.procs, 1, a) && Claimable(cfg, s, 1)
  {
  }

  lemma HoldEachOther(cfg: Config, s: State, a: string, b: string)
    requires |s.procs| == |cfg.requests| == 2 && s.procs[0].Locking? && s.procs[1].Locking?
    requires b in Held(s.procs[0]) && NextRow(s.procs[0]) == Some(a)
    requires a in Held(s.procs[1]) && NextRow(s.procs[1]) == Some(b)
    ensures Stuck(cfg, s)
  {
    assert RowTaken(s.procs, 0, a) && RowTaken(s.procs, 1, b);
  }

  /** A transfer that passes validation and admission on the initial ledger, between the rows `a` and `b`. */
  ghost predicate Between(cfg: Config, p: nat, a: string, b: string) {
    && p < |cfg.requests| && cfg.requests[p].TransferRequest? && a != b
    && var TransferRequest(id, input) := cfg.requests[p];
       && {StoredId(input.from), StoredId(input.to)} == {a, b} && Sendable(input)
       && BothFound(cfg.initial, input) && SenderMay(cfg.initial, input)
  }

  /** Neither of the two requests meets a key that was there before, or that of the other. */
  predicate KeysApart(cfg: Config)
    requires |cfg.requests| == 2
  {
    var key, other := KeyOf(cfg.requests[0]), KeyOf(cfg.requests[1]);
    && (key != "" ==> key !in cfg.initial.keys && key != other)
    && (other != "" ==> other !in cfg.initial.keys)
  }

  /** Its lock order starts with the lower row if and only if its texts are in row order. */
  lemma OrderBetween(cfg: Config, p: nat, a: string, b: string) returns (j: Journal, x: string, y: string)
    requires Between(cfg, p, a, b) && Less(a, b)
    ensures BuildTransfer(cfg.requests[p].input, cfg.requests[p].id) == Ok(j) && LockOrder(j.postings) == [x, y]
    ensures
      if LocksInRowOrder(cfg.requests[p])
      then StoredId(x) == a && StoredId(y) == b
      else StoredId(x) == b && StoredId(y) == a
  {
    var TransferRequest(id, input) := cfg.requests[p];
    BuildsExactly(input, id);
    j := TransferJournal(id, input, Value(input.amount));
    OrderOfTwo(j.postings[0], j.postings[1]);
    x, y := LockOrder(j.postings)[0], LockOrder(j.postings)[1];
    LessIrreflexive(a);
    if Less(b, a) { LessTransitive(a, b, a); }
    TextsOfRows(input.from, input.to, a, b);
  }

  lemma TextsOfRows(from: string, to: string, a: string, b: string)
    requires {StoredId(from), StoredId(to)} == {a, b} && a != b
    ensures (StoredId(from) == a && StoredId(to) == b) || (StoredId(from) == b && StoredId(to) == a)
  {
    assert StoredId(from) in {a, b} && StoredId(to) in {a, b} && a in {StoredId(from), StoredId(to)};
    assert b in {StoredId(from), StoredId(to)};
  }

  // ---- a schedule that ends in a deadlock ----

  lemma {:induction false} FirstHolds(cfg: Config, p: nat, schedule: seq<Action>, s: State, j: Journal, x: string,
                                      y: string)
    returns (more: seq<Action>, s': State)
    requires p < |cfg.requests| && s == Exec(cfg, schedule) && s.procs[p].Idle? && s.db == cfg.initial
    requires cfg.requests[p].TransferRequest? && Claimable(cfg, s, p)
    requires BuildTransfer(cfg.requests[p].input, cfg.requests[p].id) == Ok(j) && LockOrder(j.postings) == [x, y]
    requires Admit(cfg.initial.accounts, j, OptionsOf(cfg.requests[p]).requireOwner).None?
    requires StoredId(x) in cfg.initial.balances && !RowTaken(s.procs, p, StoredId(x))
    ensures s' == Exec(cfg, schedule + more) && s'.db == s.db && s'.procs == s.procs[p := s'.procs[p]]
    ensures s'.procs[p].Locking? && Held(s'.procs[p]) == {StoredId(x)} && NextRow(s'.procs[p]) == Some(StoredId(y))
  {
    var claim := PassesClaim(cfg, schedule, p, s, j);
    StillFree(s, p, Admitting(j), StoredId(x));
    var locks := LocksFirst(cfg, schedule + claim, p, Goto(s, p, Admitting(j)), j);
    more := claim + locks;
    ConcatAssociates(schedule, claim, locks);
    s' := Exec(cfg, schedule + more);
    HoldsOne(j, x, y, s.db.balances[StoredId(x)]);
    GotoTwice(s, p, Admitting(j), s'.procs[p]);
  }

  lemma RowsExist(cfg: Config, p: nat, a: string, b: string)
    requires Registered(cfg.initial) && Between(cfg, p, a, b)
    ensures a in cfg.initial.balances && b in cfg.initial.balances
    ensures
      var TransferRequest(id, input) := cfg.requests[p];
      Admit(cfg.initial.accounts, TransferJournal(id, input, Value(input.amount)), Some(input.ownerId)).None?
  {
    var TransferRequest(id, input) := cfg.requests[p];
    RegisteredIsFiled(cfg.initial);
    TransferDenied(cfg.initial, id, input, Value(input.amount));
    TextsOfRows(input.from, input.to, a, b);
  }

  lemma Enters(cfg: Config, p: nat, a: string, b: string) returns (j: Journal, x: string, y: string)
    requires Registered(cfg.initial) && Between(cfg, p, a, b) && Less(a, b)
    ensures BuildTransfer(cfg.requests[p].input, cfg.requests[p].id) == Ok(j) && LockOrder(j.postings) == [x, y]
    ensures Admit(cfg.initial.accounts, j, OptionsOf(cfg.requests[p]).requireOwner).None?
    ensures a in cfg.initial.balances && b in cfg.initial.balances
    ensures {StoredId(x), StoredId(y)} == {a, b}
    ensures
      if LocksInRowOrder(cfg.requests[p])
      then StoredId(x) == a && StoredId(y) == b
      else StoredId(x) == b && StoredId(y) == a
  {
    j, x, y := OrderBetween(cfg, p, a, b);
    RowsExist(cfg, p, a, b);
    BuildsExactly(cfg.requests[p].input, cfg.requests[p].id);
  }

  lemma CrossedDeadlock(cfg: Config, a: string, b: string) returns (schedule: seq<Action>)
    requires Registered(cfg.initial) && |cfg.requests| == 2 && Between(cfg, 0, a, b) && Between(cfg, 1, a, b)
    requires Less(a, b) && KeysApart(cfg)
    requires LocksInRowOrder(cfg.requests[0]) != LocksInRowOrder(cfg.requests[1])
    ensures EndsStuck(cfg, schedule)
  {
    var j, x, y := Enters(cfg, 0, a, b);
    var k, v, w := Enters(cfg, 1, a, b);
    NothingTaken(cfg, 0);
    var first, s1 := FirstHolds(cfg, 0, [], Start(cfg), j, x, y);
    assert [] + first == first;
    FreeBeside(cfg, s1, StoredId(v));
    var second, s2 := FirstHolds(cfg, 1, first, s1, k, v, w);
    schedule := first + second;
    HoldEachOther(cfg, s2, StoredId(y), StoredId(x));
  }

  // ---- no other deadlock ----

  /** A request that holds a row and waits for the other's has the first of two. */
  lemma HoldsFirst(cfg: Config, db: Db, request: Request, proc: Proc, order: seq<string>)
    requires Good(cfg, db, request, proc) && proc.Locking? && LockOrder(proc.j.postings) == order && |order| == 2
    requires Held(proc) != {} && NextRow(proc).Some?
    ensures Held(proc) == {StoredId(order[0])} && NextRow(proc) == Some(StoredId(order[1]))
  {
    LockedKeys(db.balances, FirstLocks(proc.j, proc.taken));
    if proc.taken == 1 { assert FirstLocks(proc.j, 1) == {order[0]}; }
  }

  /** Past its claim, it can wait only for the other's row. */
  lemma AwaitsOther(cfg: Config, s: State, p: nat)
    requires Steady(cfg, s) && |cfg.requests| == 2 && p < 2 && PastClaim(s.procs[p]) && !CanRun(cfg, s, p)
    ensures s.procs[p].Locking? && NextRow(s.procs[p]).Some? && NextRow(s.procs[p]).value in Held(s.procs[1 - p])
  {
    OnlyRowsAwaited(cfg, s, p);
    TakenByOther(s.procs, p, NextRow(s.procs[p]).value);
  }

  lemma TakenByOther(procs: seq<Proc>, p: nat, a: string)
    requires |procs| == 2 && p < 2 && RowTaken(procs, p, a)
    ensures a in Held(procs[1 - p])
  {
  }

  lemma ClaimAwaitsOther(cfg: Config, s: State, p: nat)
    requires Steady(cfg, s) && |cfg.requests| == 2 && p < 2 && !PastClaim(s.procs[p]) && !Finished(s.procs[p])
    requires !CanRun(cfg, s, p)
    ensures PastClaim(s.procs[1 - p])
  {
    assert Good(cfg, s.db, cfg.requests[p], s.procs[p]);
    var q :| 0 <= q < |s.procs| && q != p && OwnsKey(cfg, s.procs, q, KeyOf(cfg.requests[p]));
  }

  lemma HoldsNothing(proc: Proc)
    ensures !PastClaim(proc) ==> Held(proc) == {}
  {
  }

  /** Who waits for a claim waits for somebody who can run. */
  lemma StuckPastClaim(cfg: Config, s: State, p: nat)
    requires Steady(cfg, s) && |cfg.requests| == 2 && Stuck(cfg, s) && p < 2
    ensures PastClaim(s.procs[p])
  {
    if !PastClaim(s.procs[p]) {
      HoldsNothing(s.procs[p]);
      ClaimAwaitsOther(cfg, s, p);
      AwaitsOther(cfg, s, 1 - p);
    }
  }

  lemma StuckCrosses(cfg: Config, s: State, p: nat)
    requires Steady(cfg, s) && |cfg.requests| == 2 && Stuck(cfg, s) && p < 2
    ensures s.procs[p].Locking? && NextRow(s.procs[p]).Some? && NextRow(s.procs[p]).value in Held(s.procs[1 - p])
  {
    StuckPastClaim(cfg, s, p);
    AwaitsOther(cfg, s, p);
  }

  /** The request holds one of the two rows and waits for the other one. */
  ghost predicate Halfway(request: Request, proc: Proc, a: string, b: string) {
    if LocksInRowOrder(request)
    then Held(proc) == {a} && NextRow(proc) == Some(b)
    else Held(proc) == {b} && NextRow(proc) == Some(a)
  }

  lemma HoldsByOrder(cfg: Config, db: Db, p: nat, proc: Proc, a: string, b: string)
    requires Between(cfg, p, a, b) && Less(a, b) && Good(cfg, db, cfg.requests[p], proc)
    requires proc.Locking? && Held(proc) != {} && NextRow(proc).Some?
    ensures Halfway(cfg.requests[p], proc, a, b)
  {
    var j, x, y := OrderBetween(cfg, p, a, b);
    HoldsFirst(cfg, db, cfg.requests[p], proc, [x, y]);
  }

  lemma StuckHalfway(cfg: Config, s: State, p: nat, a: string, b: string)
    requires Steady(cfg, s) && |cfg.requests| == 2 && Stuck(cfg, s) && p < 2
    requires Between(cfg, p, a, b) && Less(a, b)
    ensures Halfway(cfg.requests[p], s.procs[p], a, b) && NextRow(s.procs[p]).value in Held(s.procs[1 - p])
  {
    StuckCrosses(cfg, s, p);
    StuckCrosses(cfg, s, 1 - p);
    assert Good(cfg, s.db, cfg.requests[p], s.procs[p]);
    HoldsByOrder(cfg, s.db, p, s.procs[p], a, b);
  }

  lemma HalfwayCrosses(r: Request, q: Request, x: Proc, y: Proc, a: string, b: string)
    requires Halfway(r, x, a, b) && Halfway(q, y, a, b) && a != b && NextRow(x).value in Held(y)
    ensures LocksInRowOrder(r) != LocksInRowOrder(q)
  {
  }

  lemma StuckNeedsCross(cfg: Config, s: State, a: string, b: string)
    requires Steady(cfg, s) && |cfg.requests| == 2 && Stuck(cfg, s)
    requires Between(cfg, 0, a, b) && Between(cfg, 1, a, b) && Less(a, b)
    ensures LocksInRowOrder(cfg.requests[0]) != LocksInRowOrder(cfg.requests[1])
  {
    StuckHalfway(cfg, s, 0, a, b);
    StuckHalfway(cfg, s, 1, a, b);
    HalfwayCrosses(cfg.requests[0], cfg.requests[1], s.procs[0], s.procs[1], a, b);
  }

  lemma StuckNeedsKeys(cfg: Config, s: State)
    requires Steady(cfg, s) && |cfg.requests| == 2 && Stuck(cfg, s)
    requires cfg.initial.keys.Keys <= s.db.keys.Keys
    ensures KeysApart(cfg)
  {
    StuckPastClaim(cfg, s, 0);
    StuckPastClaim(cfg, s, 1);
    assert Good(cfg, s.db, cfg.requests[0], s.procs[0]) && Good(cfg, s.db, cfg.requests[1], s.procs[1]);
    assert Apart(cfg, s.procs, 0, 1);
  }

  lemma {:induction false} IsSteady(cfg: Config, schedule: seq<Action>)
    requires WellFormed(cfg)
    ensures Steady(cfg, Exec(cfg, schedule)) && cfg.initial.keys.Keys <= Exec(cfg, schedule).db.keys.Keys
  {
    EveryStateGood(cfg, schedule);
    TablesOnlyGrow(cfg, [], schedule);
    assert [] + schedule == schedule;
  }

  /** Two transfers between the same two rows can run into a deadlock if and only if exactly one of them names its
      accounts in row order, and neither is stopped by a key before it locks anything. */
  lemma DeadlockExactly(cfg: Config, a: string, b: string)
    requires WellFormed(cfg) && |cfg.requests| == 2 && Between(cfg, 0, a, b) && Between(cfg, 1, a, b) && Less(a, b)
    ensures
      (exists schedule :: EndsStuck(cfg, schedule)) <==>
        LocksInRowOrder(cfg.requests[0]) != LocksInRowOrder(cfg.requests[1]) && KeysApart(cfg)
  {
    forall schedule | EndsStuck(cfg, schedule)
      ensures LocksInRowOrder(cfg.requests[0]) != LocksInRowOrder(cfg.requests[1]) && KeysApart(cfg)
    {
      IsSteady(cfg, schedule);
      StuckNeedsCross(cfg, Exec(cfg, schedule), a, b);
      StuckNeedsKeys(cfg, Exec(cfg, schedule));
    }
    if LocksInRowOrder(cfg.requests[0]) != LocksInRowOrder(cfg.requests[1]) && KeysApart(cfg) {
      var schedule := CrossedDeadlock(cfg, a, b);
    }
  }
}
