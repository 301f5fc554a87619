/** A request that runs while nobody else moves gets the answer of the serial ledger. */
module Solo {
  import opened Wrappers
  import opened Text
  import opened Ledger
  import opened Soundness
  import opened Protocol
  import opened Invariant
  import opened Commits
  import opened Runs
  import opened Refusals
  import opened Liveness

  /** Does the other request hold nothing that anybody could wait for? */
  predicate Quiet(request: Request, proc: Proc) {
    Held(proc) == {} && !HasInserted(proc) && (PastClaim(proc) ==> KeyOf(request) == "")
  }

  ghost predicate Alone(cfg: Config, s: State, p: nat) {
    && p < |s.procs| == |cfg.requests|
    && forall q | 0 <= q < |s.procs| && q != p :: Quiet(cfg.requests[q], s.procs[q])
  }

  lemma AloneCanRun(cfg: Config, s: State, p: nat)
    requires Alone(cfg, s, p) && AllGood(cfg, s.db, s.procs) && !Finished(s.procs[p])
    ensures CanRun(cfg, s, p)
  {
    assert Good(cfg, s.db, cfg.requests[p], s.procs[p]);
    NothingAwaited(cfg, s, p);
  }

  lemma NothingAwaited(cfg: Config, s: State, p: nat)
    requires Alone(cfg, s, p)
    ensures forall key :: key != "" ==> !KeyTaken(cfg, s.procs, p, key)
    ensures forall a :: !RowTaken(s.procs, p, a)
    ensures forall target :: !ReversalTaken(cfg, s.procs, p, target)
  {
  }

  /** Nothing but `p` has changed. */
  ghost predicate OnlyMoved(s: State, s': State, p: nat) {
    p < |s.procs| == |s'.procs| && forall q | 0 <= q < |s.procs| && q != p :: s'.procs[q] == s.procs[q]
  }

  /** The request has ended on the tables `db`, with the serial ledger's answer, or as the reversal that came too
      late. */
  ghost predicate EndedOn(cfg: Config, db: Db, s': State, p: nat) {
    && p < |s'.procs| == |cfg.requests| && s'.procs[p].Done?
    && ((s'.db, s'.procs[p].outcome) == Serve(cfg.digest, db, cfg.requests[p])
        || (s'.db == db && IsReversed(db, cfg.requests[p]) && s'.procs[p].outcome == Refused(InsufficientFunds)))
  }

  lemma StepOfOne(cfg: Config, s: State, p: nat, s': State)
    requires p < |s.procs| == |cfg.requests| && Advance(cfg, s, p) == Some(s')
    ensures OnlyMoved(s, s', p) && s'.procs[p] != Crashed
  {
  }

  lemma RefusalKeepsTables(cfg: Config, s: State, p: nat, s': State)
    requires p < |s.procs| == |cfg.requests| == |s'.procs| && Advance(cfg, s, p) == Some(s')
    requires !(s'.procs[p].Done? && !s'.procs[p].outcome.Refused?)
    ensures s'.db == s.db
  {
  }

  lemma SuccessServes(cfg: Config, s: State, p: nat, s': State)
    requires p < |s.procs| == |cfg.requests| == |s'.procs| && Kept(s.db) && Good(cfg, s.db, cfg.requests[p], s.procs[p])
    requires Advance(cfg, s, p) == Some(s') && s'.procs[p].Done? && !s'.procs[p].outcome.Refused?
    ensures (s'.db, s'.procs[p].outcome) == Serve(cfg.digest, s.db, cfg.requests[p])
  {
    SucceedsFrom(cfg, s, p, s');
    if s.procs[p].Committing? {
      CommitServes(cfg, s.db, cfg.requests[p], s.procs[p].j, s.procs[p].st);
    } else if s.procs[p].ReadingKey? {
      ReplayServes(cfg, s.db, cfg.requests[p]);
    } else {
      OpenServes(cfg, s, p, s');
    }
  }

  lemma SucceedsFrom(cfg: Config, s: State, p: nat, s': State)
    requires p < |s.procs| == |cfg.requests| == |s'.procs| && Advance(cfg, s, p) == Some(s')
    requires s'.procs[p].Done? && !s'.procs[p].outcome.Refused?
    ensures s.procs[p].Committing? || s.procs[p].ReadingKey? || (s.procs[p].Idle? && cfg.requests[p].OpenRequest?)
  {
  }

  lemma OpenServes(cfg: Config, s: State, p: nat, s': State)
    requires p < |s.procs| == |cfg.requests| == |s'.procs| && s.procs[p].Idle? && cfg.requests[p].OpenRequest?
    requires Advance(cfg, s, p) == Some(s') && s'.procs[p].Done?
    ensures s'.db == Serve(cfg.digest, s.db, cfg.requests[p]).0
    ensures s'.procs[p].outcome == Serve(cfg.digest, s.db, cfg.requests[p]).1
  {
  }

  /** One step: the tables stay as they are until the request ends on them. */
  lemma SoloStep(cfg: Config, s: State, p: nat, s': State)
    requires p < |s.procs| == |cfg.requests| && Kept(s.db) && AllGood(cfg, s.db, s.procs)
    requires Advance(cfg, s, p) == Some(s')
    ensures OnlyMoved(s, s', p) && s'.procs[p] != Crashed
    ensures if s'.procs[p].Done? then EndedOn(cfg, s.db, s', p) else s'.db == s.db
  {
    StepOfOne(cfg, s, p, s');
    assert Good(cfg, s.db, cfg.requests[p], s.procs[p]);
    if s'.procs[p].Done? && !s'.procs[p].outcome.Refused? {
      SuccessServes(cfg, s, p, s');
    } else {
      RefusalKeepsTables(cfg, s, p, s');
      if s'.procs[p].Done? { StepJustified(cfg, s, p, s', s'.procs[p].outcome.failure); }
    }
  }

  lemma StaysAlone(cfg: Config, s: State, s': State, p: nat)
    requires Alone(cfg, s, p) && OnlyMoved(s, s', p)
    ensures Alone(cfg, s', p)
  {
  }

  lemma MovedTwice(s: State, t: State, u: State, p: nat)
    requires OnlyMoved(s, t, p) && OnlyMoved(t, u, p)
    ensures OnlyMoved(s, u, p)
  {
  }

  lemma {:induction false} RunAlone(cfg: Config, schedule: seq<Action>, p: nat) returns (s': State)
    requires WellFormed(cfg) && Alone(cfg, Exec(cfg, schedule), p) && !Finished(Exec(cfg, schedule).procs[p])
    ensures s' == Exec(cfg, schedule + [Run(p)]) && Closer(s', Exec(cfg, schedule)) && s'.procs[p] != Crashed
    ensures OnlyMoved(Exec(cfg, schedule), s', p) && Alone(cfg, s', p)
    ensures if s'.procs[p].Done? then EndedOn(cfg, Exec(cfg, schedule).db, s', p) else s'.db == Exec(cfg, schedule).db
  {
    var s := Exec(cfg, schedule);
    EveryRequestGood(cfg, schedule);
    EveryLedgerKept(cfg, schedule);
    AloneCanRun(cfg, s, p);
    ExecSnoc(cfg, schedule, Run(p));
    s' := Advance(cfg, s, p).value;
    SoloStep(cfg, s, p, s');
    StepDecreases(cfg, s, Run(p), s');
    StaysAlone(cfg, s, s', p);
  }

  /** From any reachable state in which nobody else holds anything, a request that runs alone ends, moves nobody
      else, and gets the answer and the effect that the serial ledger gives it on the tables of that state; or it is
      a reversal that was past its pre-check when its target was reversed, and lacks funds. */
  lemma {:induction false} SoloServes(cfg: Config, schedule: seq<Action>, p: nat) returns (more: seq<Action>)
    requires WellFormed(cfg) && Alone(cfg, Exec(cfg, schedule), p) && !Finished(Exec(cfg, schedule).procs[p])
    ensures WithoutCrash(more) && OnlyMoved(Exec(cfg, schedule), Exec(cfg, schedule + more), p)
    ensures EndedOn(cfg, Exec(cfg, schedule).db, Exec(cfg, schedule + more), p)
    decreases IdleCount(Exec(cfg, schedule).procs), TotalSteps(Exec(cfg, schedule).procs)
  {
    var s' := RunAlone(cfg, schedule, p);
    if s'.procs[p].Done? {
      more := [Run(p)];
    } else {
      var rest := SoloServes(cfg, schedule + [Run(p)], p);
      more := [Run(p)] + rest;
      ConcatAssociates(schedule, [Run(p)], rest);
      MovedTwice(Exec(cfg, schedule), s', Exec(cfg, schedule + more), p);
    }
  }
}
