/** Main results about whole runs: serial equivalence and exactly-once. */
module Serializability {
  import opened Wrappers
  import opened Text
  import opened HashChain
  import opened Journals
  import opened Ledger
  import opened Soundness
  import opened Guarantees
  import opened Protocol
  import opened Invariant
  import opened Commits
  import opened Runs

  /** For every interleaving of any number of transfers, reversals and openings, with crashes anywhere, the
      committed tables are those of a serial ledger running the successful requests in commit order; each
      of them got the answer the serial ledger gives it; refused and crashed requests left nothing. */
  lemma {:induction false} SerialEquivalence(cfg: Config, schedule: seq<Action>)
    requires WellFormed(cfg)
    ensures
      var s := Exec(cfg, schedule);
      && Indices(cfg, s.history)
      && s.db == Serial(cfg, s.history)
      && (forall i, k | 0 <= i < k < |s.history| :: s.history[i] != s.history[k])
      && (forall i | 0 <= i < |s.history| ::
            s.procs[s.history[i]] == Done(Serve(cfg.digest, Serial(cfg, s.history[..i]), cfg.requests[s.history[i]]).1))
      && (forall p: nat | p < |s.procs| :: p in s.history <==> s.procs[p].Done? && !s.procs[p].outcome.Refused?)
  {
    EveryRequestGood(cfg, schedule);
    var s := Exec(cfg, schedule);
    forall i | 0 <= i < |s.history|
      ensures s.procs[s.history[i]] ==
        Done(Serve(cfg.digest, Serial(cfg, s.history[..i]), cfg.requests[s.history[i]]).1)
      ensures !s.procs[s.history[i]].outcome.Refused?
    {
      assert ServedSerially(cfg, s, i);
    }
  }

  /** Every refusal is an error its service declares. In particular none of the faults the code calls
      impossible happens: no missing balance row, no vanished key, no empty stored response, no transaction
      that cannot be compensated; and a reversal is never turned down for an account, an owner or a currency.
      The one exception is exact: opening an account in a currency that only an inherited property answers to. */
  lemma {:induction false} OnlyDeclaredErrors(cfg: Config, schedule: seq<Action>, p: nat)
    requires WellFormed(cfg) && p < |cfg.requests|
    ensures
      var proc := Exec(cfg, schedule).procs[p];
      proc.Done? && proc.outcome.Refused? ==>
        (Declared(cfg.requests[p], proc.outcome.failure) <==> !OpensWithoutCode(cfg.requests[p]))
  {
    EveryRequestGood(cfg, schedule);
    var s := Exec(cfg, schedule);
    assert Good(cfg, s.db, cfg.requests[p], s.procs[p]);
  }

  /** Has the request posted a journal of its own? */
  predicate Posted(db: Db, request: Request) { FindJournal(db.journals, request.id).Some? }

  lemma OnlyOpensAreOpened(cfg: Config, s: State, p: nat)
    requires |s.procs| == |cfg.requests| && Historic(cfg, s) && p < |s.procs| && !cfg.requests[p].OpenRequest?
    ensures !(s.procs[p].Done? && s.procs[p].outcome.AccountOpened?)
  {
    if s.procs[p].Done? && s.procs[p].outcome.AccountOpened? {
      assert p in s.history;
      var i :| 0 <= i < |s.history| && s.history[i] == p;
      assert ServedSerially(cfg, s, i);
      OpensOnlyOnRequest(cfg.digest, Serial(cfg, s.history[..i]), cfg.requests[p]);
    }
  }

  lemma OnlySuccessPosts(cfg: Config, s: State, p: nat)
    requires |s.procs| == |cfg.requests| && AllGood(cfg, s.db, s.procs) && Historic(cfg, s) && p < |s.procs|
    requires !cfg.requests[p].OpenRequest? && Posted(s.db, cfg.requests[p])
    ensures s.procs[p].Done? && s.procs[p].outcome.Success? && s.procs[p].outcome.receipt.id == cfg.requests[p].id
  {
    assert Good(cfg, s.db, cfg.requests[p], s.procs[p]);
    FindJournalFinds(s.db.journals, cfg.requests[p].id);
    OnlyOpensAreOpened(cfg, s, p);
  }

  lemma OpensOnlyOnRequest(digest: Digest, db: Db, request: Request)
    ensures Serve(digest, db, request).1 == AccountOpened ==> request.OpenRequest?
  {
  }

  /** Two calls with one key: if both succeed they return one and the same receipt and were the same
      request by fingerprint, and at most one of them posted. */
  lemma {:induction false} ExactlyOnce(cfg: Config, schedule: seq<Action>, p: nat, q: nat)
    requires WellFormed(cfg) && p < |cfg.requests| && q < |cfg.requests| && p != q
    requires KeyOf(cfg.requests[p]) == KeyOf(cfg.requests[q]) != ""
    ensures
      var s := Exec(cfg, schedule);
      && !(Posted(s.db, cfg.requests[p]) && Posted(s.db, cfg.requests[q]))
      && (s.procs[p].Done? && s.procs[p].outcome.Success? && s.procs[q].Done? && s.procs[q].outcome.Success? ==>
            && s.procs[p].outcome == s.procs[q].outcome
            && Fingerprint(cfg.digest, cfg.requests[p].input) == Fingerprint(cfg.digest, cfg.requests[q].input))
  {
    EveryStateGood(cfg, schedule);
    var s := Exec(cfg, schedule);
    assert Good(cfg, s.db, cfg.requests[p], s.procs[p]) && Good(cfg, s.db, cfg.requests[q], s.procs[q]);
    if Posted(s.db, cfg.requests[p]) { OnlySuccessPosts(cfg, s, p); }
    if Posted(s.db, cfg.requests[q]) { OnlySuccessPosts(cfg, s, q); }
    assert cfg.requests[p].id != cfg.requests[q].id by {
      if p < q {
        assert cfg.requests[p].id != cfg.requests[q].id;
      } else {
        assert cfg.requests[q].id != cfg.requests[p].id;
      }
    }
  }

  /** What the fingerprint comparison means for validated requests: a replay answers the same request, or
      the two requests' canonical texts are a concrete digest collision. */
  lemma {:induction false} ReplayAnswersSameRequest(cfg: Config, schedule: seq<Action>, p: nat, q: nat)
    requires WellFormed(cfg) && p < |cfg.requests| && q < |cfg.requests| && p != q
    requires KeyOf(cfg.requests[p]) == KeyOf(cfg.requests[q]) != ""
    requires ValidShape(cfg.requests[p].input) && ValidShape(cfg.requests[q].input)
    requires
      var procs := Exec(cfg, schedule).procs;
      procs[p].Done? && procs[p].outcome.Success? && procs[q].Done? && procs[q].outcome.Success?
    ensures
      var a, b := cfg.requests[p].input, cfg.requests[q].input;
      a == b || (Canonical(a) != Canonical(b) && cfg.digest(Canonical(a)) == cfg.digest(Canonical(b)))
  {
    ExactlyOnce(cfg, schedule, p, q);
    var a, b := cfg.requests[p].input, cfg.requests[q].input;
    if Canonical(a) == Canonical(b) { CanonicalInjective(a, b); }
  }

  /** What the HTTP layer lets through: UUID accounts and digits, in a known currency. */
  predicate ValidShape(input: TransferInput) {
    NoBar(input.from) && NoBar(input.to) && ParseAmount(input.amount).Some?
    && CurrencyOf(input.currency).Some?
  }

  lemma ServeKeys(digest: Digest, db: Db, request: Request, key: string)
    ensures
      var (db', outcome) := Serve(digest, db, request);
      key in db'.keys ==>
        || (key in db.keys && db'.keys[key] == db.keys[key])
        || (KeyOf(request) == key && outcome.Success? && request.TransferRequest?
            && db'.keys[key] == KeyRow(Fingerprint(digest, request.input), Some(request.id), Some(outcome.receipt)))
  {
  }

  /** A committed key row was written by the request at position `i` of the history. */
  ghost predicate KeyWrittenAt(cfg: Config, history: seq<nat>, key: string, row: KeyRow, i: nat)
    requires Indices(cfg, history) && i < |history|
  {
    var request := cfg.requests[history[i]];
    var outcome := Serve(cfg.digest, Serial(cfg, history[..i]), request).1;
    && KeyOf(request) == key && request.TransferRequest? && outcome.Success?
    && row == KeyRow(Fingerprint(cfg.digest, request.input), Some(request.id), Some(outcome.receipt))
  }

  lemma {:induction false} KeyOrigin(cfg: Config, history: seq<nat>, key: string)
    requires Indices(cfg, history) && key in Serial(cfg, history).keys
    ensures
      var row := Serial(cfg, history).keys[key];
      || (key in cfg.initial.keys && cfg.initial.keys[key] == row)
      || exists i | 0 <= i < |history| :: KeyWrittenAt(cfg, history, key, row, i)
  {
    if history != [] {
      var n := |history| - 1;
      var row := Serial(cfg, history).keys[key];
      var before := Serial(cfg, history[..n]);
      ServeKeys(cfg.digest, before, cfg.requests[history[n]], key);
      if key in before.keys && before.keys[key] == row {
        KeyOrigin(cfg, history[..n], key);
        if i :| 0 <= i < n && KeyWrittenAt(cfg, history[..n], key, row, i) {
          assert history[..n][..i] == history[..i];
          assert KeyWrittenAt(cfg, history, key, row, i);
        }
      } else {
        assert KeyWrittenAt(cfg, history, key, row, n);
      }
    }
  }

  ghost predicate KeyWrittenBy(cfg: Config, s: State, key: string, p: nat)
    requires |s.procs| == |cfg.requests|
  {
    && p < |s.procs| && cfg.requests[p].TransferRequest? && KeyOf(cfg.requests[p]) == key
    && s.procs[p].Done? && s.procs[p].outcome.Success? && key in s.db.keys
    && s.db.keys[key] ==
      KeyRow(Fingerprint(cfg.digest, cfg.requests[p].input), Some(cfg.requests[p].id), Some(s.procs[p].outcome.receipt))
  }

  /** A key row is committed only together with its transfer: behind every key that was not there before
      stands a successful request, with that request's fingerprint, journal id and receipt. A failed or
      crashed first attempt leaves no key row. */
  lemma {:induction false} KeyRowsComeFromSuccesses(cfg: Config, schedule: seq<Action>, key: string)
    requires WellFormed(cfg) && key in Exec(cfg, schedule).db.keys && key !in cfg.initial.keys
    ensures
      var s := Exec(cfg, schedule);
      exists p: nat :: KeyWrittenBy(cfg, s, key, p)
  {
    SerialEquivalence(cfg, schedule);
    var s := Exec(cfg, schedule);
    KeyOrigin(cfg, s.history, key);
    var i :| 0 <= i < |s.history| && KeyWrittenAt(cfg, s.history, key, s.db.keys[key], i);
    assert KeyWrittenBy(cfg, s, key, s.history[i]);
  }

  /** The answers of finished calls: a success returns the receipt announced by a committed journal's event;
      a conflict means the key is committed for another fingerprint; a refused or crashed call posted nothing. */
  lemma {:induction false} AnswersAgreeWithTables(cfg: Config, schedule: seq<Action>, p: nat)
    requires WellFormed(cfg) && p < |cfg.requests|
    ensures
      var s := Exec(cfg, schedule);
      var request := cfg.requests[p];
      match s.procs[p]
      case Done(Success(receipt)) =>
        exists m: nat | m < |s.db.journals| && m < |s.db.outbox| ::
          && s.db.journals[m].id == receipt.id && s.db.outbox[m].payload == receipt
          && Announces(s.db.outbox[m], s.db.journals[m])
      case Done(Refused(failure)) =>
        && FreshRequest(s.db, request)
        && (failure == IdempotencyConflict ==>
              request.TransferRequest? && request.input.key in s.db.keys
                && s.db.keys[request.input.key].fingerprint != Fingerprint(cfg.digest, request.input))
      case Crashed => FreshRequest(s.db, request)
      case _ => true
  {
    EveryStateGood(cfg, schedule);
    var s := Exec(cfg, schedule);
    assert Good(cfg, s.db, cfg.requests[p], s.procs[p]);
    if s.procs[p].Done? && s.procs[p].outcome.Success? {
      var m :| 0 <= m < |s.db.outbox| && s.db.outbox[m].payload == s.procs[p].outcome.receipt;
      assert Announces(s.db.outbox[m], s.db.journals[m]);
    }
  }

  /** If requests name accounts as stored, the ledger stays sound in every state of every run. */
  lemma {:induction false} EveryLedgerSound(cfg: Config, schedule: seq<Action>)
    requires Proper(cfg)
    ensures Sound(cfg.digest, Exec(cfg, schedule).db)
  {
    if schedule != [] {
      var n := |schedule| - 1;
      var s, action := Exec(cfg, schedule[..n]), schedule[n];
      EveryLedgerSound(cfg, schedule[..n]);
      EveryRequestGood(cfg, schedule[..n]);
      if action.Run? && action.p < |s.procs| && Advance(cfg, s, action.p).Some? {
        AdvanceKeepsSound(cfg, s, action.p, Advance(cfg, s, action.p).value);
      }
    }
  }

  lemma AdvanceKeepsSound(cfg: Config, s: State, p: nat, s': State)
    requires p < |s.procs| == |cfg.requests| && Sound(cfg.digest, s.db) && Good(cfg, s.db, cfg.requests[p], s.procs[p])
    requires NamesAsStored(cfg.requests[p]) && Advance(cfg, s, p) == Some(s')
    ensures Sound(cfg.digest, s'.db)
  {
    var proc := s.procs[p];
    if proc.Committing? {
      CommitServes(cfg, s.db, cfg.requests[p], proc.j, proc.st);
      ServeKeepsSound(cfg.digest, s.db, cfg.requests[p]);
    } else if proc.Idle? && cfg.requests[p].OpenRequest? {
      ServeKeepsSound(cfg.digest, s.db, cfg.requests[p]);
    } else {
      OthersKeepTables(cfg, s, p, s');
    }
  }

  /** Then the receipt of a success is what the rows of its journal say. */
  lemma {:induction false} ReceiptsAgreeWithRows(cfg: Config, schedule: seq<Action>, p: nat)
    requires Proper(cfg) && p < |cfg.requests|
    ensures
      var s := Exec(cfg, schedule);
      s.procs[p].Done? && s.procs[p].outcome.Success? ==>
        exists m: nat | m < |s.db.journals| ::
          var receipt := s.procs[p].outcome.receipt;
          && s.db.journals[m].id == receipt.id
          && TellsRows(receipt, s.db.journals[m], TransactionLog(s.db.postings, receipt.id))
  {
    EveryLedgerSound(cfg, schedule);
    AnswersAgreeWithTables(cfg, schedule, p);
    var s := Exec(cfg, schedule);
    if s.procs[p].Done? && s.procs[p].outcome.Success? {
      var receipt := s.procs[p].outcome.receipt;
      var m: nat :| m < |s.db.journals| && s.db.journals[m].id == receipt.id && s.db.outbox[m].payload == receipt;
      EventTells(s.db.journals[m], TransactionLog(s.db.postings, s.db.journals[m].id));
    }
  }

  // ---- reversals ----

  /** A balance row that every reversal of `target` has to lock. */
  predicate NeedsRow(db: Db, target: string, a: string) {
    var built := BuildReversal(db, target, "");
    built.Ok? && built.value.postings != [] && StoredId(built.value.postings[0].accountId) == a
  }

  lemma ReversalLegs(db: Db, target: string, id: string)
    ensures BuildReversal(db, target, id).Ok? ==>
      && BuildReversal(db, target, "").Ok?
      && BuildReversal(db, target, id).value.postings == BuildReversal(db, target, "").value.postings != []
  {
  }

  lemma ReversalNeedsRow(cfg: Config, db: Db, request: Request, proc: Proc, a: string)
    requires request.ReversalRequest? && Good(cfg, db, request, proc) && NeedsRow(db, request.target, a)
    ensures PastLocks(proc) ==> a in Held(proc)
  {
    if PastLocks(proc) {
      assert Built(db, request, proc.j);
      ReversalLegs(db, request.target, request.id);
      assert proc.j.postings[0].accountId in Involved(proc.j.postings);
    }
  }

  lemma ReversalHasRow(cfg: Config, db: Db, request: Request, proc: Proc) returns (a: string)
    requires request.ReversalRequest? && Good(cfg, db, request, proc) && PastLocks(proc)
    ensures NeedsRow(db, request.target, a)
  {
    assert Built(db, request, proc.j);
    ReversalLegs(db, request.target, request.id);
    a := StoredId(proc.j.postings[0].accountId);
  }

  /** Do two requests ask for the reversal of one transaction, however they spell its id? */
  predicate SameReversal(a: Request, b: Request) {
    a.ReversalRequest? && b.ReversalRequest? && StoredId(a.target) == StoredId(b.target)
  }

  lemma SameNeeds(db: Db, a: Request, b: Request, row: string)
    requires SameReversal(a, b) && NeedsRow(db, a.target, row)
    ensures NeedsRow(db, b.target, row)
  {
  }

  /** Two reversals of one transaction never get past the locks together: they need the same, non-empty,
      set of balance rows. */
  lemma ReversalsExclude(cfg: Config, s: State, p: nat, q: nat)
    requires |s.procs| == |cfg.requests| && AllGood(cfg, s.db, s.procs) && Exclusive(cfg, s.procs)
    requires p < |s.procs| && q < |s.procs| && p != q && SameReversal(cfg.requests[p], cfg.requests[q])
    ensures !(PastLocks(s.procs[p]) && PastLocks(s.procs[q]))
  {
    assert Good(cfg, s.db, cfg.requests[p], s.procs[p]) && Good(cfg, s.db, cfg.requests[q], s.procs[q]);
    if PastLocks(s.procs[p]) {
      var a := ReversalHasRow(cfg, s.db, cfg.requests[p], s.procs[p]);
      SameNeeds(s.db, cfg.requests[p], cfg.requests[q], a);
      ReversalNeedsRow(cfg, s.db, cfg.requests[p], s.procs[p], a);
      ReversalNeedsRow(cfg, s.db, cfg.requests[q], s.procs[q], a);
      assert Apart(cfg, s.procs, p, q);
    }
  }

  predicate PastLocks(proc: Proc) { proc.Inserting? || proc.Appending? || proc.Committing? }

  /** In every reachable state reversal links form an injective map to strictly earlier transactions, each
      with exactly opposite legs, and two reversals of one transaction are never both past their locks. */
  lemma {:induction false} ReversedAtMostOnce(cfg: Config, schedule: seq<Action>)
    requires WellFormed(cfg)
    ensures
      var s := Exec(cfg, schedule);
      && (forall k | 0 <= k < |s.db.journals| && s.db.journals[k].reverses.Some? ::
            exists m | 0 <= m < k :: Compensates(s.db, k, m))
      && (forall i, k | 0 <= i < k < |s.db.journals| && s.db.journals[i].reverses.Some? ::
            s.db.journals[i].reverses != s.db.journals[k].reverses)
      && (forall p, q | 0 <= p < q < |s.procs| && PastLocks(s.procs[p]) && PastLocks(s.procs[q]) ::
            !SameReversal(cfg.requests[p], cfg.requests[q]))
  {
    EveryStateGood(cfg, schedule);
    var s := Exec(cfg, schedule);
    forall k | 0 <= k < |s.db.journals| && s.db.journals[k].reverses.Some?
      ensures exists m | 0 <= m < k :: Compensates(s.db, k, m)
    {
      assert JournalSound(s.db, k);
    }
    forall p, q | 0 <= p < q < |s.procs| && PastLocks(s.procs[p]) && PastLocks(s.procs[q])
      ensures !SameReversal(cfg.requests[p], cfg.requests[q])
    {
      if SameReversal(cfg.requests[p], cfg.requests[q]) { ReversalsExclude(cfg, s, p, q); }
    }
  }

  // ---- growth ----

  /** Logs grow at the end, rows of accounts and keys stay as they are. */
  ghost predicate Extends(s: State, s': State) {
    && s.db.postings <= s'.db.postings && s.seqs <= s'.seqs && s.history <= s'.history
    && s.db.journals <= s'.db.journals && s.db.outbox <= s'.db.outbox
    && (forall a | a in s.db.accounts :: a in s'.db.accounts && s'.db.accounts[a] == s.db.accounts[a])
    && (forall k | k in s.db.keys :: k in s'.db.keys && s'.db.keys[k] == s.db.keys[k])
  }

  lemma ExtendsTransitive(s: State, t: State, u: State)
    requires Extends(s, t) && Extends(t, u)
    ensures Extends(s, u)
  {
  }

  lemma SameTablesExtend(s: State, s': State)
    requires s'.db == s.db && s.seqs <= s'.seqs && s.history <= s'.history
    ensures Extends(s, s')
  {
  }

  lemma CommitExtends(cfg: Config, s: State, p: nat, s': State)
    requires p < |s.procs| == |cfg.requests| && Good(cfg, s.db, cfg.requests[p], s.procs[p])
    requires s.procs[p].Committing? && Advance(cfg, s, p) == Some(s')
    ensures Extends(s, s')
  {
    var proc, request := s.procs[p], cfg.requests[p];
    assert Ready(s.db, request, proc.j) && proc.w == WritesOf(cfg, request, proc.j, proc.st);
  }

  lemma OpenExtends(cfg: Config, s: State, p: nat, s': State)
    requires p < |s.procs| == |cfg.requests| && FreshRequest(s.db, cfg.requests[p])
    requires s.procs[p].Idle? && cfg.requests[p].OpenRequest? && Advance(cfg, s, p) == Some(s')
    ensures Extends(s, s')
  {
  }

  lemma OthersKeepTables(cfg: Config, s: State, p: nat, s': State)
    requires p < |s.procs| == |cfg.requests| && !s.procs[p].Committing?
    requires !(s.procs[p].Idle? && cfg.requests[p].OpenRequest?)
    requires Advance(cfg, s, p) == Some(s')
    ensures s'.db == s.db && s'.seqs == s.seqs && s.history <= s'.history
  {
  }

  lemma AdvanceExtends(cfg: Config, s: State, p: nat)
    requires |s.procs| == |cfg.requests| && AllGood(cfg, s.db, s.procs) && p < |s.procs|
    ensures Advance(cfg, s, p).Some? ==> Extends(s, Advance(cfg, s, p).value)
  {
    if Advance(cfg, s, p).Some? {
      var s' := Advance(cfg, s, p).value;
      assert Good(cfg, s.db, cfg.requests[p], s.procs[p]);
      if s.procs[p].Committing? {
        CommitExtends(cfg, s, p, s');
      } else if s.procs[p].Idle? && cfg.requests[p].OpenRequest? {
        OpenExtends(cfg, s, p, s');
      } else {
        OthersKeepTables(cfg, s, p, s');
        SameTablesExtend(s, s');
      }
    }
  }

  /** Over whole runs the committed tables are append-only, and account and key rows never change. */
  lemma {:induction false} TablesOnlyGrow(cfg: Config, schedule: seq<Action>, more: seq<Action>)
    requires WellFormed(cfg)
    ensures Extends(Exec(cfg, schedule), Exec(cfg, schedule + more))
  {
    if more == [] {
      assert schedule + more == schedule;
    } else {
      var n := |more| - 1;
      TablesOnlyGrow(cfg, schedule, more[..n]);
      LastActionExtends(cfg, schedule + more[..n], more[n]);
      ExtendsTransitive(Exec(cfg, schedule), Exec(cfg, schedule + more[..n]),
                        Exec(cfg, schedule + more[..n] + [more[n]]));
      ScheduleSnoc(schedule, more);
    }
  }

  lemma TakeExtends(cfg: Config, s: State, action: Action)
    requires |s.procs| == |cfg.requests| && AllGood(cfg, s.db, s.procs)
    ensures Take(cfg, s, action).Some? ==> Extends(s, Take(cfg, s, action).value)
  {
    if action.p < |cfg.requests| { AdvanceExtends(cfg, s, action.p); }
  }

  lemma {:induction false} LastActionExtends(cfg: Config, schedule: seq<Action>, action: Action)
    requires WellFormed(cfg)
    ensures Extends(Exec(cfg, schedule), Exec(cfg, schedule + [action]))
  {
    EveryRequestGood(cfg, schedule);
    ExecSnoc(cfg, schedule, action);
    TakeExtends(cfg, Exec(cfg, schedule), action);
  }

  // ---- keys that were there before ----

  /** A request that carries a key completed before the run never posts; its success returns the receipt
      stored with that key. */
  lemma {:induction false} CompletedKeysOnlyReplay(cfg: Config, schedule: seq<Action>, p: nat)
    requires WellFormed(cfg) && p < |cfg.requests| && KeyOf(cfg.requests[p]) != ""
    requires KeyOf(cfg.requests[p]) in cfg.initial.keys
    ensures
      var s := Exec(cfg, schedule);
      && !Posted(s.db, cfg.requests[p])
      && (s.procs[p].Done? && s.procs[p].outcome.Success? ==>
            Some(s.procs[p].outcome.receipt) == cfg.initial.keys[KeyOf(cfg.requests[p])].response)
  {
    var key := KeyOf(cfg.requests[p]);
    KeyRowsPersist(cfg, schedule, key);
    InitialReceipt(cfg.initial, key, cfg.requests[p].id);
    EveryRequestGood(cfg, schedule);
    KeyRowAnswers(cfg, Exec(cfg, schedule), p, cfg.initial.keys[key]);
  }

  lemma {:induction false} KeyRowsPersist(cfg: Config, schedule: seq<Action>, key: string)
    requires WellFormed(cfg) && key in cfg.initial.keys
    ensures key in Exec(cfg, schedule).db.keys && Exec(cfg, schedule).db.keys[key] == cfg.initial.keys[key]
  {
    TablesOnlyGrow(cfg, [], schedule);
    assert [] + schedule == schedule;
  }

  lemma KeyRowAnswers(cfg: Config, s: State, p: nat, row: KeyRow)
    requires |s.procs| == |cfg.requests| && AllGood(cfg, s.db, s.procs) && Historic(cfg, s) && p < |s.procs|
    requires KeyOf(cfg.requests[p]) != "" && KeyOf(cfg.requests[p]) in s.db.keys
    requires s.db.keys[KeyOf(cfg.requests[p])] == row
    requires row.response.Some? && row.response.value.id != cfg.requests[p].id
    ensures !Posted(s.db, cfg.requests[p])
    ensures s.procs[p].Done? && s.procs[p].outcome.Success? ==> Some(s.procs[p].outcome.receipt) == row.response
  {
    assert Good(cfg, s.db, cfg.requests[p], s.procs[p]);
    if Posted(s.db, cfg.requests[p]) { OnlySuccessPosts(cfg, s, p); }
  }

  lemma InitialReceipt(db: Db, key: string, id: string)
    requires Keyed(db) && Announced(db) && key in db.keys && FreshJournal(db, id)
    ensures db.keys[key].response.Some? && db.keys[key].response.value.id != id
  {
    var m: nat :| KeyServedBy(db, key, m);
    assert Announces(db.outbox[m], db.journals[m]);
  }
}
