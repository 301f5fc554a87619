/** The steps that change the committed tables: each one is a whole operation of the serial ledger, and
    no other request in flight can tell. */
module Commits {
  import opened Wrappers
  import opened Text
  import opened HashChain
  import opened Journals
  import opened Ledger
  import opened Naming
  import opened Soundness
  import opened Guarantees
  import opened Protocol
  import opened Invariant

  // ---- what a commit can change for the others ----

  /** What one commit changed: the balances in `changed`, one id, one key, one reversal link. */
  datatype Footprint = Footprint(changed: set<string>, id: string, key: string, reverses: Option<string>)

  ghost predicate TablesGrow(db: Db, db': Db, f: Footprint) {
    && (forall a | a in db.accounts :: a in db'.accounts && db'.accounts[a] == db.accounts[a])
    && (forall a | a in db'.accounts :: a in db.accounts || a == f.id)
    && (forall a | a in db.balances && a !in f.changed :: a in db'.balances && db'.balances[a] == db.balances[a])
    && db.balances.Keys <= db'.balances.Keys
    && (forall k | k in db.keys :: k in db'.keys && db'.keys[k] == db.keys[k])
    && (forall k | k in db'.keys :: k in db.keys || k == f.key)
  }

  ghost predicate LogGrows(db: Db, db': Db, f: Footprint) {
    && db.outbox <= db'.outbox
    && (forall t :: FindJournal(db.journals, t).Some? ==> FindJournal(db'.journals, t) == FindJournal(db.journals, t))
    && (forall t ::
          FindJournal(db.journals, t).Some? ==> TransactionLog(db'.postings, t) == TransactionLog(db.postings, t))
    && (forall t :: FreshJournal(db, t) && t != f.id ==> FreshJournal(db', t))
    && (forall t :: HasReversal(db'.journals, t) ==> HasReversal(db.journals, t) || f.reverses == Some(t))
  }

  ghost predicate Grows(db: Db, db': Db, f: Footprint) { TablesGrow(db, db', f) && LogGrows(db, db', f) }

  /** Request and state are out of the commit's reach. */
  ghost predicate Untouched(request: Request, proc: Proc, f: Footprint) {
    && request.id != f.id
    && Held(proc) !! f.changed
    && (PastClaim(proc) && KeyOf(request) != "" ==> KeyOf(request) != f.key)
    && (HasInserted(proc) && OptionsOf(request).reverses.Some? ==> OptionsOf(request).reverses != f.reverses)
  }

  /** Accounts opened meanwhile do not show up in the maps of the poster. */
  lemma {:induction false} ByIdSurvives(accounts: map<string, Account>, accounts': map<string, Account>,
                                        ps: seq<Posting>)
    requires forall a | a in accounts :: a in accounts' && accounts'[a] == accounts[a]
    requires forall i | 0 <= i < |ps| :: StoredId(ps[i].accountId) in accounts
    ensures ById(accounts', ps) == ById(accounts, ps)
  {
    if ps != [] {
      var qs := ps[..|ps| - 1];
      assert forall i | 0 <= i < |qs| :: qs[i] == ps[i];
      ByIdSurvives(accounts, accounts', qs);
    }
  }

  lemma BuiltSurvives(db: Db, db': Db, f: Footprint, request: Request, j: Journal)
    requires Grows(db, db', f) && Built(db, request, j)
    ensures Built(db', request, j)
  {
  }

  lemma FreshSurvives(db: Db, db': Db, f: Footprint, request: Request)
    requires Grows(db, db', f) && FreshRequest(db, request) && request.id != f.id
    ensures FreshRequest(db', request)
  {
  }

  lemma AdmittedAccounts(accounts: map<string, Account>, j: Journal, owner: Option<string>)
    ensures Admit(accounts, j, owner).None? ==> AllFound(accounts, j.currency, j.postings)
  {
    CheckAccountsDecides(accounts, j.currency, j.postings);
  }

  lemma AdmitSurvives(accounts: map<string, Account>, accounts': map<string, Account>, j: Journal,
                      owner: Option<string>)
    requires forall a | a in accounts :: a in accounts' && accounts'[a] == accounts[a]
    requires Admit(accounts, j, owner).None?
    ensures Admit(accounts', j, owner).None? && ById(accounts', j.postings) == ById(accounts, j.postings)
  {
    CheckAccountsDecides(accounts, j.currency, j.postings);
    CheckAccountsDecides(accounts', j.currency, j.postings);
    ByIdSurvives(accounts, accounts', j.postings);
  }

  lemma ReadySurvives(db: Db, db': Db, f: Footprint, request: Request, j: Journal)
    requires Grows(db, db', f) && Ready(db, request, j) && request.id != f.id
    requires KeyOf(request) != "" ==> KeyOf(request) != f.key
    ensures Ready(db', request, j)
  {
    FreshSurvives(db, db', f, request);
    BuiltSurvives(db, db', f, request, j);
  }

  lemma AdmittedSurvives(db: Db, db': Db, f: Footprint, request: Request, j: Journal)
    requires Grows(db, db', f) && Admitted(db, request, j) && request.id != f.id
    requires KeyOf(request) != "" ==> KeyOf(request) != f.key
    ensures Admitted(db', request, j)
  {
    ReadySurvives(db, db', f, request, j);
    AdmitSurvives(db.accounts, db'.accounts, j, OptionsOf(request).requireOwner);
  }

  lemma LockedSurvives(db: Db, db': Db, f: Footprint, ids: set<string>)
    requires TablesGrow(db, db', f) && Rows(ids) <= db.balances.Keys && Rows(ids) !! f.changed
    ensures Rows(ids) <= db'.balances.Keys && LockedRows(db'.balances, ids) == LockedRows(db.balances, ids)
  {
    forall a | a in ids ensures StoredId(a) in db.balances && db'.balances[StoredId(a)] == db.balances[StoredId(a)] {
      assert StoredId(a) in Rows(ids);
    }
  }

  lemma ComputedSurvives(digest: Digest, db: Db, db': Db, f: Footprint, request: Request, j: Journal, st: LoopState)
    requires Grows(db, db', f) && Computed(digest, db, request, j, st) && request.id != f.id
    requires KeyOf(request) != "" ==> KeyOf(request) != f.key
    requires Rows(Involved(j.postings)) !! f.changed
    ensures Computed(digest, db', request, j, st)
  {
    AdmittedSurvives(db, db', f, request, j);
    AdmitSurvives(db.accounts, db'.accounts, j, OptionsOf(request).requireOwner);
    LockedSurvives(db, db', f, Involved(j.postings));
  }

  lemma LocksSurvive(cfg: Config, db: Db, db': Db, f: Footprint, request: Request, j: Journal, taken: nat,
                     locked: map<string, BalanceRow>)
    requires Grows(db, db', f) && Good(cfg, db, request, Locking(j, taken, locked))
    requires Untouched(request, Locking(j, taken, locked), f)
    ensures Good(cfg, db', request, Locking(j, taken, locked))
  {
    AdmittedSurvives(db, db', f, request, j);
    LockedKeys(db.balances, FirstLocks(j, taken));
    LockedSurvives(db, db', f, FirstLocks(j, taken));
  }

  /** A request in flight keeps everything it knows across another request's commit. */
  lemma GoodSurvives(cfg: Config, db: Db, db': Db, f: Footprint, request: Request, proc: Proc)
    requires Grows(db, db', f) && Good(cfg, db, request, proc) && Untouched(request, proc, f)
    ensures Good(cfg, db', request, proc)
  {
    match proc
    case Idle => FreshSurvives(db, db', f, request);
    case Claiming(j) =>
      FreshSurvives(db, db', f, request);
      BuiltSurvives(db, db', f, request, j);
    case ReadingKey => FreshSurvives(db, db', f, request);
    case PreChecking(j) => ReadySurvives(db, db', f, request, j);
    case Admitting(j) => ReadySurvives(db, db', f, request, j);
    case Locking(j, taken, locked) => LocksSurvive(cfg, db, db', f, request, j, taken, locked);
    case Inserting(j, st) => ComputedSurvives(cfg.digest, db, db', f, request, j, st);
    case Appending(j, st, _) => ComputedSurvives(cfg.digest, db, db', f, request, j, st);
    case Committing(j, st, _, _, _) => ComputedSurvives(cfg.digest, db, db', f, request, j, st);
    case Done(outcome) => AnswerSurvives(cfg.digest, db, db', f, request, outcome);
    case Crashed => FreshSurvives(db, db', f, request);
  }

  lemma AnswerSurvives(digest: Digest, db: Db, db': Db, f: Footprint, request: Request, outcome: Outcome)
    requires Grows(db, db', f) && Answered(digest, db, request, outcome) && request.id != f.id
    ensures Answered(digest, db', request, outcome)
  {
    if FreshRequest(db, request) { FreshSurvives(db, db', f, request); }
    if outcome.Success? {
      var m :| 0 <= m < |db.outbox| && db.outbox[m].payload == outcome.receipt;
      assert db'.outbox[m].payload == outcome.receipt;
    }
  }

  // ---- a commit is one operation of the serial ledger ----

  /** Committing what the request computed under its locks is serving the request now, in one go. */
  lemma CommitServes(cfg: Config, db: Db, request: Request, j: Journal, st: LoopState)
    requires Computed(cfg.digest, db, request, j, st) && Unreversed(db, request)
    ensures Post(cfg.digest, db, j, OptionsOf(request)) ==
      Ok((Written(db, j, OptionsOf(request), st), ReceiptOf(j, st.lines)))
    ensures Serve(cfg.digest, db, request) ==
      (ApplyWrites(db, WritesOf(cfg, request, j, st)), Success(ReceiptOf(j, st.lines)))
  {
    assert Post(cfg.digest, db, j, OptionsOf(request)) ==
      Ok((Written(db, j, OptionsOf(request), st), ReceiptOf(j, st.lines)));
    match request
    case TransferRequest(id, input) => assert j.id == id;
    case ReversalRequest(id, target) =>
    case OpenRequest(_, _, _) =>
  }

  lemma BuiltPostable(db: Db, request: Request, j: Journal)
    requires Kept(db) && FreshRequest(db, request) && Built(db, request, j)
    ensures Postable(db, j, OptionsOf(request)) && j.id == request.id
  {
    match request
    case TransferRequest(id, input) => TransferIsPostable(db, id, input);
    case ReversalRequest(id, target) =>
      ReversalAlwaysBuilds(db, target, id);
      FindJournalFinds(db.journals, StoredId(target));
    case OpenRequest(_, _, _) =>
  }

  /** Reversals name accounts as stored, because they take them from the tables. */
  lemma ReversalNamesStored(db: Db, request: Request, j: Journal)
    requires Kept(db) && request.ReversalRequest? && Built(db, request, j)
    ensures LegsAsStored(j.postings)
  {
    ReversalAlwaysBuilds(db, request.target, request.id);
  }

  lemma AppendGrows(db: Db, db': Db, row: JournalRow, rows: seq<PostingRow>, f: Footprint)
    requires Appended(db, db', row, rows) && f.id == row.id && f.reverses == row.reverses && db.outbox <= db'.outbox
    ensures LogGrows(db, db', f)
  {
    forall t | FindJournal(db.journals, t).Some?
      ensures FindJournal(db'.journals, t) == FindJournal(db.journals, t)
      ensures TransactionLog(db'.postings, t) == TransactionLog(db.postings, t)
    {
      FindJournalFinds(db.journals, t);
      FindJournalAppend(db.journals, row, t);
      TransactionLogs(db, row.id, rows);
    }
    forall t | HasReversal(db'.journals, t) ensures HasReversal(db.journals, t) || f.reverses == Some(t) {
      var k :| 0 <= k < |db'.journals| && db'.journals[k].reverses == Some(t);
      if k < |db.journals| { assert db.journals[k].reverses == Some(t); }
    }
  }

  function CommitFootprint(request: Request, j: Journal): Footprint {
    Footprint(Rows(Involved(j.postings)), request.id, KeyOf(request), OptionsOf(request).reverses)
  }

  lemma CommitAppends(cfg: Config, db: Db, request: Request, j: Journal, st: LoopState)
    requires Attributed(db) && FreshJournal(db, j.id) && |st.lines| == |j.postings|
    ensures
      var w := WritesOf(cfg, request, j, st);
      Appended(db, ApplyWrites(db, w), w.journal, w.postings)
  {
  }

  lemma CommitGrowsTables(cfg: Config, db: Db, request: Request, j: Journal, st: LoopState)
    requires Computed(cfg.digest, db, request, j, st)
    ensures TablesGrow(db, ApplyWrites(db, WritesOf(cfg, request, j, st)), CommitFootprint(request, j))
  {
    var order := LockOrder(j.postings);
    forall a | a in db.balances && a !in Rows(Involved(j.postings))
      ensures WriteRows(db.balances, order, st.running)[a] == db.balances[a]
    {
      forall i | 0 <= i < |order| ensures StoredId(order[i]) != a { assert order[i] in order; }
      WriteRowsElsewhere(db.balances, order, st.running, a);
    }
  }

  lemma CommitGrows(cfg: Config, db: Db, request: Request, j: Journal, st: LoopState)
    requires Kept(db) && Computed(cfg.digest, db, request, j, st) && Unreversed(db, request)
    ensures Grows(db, ApplyWrites(db, WritesOf(cfg, request, j, st)), CommitFootprint(request, j))
  {
    var w := WritesOf(cfg, request, j, st);
    BuiltPostable(db, request, j);
    CommitAppends(cfg, db, request, j, st);
    CommitGrowsTables(cfg, db, request, j, st);
    AppendGrows(db, ApplyWrites(db, w), w.journal, w.postings, CommitFootprint(request, j));
  }

  lemma OpenGrows(db: Db, id: string, currency: string, ownerId: string)
    requires Registered(db) && id !in db.accounts
    ensures Grows(db, Open(db, id, currency, ownerId).0, Footprint({}, id, "", None))
  {
  }

  // ---- sequence numbers across a commit ----

  lemma OrderedCommit(db: Db, db': Db, s: State, rows: seq<PostingRow>, id: string, drawn: seq<nat>, proc: Proc)
    requires s.db == db && db'.postings == db.postings + rows && |drawn| == |rows| && DrawnBy(proc) == drawn
    requires Ordered(db.postings, s.seqs) && DrawnAbove(s, proc)
    requires forall i | 0 <= i < |rows| :: rows[i].transactionId == id && rows[i].accountId in Held(proc)
    requires forall i | 0 <= i < |db.postings| :: db.postings[i].transactionId != id
    ensures Ordered(db'.postings, s.seqs + drawn)
  {
    var n := |db.postings|;
    var seqs := s.seqs + drawn;
    forall i, k | 0 <= i < k < |db'.postings| && Related(db'.postings[i], db'.postings[k]) ensures seqs[i] < seqs[k] {
      if k < n {
        assert Related(db.postings[i], db.postings[k]);
      } else if i < n {
        assert db'.postings[k] == rows[k - n];
        assert s.seqs[i] < drawn[k - n];
      } else {
        assert drawn[i - n] < drawn[k - n];
      }
    }
  }

  /** Another request's drawn seqs stay above everything committed on the rows it holds. */
  lemma OthersStayAbove(s: State, s': State, rows: seq<PostingRow>, proc: Proc)
    requires |s.seqs| == |s.db.postings| && s'.db.postings == s.db.postings + rows && s.seqs <= s'.seqs
    requires s'.nextSeq == s.nextSeq
    requires DrawnAbove(s, proc)
    requires forall i | 0 <= i < |rows| :: rows[i].accountId !in Held(proc)
    ensures DrawnAbove(s', proc)
  {
    var drawn := DrawnBy(proc);
    forall i, k | 0 <= i < |s'.seqs| && 0 <= k < |drawn| && i < |s'.db.postings|
      && s'.db.postings[i].accountId in Held(proc)
      ensures s'.seqs[i] < drawn[k]
    {
      assert i < |s.db.postings|;
    }
  }

  lemma NoPostingsOf(db: Db, id: string)
    requires Attributed(db) && FreshJournal(db, id)
    ensures forall i | 0 <= i < |db.postings| :: db.postings[i].transactionId != id
  {
    forall i | 0 <= i < |db.postings| ensures db.postings[i].transactionId != id {
      assert LegAttributed(db, db.postings[i]);
      FindJournalFinds(db.journals, db.postings[i].transactionId);
    }
  }

  lemma FinishKeepsExclusive(cfg: Config, procs: seq<Proc>, p: nat, outcome: Outcome)
    requires p < |procs| == |cfg.requests| && Exclusive(cfg, procs)
    ensures Exclusive(cfg, procs[p := Done(outcome)])
  {
    StaysApart(cfg, procs, p, Done(outcome));
    UpdateKeepsExclusive(cfg, procs, p, Done(outcome));
  }

  lemma FinishKeepsHistoric(cfg: Config, s: State, s': State, p: nat, outcome: Outcome)
    requires p < |s.procs| == |cfg.requests| && Historic(cfg, s) && !s.procs[p].Done?
    requires s'.procs == s.procs[p := Done(outcome)] && s'.history == s.history + [p]
    requires Serve(cfg.digest, s.db, cfg.requests[p]) == (s'.db, outcome) && Succeeded(outcome)
    ensures Historic(cfg, s')
  {
    var n := |s.history|;
    assert s'.history[..n] == s.history;
    forall i | 0 <= i < n ensures s.history[i] != p { assert ServedSerially(cfg, s, i); }
    forall i | 0 <= i <= n ensures ServedSerially(cfg, s', i) {
      if i < n {
        assert ServedSerially(cfg, s, i);
        assert s'.history[..i] == s.history[..i];
      }
    }
    forall q | 0 <= q < |s'.procs| && s'.procs[q].Done? && Succeeded(s'.procs[q].outcome) ensures q in s'.history {
      if q == p { assert s'.history[n] == p; } else { assert q in s.history; }
    }
  }

  lemma CommitKeepsSequenced(s: State, s': State, p: nat, rows: seq<PostingRow>, id: string, proc: Proc)
    requires p < |s.procs| && Sequenced(s) && proc == s.procs[p] && |DrawnBy(proc)| == |rows|
    requires s'.db.postings == s.db.postings + rows && s'.seqs == s.seqs + DrawnBy(proc) && s'.nextSeq == s.nextSeq
    requires |s'.procs| == |s.procs| && (forall q | 0 <= q < |s.procs| && q != p :: s'.procs[q] == s.procs[q])
    requires s'.procs[p].Done?
    requires forall i | 0 <= i < |rows| :: rows[i].transactionId == id && rows[i].accountId in Held(proc)
    requires forall i | 0 <= i < |s.db.postings| :: s.db.postings[i].transactionId != id
    requires forall q | 0 <= q < |s.procs| && q != p :: Held(s.procs[q]) !! Held(proc)
    ensures Sequenced(s')
  {
    assert DrawnAbove(s, proc);
    OrderedCommit(s.db, s'.db, s, rows, id, DrawnBy(proc), proc);
    forall q | 0 <= q < |s'.procs| ensures DrawnAbove(s', s'.procs[q]) {
      if q != p {
        assert DrawnAbove(s, s.procs[q]);
        OthersStayAbove(s, s', rows, s.procs[q]);
      }
    }
  }

  lemma OthersSurvive(cfg: Config, db: Db, db': Db, f: Footprint, procs: seq<Proc>, p: nat, outcome: Outcome)
    requires p < |procs| == |cfg.requests| && AllGood(cfg, db, procs) && Grows(db, db', f)
    requires forall q | 0 <= q < |procs| && q != p :: Untouched(cfg.requests[q], procs[q], f)
    requires Answered(cfg.digest, db', cfg.requests[p], outcome)
    ensures AllGood(cfg, db', procs[p := Done(outcome)])
  {
    var procs' := procs[p := Done(outcome)];
    forall q | 0 <= q < |procs'| ensures Good(cfg, db', cfg.requests[q], procs'[q]) {
      if q != p {
        assert Good(cfg, db, cfg.requests[q], procs[q]);
        GoodSurvives(cfg, db, db', f, cfg.requests[q], procs[q]);
      }
    }
  }

  ghost predicate DistinctRequests(cfg: Config) {
    forall p, q | 0 <= p < q < |cfg.requests| :: cfg.requests[p].id != cfg.requests[q].id
  }

  lemma OthersUntouched(cfg: Config, procs: seq<Proc>, p: nat, j: Journal)
    requires p < |procs| == |cfg.requests| && Exclusive(cfg, procs) && DistinctRequests(cfg)
    requires procs[p].Committing? && procs[p].j == j
    ensures forall q | 0 <= q < |procs| && q != p ::
      Untouched(cfg.requests[q], procs[q], CommitFootprint(cfg.requests[p], j))
  {
    var f := CommitFootprint(cfg.requests[p], j);
    forall q | 0 <= q < |procs| && q != p ensures Untouched(cfg.requests[q], procs[q], f) {
      assert Apart(cfg, procs, p, q);
      assert cfg.requests[q].id != cfg.requests[p].id by {
        if q < p {
          assert cfg.requests[q].id != cfg.requests[p].id;
        } else {
          assert cfg.requests[p].id != cfg.requests[q].id;
        }
      }
    }
  }

  lemma BuiltId(db: Db, request: Request, j: Journal)
    requires Built(db, request, j)
    ensures j.id == request.id
  {
  }

  lemma CommitAnswers(cfg: Config, db: Db, request: Request, j: Journal, st: LoopState)
    requires j.id == request.id && |st.lines| == |j.postings|
    ensures
      Answered(cfg.digest, ApplyWrites(db, WritesOf(cfg, request, j, st)), request, Success(ReceiptOf(j, st.lines)))
  {
    var db' := ApplyWrites(db, WritesOf(cfg, request, j, st));
    assert db'.outbox[|db.outbox|].payload == ReceiptOf(j, st.lines);
  }

  /** The tables side of a commit: kept, as served, and invisible to the knowledge of the others. */
  lemma CommitTables(cfg: Config, db: Db, procs: seq<Proc>, p: nat, j: Journal, st: LoopState, w: Writes,
                     receipt: Receipt)
    requires p < |procs| == |cfg.requests| && Exclusive(cfg, procs) && DistinctRequests(cfg) && AllGood(cfg, db, procs)
    requires Kept(db) && procs[p].Committing? && procs[p].j == j
    requires Computed(cfg.digest, db, cfg.requests[p], j, st) && Unreversed(db, cfg.requests[p])
    requires w == WritesOf(cfg, cfg.requests[p], j, st) && receipt == ReceiptOf(j, st.lines)
    ensures Serve(cfg.digest, db, cfg.requests[p]) == (ApplyWrites(db, w), Success(receipt))
    ensures Kept(ApplyWrites(db, w))
    ensures AllGood(cfg, ApplyWrites(db, w), procs[p := Done(Success(receipt))])
  {
    var request, db' := cfg.requests[p], ApplyWrites(db, w);
    CommitServes(cfg, db, request, j, st);
    ServeKeepsKept(cfg.digest, db, request);
    CommitGrows(cfg, db, request, j, st);
    OthersUntouched(cfg, procs, p, j);
    BuiltId(db, request, j);
    CommitAnswers(cfg, db, request, j, st);
    OthersSurvive(cfg, db, db', CommitFootprint(request, j), procs, p, Success(receipt));
  }

  lemma RowsAreInvolved(cfg: Config, request: Request, j: Journal, st: LoopState)
    requires |j.postings| == |st.lines|
    ensures forall i | 0 <= i < |j.postings| ::
      var r := WritesOf(cfg, request, j, st).postings[i];
      r.transactionId == j.id && r.accountId in Rows(Involved(j.postings))
  {
  }

  /** The seq side of a commit. */
  lemma CommitSeqs(cfg: Config, s: State, s': State, p: nat, j: Journal, st: LoopState, w: Writes)
    requires p < |s.procs| == |cfg.requests| && Exclusive(cfg, s.procs) && Sequenced(s) && Attributed(s.db)
    requires Computed(cfg.digest, s.db, cfg.requests[p], j, st) && FreshJournal(s.db, j.id)
    requires w == WritesOf(cfg, cfg.requests[p], j, st)
    requires s.procs[p].Committing? && s.procs[p].j == j && |s.procs[p].drawn| == |j.postings|
    requires s'.db == ApplyWrites(s.db, w) && s'.seqs == s.seqs + s.procs[p].drawn && s'.nextSeq == s.nextSeq
    requires |s'.procs| == |s.procs| && (forall q | 0 <= q < |s.procs| && q != p :: s'.procs[q] == s.procs[q])
    requires s'.procs[p].Done?
    ensures Sequenced(s')
  {
    NoPostingsOf(s.db, j.id);
    RowsAreInvolved(cfg, cfg.requests[p], j, st);
    forall q | 0 <= q < |s.procs| && q != p
      ensures Held(s.procs[q]) !! Held(s.procs[p])
    {
      assert Apart(cfg, s.procs, q, p);
    }
    CommitKeepsSequenced(s, s', p, w.postings, j.id, s.procs[p]);
  }

  lemma CommittingKnows(cfg: Config, db: Db, request: Request, proc: Proc)
    requires proc.Committing? && Good(cfg, db, request, proc) && Kept(db)
    ensures Computed(cfg.digest, db, request, proc.j, proc.st) && Unreversed(db, request)
    ensures |proc.drawn| == |proc.j.postings|
    ensures proc.w == WritesOf(cfg, request, proc.j, proc.st) && proc.receipt == ReceiptOf(proc.j, proc.st.lines)
    ensures FreshJournal(db, proc.j.id)
  {
    BuiltPostable(db, request, proc.j);
  }

  lemma CommitKeeps(cfg: Config, s: State, p: nat, s': State, proc: Proc)
    requires |s.procs| == |cfg.requests| && Kept(s.db) && AllGood(cfg, s.db, s.procs)
    requires Exclusive(cfg, s.procs)
    requires DistinctRequests(cfg) && p < |s.procs| && s.procs[p] == proc && proc.Committing?
    requires s'.db == ApplyWrites(s.db, proc.w) && s'.procs == s.procs[p := Done(Success(proc.receipt))]
    ensures Serve(cfg.digest, s.db, cfg.requests[p]) == (s'.db, Success(proc.receipt))
    ensures Kept(s'.db) && AllGood(cfg, s'.db, s'.procs) && Exclusive(cfg, s'.procs)
  {
    CommittingKnows(cfg, s.db, cfg.requests[p], proc);
    CommitTables(cfg, s.db, s.procs, p, proc.j, proc.st, proc.w, proc.receipt);
    FinishKeepsExclusive(cfg, s.procs, p, Success(proc.receipt));
  }

  lemma CommitKeepsSeqs(cfg: Config, s: State, p: nat, s': State, proc: Proc)
    requires |s.procs| == |cfg.requests| && Kept(s.db) && AllGood(cfg, s.db, s.procs)
    requires Exclusive(cfg, s.procs) && Sequenced(s)
    requires p < |s.procs| && s.procs[p] == proc && proc.Committing? && s'.db == ApplyWrites(s.db, proc.w)
    requires s'.seqs == s.seqs + proc.drawn && s'.nextSeq == s.nextSeq
    requires s'.procs == s.procs[p := Done(Success(proc.receipt))]
    ensures Sequenced(s')
  {
    CommittingKnows(cfg, s.db, cfg.requests[p], proc);
    CommitSeqs(cfg, s, s', p, proc.j, proc.st, proc.w);
  }

  /** A commit keeps the invariant. */
  lemma CommitStep(cfg: Config, s: State, p: nat, s': State, proc: Proc)
    requires Inv(cfg, s) && DistinctRequests(cfg) && p < |s.procs| && s.procs[p] == proc && proc.Committing?
    requires s' == State(ApplyWrites(s.db, proc.w), s.seqs + proc.drawn, s.nextSeq,
      s.procs[p := Done(Success(proc.receipt))], s.history + [p])
    ensures Inv(cfg, s')
  {
    CommitKeeps(cfg, s, p, s', proc);
    CommitKeepsSeqs(cfg, s, p, s', proc);
    FinishKeepsHistoric(cfg, s, s', p, Success(proc.receipt));
  }
}
