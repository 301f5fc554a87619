/** The audit service: what it reports on genuine runs, and what it detects on forged logs
    (audit.service.ts, drizzle-audit.repository.ts). */
module Audit {
  import opened Wrappers
  import opened Text
  import opened HashChain
  import opened Ledger
  import opened Naming
  import opened Soundness
  import opened Guarantees
  import opened Spelling
  import opened Protocol
  import opened Runs
  import opened Serializability
  import opened Statements

  datatype Report = Report(accountId: string, postingCount: nat, balance: int, chainValid: bool, headMatches: bool,
                           reconciled: bool, brokenAtSeq: Option<nat>)

  function Rows(rows: seq<Stamped>): (r: seq<PostingRow>)
    ensures |r| == |rows|
  {
    seq(|rows|, i requires 0 <= i < |rows| => rows[i].row)
  }

  /** The report on postings and account state, as two separate statements returned them. */
  function Examine(digest: Digest, id: string, postings: seq<Stamped>, state: Option<BalanceRow>): Report {
    var balance := if state.Some? then state.value.balance else 0;
    var chainHash := if state.Some? then state.value.chainHash else None;
    var verification := Verify(digest, Entries(Rows(postings)));
    var head := if postings == [] then None else Some(postings[|postings| - 1].row.hash);
    var lastBalanceAfter := if postings == [] then 0 else postings[|postings| - 1].row.balanceAfter;
    var summed := Sum(Rows(postings));
    var broken := verification.brokenAtIndex;
    Report(id, |postings|, balance, verification.valid, head == chainHash,
           summed == balance && balance == lastBalanceAfter,
           if broken.Some? && broken.value < |postings| then Some(postings[broken.value].seqNo) else None)
  }

  function StateOf(db: Db, a: string): Option<BalanceRow> { if a in db.balances then Some(db.balances[a]) else None }

  /** The report on the account that `text` finds. */
  function VerifyAccount(digest: Digest, accounts: map<string, Account>, text: string, postings: seq<Stamped>,
                         state: Option<BalanceRow>): Result<Report, Failure> {
    var found := FindAccount(accounts, text);
    if found.None? then Err(UnknownAccount) else Ok(Examine(digest, found.value.id, postings, state))
  }

  /** The stored row as the service reads it: an account without one has balance zero and no head. */
  function Materialisation(state: Option<BalanceRow>): BalanceRow {
    if state.Some? then state.value else BalanceRow(0, None)
  }

  /** Is the posting at position `k` the first one whose link or hash fails? */
  ghost predicate BreaksAt(digest: Digest, postings: seq<Stamped>, k: nat) {
    k < |postings| && FirstDivergence(digest, Entries(Rows(postings)), Some(k))
  }

  /** Everything the report says, about any postings and any stored row. */
  ghost predicate Answers(digest: Digest, id: string, postings: seq<Stamped>, state: Option<BalanceRow>,
                          report: Report) {
    var row := Materialisation(state);
    && report.accountId == id && report.postingCount == |postings| && report.balance == row.balance
    && (report.chainValid <==> ValidChain(digest, Entries(Rows(postings))))
    && (report.headMatches <==> row.chainHash == Head(Entries(Rows(postings))))
    && (report.reconciled <==>
          && Sum(Rows(postings)) == row.balance
          && row.balance == if postings == [] then 0 else postings[|postings| - 1].row.balanceAfter)
    && (forall k: nat | BreaksAt(digest, postings, k) :: report.brokenAtSeq == Some(postings[k].seqNo))
    && (report.brokenAtSeq.Some? ==> exists k: nat :: BreaksAt(digest, postings, k))
  }

  lemma ExamineAnswers(digest: Digest, id: string, postings: seq<Stamped>, state: Option<BalanceRow>)
    ensures Answers(digest, id, postings, state, Examine(digest, id, postings, state))
  {
    var es := Entries(Rows(postings));
    var broken := Verify(digest, es).brokenAtIndex;
    VerifyFindsFirstDivergence(digest, es, broken);
    forall k: nat | BreaksAt(digest, postings, k)
      ensures broken == Some(k)
    {
      VerifyFindsFirstDivergence(digest, es, Some(k));
    }
    if broken.Some? { assert BreaksAt(digest, postings, broken.value); }
  }

  lemma {:induction false} RowsOnAccount(rows: seq<Stamped>, a: string)
    ensures Rows(Filter(rows, OnAccount(a))) == AccountLog(Rows(rows), a)
  {
    if rows != [] {
      var n := |rows| - 1;
      RowsOnAccount(rows[..n], a);
      assert Rows(rows)[..n] == Rows(rows[..n]);
    }
  }

  /** A genuine log against its own materialised row: everything checks out. */
  lemma GenuineReport(digest: Digest, id: string, postings: seq<Stamped>, row: BalanceRow)
    requires Materialised(digest, Rows(postings), row)
    ensures Examine(digest, id, postings, Some(row)) == Report(id, |postings|, row.balance, true, true, true, None)
  {
    var log := Rows(postings);
    VerifyFindsFirstDivergence(digest, Entries(log), None);
    if log != [] { assert log[..|log| - 1 + 1] == log; }
  }

  /** The chain verdict does not depend on the account state that was read. */
  lemma ChainVerdict(digest: Digest, id: string, postings: seq<Stamped>, row: BalanceRow, state: Option<BalanceRow>)
    requires Materialised(digest, Rows(postings), row)
    ensures Examine(digest, id, postings, state).chainValid && Examine(digest, id, postings, state).brokenAtSeq.None?
    ensures Examine(digest, id, postings, state).headMatches <==>
      Head(Entries(Rows(postings))) == if state.Some? then state.value.chainHash else None
  {
    VerifyFindsFirstDivergence(digest, Entries(Rows(postings)), None);
  }

  lemma {:induction false} GenuineLog(cfg: Config, schedule: seq<Action>, a: string)
    requires Proper(cfg) && a in Exec(cfg, schedule).db.accounts
    ensures a in Exec(cfg, schedule).db.balances
    ensures
      var s := Exec(cfg, schedule);
      && Rows(PostingsForAccount(Table(s), a)) == AccountLog(s.db.postings, a)
      && Materialised(cfg.digest, AccountLog(s.db.postings, a), s.db.balances[a])
      && PlainEntries(Entries(AccountLog(s.db.postings, a)))
  {
    var s := Exec(cfg, schedule);
    EveryLedgerSound(cfg, schedule);
    EveryStateGood(cfg, schedule);
    SeqOrderIsCommitOrder(cfg, schedule, a);
    RowsOnAccount(Table(s), a);
    assert Rows(Table(s)) == s.db.postings;
    PlainLog(s.db, a);
  }

  lemma PlainLog(db: Db, a: string)
    requires Registered(db) && Attributed(db) && JournalsSound(db)
    ensures PlainEntries(Entries(AccountLog(db.postings, a)))
  {
    var log := AccountLog(db.postings, a);
    FilterMember(db.postings, OfAccount(a));
    forall i | 0 <= i < |log| ensures PlainIds(Entries(log)[i].content) {
      assert log[i] in log;
      var m :| 0 <= m < |db.postings| && db.postings[m] == log[i];
      assert LegAttributed(db, db.postings[m]) && AccountSound(log[i].accountId, db.accounts[log[i].accountId]);
      FindJournalFinds(db.journals, log[i].transactionId);
      var k :| 0 <= k < |db.journals| && db.journals[k].id == log[i].transactionId;
      assert JournalSound(db, k);
    }
  }

  /** No false alarm. The service reads postings and account state in two statements; at any point of any run
      the chain is reported valid, and head and balance are reported in agreement whenever the account's log
      did not change between the two reads. */
  lemma {:induction false} NoFalseAlarm(cfg: Config, before: seq<Action>, between: seq<Action>, a: string)
    requires Proper(cfg) && a in Exec(cfg, before).db.accounts
    ensures
      var s, s' := Exec(cfg, before), Exec(cfg, before + between);
      var report := Examine(cfg.digest, a, PostingsForAccount(Table(s), a), StateOf(s'.db, a));
      && report.chainValid && report.brokenAtSeq.None?
      && (AccountLog(s.db.postings, a) == AccountLog(s'.db.postings, a) ==> report.headMatches && report.reconciled)
  {
    var s, s' := Exec(cfg, before), Exec(cfg, before + between);
    TablesOnlyGrow(cfg, before, between);
    GenuineLog(cfg, before, a);
    GenuineLog(cfg, before + between, a);
    var postings := PostingsForAccount(Table(s), a);
    ChainVerdict(cfg.digest, a, postings, s.db.balances[a], StateOf(s'.db, a));
    if AccountLog(s.db.postings, a) == AccountLog(s'.db.postings, a) {
      GenuineReport(cfg.digest, a, postings, s'.db.balances[a]);
    }
  }

  /** The service as a whole: `unknown_account` exactly for ids that no account has, otherwise a report on that
      account's postings and stored row, however the id is spelled; and no false alarm if requests name accounts as
      stored. */
  lemma {:induction false} VerifyAccountAnswers(cfg: Config, before: seq<Action>, between: seq<Action>, text: string)
    requires WellFormed(cfg)
    ensures
      var s, s', a := Exec(cfg, before), Exec(cfg, before + between), StoredId(text);
      var r := VerifyAccount(cfg.digest, s.db.accounts, text, PostingsForAccount(Table(s), a), StateOf(s'.db, a));
      && (a !in s.db.accounts ==> r == Err(UnknownAccount))
      && (a in s.db.accounts ==>
            r.Ok? && Answers(cfg.digest, a, PostingsForAccount(Table(s), a), StateOf(s'.db, a), r.value))
      && (a in s.db.accounts && Proper(cfg) ==> r.value.chainValid && r.value.brokenAtSeq.None?)
      && (a in s.db.accounts && Proper(cfg) && AccountLog(s.db.postings, a) == AccountLog(s'.db.postings, a) ==>
            r.value.headMatches && r.value.reconciled)
  {
    EveryLedgerKept(cfg, before);
    var db, a := Exec(cfg, before).db, StoredId(text);
    if a in db.accounts {
      assert AccountSound(a, db.accounts[a]);
      ExamineAnswers(cfg.digest, a, PostingsForAccount(Table(Exec(cfg, before)), a),
                     StateOf(Exec(cfg, before + between).db, a));
      if Proper(cfg) { NoFalseAlarm(cfg, before, between, a); }
    }
  }

  /** The head alarm is exact: with a commit on the account between the two reads it does go off, unless
      two entries of the account's own log collide. */
  lemma {:induction false} HeadAlarmIsExact(cfg: Config, before: seq<Action>, between: seq<Action>, a: string)
    requires Proper(cfg) && HexDigest(cfg.digest) && a in Exec(cfg, before).db.accounts
    ensures
      var s, s' := Exec(cfg, before), Exec(cfg, before + between);
      var log, log' := AccountLog(s.db.postings, a), AccountLog(s'.db.postings, a);
      var report := Examine(cfg.digest, a, PostingsForAccount(Table(s), a), StateOf(s'.db, a));
      || (report.headMatches <==> log == log')
      || Collide(cfg.digest, Entries(log), Entries(log'))
  {
    var s, s' := Exec(cfg, before), Exec(cfg, before + between);
    TablesOnlyGrow(cfg, before, between);
    GenuineLog(cfg, before, a);
    GenuineLog(cfg, before + between, a);
    ChainVerdict(cfg.digest, a, PostingsForAccount(Table(s), a), s.db.balances[a], StateOf(s'.db, a));
    var log, log' := AccountLog(s.db.postings, a), AccountLog(s'.db.postings, a);
    if Head(Entries(log)) == Head(Entries(log')) {
      TamperEvidence(cfg.digest, Entries(log), Entries(log'));
      if Entries(log) == Entries(log') { EntriesDetermine(log, log'); }
    }
  }

  lemma ReconciledVerdict(digest: Digest, id: string, postings: seq<Stamped>, row: BalanceRow, later: BalanceRow)
    requires Materialised(digest, Rows(postings), row)
    ensures Examine(digest, id, postings, Some(later)).reconciled <==> row.balance == later.balance
  {
    var log := Rows(postings);
    if log != [] { assert log[..|log| - 1 + 1] == log; }
  }

  /** So is the reconciliation alarm: it goes off if and only if the postings committed between the two reads
      change the account's balance. */
  lemma {:induction false} ReconciliationIsExact(cfg: Config, before: seq<Action>, between: seq<Action>, a: string)
    requires Proper(cfg) && a in Exec(cfg, before).db.accounts
    ensures
      var s, s' := Exec(cfg, before), Exec(cfg, before + between);
      var report := Examine(cfg.digest, a, PostingsForAccount(Table(s), a), StateOf(s'.db, a));
      report.reconciled <==> Sum(AccountLog(s.db.postings, a)) == Sum(AccountLog(s'.db.postings, a))
  {
    var s, s' := Exec(cfg, before), Exec(cfg, before + between);
    TablesOnlyGrow(cfg, before, between);
    GenuineLog(cfg, before, a);
    GenuineLog(cfg, before + between, a);
    ReconciledVerdict(cfg.digest, a, PostingsForAccount(Table(s), a), s.db.balances[a], s'.db.balances[a]);
  }

  lemma EntriesDetermine(a: seq<PostingRow>, b: seq<PostingRow>)
    requires Entries(a) == Entries(b)
    ensures a == b
  {
    forall i | 0 <= i < |a| ensures a[i] == b[i] { assert Entries(a)[i] == Entries(b)[i]; }
  }

  lemma ForgedLog(digest: Digest, id: string, log: seq<PostingRow>, row: BalanceRow, forged: seq<Stamped>)
    requires HexDigest(digest) && Materialised(digest, log, row)
    requires PlainEntries(Entries(Rows(forged))) && PlainEntries(Entries(log))
    ensures
      var report := Examine(digest, id, forged, Some(row));
      report.chainValid && report.headMatches ==>
        Rows(forged) == log || Collide(digest, Entries(Rows(forged)), Entries(log))
  {
    var report := Examine(digest, id, forged, Some(row));
    if report.chainValid && report.headMatches {
      VerifyFindsFirstDivergence(digest, Entries(Rows(forged)), None);
      TamperEvidence(digest, Entries(Rows(forged)), Entries(log));
      if Entries(Rows(forged)) == Entries(log) { EntriesDetermine(Rows(forged), log); }
    }
  }

  /** Forgery is detected: postings that the service reports as a valid chain under the genuine stored head
      are the genuine postings, row for row, or they collide with them. */
  lemma {:induction false} ForgeryDetected(cfg: Config, schedule: seq<Action>, a: string, forged: seq<Stamped>)
    requires Proper(cfg) && HexDigest(cfg.digest) && a in Exec(cfg, schedule).db.accounts
    requires PlainEntries(Entries(Rows(forged)))
    ensures
      var db := Exec(cfg, schedule).db;
      var report := Examine(cfg.digest, a, forged, StateOf(db, a));
      report.chainValid && report.headMatches ==>
        || Rows(forged) == AccountLog(db.postings, a)
        || Collide(cfg.digest, Entries(Rows(forged)), Entries(AccountLog(db.postings, a)))
  {
    GenuineLog(cfg, schedule, a);
    var db := Exec(cfg, schedule).db;
    ForgedLog(cfg.digest, a, AccountLog(db.postings, a), db.balances[a], forged);
  }

  // ---- one edited row ----

  /** The postings with row `k` overwritten. */
  function Edited(postings: seq<Stamped>, k: nat, r: PostingRow): (edited: seq<Stamped>)
    requires k < |postings|
    ensures |edited| == |postings|
  {
    postings[k := Stamped(postings[k].seqNo, r)]
  }

  lemma EditedRows(postings: seq<Stamped>, k: nat, r: PostingRow)
    requires k < |postings|
    ensures Rows(Edited(postings, k, r)) == Rows(postings)[k := r]
    ensures Entries(Rows(Edited(postings, k, r))) == Entries(Rows(postings))[k := EntryOf(r)]
  {
  }

  lemma {:induction false} EditedSum(log: seq<PostingRow>, k: nat, r: PostingRow)
    requires k < |log|
    ensures Sum(log[k := r]) == Sum(log) - log[k].amount + r.amount
  {
    var n := |log| - 1;
    if k < n {
      EditedSum(log[..n], k, r);
      assert log[k := r][..n] == log[..n][k := r];
    } else {
      assert log[k := r][..n] == log[..n];
    }
  }

  /** What the report says when row `k` of a genuine log has been overwritten: the amount is missed in the sum; the
      row is named unless its link and hash were recomputed; then the next one is, or the head differs. */
  ghost predicate EditReported(digest: Digest, postings: seq<Stamped>, k: nat, r: PostingRow, report: Report)
    requires k < |postings|
  {
    var es, e := Entries(Rows(postings)), EntryOf(r);
    && (r.amount != postings[k].row.amount ==> !report.reconciled)
    && if !Recomputed(digest, es, k, e) then report.brokenAtSeq == Some(postings[k].seqNo)
       else if e.hash == es[k].hash then EntriesCollide(digest, e, es[k])
       else if k + 1 < |postings| then report.brokenAtSeq == Some(postings[k + 1].seqNo)
       else report.brokenAtSeq.None? && !report.headMatches
  }

  lemma EditAlarms(digest: Digest, id: string, postings: seq<Stamped>, row: BalanceRow, k: nat, r: PostingRow)
    requires HexDigest(digest) && Materialised(digest, Rows(postings), row) && PlainEntries(Entries(Rows(postings)))
    requires k < |postings| && r != postings[k].row && PlainIds(EntryOf(r).content)
    ensures EditReported(digest, postings, k, r, Examine(digest, id, Edited(postings, k, r), Some(row)))
  {
    EditedRows(postings, k, r);
    EditedSum(Rows(postings), k, r);
    assert EntryOf(r) != Entries(Rows(postings))[k];
    ReplacedEntry(digest, Entries(Rows(postings)), k, EntryOf(r));
    ExamineAnswers(digest, id, Edited(postings, k, r), Some(row));
  }

  /** In every reachable state: overwrite any row of an account's log in any way, and this is what is reported. */
  lemma {:induction false} EditIsReported(cfg: Config, schedule: seq<Action>, a: string, k: nat, r: PostingRow)
    requires Proper(cfg) && HexDigest(cfg.digest) && a in Exec(cfg, schedule).db.accounts
    requires k < |PostingsForAccount(Table(Exec(cfg, schedule)), a)| && PlainIds(EntryOf(r).content)
    requires r != PostingsForAccount(Table(Exec(cfg, schedule)), a)[k].row
    ensures
      var s := Exec(cfg, schedule);
      var postings := PostingsForAccount(Table(s), a);
      EditReported(cfg.digest, postings, k, r,
                   Examine(cfg.digest, a, Edited(postings, k, r), StateOf(s.db, a)))
  {
    GenuineLog(cfg, schedule, a);
    var s := Exec(cfg, schedule);
    EditAlarms(cfg.digest, a, PostingsForAccount(Table(s), a), s.db.balances[a], k, r);
  }

  /** An amount that was edited in place fails reconciliation, and its own row is named as the broken one, or the
      two amounts have colliding pre-images. */
  lemma {:induction false} AmountEditIsReported(cfg: Config, schedule: seq<Action>, a: string, k: nat, amount: int)
    requires Proper(cfg) && HexDigest(cfg.digest) && a in Exec(cfg, schedule).db.accounts
    requires k < |PostingsForAccount(Table(Exec(cfg, schedule)), a)|
    requires amount != PostingsForAccount(Table(Exec(cfg, schedule)), a)[k].row.amount
    ensures
      var s := Exec(cfg, schedule);
      var postings := PostingsForAccount(Table(s), a);
      var r := postings[k].row.(amount := amount);
      var report := Examine(cfg.digest, a, Edited(postings, k, r), StateOf(s.db, a));
      && !report.reconciled
      && (report.brokenAtSeq == Some(postings[k].seqNo)
          || EntriesCollide(cfg.digest, EntryOf(r), EntryOf(postings[k].row)))
  {
    var s := Exec(cfg, schedule);
    var postings := PostingsForAccount(Table(s), a);
    GenuineLog(cfg, schedule, a);
    assert PlainIds(Entries(Rows(postings))[k].content);
    EditIsReported(cfg, schedule, a, k, postings[k].row.(amount := amount));
  }

  /** `seq` is not hashed: renumbering rows without reordering them changes no verdict. */
  lemma SeqIsNotCovered(digest: Digest, id: string, postings: seq<Stamped>, renumbered: seq<Stamped>,
                        state: Option<BalanceRow>)
    requires Rows(postings) == Rows(renumbered)
    ensures
      var r, r' := Examine(digest, id, postings, state), Examine(digest, id, renumbered, state);
      r'.(brokenAtSeq := r.brokenAtSeq) == r && (r.brokenAtSeq.None? <==> r'.brokenAtSeq.None?)
  {
    if postings != [] {
      var n := |postings| - 1;
      assert Rows(postings)[n] == postings[n].row && Rows(renumbered)[n] == renumbered[n].row;
    }
  }

  /** After a transfer between two accounts onto genuine logs, the service reports the chain of each as valid if and
      only if the transfer named that account as stored, or the two spellings collide. */
  lemma SpelledTransferVerdict(digest: Digest, db: Db, id: string, input: TransferInput, text: string,
                               postings: seq<Stamped>, state: Option<BalanceRow>)
    requires HexDigest(digest) && Chained(digest, db.postings, db.balances) && NoBar(id) && NoBar(text)
    requires Transfer(digest, db, id, input).1.Success? && !(input.key != "" && input.key in db.keys)
    requires StoredId(input.from) != StoredId(input.to) && text in {input.from, input.to}
    requires Rows(postings) == AccountLog(Transfer(digest, db, id, input).0.postings, StoredId(text))
    ensures PositiveText(input.amount) && StoredId(text) in db.balances
    ensures
      || (Examine(digest, StoredId(text), postings, state).chainValid <==> AsStored(text))
      || SpellingsCollide(digest, id, LegBy(input, Value(input.amount), text), db.balances[StoredId(text)])
  {
    TransferVerifiesExactly(digest, db, id, input, text);
    VerifyFindsFirstDivergence(digest, Entries(Rows(postings)), None);
  }

  // ---- conservation report ----

  /** `conservationByCurrency`: one total per journal currency that has postings. */
  function ConservationByCurrency(db: Db): map<string, int> {
    var currencies := set r | r in db.postings && FindJournal(db.journals, r.transactionId).Some? ::
      FindJournal(db.journals, r.transactionId).value.currency;
    map c | c in currencies :: CurrencyTotal(db, c)
  }

  predicate Conserved(totals: map<string, int>) { forall c | c in totals :: totals[c] == 0 }

  lemma {:induction false} EditedSelection(rows: seq<PostingRow>, f: PostingRow -> bool, i: nat, r: PostingRow)
    requires i < |rows| && f(r) == f(rows[i])
    ensures Sum(Filter(rows[i := r], f)) == Sum(Filter(rows, f)) + if f(r) then r.amount - rows[i].amount else 0
  {
    var n, edited := |rows| - 1, rows[i := r];
    SnocSum(rows, f);
    SnocSum(edited, f);
    if i < n {
      assert edited[..n] == rows[..n][i := r] && edited[n] == rows[n];
      EditedSelection(rows[..n], f, i, r);
    } else {
      assert edited[..n] == rows[..n];
    }
  }

  /** The currencies of the committed journals. */
  ghost predicate UsedCurrency(db: Db, c: string) { exists k | 0 <= k < |db.journals| :: db.journals[k].currency == c }

  lemma JournalHasPosting(db: Db, k: nat) returns (i: nat)
    requires k < |db.journals| && JournalSound(db, k) && DistinctJournals(db.journals)
    ensures i < |db.postings| && FindJournal(db.journals, db.postings[i].transactionId) == Some(db.journals[k])
  {
    var log := TransactionLog(db.postings, db.journals[k].id);
    assert log != [] && log[0] in log;
    FilterMember(db.postings, OfTransaction(db.journals[k].id));
    i :| 0 <= i < |db.postings| && db.postings[i] == log[0];
    FindJournalFinds(db.journals, db.journals[k].id);
  }

  /** One total for each currency in which anything was committed, and no other. */
  lemma ReportedCurrencies(db: Db, c: string)
    requires JournalsSound(db) && DistinctJournals(db.journals)
    ensures c in ConservationByCurrency(db) <==> UsedCurrency(db, c)
  {
    if UsedCurrency(db, c) {
      var k :| 0 <= k < |db.journals| && db.journals[k].currency == c;
      assert JournalSound(db, k);
      var i := JournalHasPosting(db, k);
      assert db.postings[i] in db.postings;
    }
    if c in ConservationByCurrency(db) {
      var r :| r in db.postings && FindJournal(db.journals, r.transactionId).Some?
        && FindJournal(db.journals, r.transactionId).value.currency == c;
      FindJournalFinds(db.journals, r.transactionId);
    }
  }

  /** The ledger with the amount of one posting edited by `d`. */
  function WithAmountOff(db: Db, i: nat, d: int): Db
    requires i < |db.postings|
  {
    db.(postings := db.postings[i := db.postings[i].(amount := db.postings[i].amount + d)])
  }

  lemma ReportedAsBefore(db: Db, i: nat, d: int)
    requires i < |db.postings|
    ensures ConservationByCurrency(WithAmountOff(db, i, d)).Keys == ConservationByCurrency(db).Keys
  {
    var before, after := db.postings, WithAmountOff(db, i, d).postings;
    forall c ensures c in ConservationByCurrency(WithAmountOff(db, i, d)) <==> c in ConservationByCurrency(db) {
      if c in ConservationByCurrency(db) {
        var m :| 0 <= m < |before| && FindJournal(db.journals, before[m].transactionId).Some?
          && FindJournal(db.journals, before[m].transactionId).value.currency == c;
        assert after[m] in after && after[m].transactionId == before[m].transactionId;
      }
      if c in ConservationByCurrency(WithAmountOff(db, i, d)) {
        var m :| 0 <= m < |after| && FindJournal(db.journals, after[m].transactionId).Some?
          && FindJournal(db.journals, after[m].transactionId).value.currency == c;
        assert before[m] in before && after[m].transactionId == before[m].transactionId;
      }
    }
  }

  /** The report is off by exactly the edit, in the currency of the edited row's journal and nowhere else. */
  ghost predicate OffByEdit(db: Db, i: nat, d: int)
    requires i < |db.postings|
  {
    var report := ConservationByCurrency(WithAmountOff(db, i, d));
    var row := FindJournal(db.journals, db.postings[i].transactionId);
    && row.Some? && row.value.currency in report && !Conserved(report)
    && (forall c :: c in report <==> UsedCurrency(db, c))
    && forall c | c in report :: report[c] == if c == row.value.currency then d else 0
  }

  /** An edited amount shows: the report on any kept ledger is off by exactly the edit, in the currency of the
      edited row's journal and nowhere else, and no longer says that money is conserved. */
  lemma AmountOffIsReported(db: Db, i: nat, d: int)
    requires Kept(db) && i < |db.postings| && d != 0
    ensures OffByEdit(db, i, d)
  {
    var db', r := WithAmountOff(db, i, d), db.postings[i];
    assert LegAttributed(db, r) && r in db.postings;
    ReportedAsBefore(db, i, d);
    forall c
      ensures c in ConservationByCurrency(db) <==> UsedCurrency(db, c)
      ensures CurrencyTotal(db', c) ==
        if c == FindJournal(db.journals, r.transactionId).value.currency then d else 0
    {
      ReportedCurrencies(db, c);
      PostingsConserved(db, c);
      EditedSelection(db.postings, OfCurrency(db.journals, c), i, db'.postings[i]);
    }
  }

  /** In every committed snapshot of every run, in any spelling, postings sum to zero in every currency, and there
      is one event per journal. The report has a zero for each currency in which anything was committed; edit any
      amount of the table, and it says which currency is off, and by how much. */
  lemma {:induction false} PostingsAlwaysConserved(cfg: Config, schedule: seq<Action>)
    requires WellFormed(cfg)
    ensures
      var db := Exec(cfg, schedule).db;
      var report := ConservationByCurrency(db);
      && (forall c :: CurrencyTotal(db, c) == 0) && Announced(db)
      && (forall c :: c in report <==> UsedCurrency(db, c)) && (forall c | c in report :: report[c] == 0)
      && Conserved(report)
      && forall i, d | 0 <= i < |db.postings| && d != 0 :: OffByEdit(db, i, d)
  {
    EveryLedgerKept(cfg, schedule);
    var db := Exec(cfg, schedule).db;
    forall c ensures c in ConservationByCurrency(db) <==> UsedCurrency(db, c) { ReportedCurrencies(db, c); }
    forall c ensures CurrencyTotal(db, c) == 0 { PostingsConserved(db, c); }
    forall i, d | 0 <= i < |db.postings| && d != 0 ensures OffByEdit(db, i, d) { AmountOffIsReported(db, i, d); }
  }

  /** Every committed snapshot of every run: money is conserved per currency in postings and in balances;
      stored balance, sum of postings and last `balanceAfter` agree on every account, each `balanceAfter` is
      the prefix sum, the head closes a valid chain; no floored account is below its floor; and the outbox
      holds exactly one event per journal, agreeing with its rows. */
  lemma {:induction false} EverySnapshot(cfg: Config, schedule: seq<Action>)
    requires Proper(cfg)
    ensures
      var db := Exec(cfg, schedule).db;
      && Conserved(ConservationByCurrency(db))
      && (forall c :: CurrencyTotal(db, c) == 0 && BalanceTotal(db, c) == 0)
      && (forall a | a in db.accounts :: a in db.balances
            && Materialised(cfg.digest, AccountLog(db.postings, a), db.balances[a])
            && KeepsFloor(db.accounts[a], db.balances[a].balance))
      && (forall i | 0 <= i < |db.postings| :: db.postings[i].accountId in db.accounts
            && KeepsFloor(db.accounts[db.postings[i].accountId], db.postings[i].balanceAfter))
      && |db.outbox| == |db.journals|
      && (forall k | 0 <= k < |db.journals| :: Announces(db.outbox[k], db.journals[k])
            && TellsRows(db.outbox[k].payload, db.journals[k], TransactionLog(db.postings, db.journals[k].id)))
  {
    EveryLedgerSound(cfg, schedule);
    var db := Exec(cfg, schedule).db;
    forall c ensures CurrencyTotal(db, c) == 0 && BalanceTotal(db, c) == 0 { Conservation(cfg.digest, db, c); }
    forall a | a in db.accounts ensures KeepsFloor(db.accounts[a], db.balances[a].balance) {
      BalanceAboveFloor(cfg.digest, db, a);
    }
    forall k | 0 <= k < |db.journals|
      ensures TellsRows(db.outbox[k].payload, db.journals[k], TransactionLog(db.postings, db.journals[k].id))
    {
      EventTells(db.journals[k], TransactionLog(db.postings, db.journals[k].id));
    }
  }
}
