/** What a sound ledger is, and that every sequential operation keeps it sound. */
module Soundness {
  import opened Wrappers
  import opened Text
  import opened HashChain
  import opened Journals
  import opened Ledger
  import opened Naming

  // ---- queries over growing logs ----

  lemma {:induction false} FilterAppend<T>(a: seq<T>, b: seq<T>, f: T -> bool)
    ensures Filter(a + b, f) == Filter(a, f) + Filter(b, f)
  {
    if b == [] {
      assert a + b == a;
    } else {
      var n := |b| - 1;
      FilterAppend(a, b[..n], f);
      assert (a + b)[..|a + b| - 1] == a + b[..n];
    }
  }

  lemma {:induction false} FilterNone<T>(s: seq<T>, f: T -> bool)
    requires forall i | 0 <= i < |s| :: !f(s[i])
    ensures Filter(s, f) == []
  {
    if s != [] { FilterNone(s[..|s| - 1], f); }
  }

  lemma {:induction false} FilterAll<T>(s: seq<T>, f: T -> bool)
    requires forall i | 0 <= i < |s| :: f(s[i])
    ensures Filter(s, f) == s
  {
    if s != [] { FilterAll(s[..|s| - 1], f); }
  }

  lemma {:induction false} FilterMember<T>(s: seq<T>, f: T -> bool)
    ensures forall x :: x in Filter(s, f) <==> x in s && f(x)
  {
    if s != [] {
      FilterMember(s[..|s| - 1], f);
      assert s == s[..|s| - 1] + [s[|s| - 1]];
    }
  }

  lemma {:induction false} FindJournalFinds(journals: seq<JournalRow>, id: string)
    ensures FindJournal(journals, id).Some? <==> exists k | 0 <= k < |journals| :: journals[k].id == id
    ensures FindJournal(journals, id).Some? ==> exists k | 0 <= k < |journals| ::
      journals[k].id == id && journals[k] == FindJournal(journals, id).value
  {
    if journals != [] { FindJournalFinds(journals[..|journals| - 1], id); }
  }

  // ---- one account's log against its materialised row ----

  function EntryOf(r: PostingRow): Entry {
    Entry(r.prevHash, r.hash, Content(r.transactionId, r.accountId, r.amount, r.balanceAfter))
  }

  function Entries(log: seq<PostingRow>): (es: seq<Entry>)
    ensures |es| == |log|
  {
    seq(|log|, i requires 0 <= i < |log| => EntryOf(log[i]))
  }

  function Sum(log: seq<PostingRow>): int {
    if log == [] then 0 else Sum(log[..|log| - 1]) + log[|log| - 1].amount
  }

  /** Balance, last `balanceAfter` and sum of postings agree, at every prefix, and the stored head is
      the last hash of a valid chain. */
  ghost predicate Materialised(digest: Digest, log: seq<PostingRow>, row: BalanceRow) {
    && ValidChain(digest, Entries(log))
    && (forall i | 0 <= i < |log| :: log[i].balanceAfter == Sum(log[..i + 1]))
    && row == BalanceRow(Sum(log), Head(Entries(log)))
  }

  lemma ChainExtends(digest: Digest, log: seq<PostingRow>, row: BalanceRow, r: PostingRow)
    requires Materialised(digest, log, row)
    requires r.prevHash == row.chainHash && r.balanceAfter == row.balance + r.amount
    requires r.hash ==
      HashPosting(digest, row.chainHash, Content(r.transactionId, r.accountId, r.amount, r.balanceAfter))
    ensures Materialised(digest, log + [r], BalanceRow(r.balanceAfter, Some(r.hash)))
  {
    ChainAppends(digest, log, r);
    SumsExtend(log, r);
  }

  lemma ChainAppends(digest: Digest, log: seq<PostingRow>, r: PostingRow)
    requires ValidChain(digest, Entries(log))
    ensures ValidChain(digest, Entries(log + [r])) <==>
      r.prevHash == Head(Entries(log)) && r.hash == HashPosting(digest, Head(Entries(log)), EntryOf(r).content)
    ensures Head(Entries(log + [r])) == Some(r.hash)
  {
    var es, es', n := Entries(log), Entries(log + [r]), |log|;
    assert es'[n] == EntryOf(r) && PrevOf(es', n) == Head(es);
    forall i | 0 <= i < n ensures LinkHolds(digest, es', i) { assert LinkHolds(digest, es, i); }
    assert LinkHolds(digest, es', n) <==>
      r.prevHash == Head(es) && r.hash == HashPosting(digest, Head(es), EntryOf(r).content);
  }

  lemma SumsExtend(log: seq<PostingRow>, r: PostingRow)
    requires forall i | 0 <= i < |log| :: log[i].balanceAfter == Sum(log[..i + 1])
    ensures Sum(log + [r]) == Sum(log) + r.amount
    ensures r.balanceAfter == Sum(log) + r.amount ==>
      forall i | 0 <= i <= |log| :: (log + [r])[i].balanceAfter == Sum((log + [r])[..i + 1])
  {
    var log', n := log + [r], |log|;
    assert log'[..n] == log && log'[..n + 1] == log';
    forall i | 0 <= i < n ensures log'[i].balanceAfter == Sum(log'[..i + 1]) { assert log'[..i + 1] == log[..i + 1]; }
  }

  ghost predicate Chained(digest: Digest, postings: seq<PostingRow>, balances: map<string, BalanceRow>) {
    forall a | a in balances :: Materialised(digest, AccountLog(postings, a), balances[a])
  }

  lemma AccountLogGrows(log: seq<PostingRow>, r: PostingRow, a: string)
    ensures AccountLog(log + [r], a) == if r.accountId == a then AccountLog(log, a) + [r] else AccountLog(log, a)
  {
    assert (log + [r])[..|log|] == log;
  }

  /** The row that a leg writes follows from the row state it found. */
  ghost predicate Follows(digest: Digest, r: PostingRow, row: BalanceRow) {
    && r.prevHash == row.chainHash && r.balanceAfter == row.balance + r.amount
    && r.hash == HashPosting(digest, row.chainHash, Content(r.transactionId, r.accountId, r.amount, r.balanceAfter))
  }

  lemma OneRowExtends(digest: Digest, log: seq<PostingRow>, rows: map<string, BalanceRow>, r: PostingRow)
    requires Chained(digest, log, rows) && r.accountId in rows && Follows(digest, r, rows[r.accountId])
    ensures Chained(digest, log + [r], rows[r.accountId := BalanceRow(r.balanceAfter, Some(r.hash))])
  {
    var rows' := rows[r.accountId := BalanceRow(r.balanceAfter, Some(r.hash))];
    forall a | a in rows' ensures Materialised(digest, AccountLog(log + [r], a), rows'[a]) {
      AccountLogGrows(log, r, a);
      assert Materialised(digest, AccountLog(log, a), rows[a]);
      if a == r.accountId { ChainExtends(digest, AccountLog(log, a), rows[a], r); }
    }
  }

  lemma LegKeepsChains(digest: Digest, id: string, byId: map<string, Account>, log: seq<PostingRow>, st: LoopState,
                       p: Posting, r: PostingRow)
    requires Chained(digest, log, st.running) && AsStored(p.accountId)
    requires PostLeg(digest, id, byId, st, p).Ok?
    requires r == RowOf(id, p, PostLeg(digest, id, byId, st, p).value.lines[|st.lines|])
    ensures Chained(digest, log + [r], PostLeg(digest, id, byId, st, p).value.running)
  {
    OneRowExtends(digest, log, st.running, r);
  }

  lemma RowsSnoc(id: string, ps: seq<Posting>, lines: seq<Line>)
    requires |ps| == |lines| > 0
    ensures RowsOf(id, ps, lines) ==
      RowsOf(id, ps[..|ps| - 1], lines[..|ps| - 1]) + [RowOf(id, ps[|ps| - 1], lines[|ps| - 1])]
  {
  }

  lemma RowsGrow(digest: Digest, id: string, byId: map<string, Account>, start: map<string, BalanceRow>,
                 ps: seq<Posting>)
    requires ps != [] && RunLoop(digest, id, byId, start, ps).Ok?
    ensures
      var n := |ps| - 1;
      var st := RunLoop(digest, id, byId, start, ps).value;
      var st0 := RunLoop(digest, id, byId, start, ps[..n]);
      && st0.Ok? && PostLeg(digest, id, byId, st0.value, ps[n]) == Ok(st)
      && RowsOf(id, ps, st.lines) == RowsOf(id, ps[..n], st0.value.lines) + [RowOf(id, ps[n], st.lines[n])]
  {
    var n := |ps| - 1;
    var lines := RunLoop(digest, id, byId, start, ps).value.lines;
    assert lines[..n] == RunLoop(digest, id, byId, start, ps[..n]).value.lines;
    RowsSnoc(id, ps, lines);
  }

  lemma PrefixAsStored(ps: seq<Posting>)
    requires LegsAsStored(ps) && ps != []
    ensures LegsAsStored(ps[..|ps| - 1]) && AsStored(ps[|ps| - 1].accountId)
  {
    var qs := ps[..|ps| - 1];
    forall i | 0 <= i < |qs| ensures AsStored(qs[i].accountId) { assert qs[i] == ps[i]; }
  }

  /** The running state of the posting loop is always the materialised state of the log written so far. */
  lemma {:induction false} LoopKeepsChains(digest: Digest, id: string, byId: map<string, Account>,
                                           postings: seq<PostingRow>, start: map<string, BalanceRow>, ps: seq<Posting>)
    requires Chained(digest, postings, start) && LegsAsStored(ps)
    requires RunLoop(digest, id, byId, start, ps).Ok?
    ensures
      var st := RunLoop(digest, id, byId, start, ps).value;
      Chained(digest, postings + RowsOf(id, ps, st.lines), st.running)
  {
    var st := RunLoop(digest, id, byId, start, ps).value;
    var rows := RowsOf(id, ps, st.lines);
    if ps == [] {
      assert postings + rows == postings;
    } else {
      var n := |ps| - 1;
      PrefixAsStored(ps);
      RowsGrow(digest, id, byId, start, ps);
      LoopKeepsChains(digest, id, byId, postings, start, ps[..n]);
      var st0 := RunLoop(digest, id, byId, start, ps[..n]).value;
      LegKeepsChains(digest, id, byId, postings + RowsOf(id, ps[..n], st0.lines), st0, ps[n],
                     RowOf(id, ps[n], st.lines[n]));
      ConcatAssociates(postings, RowsOf(id, ps[..n], st0.lines), [RowOf(id, ps[n], st.lines[n])]);
    }
  }

  // ---- the whole ledger ----

  ghost predicate Registered(db: Db) {
    && db.balances.Keys == db.accounts.Keys
    && (forall a | a in db.accounts :: AccountSound(a, db.accounts[a]))
    && (forall i | 0 <= i < |db.postings| :: db.postings[i].accountId in db.accounts)
  }

  /** Ids are uuids as the tables return them: without separators, in one spelling. */
  predicate Plain(id: string) { NoBar(id) && AsStored(id) }

  /** Rows are filed under their own id, and a floor never forbids an empty account. */
  predicate AccountSound(id: string, account: Account) {
    && account.id == id && Plain(id) && Supported(account.currency)
    && (account.floor.Some? ==> account.floor.value <= 0)
  }

  ghost predicate FloorsKept(db: Db) {
    forall i | 0 <= i < |db.postings| ::
      IsSufficient(db.postings[i].balanceAfter, 0, FloorOf(db.accounts, db.postings[i].accountId))
  }

  /** The journal stored as the `k`-th transaction. */
  function Stored(db: Db, k: nat): Journal
    requires k < |db.journals|
  {
    var row := db.journals[k];
    Journal(row.id, row.currency, StoredLegs(TransactionLog(db.postings, row.id), row.currency))
  }

  ghost predicate JournalSound(db: Db, k: nat)
    requires k < |db.journals|
  {
    && Plain(db.journals[k].id) && Supported(db.journals[k].currency) && DoubleEntry(Stored(db, k))
    && (db.journals[k].reverses.Some? ==> exists m | 0 <= m < k :: Compensates(db, k, m))
  }

  /** Transaction `k` reverses transaction `m`, leg by leg. */
  ghost predicate Compensates(db: Db, k: nat, m: nat)
    requires k < |db.journals| && m < |db.journals|
  {
    && db.journals[k].reverses == Some(db.journals[m].id)
    && db.journals[k].currency == db.journals[m].currency
    && Stored(db, k).postings == Negated(Stored(db, m).postings)
  }

  ghost predicate DistinctJournals(journals: seq<JournalRow>) {
    && (forall i, k | 0 <= i < k < |journals| :: journals[i].id != journals[k].id)
    && (forall i, k | 0 <= i < k < |journals| ::
          journals[i].reverses.Some? ==> journals[i].reverses != journals[k].reverses)
  }

  ghost predicate Attributed(db: Db) {
    forall i | 0 <= i < |db.postings| :: LegAttributed(db, db.postings[i])
  }

  /** A posting belongs to a stored transaction in its account's currency. */
  ghost predicate LegAttributed(db: Db, r: PostingRow) {
    var row := FindJournal(db.journals, r.transactionId);
    row.Some? && r.accountId in db.accounts && db.accounts[r.accountId].currency == row.value.currency
  }

  function EventOf(row: JournalRow, legs: seq<PostingRow>): OutboxEvent {
    OutboxEvent(if row.reverses.Some? then "transfer.reversed" else "transfer.posted",
                Receipt(row.id, row.currency,
                        seq(|legs|, i requires 0 <= i < |legs| =>
                          ReceiptLine(legs[i].accountId, Print(legs[i].amount), Print(legs[i].balanceAfter)))))
  }

  /** One event per journal, in order, carrying exactly what that journal's rows say. */
  ghost predicate Emitted(db: Db) {
    && |db.outbox| == |db.journals|
    && forall k | 0 <= k < |db.journals| ::
      db.outbox[k] == EventOf(db.journals[k], TransactionLog(db.postings, db.journals[k].id))
  }

  /** Does the receipt tell what the rows of the journal hold, line by line? */
  ghost predicate TellsRows(receipt: Receipt, row: JournalRow, legs: seq<PostingRow>) {
    && receipt.id == row.id && receipt.currency == row.currency && |receipt.postings| == |legs|
    && forall i | 0 <= i < |legs| ::
      && receipt.postings[i].accountId == legs[i].accountId
      && Denotes(receipt.postings[i].amount, legs[i].amount)
      && Denotes(receipt.postings[i].balanceAfter, legs[i].balanceAfter)
  }

  lemma EventTells(row: JournalRow, legs: seq<PostingRow>)
    ensures TellsRows(EventOf(row, legs).payload, row, legs)
  {
    forall i | 0 <= i < |legs|
      ensures Denotes(Print(legs[i].amount), legs[i].amount)
      ensures Denotes(Print(legs[i].balanceAfter), legs[i].balanceAfter)
    {
      PrintDenotes(Print(legs[i].amount), legs[i].amount);
      PrintDenotes(Print(legs[i].balanceAfter), legs[i].balanceAfter);
    }
  }

  /** Does the event tell of this journal? */
  predicate Announces(event: OutboxEvent, row: JournalRow) {
    && event.eventType == (if row.reverses.Some? then "transfer.reversed" else "transfer.posted")
    && event.payload.id == row.id && event.payload.currency == row.currency
  }

  /** One event per journal, in order. */
  ghost predicate Announced(db: Db) {
    |db.outbox| == |db.journals| && forall k | 0 <= k < |db.journals| :: Announces(db.outbox[k], db.journals[k])
  }

  ghost predicate KeyServedBy(db: Db, key: string, m: nat) {
    && key in db.keys && m < |db.journals| && m < |db.outbox|
    && db.keys[key].transactionId == Some(db.journals[m].id)
    && db.keys[key].response == Some(db.outbox[m].payload)
    && db.journals[m].reverses.None?
  }

  /** Every committed key is complete, and no two keys share a transaction. */
  ghost predicate Keyed(db: Db) {
    && (forall key | key in db.keys :: exists m: nat :: KeyServedBy(db, key, m))
    && (forall k1, k2 | k1 in db.keys && k2 in db.keys && k1 != k2 ::
          db.keys[k1].transactionId != db.keys[k2].transactionId)
  }

  /** What holds of the ledger however requests spell ids: registered rows, balanced journals with their
      reversal links, postings attributed to them, one event and at most one key each. */
  ghost predicate Kept(db: Db) {
    && Registered(db)
    && DistinctJournals(db.journals)
    && JournalsSound(db)
    && Attributed(db)
    && Announced(db)
    && Keyed(db)
  }

  /** What holds besides if requests name accounts as they are stored: chains and reconciliation, floors, and
      events that carry what the rows say. */
  ghost predicate Sound(digest: Digest, db: Db) {
    Kept(db) && Chained(digest, db.postings, db.balances) && FloorsKept(db) && Emitted(db)
  }

  ghost predicate FreshJournal(db: Db, id: string) {
    Plain(id) && forall k | 0 <= k < |db.journals| :: db.journals[k].id != id
  }

  /** A migrated, empty ledger: the seeded accounts, each with a zero balance row. */
  lemma GenesisIsSound(digest: Digest, accounts: map<string, Account>)
    requires forall a | a in accounts :: AccountSound(a, accounts[a])
    ensures Sound(digest, Db(accounts, map a | a in accounts :: BalanceRow(0, None), [], [], [], map[]))
  {
  }

  // ---- posting keeps the ledger sound ----

  /** What the two services hand to the poster. */
  ghost predicate Postable(db: Db, j: Journal, o: PostOptions) {
    && DoubleEntry(j) && FreshJournal(db, j.id)
    && o.eventType == (if o.reverses.Some? then "transfer.reversed" else "transfer.posted")
    && (o.reverses.Some? ==>
          exists m | 0 <= m < |db.journals| ::
            && db.journals[m].id == o.reverses.value && db.journals[m].currency == j.currency
            && j.postings == Negated(Stored(db, m).postings))
  }

  /** The new transaction's rows are its log, and no other transaction's log changes. */
  lemma TransactionLogs(db: Db, id: string, rows: seq<PostingRow>)
    requires Attributed(db) && FreshJournal(db, id)
    requires forall i | 0 <= i < |rows| :: rows[i].transactionId == id
    ensures TransactionLog(db.postings + rows, id) == rows
    ensures forall t | t != id :: TransactionLog(db.postings + rows, t) == TransactionLog(db.postings, t)
  {
    forall i | 0 <= i < |db.postings| ensures db.postings[i].transactionId != id {
      assert LegAttributed(db, db.postings[i]);
      FindJournalFinds(db.journals, db.postings[i].transactionId);
    }
    FilterNone(db.postings, OfTransaction(id));
    FilterAll(rows, OfTransaction(id));
    FilterAppend(db.postings, rows, OfTransaction(id));
    forall t | t != id ensures TransactionLog(db.postings + rows, t) == TransactionLog(db.postings, t) {
      FilterNone(rows, OfTransaction(t));
      FilterAppend(db.postings, rows, OfTransaction(t));
    }
  }

  /** Replacing the rows of some accounts and appending only their postings keeps every chain. */
  lemma ChainsMerge(digest: Digest, log: seq<PostingRow>, balances: map<string, BalanceRow>, rows: seq<PostingRow>,
                    running: map<string, BalanceRow>)
    requires Chained(digest, log, balances) && Chained(digest, log + rows, running)
    requires forall i | 0 <= i < |rows| :: rows[i].accountId in running
    ensures Chained(digest, log + rows, balances + running)
    ensures forall a | a !in running :: AccountLog(log + rows, a) == AccountLog(log, a)
  {
    forall a | a !in running ensures AccountLog(log + rows, a) == AccountLog(log, a) {
      FilterNone(rows, OfAccount(a));
      FilterAppend(log, rows, OfAccount(a));
    }
    forall a | a in balances + running
      ensures Materialised(digest, AccountLog(log + rows, a), (balances + running)[a])
    {
      if a !in running { assert Materialised(digest, AccountLog(log, a), balances[a]); }
    }
  }

  lemma LockedChains(digest: Digest, log: seq<PostingRow>, balances: map<string, BalanceRow>, ps: seq<Posting>)
    requires Chained(digest, log, balances) && LegsAsStored(ps) && Rows(Involved(ps)) <= balances.Keys
    ensures Chained(digest, log, LockedRows(balances, Involved(ps)))
    ensures LockedRows(balances, Involved(ps)).Keys == Involved(ps) <= balances.Keys
  {
    InvolvedAsStored(ps);
    LockedAsStored(balances, Involved(ps));
  }

  lemma RowsInvolved(id: string, ps: seq<Posting>, lines: seq<Line>)
    requires LegsAsStored(ps) && |ps| == |lines|
    ensures forall i | 0 <= i < |ps| ::
      RowsOf(id, ps, lines)[i].accountId == ps[i].accountId && ps[i].accountId in Involved(ps)
  {
  }

  lemma RunKeepsChains(digest: Digest, db: Db, j: Journal, o: PostOptions, st: LoopState, db': Db)
    requires Ran(digest, db, j, o, st, db') && Chained(digest, db.postings, db.balances) && LegsAsStored(j.postings)
    ensures Chained(digest, db'.postings, db'.balances)
    ensures forall a | a !in Involved(j.postings) :: AccountLog(db'.postings, a) == AccountLog(db.postings, a)
  {
    LockedChains(digest, db.postings, db.balances, j.postings);
    LoopKeepsChains(digest, j.id, ById(db.accounts, j.postings), db.postings,
                    LockedRows(db.balances, Involved(j.postings)), j.postings);
    RowsInvolved(j.id, j.postings, st.lines);
    ChainsMerge(digest, db.postings, db.balances, RowsOf(j.id, j.postings, st.lines), st.running);
    WriteRowsAsStored(db.balances, j.postings, st.running);
  }

  lemma PostKeepsChains(digest: Digest, db: Db, j: Journal, o: PostOptions)
    requires Chained(digest, db.postings, db.balances) && Post(digest, db, j, o).Ok? && LegsAsStored(j.postings)
    ensures
      var db' := Post(digest, db, j, o).value.0;
      && Chained(digest, db'.postings, db'.balances)
      && forall a | a !in Involved(j.postings) :: AccountLog(db'.postings, a) == AccountLog(db.postings, a)
  {
    var st := PostRan(digest, db, j, o);
    RunKeepsChains(digest, db, j, o, st, Post(digest, db, j, o).value.0);
  }

  ghost predicate JournalsSound(db: Db) { forall k | 0 <= k < |db.journals| :: JournalSound(db, k) }

  /** `db'` is `db` with one more transaction, made of `rows`. */
  ghost predicate Appended(db: Db, db': Db, row: JournalRow, rows: seq<PostingRow>) {
    && db'.journals == db.journals + [row] && db'.postings == db.postings + rows
    && (forall i | 0 <= i < |rows| :: rows[i].transactionId == row.id)
    && FreshJournal(db, row.id) && Attributed(db)
  }

  lemma AppendKeepsStored(db: Db, db': Db, row: JournalRow, rows: seq<PostingRow>)
    requires Appended(db, db', row, rows)
    ensures forall k | 0 <= k < |db.journals| ::
      Stored(db', k) == Stored(db, k)
        && TransactionLog(db'.postings, db.journals[k].id) == TransactionLog(db.postings, db.journals[k].id)
    ensures Stored(db', |db.journals|) == Journal(row.id, row.currency, StoredLegs(rows, row.currency))
    ensures TransactionLog(db'.postings, row.id) == rows
  {
    TransactionLogs(db, row.id, rows);
  }

  lemma AppendKeepsJournals(db: Db, db': Db, row: JournalRow, rows: seq<PostingRow>)
    requires Appended(db, db', row, rows) && JournalsSound(db) && DistinctJournals(db.journals)
    requires JournalSound(db', |db.journals|)
    requires row.reverses.Some? ==> !HasReversal(db.journals, row.reverses.value)
    ensures JournalsSound(db') && DistinctJournals(db'.journals)
  {
    AppendKeepsStored(db, db', row, rows);
    forall k | 0 <= k < |db.journals| ensures JournalSound(db', k) {
      assert JournalSound(db, k);
      if db.journals[k].reverses.Some? {
        var m :| 0 <= m < k && Compensates(db, k, m);
        assert Compensates(db', k, m);
      }
    }
    forall i, k | 0 <= i < k < |db'.journals| && db'.journals[i].reverses.Some?
      ensures db'.journals[i].reverses != db'.journals[k].reverses
    {
      assert i < |db.journals| && db'.journals[i] == db.journals[i];
    }
  }

  lemma AppendKeepsAnnounced(db: Db, db': Db, row: JournalRow, event: OutboxEvent)
    requires Announced(db) && Announces(event, row)
    requires db'.journals == db.journals + [row] && db'.outbox == db.outbox + [event]
    ensures Announced(db')
  {
  }

  lemma AppendKeepsOutbox(db: Db, db': Db, row: JournalRow, rows: seq<PostingRow>)
    requires Appended(db, db', row, rows) && Emitted(db)
    requires db'.outbox == db.outbox + [EventOf(row, rows)]
    ensures Emitted(db')
  {
    AppendKeepsStored(db, db', row, rows);
    forall k | 0 <= k < |db'.journals|
      ensures db'.outbox[k] == EventOf(db'.journals[k], TransactionLog(db'.postings, db'.journals[k].id))
    {
      if k < |db.journals| {
        assert db.outbox[k] == EventOf(db.journals[k], TransactionLog(db.postings, db.journals[k].id));
      }
    }
  }

  lemma RunAppends(digest: Digest, db: Db, j: Journal, o: PostOptions, st: LoopState,
                   db': Db) returns (rows: seq<PostingRow>)
    requires Ran(digest, db, j, o, st, db') && FreshJournal(db, j.id) && Attributed(db)
    ensures Appended(db, db', JournalRow(j.id, j.currency, o.reverses), rows)
    ensures rows == RowsOf(j.id, j.postings, st.lines)
  {
    rows := RowsOf(j.id, j.postings, st.lines);
  }

  /** The legs as the rows name them. */
  function StoredNames(ps: seq<Posting>): (r: seq<Posting>)
    ensures |r| == |ps|
  {
    seq(|ps|, i requires 0 <= i < |ps| => ps[i].(accountId := StoredId(ps[i].accountId)))
  }

  lemma StoredNamesStay(ps: seq<Posting>)
    requires LegsAsStored(ps)
    ensures StoredNames(ps) == ps
  {
    forall i | 0 <= i < |ps| ensures StoredNames(ps)[i] == ps[i] { assert AsStored(ps[i].accountId); }
  }

  lemma {:induction false} StoredNamesTotal(ps: seq<Posting>)
    ensures Total(StoredNames(ps)) == Total(ps)
  {
    if ps != [] {
      StoredNamesTotal(ps[..|ps| - 1]);
      assert StoredNames(ps)[..|ps| - 1] == StoredNames(ps[..|ps| - 1]);
    }
  }

  /** Rows keep a double entry, whatever spelling it uses. */
  lemma RowsStoreLegs(j: Journal, lines: seq<Line>)
    requires |lines| == |j.postings| && DoubleEntry(j)
    ensures StoredLegs(RowsOf(j.id, j.postings, lines), j.currency) == StoredNames(j.postings)
  {
  }

  /** The rows of a journal that names accounts as stored tell the same as its receipt. */
  lemma RowsTellReceipt(j: Journal, lines: seq<Line>, row: JournalRow)
    requires |lines| == |j.postings| && LegsAsStored(j.postings) && row.id == j.id && row.currency == j.currency
    ensures EventOf(row, RowsOf(j.id, j.postings, lines)).payload == ReceiptOf(j, lines)
  {
    RowsInvolved(j.id, j.postings, lines);
  }

  lemma PostAppends(digest: Digest, db: Db, j: Journal, o: PostOptions) returns (rows: seq<PostingRow>)
    requires Attributed(db) && Postable(db, j, o)
    requires Post(digest, db, j, o).Ok?
    ensures
      var (db', receipt) := Post(digest, db, j, o).value;
      var row := JournalRow(j.id, j.currency, o.reverses);
      && Appended(db, db', row, rows)
      && StoredLegs(rows, j.currency) == StoredNames(j.postings)
      && db'.outbox == db.outbox + [OutboxEvent(o.eventType, receipt)]
      && receipt.id == j.id && receipt.currency == j.currency
      && db'.accounts == db.accounts && db'.keys == db.keys
      && (o.reverses.Some? ==> !HasReversal(db.journals, o.reverses.value))
    ensures LegsAsStored(j.postings) ==>
      EventOf(JournalRow(j.id, j.currency, o.reverses), rows) ==
        OutboxEvent(o.eventType, Post(digest, db, j, o).value.1)
  {
    var st := PostRan(digest, db, j, o);
    rows := RunAppends(digest, db, j, o, st, Post(digest, db, j, o).value.0);
    RowsStoreLegs(j, st.lines);
    if LegsAsStored(j.postings) { RowsTellReceipt(j, st.lines, JournalRow(j.id, j.currency, o.reverses)); }
  }

  /** Stored legs name their accounts as stored. */
  lemma StoredLegsAsStored(db: Db, m: nat)
    requires Registered(db) && m < |db.journals|
    ensures LegsAsStored(Negated(Stored(db, m).postings))
  {
    var log := TransactionLog(db.postings, db.journals[m].id);
    FilterMember(db.postings, OfTransaction(db.journals[m].id));
    forall i | 0 <= i < |log| ensures AsStored(log[i].accountId) {
      assert log[i] in log;
      var k :| 0 <= k < |db.postings| && db.postings[k] == log[i];
      assert AccountSound(log[i].accountId, db.accounts[log[i].accountId]);
    }
  }

  /** A posted journal is stored leg by leg, and as the compensation it claims to be. */
  lemma StoredJournalSound(db: Db, db': Db, j: Journal, o: PostOptions, rows: seq<PostingRow>)
    requires Registered(db) && Postable(db, j, o) && Supported(j.currency)
    requires StoredLegs(rows, j.currency) == StoredNames(j.postings)
    requires DoubleEntry(j.(postings := StoredNames(j.postings)))
    requires Appended(db, db', JournalRow(j.id, j.currency, o.reverses), rows)
    ensures JournalSound(db', |db.journals|)
  {
    var n := |db.journals|;
    AppendKeepsStored(db, db', JournalRow(j.id, j.currency, o.reverses), rows);
    assert Stored(db', n) == j.(postings := StoredNames(j.postings));
    if o.reverses.Some? {
      var m :| 0 <= m < n && db.journals[m].id == o.reverses.value && db.journals[m].currency == j.currency
        && j.postings == Negated(Stored(db, m).postings);
      StoredLegsAsStored(db, m);
      StoredNamesStay(j.postings);
      assert Compensates(db', n, m);
    }
  }

  /** The accounts that admit a journal make its currency one of the ledger's. */
  lemma PostedCurrency(digest: Digest, db: Db, j: Journal, o: PostOptions)
    requires Registered(db) && j.postings != [] && Post(digest, db, j, o).Ok?
    ensures Supported(j.currency)
  {
    CheckAccountsDecides(db.accounts, j.currency, j.postings);
    var a := StoredId(j.postings[0].accountId);
    assert AccountSound(a, db.accounts[a]);
  }

  lemma PostKeepsJournals(digest: Digest, db: Db, j: Journal, o: PostOptions)
    requires Registered(db) && Attributed(db) && DistinctJournals(db.journals) && JournalsSound(db) && Announced(db)
    requires Postable(db, j, o) && Post(digest, db, j, o).Ok?
    ensures
      var db' := Post(digest, db, j, o).value.0;
      DistinctJournals(db'.journals) && JournalsSound(db') && Announced(db')
  {
    var (db', receipt) := Post(digest, db, j, o).value;
    var rows := PostAppends(digest, db, j, o);
    var row := JournalRow(j.id, j.currency, o.reverses);
    PostedCurrency(digest, db, j, o);
    StoredNamesDoubleEntry(j);
    StoredJournalSound(db, db', j, o, rows);
    AppendKeepsJournals(db, db', row, rows);
    AppendKeepsAnnounced(db, db', row, OutboxEvent(o.eventType, receipt));
  }

  lemma StoredNamesDoubleEntry(j: Journal)
    requires DoubleEntry(j)
    ensures DoubleEntry(j.(postings := StoredNames(j.postings)))
  {
    StoredNamesTotal(j.postings);
    assert forall i | 0 <= i < |j.postings| :: StoredNames(j.postings)[i].amount == j.postings[i].amount;
  }

  lemma PostKeepsEvents(digest: Digest, db: Db, j: Journal, o: PostOptions)
    requires Attributed(db) && Emitted(db)
    requires Postable(db, j, o) && LegsAsStored(j.postings) && Post(digest, db, j, o).Ok?
    ensures Emitted(Post(digest, db, j, o).value.0)
  {
    var rows := PostAppends(digest, db, j, o);
    AppendKeepsOutbox(db, Post(digest, db, j, o).value.0, JournalRow(j.id, j.currency, o.reverses), rows);
  }

  lemma FindJournalAppend(journals: seq<JournalRow>, row: JournalRow, id: string)
    ensures FindJournal(journals + [row], id) == if row.id == id then Some(row) else FindJournal(journals, id)
  {
    assert (journals + [row])[..|journals|] == journals;
  }

  lemma AppendKeepsAttributed(db: Db, db': Db, row: JournalRow, rows: seq<PostingRow>)
    requires Appended(db, db', row, rows) && db'.accounts == db.accounts
    requires forall i | 0 <= i < |rows| ::
      rows[i].accountId in db.accounts && db.accounts[rows[i].accountId].currency == row.currency
    ensures Attributed(db')
  {
    forall i | 0 <= i < |db'.postings| ensures LegAttributed(db', db'.postings[i]) {
      FindJournalAppend(db.journals, row, db'.postings[i].transactionId);
      if i < |db.postings| {
        assert LegAttributed(db, db.postings[i]);
        FindJournalFinds(db.journals, db.postings[i].transactionId);
      }
    }
  }

  lemma RegisteredIsFiled(db: Db)
    requires Registered(db)
    ensures Filed(db.accounts)
  {
    forall a | a in db.accounts
      ensures db.accounts[a].id == a && AsStored(a)
    {
      assert AccountSound(a, db.accounts[a]);
    }
  }

  lemma RunFindsAccounts(digest: Digest, db: Db, j: Journal, o: PostOptions, st: LoopState, db': Db)
    requires Ran(digest, db, j, o, st, db') && Registered(db) && LegsAsStored(j.postings)
    ensures forall i | 0 <= i < |j.postings| ::
      j.postings[i].accountId in db.accounts && db.accounts[j.postings[i].accountId].currency == j.currency
    ensures forall i | 0 <= i < |j.postings| ::
      FloorOf(ById(db.accounts, j.postings), j.postings[i].accountId) == FloorOf(db.accounts, j.postings[i].accountId)
  {
    RegisteredIsFiled(db);
    CheckAccountsDecides(db.accounts, j.currency, j.postings);
    StoredGuards(db.accounts, j.currency, j.postings);
  }

  lemma RowsFound(db: Db, j: Journal, lines: seq<Line>)
    requires |lines| == |j.postings| && CheckAccounts(db.accounts, j.currency, j.postings).None?
    ensures forall i | 0 <= i < |j.postings| ::
      var a := RowsOf(j.id, j.postings, lines)[i].accountId;
      a in db.accounts && db.accounts[a].currency == j.currency
  {
    CheckAccountsDecides(db.accounts, j.currency, j.postings);
  }

  lemma RunKeepsRegistered(digest: Digest, db: Db, j: Journal, o: PostOptions, st: LoopState, db': Db)
    requires Ran(digest, db, j, o, st, db') && Registered(db)
    ensures Registered(db')
  {
    RowsFound(db, j, st.lines);
    RegisteredGrows(db, db', RowsOf(j.id, j.postings, st.lines));
  }

  lemma RegisteredGrows(db: Db, db': Db, rows: seq<PostingRow>)
    requires Registered(db) && db'.accounts == db.accounts && db'.balances.Keys == db.balances.Keys
    requires db'.postings == db.postings + rows && forall i | 0 <= i < |rows| :: rows[i].accountId in db.accounts
    ensures Registered(db')
  {
  }

  lemma RunKeepsFloors(digest: Digest, db: Db, j: Journal, o: PostOptions, st: LoopState, db': Db)
    requires Ran(digest, db, j, o, st, db') && Registered(db) && FloorsKept(db) && LegsAsStored(j.postings)
    ensures FloorsKept(db')
  {
    var rows := RowsOf(j.id, j.postings, st.lines);
    RunFindsAccounts(digest, db, j, o, st, db');
    LoopKeepsFloors(digest, j.id, ById(db.accounts, j.postings), LockedRows(db.balances, Involved(j.postings)),
                    j.postings);
    RowsInvolved(j.id, j.postings, st.lines);
    AppendKeepsFloors(db, db', rows);
  }

  lemma AppendKeepsFloors(db: Db, db': Db, rows: seq<PostingRow>)
    requires FloorsKept(db) && db'.postings == db.postings + rows && db'.accounts == db.accounts
    requires forall i | 0 <= i < |rows| ::
      IsSufficient(rows[i].balanceAfter, 0, FloorOf(db.accounts, rows[i].accountId))
    ensures FloorsKept(db')
  {
  }

  lemma PostKeepsRows(digest: Digest, db: Db, j: Journal, o: PostOptions)
    requires Registered(db) && Attributed(db) && FreshJournal(db, j.id) && Post(digest, db, j, o).Ok?
    ensures
      var db' := Post(digest, db, j, o).value.0;
      Registered(db') && Attributed(db')
  {
    var db' := Post(digest, db, j, o).value.0;
    var st := PostRan(digest, db, j, o);
    RowsFound(db, j, st.lines);
    RunKeepsRegistered(digest, db, j, o, st, db');
    var rows := RunAppends(digest, db, j, o, st, db');
    AppendKeepsAttributed(db, db', JournalRow(j.id, j.currency, o.reverses), rows);
  }

  lemma PostKeepsFloors(digest: Digest, db: Db, j: Journal, o: PostOptions)
    requires Registered(db) && FloorsKept(db) && LegsAsStored(j.postings) && Post(digest, db, j, o).Ok?
    ensures FloorsKept(Post(digest, db, j, o).value.0)
  {
    var st := PostRan(digest, db, j, o);
    RunKeepsFloors(digest, db, j, o, st, Post(digest, db, j, o).value.0);
  }

  lemma PostKeepsKeys(db: Db, db': Db)
    requires Keyed(db)
    requires db.journals <= db'.journals && db.outbox <= db'.outbox && db'.keys == db.keys
    ensures Keyed(db')
  {
    forall key | key in db.keys ensures exists m: nat :: KeyServedBy(db', key, m) {
      var m: nat :| KeyServedBy(db, key, m);
      assert KeyServedBy(db', key, m);
    }
  }

  /** Posting any journal of the services, in any spelling. */
  lemma PostKeepsKept(digest: Digest, db: Db, j: Journal, o: PostOptions)
    requires Kept(db) && Postable(db, j, o) && Post(digest, db, j, o).Ok?
    ensures Kept(Post(digest, db, j, o).value.0)
  {
    PostKeepsRows(digest, db, j, o);
    PostKeepsJournals(digest, db, j, o);
    PostKeepsKeys(db, Post(digest, db, j, o).value.0);
  }

  lemma PostKeepsSound(digest: Digest, db: Db, j: Journal, o: PostOptions)
    requires Sound(digest, db) && Postable(db, j, o) && LegsAsStored(j.postings)
    requires Post(digest, db, j, o).Ok?
    ensures Sound(digest, Post(digest, db, j, o).value.0)
  {
    PostKeepsKept(digest, db, j, o);
    PostKeepsChains(digest, db, j, o);
    PostKeepsFloors(digest, db, j, o);
    PostKeepsEvents(digest, db, j, o);
  }
}
