/** Ordered reads of the posting log, and cursor pagination that survives concurrent commits
    (statement.service.ts, drizzle-statement.repository.ts). */
module Statements {
  import opened Wrappers
  import opened Text
  import opened Ledger
  import opened Soundness
  import opened Protocol
  import opened Runs
  import opened Serializability

  /** A posting row with its identity column. */
  datatype Stamped = Stamped(seqNo: nat, row: PostingRow)

  function Table(s: State): (rows: seq<Stamped>)
    ensures |rows| <= |s.db.postings|
  {
    var n := if |s.seqs| < |s.db.postings| then |s.seqs| else |s.db.postings|;
    seq(n, i requires 0 <= i < n => Stamped(s.seqs[i], s.db.postings[i]))
  }

  // ---- ORDER BY seq ----

  function InsertBySeq(x: Stamped, rows: seq<Stamped>): seq<Stamped> {
    if rows == [] || x.seqNo <= rows[0].seqNo then [x] + rows else [rows[0]] + InsertBySeq(x, rows[1..])
  }

  function OrderBySeq(rows: seq<Stamped>): seq<Stamped> {
    if rows == [] then [] else InsertBySeq(rows[0], OrderBySeq(rows[1..]))
  }

  ghost predicate Rising(rows: seq<Stamped>) {
    forall i, k | 0 <= i < k < |rows| :: rows[i].seqNo < rows[k].seqNo
  }

  lemma {:induction false} RisingIsOrdered(rows: seq<Stamped>)
    requires Rising(rows)
    ensures OrderBySeq(rows) == rows
  {
    if rows != [] {
      RisingIsOrdered(rows[1..]);
      assert rows[1..] != [] ==> rows[0].seqNo <= rows[1..][0].seqNo;
      assert rows == [rows[0]] + rows[1..];
    }
  }

  // ---- the queries ----

  function OnAccount(a: string): Stamped -> bool { (x: Stamped) => x.row.accountId == a }

  function InTransaction(id: string): Stamped -> bool { (x: Stamped) => x.row.transactionId == id }

  function AfterCursor(after: Option<nat>): Stamped -> bool { (x: Stamped) => after.None? || x.seqNo > after.value }

  function OnAccountAfter(a: string, after: Option<nat>): Stamped -> bool {
    (x: Stamped) => x.row.accountId == a && (after.None? || x.seqNo > after.value)
  }

  /** `postingsForAccount`: the account's rows, ordered by seq. */
  function PostingsForAccount(table: seq<Stamped>, a: string): seq<Stamped> { OrderBySeq(Filter(table, OnAccount(a))) }

  /** `page`: rows above the cursor, ordered by seq, at most `limit`. */
  function Page(table: seq<Stamped>, a: string, limit: nat, after: Option<nat>): seq<Stamped> {
    var rows := OrderBySeq(Filter(table, OnAccountAfter(a, after)));
    if |rows| <= limit then rows else rows[..limit]
  }

  datatype Statement = Statement(entries: seq<Stamped>, nextCursor: Option<nat>)

  /** `forAccount`: one row more than asked for tells whether there is a next page. */
  function ForAccount(accounts: map<string, Account>, table: seq<Stamped>, text: string, subject: string, limit: nat,
                      cursor: Option<nat>): Option<Statement> {
    var found := FindAccount(accounts, text);
    if found.None? || (!found.value.system && found.value.owner != Some(subject)) then None
    else Some(StatementPage(table, StoredId(text), limit, cursor))
  }

  function StatementPage(table: seq<Stamped>, a: string, limit: nat, cursor: Option<nat>): Statement {
    PageOf(Page(table, a, limit + 1, cursor), limit)
  }

  function PageOf(rows: seq<Stamped>, limit: nat): Statement {
    var entries := if |rows| <= limit then rows else rows[..limit];
    Statement(entries, if |rows| > limit && entries != [] then Some(entries[|entries| - 1].seqNo) else None)
  }

  // ---- one page of a rising log ----

  lemma {:induction false} FilterTwice(rows: seq<Stamped>, a: string, after: Option<nat>)
    ensures Filter(rows, OnAccountAfter(a, after)) == Filter(Filter(rows, OnAccount(a)), AfterCursor(after))
  {
    if rows != [] {
      var n := |rows| - 1;
      FilterTwice(rows[..n], a, after);
      FilterAppend(Filter(rows[..n], OnAccount(a)), if OnAccount(a)(rows[n]) then [rows[n]] else [],
                   AfterCursor(after));
      assert [rows[n]][..0] == [];
    }
  }

  /** The cursor a reader holds after `k` entries of the log. */
  function CursorAt(log: seq<Stamped>, k: nat): Option<nat>
    requires k <= |log|
  {
    if k == 0 then None else Some(log[k - 1].seqNo)
  }

  /** Are the first `k` entries those at or below the cursor, and all others above it? */
  ghost predicate StandsAt(log: seq<Stamped>, cursor: Option<nat>, k: nat) {
    && k <= |log|
    && (forall i | 0 <= i < k :: !AfterCursor(cursor)(log[i]))
    && forall i | k <= i < |log| :: AfterCursor(cursor)(log[i])
  }

  /** Where in the log a cursor stands that need not be the seq of any entry. */
  function Position(log: seq<Stamped>, cursor: Option<nat>): (k: nat)
    ensures k <= |log|
  {
    if log == [] then 0
    else if !AfterCursor(cursor)(log[|log| - 1]) then |log|
    else Position(log[..|log| - 1], cursor)
  }

  lemma {:induction false} PositionStands(log: seq<Stamped>, cursor: Option<nat>)
    requires Rising(log)
    ensures StandsAt(log, cursor, Position(log, cursor))
  {
    if log != [] {
      var n := |log| - 1;
      var front := log[..n];
      assert forall i | 0 <= i < n :: front[i] == log[i];
      PositionStands(front, cursor);
    }
  }

  lemma CursorAtStands(log: seq<Stamped>, k: nat)
    requires Rising(log) && k <= |log|
    ensures StandsAt(log, CursorAt(log, k), k)
  {
  }

  lemma SplitFilter(a: seq<Stamped>, b: seq<Stamped>, f: Stamped -> bool)
    requires forall i | 0 <= i < |a| :: !f(a[i])
    requires forall i | 0 <= i < |b| :: f(b[i])
    ensures Filter(a + b, f) == b
  {
    FilterNone(a, f);
    FilterAll(b, f);
    FilterAppend(a, b, f);
  }

  lemma AfterCursorDrops(log: seq<Stamped>, cursor: Option<nat>, k: nat)
    requires StandsAt(log, cursor, k)
    ensures Filter(log, AfterCursor(cursor)) == log[k..]
  {
    CursorSplits(log, cursor, k, log[..k], log[k..]);
    SplitFilter(log[..k], log[k..], AfterCursor(cursor));
    Rejoined(log, k);
  }

  lemma Rejoined(log: seq<Stamped>, k: nat)
    requires k <= |log|
    ensures log[..k] + log[k..] == log
  {
  }

  lemma CursorSplits(log: seq<Stamped>, cursor: Option<nat>, k: nat, a: seq<Stamped>, b: seq<Stamped>)
    requires StandsAt(log, cursor, k) && a == log[..k] && b == log[k..]
    ensures forall i | 0 <= i < |a| :: !AfterCursor(cursor)(a[i])
    ensures forall i | 0 <= i < |b| :: AfterCursor(cursor)(b[i])
  {
    forall i | 0 <= i < |a| ensures !AfterCursor(cursor)(a[i]) { assert a[i] == log[i]; }
    forall i | 0 <= i < |b| ensures AfterCursor(cursor)(b[i]) { assert b[i] == log[k + i]; }
  }

  lemma RisingTail(log: seq<Stamped>, k: nat)
    requires Rising(log) && k <= |log|
    ensures Rising(log[k..])
  {
    forall i, m | 0 <= i < m < |log[k..]| ensures log[k..][i].seqNo < log[k..][m].seqNo {
      assert log[k..][i] == log[k + i] && log[k..][m] == log[k + m];
    }
  }

  lemma QueryTail(table: seq<Stamped>, a: string, cursor: Option<nat>, k: nat, log: seq<Stamped>)
    requires log == Filter(table, OnAccount(a)) && Rising(log) && StandsAt(log, cursor, k)
    ensures OrderBySeq(Filter(table, OnAccountAfter(a, cursor))) == log[k..]
  {
    FilterTwice(table, a, cursor);
    AfterCursorDrops(log, cursor, k);
    RisingTail(log, k);
    RisingIsOrdered(log[k..]);
  }

  function Min(a: nat, b: nat): nat { if a < b then a else b }

  lemma PageRows(table: seq<Stamped>, a: string, limit: nat, cursor: Option<nat>, k: nat, log: seq<Stamped>)
    requires log == Filter(table, OnAccount(a)) && Rising(log) && StandsAt(log, cursor, k)
    ensures Page(table, a, limit, cursor) == log[k..Min(k + limit, |log|)]
  {
    QueryTail(table, a, cursor, k, log);
    SliceTail(log, k, limit);
  }

  lemma SliceOfSlice(log: seq<Stamped>, k: nat, n: nat)
    requires k <= |log|
    ensures k + n < |log| ==> log[k..Min(k + (n + 1), |log|)][..n] == log[k..k + n]
  {
  }

  lemma SliceTail(log: seq<Stamped>, k: nat, n: nat)
    requires k <= |log|
    ensures k + n <= |log| ==> log[k..][..n] == log[k..k + n]
  {
  }

  /** `limit` entries from `start` on; the cursor stands at the end of the slice, unless that ends the log. */
  function SliceAt(log: seq<Stamped>, start: nat, limit: nat): Statement
    requires start <= |log|
  {
    var end := Min(start + limit, |log|);
    Statement(log[start..end], if end < |log| then CursorAt(log, end) else None)
  }

  /** A page continues the log exactly where the cursor stands, and its cursor stands at its own end. */
  lemma PageContinues(table: seq<Stamped>, a: string, limit: nat, cursor: Option<nat>, k: nat, log: seq<Stamped>)
    requires log == Filter(table, OnAccount(a)) && Rising(log) && StandsAt(log, cursor, k) && limit > 0
    ensures StatementPage(table, a, limit, cursor) == SliceAt(log, k, limit)
  {
    PageRows(table, a, limit + 1, cursor, k, log);
    if k + limit < |log| { FullPage(log, k, limit); } else { LastPage(log, k, limit); }
  }

  lemma FullPage(log: seq<Stamped>, k: nat, limit: nat)
    requires k + limit < |log| && limit > 0
    ensures PageOf(log[k..Min(k + (limit + 1), |log|)], limit) == SliceAt(log, k, limit)
  {
    var rows := log[k..Min(k + (limit + 1), |log|)];
    SliceOfSlice(log, k, limit);
    assert |rows| == limit + 1 && rows[..limit][limit - 1] == rows[limit - 1] == log[k + limit - 1];
  }

  lemma LastPage(log: seq<Stamped>, k: nat, limit: nat)
    requires k <= |log| <= k + limit
    ensures PageOf(log[k..Min(k + (limit + 1), |log|)], limit) == SliceAt(log, k, limit)
  {
  }

  // ---- logs in reachable states ----

  lemma {:induction false} RelatedRowsRise(rows: seq<Stamped>, f: Stamped -> bool)
    requires forall i, k | 0 <= i < k < |rows| :: f(rows[i]) && f(rows[k]) ==> rows[i].seqNo < rows[k].seqNo
    ensures Rising(Filter(rows, f))
  {
    if rows != [] {
      var n := |rows| - 1;
      RelatedRowsRise(rows[..n], f);
      FilterMember(rows[..n], f);
      var before := Filter(rows[..n], f);
      forall i | 0 <= i < |before| && f(rows[n]) ensures before[i].seqNo < rows[n].seqNo {
        assert before[i] in before;
        var m :| 0 <= m < n && rows[..n][m] == before[i];
        assert rows[m].seqNo < rows[n].seqNo;
      }
    }
  }

  /** In every reachable state seq order is commit order, per account and per transaction: the ordered
      queries return the log as it was committed. */
  lemma {:induction false} SeqOrderIsCommitOrder(cfg: Config, schedule: seq<Action>, a: string)
    requires WellFormed(cfg)
    ensures
      var table := Table(Exec(cfg, schedule));
      && |table| == |Exec(cfg, schedule).db.postings|
      && Rising(Filter(table, OnAccount(a))) && PostingsForAccount(table, a) == Filter(table, OnAccount(a))
      && Rising(Filter(table, InTransaction(a)))
      && OrderBySeq(Filter(table, InTransaction(a))) == Filter(table, InTransaction(a))
  {
    EveryStateGood(cfg, schedule);
    var s := Exec(cfg, schedule);
    var table := Table(s);
    forall i, k | 0 <= i < k < |table| && (table[i].row.accountId == table[k].row.accountId
      || table[i].row.transactionId == table[k].row.transactionId)
      ensures table[i].seqNo < table[k].seqNo
    {
      assert Related(s.db.postings[i], s.db.postings[k]);
    }
    RelatedRowsRise(table, OnAccount(a));
    RelatedRowsRise(table, InTransaction(a));
    RisingIsOrdered(Filter(table, OnAccount(a)));
    RisingIsOrdered(Filter(table, InTransaction(a)));
  }

  lemma FilterPrefix(rows: seq<Stamped>, rows': seq<Stamped>, f: Stamped -> bool)
    requires rows <= rows'
    ensures Filter(rows, f) <= Filter(rows', f)
  {
    FilterAppend(rows, rows'[|rows|..], f);
    assert rows' == rows + rows'[|rows|..];
  }

  /** Stable cursors: what commits on an account later carries larger seqs than all that was there. */
  lemma {:induction false} LaterCommitsSortLast(cfg: Config, schedule: seq<Action>, more: seq<Action>, a: string)
    requires WellFormed(cfg)
    ensures
      var log, log' := AccountTable(cfg, schedule, a), AccountTable(cfg, schedule + more, a);
      && log <= log' && Rising(log')
      && forall i, k | 0 <= i < |log| <= k < |log'| :: log[i].seqNo < log'[k].seqNo
  {
    TablesOnlyGrow(cfg, schedule, more);
    SeqOrderIsCommitOrder(cfg, schedule, a);
    SeqOrderIsCommitOrder(cfg, schedule + more, a);
    FilterPrefix(Table(Exec(cfg, schedule)), Table(Exec(cfg, schedule + more)), OnAccount(a));
    var log, log' := AccountTable(cfg, schedule, a), AccountTable(cfg, schedule + more, a);
    forall i, k | 0 <= i < |log| <= k < |log'| ensures log[i].seqNo < log'[k].seqNo { assert log[i] == log'[i]; }
  }

  /** An account's committed postings, in commit order. */
  function AccountTable(cfg: Config, schedule: seq<Action>, a: string): seq<Stamped> {
    Filter(Table(Exec(cfg, schedule)), OnAccount(a))
  }

  // ---- a reader that follows the cursor while others commit ----

  datatype Reader = Reading(entries: seq<Stamped>, cursor: Option<nat>) | Ended(entries: seq<Stamped>)

  function Joined(gaps: seq<seq<Action>>): seq<Action> {
    if gaps == [] then [] else Joined(gaps[..|gaps| - 1]) + gaps[|gaps| - 1]
  }

  /** One more request, passing the last `nextCursor`. */
  function NextRequest(reader: Reader, table: seq<Stamped>, a: string, limit: nat): Reader {
    if reader.Ended? then reader
    else
      var page := StatementPage(table, a, limit, reader.cursor);
      if page.nextCursor.None? then Ended(reader.entries + page.entries)
      else Reading(reader.entries + page.entries, page.nextCursor)
  }

  /** Before the reader's `i`-th request the steps in `gaps[i]` happen. */
  function Follow(cfg: Config, a: string, limit: nat, gaps: seq<seq<Action>>): Reader {
    if gaps == [] then Reading([], None)
    else NextRequest(Follow(cfg, a, limit, gaps[..|gaps| - 1]), Table(Exec(cfg, Joined(gaps))), a, limit)
  }

  /** What a reader has after following the cursor for a while, against the log as it is now. */
  ghost predicate InStep(reader: Reader, log: seq<Stamped>, requests: nat) {
    reader.entries <= log && (reader.Reading? ==>
      reader.cursor == CursorAt(log, |reader.entries|) && |reader.entries| >= requests)
  }

  /** The reader was told it is at the end when it had the whole log of that moment. */
  ghost predicate SawAll(cfg: Config, a: string, gaps: seq<seq<Action>>, entries: seq<Stamped>) {
    exists n | 0 < n <= |gaps| :: entries == AccountTable(cfg, Joined(gaps[..n]), a)
  }

  lemma ReadOneMore(table: seq<Stamped>, a: string, limit: nat, reader: Reader, log: seq<Stamped>, requests: nat)
    requires log == Filter(table, OnAccount(a)) && Rising(log) && limit > 0
    requires reader.Reading? && InStep(reader, log, requests)
    ensures
      var next := NextRequest(reader, table, a, limit);
      InStep(next, log, requests + 1) && (next.Ended? ==> next.entries == log)
  {
    var k := |reader.entries|;
    CursorAtStands(log, k);
    PageContinues(table, a, limit, reader.cursor, k, log);
    PrefixAndSlice(log, reader.entries, Min(k + limit, |log|));
  }

  lemma PrefixAndSlice(log: seq<Stamped>, entries: seq<Stamped>, end: nat)
    requires entries <= log && |entries| <= end <= |log|
    ensures entries + log[|entries|..end] == log[..end] && log[..end] <= log
    ensures end == |log| ==> log[..end] == log
  {
  }

  /** The next request keeps a reader in step with a log that has meanwhile grown. */
  lemma ReaderStep(table: seq<Stamped>, a: string, limit: nat, reader: Reader, before: seq<Stamped>, log: seq<Stamped>,
                   requests: nat)
    requires log == Filter(table, OnAccount(a)) && Rising(log) && before <= log && limit > 0
    requires InStep(reader, before, requests)
    ensures
      var next := NextRequest(reader, table, a, limit);
      InStep(next, log, requests + 1) && (reader.Reading? && next.Ended? ==> next.entries == log)
  {
    if reader.Reading? {
      var k := |reader.entries|;
      assert k > 0 ==> before[k - 1] == log[k - 1];
      ReadOneMore(table, a, limit, reader, log, requests);
    }
  }

  lemma {:induction false} LogGrows(cfg: Config, a: string, gaps: seq<seq<Action>>)
    requires WellFormed(cfg) && gaps != []
    ensures AccountTable(cfg, Joined(gaps[..|gaps| - 1]), a) <= AccountTable(cfg, Joined(gaps), a)
    ensures Rising(AccountTable(cfg, Joined(gaps), a))
  {
    LaterCommitsSortLast(cfg, Joined(gaps[..|gaps| - 1]), gaps[|gaps| - 1], a);
  }

  lemma {:induction false} SawAllEarlier(cfg: Config, a: string, gaps: seq<seq<Action>>, n: nat, entries: seq<Stamped>)
    requires n <= |gaps| && SawAll(cfg, a, gaps[..n], entries)
    ensures SawAll(cfg, a, gaps, entries)
  {
    var m :| 0 < m <= n && entries == AccountTable(cfg, Joined(gaps[..n][..m]), a);
    assert gaps[..n][..m] == gaps[..m];
  }

  lemma {:induction false} SawAllNow(cfg: Config, a: string, gaps: seq<seq<Action>>)
    requires gaps != []
    ensures SawAll(cfg, a, gaps, AccountTable(cfg, Joined(gaps), a))
  {
    assert gaps[..|gaps|] == gaps;
  }

  /** Whatever commits in between, the pages read so far are a prefix of the account's log: nothing is
      skipped and nothing repeated. The reader is told it is at the end only when it has the whole log of
      that moment, and every page before the end brings something new. */
  lemma {:induction false} NoSkipNoRepeat(cfg: Config, a: string, limit: nat, gaps: seq<seq<Action>>)
    requires WellFormed(cfg) && limit > 0
    ensures
      var reader := Follow(cfg, a, limit, gaps);
      && InStep(reader, AccountTable(cfg, Joined(gaps), a), |gaps|)
      && (reader.Ended? ==> SawAll(cfg, a, gaps, reader.entries))
  {
    if gaps != [] {
      var n := |gaps| - 1;
      NoSkipNoRepeat(cfg, a, limit, gaps[..n]);
      LogGrows(cfg, a, gaps);
      var reader, before, log := Follow(cfg, a, limit, gaps[..n]), AccountTable(cfg, Joined(gaps[..n]), a),
                                        AccountTable(cfg, Joined(gaps), a);
      ReaderStep(Table(Exec(cfg, Joined(gaps))), a, limit, reader, before, log, n);
      if reader.Ended? { SawAllEarlier(cfg, a, gaps, n, reader.entries); } else { SawAllNow(cfg, a, gaps); }
    }
  }

  predicate Visible(accounts: map<string, Account>, a: string, subject: string) {
    a in accounts && (accounts[a].system || accounts[a].owner == Some(subject))
  }

  /** In every reachable state, for any cursor: a caller sees the account's statement, however its id is spelled, if
      and only if the account exists and is a system account or the caller's own; and the page is the slice of
      the committed log that starts after all rows at or below the cursor. */
  lemma {:induction false} ForAccountShows(cfg: Config, schedule: seq<Action>, text: string, subject: string,
                                           limit: nat, cursor: Option<nat>)
    requires WellFormed(cfg) && limit > 0
    ensures
      var s, log := Exec(cfg, schedule), AccountTable(cfg, schedule, StoredId(text));
      && StandsAt(log, cursor, Position(log, cursor))
      && ForAccount(s.db.accounts, Table(s), text, subject, limit, cursor) ==
         if Visible(s.db.accounts, StoredId(text), subject)
         then Some(SliceAt(log, Position(log, cursor), limit))
         else None
  {
    var s, log := Exec(cfg, schedule), AccountTable(cfg, schedule, StoredId(text));
    SeqOrderIsCommitOrder(cfg, schedule, StoredId(text));
    PositionStands(log, cursor);
    PageContinues(Table(s), StoredId(text), limit, cursor, Position(log, cursor), log);
  }
}
