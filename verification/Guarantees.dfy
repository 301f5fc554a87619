/** What the sequential ledger guarantees: the posting loop refines the fold, money is conserved,
    reversals always build and cancel, floors hold. */
module Guarantees {
  import opened Wrappers
  import opened Text
  import opened HashChain
  import opened Journals
  import opened Ledger
  import opened Naming
  import opened Soundness

  // ---- the posting loop refines the fold ----

  ghost predicate LegFits(accounts: map<string, Account>, start: map<string, BalanceRow>, ps: seq<Posting>, i: nat)
    requires i < |ps|
  {
    var p := ps[i];
    && p.accountId in start
    && IsSufficient(start[p.accountId].balance + Net(ps[..i], p.accountId), p.amount, FloorOf(accounts, p.accountId))
  }

  ghost predicate AllLegsFit(accounts: map<string, Account>, start: map<string, BalanceRow>, ps: seq<Posting>) {
    forall i | 0 <= i < |ps| :: LegFits(accounts, start, ps, i)
  }

  lemma LastLegFits(accounts: map<string, Account>, start: map<string, BalanceRow>, ps: seq<Posting>)
    requires ps != []
    ensures AllLegsFit(accounts, start, ps) <==>
      AllLegsFit(accounts, start, ps[..|ps| - 1]) && LegFits(accounts, start, ps, |ps| - 1)
  {
    var qs := ps[..|ps| - 1];
    forall i | 0 <= i < |qs| ensures LegFits(accounts, start, qs, i) <==> LegFits(accounts, start, ps, i) {
      assert qs[..i] == ps[..i];
    }
    if AllLegsFit(accounts, start, ps) {
      forall i | 0 <= i < |qs| ensures LegFits(accounts, start, qs, i) { assert LegFits(accounts, start, ps, i); }
    }
  }

  /** The loop succeeds exactly when every prefix of the legs keeps every touched account at or above its
      floor; it then changes each balance by the fold, and it fails only for lack of funds otherwise. */
  lemma {:induction false} LoopRefinesFold(digest: Digest, id: string, accounts: map<string, Account>,
                                           start: map<string, BalanceRow>, ps: seq<Posting>)
    ensures
      var r := RunLoop(digest, id, accounts, start, ps);
      && (r.Ok? <==> AllLegsFit(accounts, start, ps))
      && (r.Ok? ==> forall a | a in start :: r.value.running[a].balance == start[a].balance + Net(ps, a))
      && (r.Err? && (forall i | 0 <= i < |ps| :: ps[i].accountId in start) ==> r.error == InsufficientFunds)
  {
    if ps != [] {
      LoopRefinesFold(digest, id, accounts, start, ps[..|ps| - 1]);
      LastLegFits(accounts, start, ps);
    }
  }

  lemma {:induction false} NetElsewhere(ps: seq<Posting>, a: string)
    requires forall i | 0 <= i < |ps| :: ps[i].accountId != a
    ensures Net(ps, a) == 0
  {
    if ps != [] { NetElsewhere(ps[..|ps| - 1], a); }
  }

  lemma {:induction false} NetOfUninvolved(ps: seq<Posting>, a: string)
    requires a !in Involved(ps)
    ensures Net(ps, a) == 0
  {
    forall i | 0 <= i < |ps| ensures ps[i].accountId != a { assert ps[i].accountId in Involved(ps); }
    NetElsewhere(ps, a);
  }

  /** The loop over locked rows, for legs that name accounts as stored. */
  lemma LoopMovesBalances(digest: Digest, db: Db, j: Journal)
    requires Loop(digest, db, j).Ok? && LegsAsStored(j.postings) && Rows(Involved(j.postings)) <= db.balances.Keys
    ensures
      var running := Loop(digest, db, j).value.running;
      && running.Keys == Involved(j.postings) <= db.balances.Keys
      && forall a | a in running :: running[a].balance == db.balances[a].balance + Net(j.postings, a)
  {
    InvolvedAsStored(j.postings);
    LockedAsStored(db.balances, Involved(j.postings));
    LoopRefinesFold(digest, j.id, ById(db.accounts, j.postings), LockedRows(db.balances, Involved(j.postings)),
                    j.postings);
  }

  lemma RunMovesBalances(digest: Digest, db: Db, j: Journal, o: PostOptions, st: LoopState, db': Db)
    requires Ran(digest, db, j, o, st, db') && LegsAsStored(j.postings)
    ensures db'.balances.Keys == db.balances.Keys
    ensures forall a | a in db.balances :: db'.balances[a].balance == db.balances[a].balance + Net(j.postings, a)
    ensures forall a | a in db.balances && a !in Involved(j.postings) :: db'.balances[a] == db.balances[a]
  {
    LoopMovesBalances(digest, db, j);
    WriteRowsAsStored(db.balances, j.postings, st.running);
    forall a | a in db.balances && a !in Involved(j.postings)
      ensures Net(j.postings, a) == 0
    {
      NetOfUninvolved(j.postings, a);
    }
  }

  lemma PostMovesBalances(digest: Digest, db: Db, j: Journal, o: PostOptions)
    requires Post(digest, db, j, o).Ok? && LegsAsStored(j.postings)
    ensures
      var db' := Post(digest, db, j, o).value.0;
      && db'.balances.Keys == db.balances.Keys
      && (forall a | a in db.balances :: db'.balances[a].balance == db.balances[a].balance + Net(j.postings, a))
      && forall a | a in db.balances && a !in Involved(j.postings) :: db'.balances[a] == db.balances[a]
  {
    var st := PostRan(digest, db, j, o);
    RunMovesBalances(digest, db, j, o, st, Post(digest, db, j, o).value.0);
  }

  /** A successful posting of any journal, repeated accounts included: every balance moves by its fold,
      every account's log grows by its own legs in leg order, every other account is untouched. */
  lemma PostRefinesFold(digest: Digest, db: Db, j: Journal, o: PostOptions)
    requires Attributed(db) && Postable(db, j, o) && LegsAsStored(j.postings) && Post(digest, db, j, o).Ok?
    ensures
      var db' := Post(digest, db, j, o).value.0;
      forall a | a in db.balances ::
        && a in db'.balances
        && db'.balances[a].balance == db.balances[a].balance + Net(j.postings, a)
        && AccountLog(db'.postings, a) == AccountLog(db.postings, a) + AccountLog(TransactionLog(db'.postings, j.id), a)
        && (a !in Involved(j.postings) ==> db'.balances[a] == db.balances[a])
    ensures StoredLegs(TransactionLog(Post(digest, db, j, o).value.0.postings, j.id), j.currency) == j.postings
  {
    var db' := Post(digest, db, j, o).value.0;
    var rows := PostAppends(digest, db, j, o);
    PostMovesBalances(digest, db, j, o);
    StoredNamesStay(j.postings);
    assert TransactionLog(db'.postings, j.id) == rows by {
      AppendKeepsStored(db, db', JournalRow(j.id, j.currency, o.reverses), rows);
    }
    forall a ensures AccountLog(db'.postings, a) == AccountLog(db.postings, a) + AccountLog(rows, a) {
      FilterAppend(db.postings, rows, OfAccount(a));
    }
  }

  /** Posting fails only for the listed reasons, each under its exact condition; `no balance row` is not
      among them. `fits` speaks of the guards as the poster finds them. */
  lemma PostDecides(digest: Digest, db: Db, j: Journal, o: PostOptions)
    requires Registered(db)
    ensures
      var denied := Admit(db.accounts, j, o.requireOwner);
      var fits := AllLegsFit(ById(db.accounts, j.postings), LockedRows(db.balances, Involved(j.postings)), j.postings);
      var taken := o.reverses.Some? && HasReversal(db.journals, o.reverses.value);
      && (Post(digest, db, j, o).Ok? <==> denied.None? && fits && !taken)
      && (denied.Some? ==> Post(digest, db, j, o) == Err(denied.value))
      && (denied.None? && !fits ==> Post(digest, db, j, o) == Err(InsufficientFunds))
      && (denied.None? && fits && taken ==> Post(digest, db, j, o) == Err(AlreadyReversed))
  {
    var start := LockedRows(db.balances, Involved(j.postings));
    LoopRefinesFold(digest, j.id, ById(db.accounts, j.postings), start, j.postings);
    if Admit(db.accounts, j, o.requireOwner).None? { AllRowsFound(db, j); }
  }

  lemma AllRowsFound(db: Db, j: Journal)
    requires Registered(db) && CheckAccounts(db.accounts, j.currency, j.postings).None?
    ensures Rows(Involved(j.postings)) <= db.balances.Keys
    ensures forall i | 0 <= i < |j.postings| :: j.postings[i].accountId in LockedRows(db.balances, Involved(j.postings))
  {
    CheckAccountsDecides(db.accounts, j.currency, j.postings);
    assert forall i | 0 <= i < |j.postings| :: j.postings[i].accountId in Involved(j.postings);
  }

  /** For legs that name accounts as stored, the guards found are those of the tables. */
  lemma FitsAsStored(db: Db, j: Journal)
    requires Registered(db) && LegsAsStored(j.postings) && CheckAccounts(db.accounts, j.currency, j.postings).None?
    ensures AllLegsFit(ById(db.accounts, j.postings), LockedRows(db.balances, Involved(j.postings)), j.postings) <==>
            AllLegsFit(db.accounts, db.balances, j.postings)
  {
    var start := LockedRows(db.balances, Involved(j.postings));
    RegisteredIsFiled(db);
    CheckAccountsDecides(db.accounts, j.currency, j.postings);
    StoredGuards(db.accounts, j.currency, j.postings);
    AllRowsFound(db, j);
    forall i | 0 <= i < |j.postings|
      ensures LegFits(ById(db.accounts, j.postings), start, j.postings, i) <==>
        LegFits(db.accounts, db.balances, j.postings, i)
    {
    }
  }

  lemma TwoLegsFit(accounts: map<string, Account>, start: map<string, BalanceRow>, p: Posting, q: Posting)
    requires p.accountId in start && q.accountId in start && p.accountId != q.accountId
    ensures AllLegsFit(accounts, start, [p, q]) <==>
      && IsSufficient(start[p.accountId].balance, p.amount, FloorOf(accounts, p.accountId))
      && IsSufficient(start[q.accountId].balance, q.amount, FloorOf(accounts, q.accountId))
  {
    var ps := [p, q];
    assert ps[..0] == [] && ps[..1] == [p] && [p][..0] == [];
    assert Net(ps[..1], q.accountId) == 0;
    assert LegFits(accounts, start, ps, 0) <==>
      IsSufficient(start[p.accountId].balance, p.amount, FloorOf(accounts, p.accountId));
    assert LegFits(accounts, start, ps, 1) <==>
      IsSufficient(start[q.accountId].balance, q.amount, FloorOf(accounts, q.accountId));
  }

  lemma LastKeepsFloor(db: Db, a: string, log: seq<PostingRow>)
    requires FloorsKept(db) && log == AccountLog(db.postings, a) && log != []
    ensures IsSufficient(log[|log| - 1].balanceAfter, 0, FloorOf(db.accounts, a))
  {
    var last := log[|log| - 1];
    FilterMember(db.postings, OfAccount(a));
    assert last in log;
    var i :| 0 <= i < |db.postings| && db.postings[i] == last;
    assert IsSufficient(db.postings[i].balanceAfter, 0, FloorOf(db.accounts, db.postings[i].accountId));
  }

  /** No overdraft: a floored account's balance never stands below its floor. */
  lemma BalanceAboveFloor(digest: Digest, db: Db, a: string)
    requires Sound(digest, db) && a in db.accounts
    ensures KeepsFloor(db.accounts[a], db.balances[a].balance)
  {
    var log := AccountLog(db.postings, a);
    assert Materialised(digest, log, db.balances[a]);
    assert AccountSound(a, db.accounts[a]);
    if log != [] {
      assert log[..|log| - 1 + 1] == log;
      LastKeepsFloor(db, a, log);
    }
  }

  // ---- conservation ----

  ghost function SumOver(ids: set<string>, g: string -> int): int {
    if ids == {} then 0 else var x :| x in ids; g(x) + SumOver(ids - {x}, g)
  }

  lemma {:induction false} SumOverRemove(ids: set<string>, g: string -> int, x: string)
    requires x in ids
    ensures SumOver(ids, g) == g(x) + SumOver(ids - {x}, g)
  {
    var y :| y in ids && SumOver(ids, g) == g(y) + SumOver(ids - {y}, g);
    if x != y {
      SumOverRemove(ids - {y}, g, x);
      SumOverRemove(ids - {x}, g, y);
      assert ids - {y} - {x} == ids - {x} - {y};
    }
  }

  lemma {:induction false} SumOverSame(ids: set<string>, g: string -> int, h: string -> int)
    requires forall x | x in ids :: g(x) == h(x)
    ensures SumOver(ids, g) == SumOver(ids, h)
  {
    if ids != {} {
      var x :| x in ids;
      SumOverRemove(ids, g, x);
      SumOverRemove(ids, h, x);
      SumOverSame(ids - {x}, g, h);
    }
  }

  lemma {:induction false} SumOverZero(ids: set<string>, g: string -> int)
    requires forall x | x in ids :: g(x) == 0
    ensures SumOver(ids, g) == 0
  {
    if ids != {} {
      var x :| x in ids;
      SumOverRemove(ids, g, x);
      SumOverZero(ids - {x}, g);
    }
  }

  /** Grouping: rows selected by `whole` are those whose key is in `ids`, and `part(t)` selects the group of `t`. */
  ghost predicate Groups(rows: seq<PostingRow>, ids: set<string>, whole: PostingRow -> bool,
                         part: string -> PostingRow -> bool, key: PostingRow -> string) {
    forall r | r in rows :: (whole(r) <==> key(r) in ids) && forall t | t in ids :: part(t)(r) <==> key(r) == t
  }

  function GroupSum(rows: seq<PostingRow>, part: string -> PostingRow -> bool): string -> int {
    t => Sum(Filter(rows, part(t)))
  }

  /** The sum of a selection is the sum over its groups of the groups' sums. */
  lemma {:induction false} SumByGroups(rows: seq<PostingRow>, ids: set<string>, whole: PostingRow -> bool,
                                       part: string -> PostingRow -> bool, key: PostingRow -> string)
    requires Groups(rows, ids, whole, part, key)
    ensures Sum(Filter(rows, whole)) == SumOver(ids, GroupSum(rows, part))
  {
    var g := GroupSum(rows, part);
    if rows == [] {
      SumOverZero(ids, g);
    } else {
      var n := |rows| - 1;
      var r, g0 := rows[n], GroupSum(rows[..n], part);
      SumByGroups(rows[..n], ids, whole, part, key);
      assert r in rows;
      forall t | t in ids ensures g(t) == g0(t) + if key(r) == t then r.amount else 0 {
        SnocSum(rows, part(t));
      }
      SnocSum(rows, whole);
      if key(r) in ids {
        SumOverRemove(ids, g, key(r));
        SumOverRemove(ids, g0, key(r));
        SumOverSame(ids - {key(r)}, g, g0);
      } else {
        SumOverSame(ids, g, g0);
      }
    }
  }

  lemma SnocSum(rows: seq<PostingRow>, f: PostingRow -> bool)
    requires rows != []
    ensures
      var n := |rows| - 1;
      Sum(Filter(rows, f)) == Sum(Filter(rows[..n], f)) + if f(rows[n]) then rows[n].amount else 0
  {
    var n := |rows| - 1;
    var before := Filter(rows[..n], f);
    assert (before + [rows[n]])[..|before|] == before;
    assert before + [] == before;
  }

  /** The conservation query: postings joined with their journal, by the journal's currency. */
  function OfCurrency(journals: seq<JournalRow>, currency: string): PostingRow -> bool {
    (r: PostingRow) => var row := FindJournal(journals, r.transactionId); row.Some? && row.value.currency == currency
  }

  function CurrencyTotal(db: Db, currency: string): int { Sum(Filter(db.postings, OfCurrency(db.journals, currency))) }

  function BalanceIn(balances: map<string, BalanceRow>): string -> int {
    (a: string) => if a in balances then balances[a].balance else 0
  }

  ghost function BalanceTotal(db: Db, currency: string): int {
    var accounts := set a | a in db.accounts && db.accounts[a].currency == currency;
    SumOver(accounts, BalanceIn(db.balances))
  }

  lemma {:induction false} SumOfLegs(rows: seq<PostingRow>, currency: string)
    ensures Sum(rows) == Total(StoredLegs(rows, currency))
  {
    if rows != [] {
      SumOfLegs(rows[..|rows| - 1], currency);
      assert StoredLegs(rows, currency)[..|rows| - 1] == StoredLegs(rows[..|rows| - 1], currency);
    }
  }

  lemma PostingsConserved(db: Db, currency: string)
    requires Attributed(db) && JournalsSound(db) && DistinctJournals(db.journals)
    ensures CurrencyTotal(db, currency) == 0
  {
    var ids := set k | 0 <= k < |db.journals| && db.journals[k].currency == currency :: db.journals[k].id;
    var whole := OfCurrency(db.journals, currency);
    forall r | r in db.postings ensures whole(r) <==> r.transactionId in ids {
      var i :| 0 <= i < |db.postings| && db.postings[i] == r;
      assert LegAttributed(db, db.postings[i]);
      FindJournalFinds(db.journals, r.transactionId);
    }
    SumByGroups(db.postings, ids, whole, OfTransaction, (r: PostingRow) => r.transactionId);
    forall t | t in ids ensures GroupSum(db.postings, OfTransaction)(t) == 0 {
      var k :| 0 <= k < |db.journals| && db.journals[k].id == t;
      assert JournalSound(db, k);
      SumOfLegs(TransactionLog(db.postings, t), db.journals[k].currency);
    }
    SumOverZero(ids, GroupSum(db.postings, OfTransaction));
  }

  lemma PostingCurrency(db: Db, r: PostingRow)
    requires Attributed(db) && r in db.postings
    ensures FindJournal(db.journals, r.transactionId).Some? && r.accountId in db.accounts
    ensures db.accounts[r.accountId].currency == FindJournal(db.journals, r.transactionId).value.currency
  {
    var i :| 0 <= i < |db.postings| && db.postings[i] == r;
    assert LegAttributed(db, db.postings[i]);
  }

  /** The balances of a currency's accounts add up to that currency's postings. */
  lemma BalancesFollowPostings(digest: Digest, db: Db, currency: string)
    requires Registered(db) && Chained(digest, db.postings, db.balances) && Attributed(db)
    ensures BalanceTotal(db, currency) == CurrencyTotal(db, currency)
  {
    var accounts := set a | a in db.accounts && db.accounts[a].currency == currency;
    var whole := OfCurrency(db.journals, currency);
    forall r | r in db.postings ensures whole(r) <==> r.accountId in accounts { PostingCurrency(db, r); }
    SumByGroups(db.postings, accounts, whole, OfAccount, (r: PostingRow) => r.accountId);
    forall a | a in accounts ensures GroupSum(db.postings, OfAccount)(a) == BalanceIn(db.balances)(a) {
      assert Materialised(digest, AccountLog(db.postings, a), db.balances[a]);
    }
    SumOverSame(accounts, GroupSum(db.postings, OfAccount), BalanceIn(db.balances));
  }

  /** Nothing is created or destroyed: in every currency the postings sum to zero, and so do the balances
      of that currency's accounts. */
  lemma Conservation(digest: Digest, db: Db, currency: string)
    requires Sound(digest, db)
    ensures CurrencyTotal(db, currency) == 0
    ensures BalanceTotal(db, currency) == 0
  {
    PostingsConserved(db, currency);
    BalancesFollowPostings(digest, db, currency);
  }

  // ---- reversals ----

  lemma StoredReversalBuilds(db: Db, m: nat, target: string, id: string)
    requires DistinctJournals(db.journals) && m < |db.journals| && JournalSound(db, m)
    requires StoredId(target) == db.journals[m].id
    ensures BuildReversal(db, target, id) == Ok(Journal(id, db.journals[m].currency, Negated(Stored(db, m).postings)))
    ensures DoubleEntry(BuildReversal(db, target, id).value)
  {
    FindJournalFinds(db.journals, db.journals[m].id);
    assert FindJournal(db.journals, db.journals[m].id) == Some(db.journals[m]);
    NegatedIsDoubleEntry(Stored(db, m), id);
  }

  lemma ReversalIsPostable(db: Db, m: nat, target: string, id: string)
    requires Registered(db) && DistinctJournals(db.journals) && m < |db.journals| && JournalSound(db, m)
    requires FreshJournal(db, id)
    requires StoredId(target) == db.journals[m].id
    ensures BuildReversal(db, target, id).Ok?
    ensures Postable(db, BuildReversal(db, target, id).value, ReversalOptions(target))
  {
    StoredReversalBuilds(db, m, target, id);
    StoredLegsAsStored(db, m);
  }

  /** Every stored transaction can be compensated, however its id is spelled; the builder's internal errors
      cannot happen. */
  lemma ReversalAlwaysBuilds(db: Db, target: string, id: string)
    requires Kept(db)
    ensures FindJournal(db.journals, StoredId(target)).None? ==>
      BuildReversal(db, target, id) == Err(UnknownTransaction)
    ensures forall m | 0 <= m < |db.journals| && db.journals[m].id == StoredId(target) ::
      BuildReversal(db, target, id) == Ok(Journal(id, db.journals[m].currency, Negated(Stored(db, m).postings)))
    ensures BuildReversal(db, target, id).Ok? ==>
      DoubleEntry(BuildReversal(db, target, id).value) && LegsAsStored(BuildReversal(db, target, id).value.postings)
    ensures BuildReversal(db, target, id).Ok? && FreshJournal(db, id) ==>
      Postable(db, BuildReversal(db, target, id).value, ReversalOptions(target))
  {
    FindJournalFinds(db.journals, StoredId(target));
    forall m | 0 <= m < |db.journals| && db.journals[m].id == StoredId(target)
      ensures BuildReversal(db, target, id) == Ok(Journal(id, db.journals[m].currency, Negated(Stored(db, m).postings)))
      ensures DoubleEntry(BuildReversal(db, target, id).value)
      ensures LegsAsStored(BuildReversal(db, target, id).value.postings)
      ensures FreshJournal(db, id) ==> Postable(db, BuildReversal(db, target, id).value, ReversalOptions(target))
    {
      assert JournalSound(db, m);
      StoredReversalBuilds(db, m, target, id);
      StoredLegsAsStored(db, m);
      if FreshJournal(db, id) { ReversalIsPostable(db, m, target, id); }
    }
  }

  /** The accounts of a stored transaction exist in its currency, so a reversal is always admitted. */
  lemma ReversalAdmitted(db: Db, target: string, id: string)
    requires Registered(db) && Attributed(db) && BuildReversal(db, target, id).Ok?
    ensures Admit(db.accounts, BuildReversal(db, target, id).value, None).None?
  {
    var t := StoredId(target);
    var currency, log := FindJournal(db.journals, t).value.currency, TransactionLog(db.postings, t);
    var ps := Negated(StoredLegs(log, currency));
    CreateBuildsDoubleEntries(id, ps);
    FilterMember(db.postings, OfTransaction(t));
    forall i | 0 <= i < |ps|
      ensures StoredId(ps[i].accountId) in db.accounts && db.accounts[StoredId(ps[i].accountId)].currency == currency
    {
      assert log[i] in log;
      var m :| 0 <= m < |db.postings| && db.postings[m] == log[i];
      assert LegAttributed(db, db.postings[m]) && AccountSound(log[i].accountId, db.accounts[log[i].accountId]);
    }
    CheckAccountsDecides(db.accounts, currency, ps);
  }

  /** `chain` is a transaction, its reversal, the reversal of that reversal, and so on. */
  ghost predicate ReversalChain(db: Db, chain: seq<nat>) {
    && (forall i | 0 <= i < |chain| :: chain[i] < |db.journals|)
    && forall i | 0 < i < |chain| :: db.journals[chain[i]].reverses == Some(db.journals[chain[i - 1]].id)
  }

  ghost function ChainNet(db: Db, chain: seq<nat>, a: string): int
    requires forall i | 0 <= i < |chain| :: chain[i] < |db.journals|
  {
    if chain == [] then 0
    else ChainNet(db, chain[..|chain| - 1], a) + LegNet(db, chain[|chain| - 1], a)
  }

  /** What the `k`-th transaction adds to an account. */
  function LegNet(db: Db, k: nat, a: string): int
    requires k < |db.journals|
  {
    Net(Stored(db, k).postings, a)
  }

  lemma ReversalNegates(db: Db, k: nat, m: nat, a: string)
    requires JournalsSound(db) && DistinctJournals(db.journals)
    requires k < |db.journals| && m < |db.journals| && db.journals[k].reverses == Some(db.journals[m].id)
    ensures m < k && LegNet(db, k, a) == -LegNet(db, m, a)
  {
    assert JournalSound(db, k);
    var m' :| 0 <= m' < k && Compensates(db, k, m');
    assert m' == m;
    NegatedNets(Stored(db, m).postings, a);
  }

  lemma {:induction false} AlternatingChain(db: Db, chain: seq<nat>, a: string)
    requires chain != [] && forall i | 0 <= i < |chain| :: chain[i] < |db.journals|
    requires forall i | 0 < i < |chain| :: LegNet(db, chain[i], a) == -LegNet(db, chain[i - 1], a)
    ensures
      var original := LegNet(db, chain[0], a);
      && ChainNet(db, chain, a) == (if |chain| % 2 == 0 then 0 else original)
      && LegNet(db, chain[|chain| - 1], a) == if |chain| % 2 == 0 then -original else original
  {
    var shorter := chain[..|chain| - 1];
    if shorter != [] {
      forall i | 0 < i < |shorter| ensures LegNet(db, shorter[i], a) == -LegNet(db, shorter[i - 1], a) {
        assert shorter[i] == chain[i] && shorter[i - 1] == chain[i - 1];
      }
      AlternatingChain(db, shorter, a);
    }
  }

  /** A chain of reversals moves forward in commit order, and its net effect alternates between the
      original's fold and nothing at all. */
  lemma ReversalChainCancels(db: Db, chain: seq<nat>, a: string)
    requires Kept(db) && ReversalChain(db, chain) && chain != []
    ensures forall i | 0 < i < |chain| :: chain[i - 1] < chain[i]
    ensures ChainNet(db, chain, a) == if |chain| % 2 == 0 then 0 else LegNet(db, chain[0], a)
  {
    forall i | 0 < i < |chain|
      ensures chain[i - 1] < chain[i] && LegNet(db, chain[i], a) == -LegNet(db, chain[i - 1], a)
    {
      ReversalNegates(db, chain[i], chain[i - 1], a);
    }
    AlternatingChain(db, chain, a);
  }

  // ---- receipts ----

  /** Does the line name the account, and do its texts denote these numbers? */
  predicate LineTells(line: ReceiptLine, text: string, amount: int, balanceAfter: int) {
    line.accountId == text && Denotes(line.amount, amount) && Denotes(line.balanceAfter, balanceAfter)
  }

  /** The last line of the loop holds the balance after all legs of its account. */
  lemma LastLine(digest: Digest, id: string, byId: map<string, Account>, start: map<string, BalanceRow>,
                 ps: seq<Posting>)
    requires ps != [] && RunLoop(digest, id, byId, start, ps).Ok?
    ensures
      var n := |ps| - 1;
      var before, lines := RunLoop(digest, id, byId, start, ps[..n]), RunLoop(digest, id, byId, start, ps).value.lines;
      && before.Ok? && lines[..n] == before.value.lines && ps[n].accountId in start
      && lines[n].balanceAfter == start[ps[n].accountId].balance + Net(ps, ps[n].accountId)
  {
    LoopRefinesFold(digest, id, byId, start, ps[..|ps| - 1]);
  }

  /** Each line of the loop holds the balance after all legs up to its own. */
  lemma {:induction false} LoopLines(digest: Digest, id: string, byId: map<string, Account>,
                                     start: map<string, BalanceRow>, ps: seq<Posting>)
    requires RunLoop(digest, id, byId, start, ps).Ok?
    ensures
      var lines := RunLoop(digest, id, byId, start, ps).value.lines;
      forall i | 0 <= i < |ps| ::
        && ps[i].accountId in start
        && lines[i].balanceAfter == start[ps[i].accountId].balance + Net(ps[..i + 1], ps[i].accountId)
  {
    if ps != [] {
      var n := |ps| - 1;
      var lines := RunLoop(digest, id, byId, start, ps).value.lines;
      LastLine(digest, id, byId, start, ps);
      LoopLines(digest, id, byId, start, ps[..n]);
      forall i | 0 <= i < |ps|
        ensures ps[i].accountId in start
        ensures lines[i].balanceAfter == start[ps[i].accountId].balance + Net(ps[..i + 1], ps[i].accountId)
      {
        if i < n {
          assert ps[..n][..i + 1] == ps[..i + 1] && ps[..n][i] == ps[i] && lines[i] == lines[..n][i];
        } else {
          assert ps[..i + 1] == ps;
        }
      }
    }
  }

  /** The balance that the `i`-th leg of a journal leaves, on these rows. */
  function BalanceAt(balances: map<string, BalanceRow>, ps: seq<Posting>, i: nat): int
    requires i < |ps| && StoredId(ps[i].accountId) in balances
  {
    balances[StoredId(ps[i].accountId)].balance + Net(ps[..i + 1], ps[i].accountId)
  }

  lemma LockedRow(balances: map<string, BalanceRow>, ps: seq<Posting>, i: nat)
    requires Rows(Involved(ps)) <= balances.Keys && i < |ps|
    ensures StoredId(ps[i].accountId) in balances && ps[i].accountId in LockedRows(balances, Involved(ps))
    ensures LockedRows(balances, Involved(ps))[ps[i].accountId] == balances[StoredId(ps[i].accountId)]
  {
    assert ps[i].accountId in Involved(ps) && StoredId(ps[i].accountId) in Rows(Involved(ps));
  }

  /** Does the receipt tell the caller the amount of every leg, and the balance it leaves? */
  ghost predicate Tells(receipt: Receipt, j: Journal, balances: map<string, BalanceRow>) {
    && receipt.id == j.id && receipt.currency == j.currency && |receipt.postings| == |j.postings|
    && forall i | 0 <= i < |j.postings| ::
      && StoredId(j.postings[i].accountId) in balances
      && LineTells(receipt.postings[i], j.postings[i].accountId, j.postings[i].amount,
                   BalanceAt(balances, j.postings, i))
  }

  /** Any posting, in any spelling: the receipt says so much, the event carries it, and the rows hold the same
      balances. */
  lemma ReceiptTells(digest: Digest, db: Db, j: Journal, o: PostOptions)
    requires Post(digest, db, j, o).Ok?
    ensures
      var (after, receipt) := Post(digest, db, j, o).value;
      && Tells(receipt, j, db.balances)
      && after.outbox == db.outbox + [OutboxEvent(o.eventType, receipt)]
      && |after.postings| == |db.postings| + |j.postings|
      && forall i | 0 <= i < |j.postings| ::
        && after.postings[|db.postings| + i].amount == j.postings[i].amount
        && after.postings[|db.postings| + i].balanceAfter == BalanceAt(db.balances, j.postings, i)
  {
    var st := PostRan(digest, db, j, o);
    LoopBalances(digest, db, j);
    LinesTold(j, st.lines, db.balances);
    forall i | 0 <= i < |j.postings|
      ensures Written(db, j, o, st).postings[|db.postings| + i] == RowOf(j.id, j.postings[i], st.lines[i])
    {
      WrittenRow(db, j, o, st, i);
    }
  }

  lemma LoopBalances(digest: Digest, db: Db, j: Journal)
    requires Loop(digest, db, j).Ok? && Rows(Involved(j.postings)) <= db.balances.Keys
    ensures
      var lines := Loop(digest, db, j).value.lines;
      forall i | 0 <= i < |j.postings| ::
        && StoredId(j.postings[i].accountId) in db.balances
        && lines[i].balanceAfter == BalanceAt(db.balances, j.postings, i)
  {
    var ps := j.postings;
    LoopLines(digest, j.id, ById(db.accounts, ps), LockedRows(db.balances, Involved(ps)), ps);
    forall i | 0 <= i < |ps|
      ensures StoredId(ps[i].accountId) in db.balances
      ensures Loop(digest, db, j).value.lines[i].balanceAfter == BalanceAt(db.balances, ps, i)
    {
      LockedRow(db.balances, ps, i);
    }
  }

  lemma LinesTold(j: Journal, lines: seq<Line>, balances: map<string, BalanceRow>)
    requires |lines| == |j.postings|
    requires forall i | 0 <= i < |lines| ::
      StoredId(j.postings[i].accountId) in balances && lines[i].balanceAfter == BalanceAt(balances, j.postings, i)
    ensures Tells(ReceiptOf(j, lines), j, balances)
  {
    forall i | 0 <= i < |lines|
      ensures LineTells(ReceiptOf(j, lines).postings[i], j.postings[i].accountId, j.postings[i].amount,
                        lines[i].balanceAfter)
    {
      PrintDenotes(Print(j.postings[i].amount), j.postings[i].amount);
      PrintDenotes(Print(lines[i].balanceAfter), lines[i].balanceAfter);
    }
  }

  // ---- what a successful call does ----

  /** The receipt line of a leg: the account as the request names it, and its row's new balance. */
  function LegOf(text: string, amount: int, before: map<string, BalanceRow>): ReceiptLine
    requires StoredId(text) in before
  {
    ReceiptLine(text, Print(amount), Print(before[StoredId(text)].balance + amount))
  }

  lemma TwoInvolved(p: Posting, q: Posting)
    ensures Involved([p, q]) == {p.accountId, q.accountId}
  {
    assert [p, q][0] == p && [p, q][1] == q;
  }

  lemma OrderOfTwo(p: Posting, q: Posting)
    requires p.accountId != q.accountId
    ensures LockOrder([p, q]) ==
      if Less(p.accountId, q.accountId) then [p.accountId, q.accountId] else [q.accountId, p.accountId]
  {
    var a, b := p.accountId, q.accountId;
    assert AccountIds([p, q]) == [a, b] && [a, b][1..] == [b] && [b][1..] == [];
    assert SortedDistinct([b]) == Insert(b, SortedDistinct([])) == [b];
    assert SortedDistinct([a, b]) == Insert(a, [b]);
    assert Insert(a, [b][1..]) == [a];
  }

  lemma WriteTwo(balances: map<string, BalanceRow>, a: string, b: string, running: map<string, BalanceRow>)
    requires a in running && b in running && StoredId(a) in balances && StoredId(b) in balances
    ensures WriteRows(balances, [a, b], running) == balances[StoredId(a) := running[a]][StoredId(b) := running[b]]
  {
    assert [a, b][..1] == [a] && [a][..0] == [];
    assert WriteRows(balances, [a], running) == balances[StoredId(a) := running[a]];
  }

  /** `amount` has gone from one row to the other, and every other row is as it was. */
  ghost predicate Moved(before: map<string, BalanceRow>, after: map<string, BalanceRow>, from: string, to: string,
                        amount: int) {
    && from in before && to in before && after.Keys == before.Keys
    && after[from].balance == before[from].balance - amount
    && after[to].balance == before[to].balance + amount
    && forall a | a in before && a != from && a != to :: after[a] == before[a]
  }

  /** Both legs have gone to one row, which holds what was written last. */
  ghost predicate Overwritten(before: map<string, BalanceRow>, after: map<string, BalanceRow>, row: string,
                              change: int) {
    && row in before && after.Keys == before.Keys
    && after[row].balance == before[row].balance + change
    && forall a | a in before && a != row :: after[a] == before[a]
  }

  /** The effect of a debit under one text and a credit under another. */
  ghost predicate Transferred(before: map<string, BalanceRow>, after: map<string, BalanceRow>, from: string, to: string,
                              amount: int) {
    if StoredId(from) != StoredId(to) then Moved(before, after, StoredId(from), StoredId(to), amount)
    else Overwritten(before, after, StoredId(from), if Less(from, to) then amount else 0 - amount)
  }

  lemma TwoRowsWritten(balances: map<string, BalanceRow>, p: Posting, q: Posting, running: map<string, BalanceRow>)
    requires p.accountId != q.accountId && p.amount == 0 - q.amount
    requires StoredId(p.accountId) in balances && StoredId(q.accountId) in balances && p.accountId in running
    requires q.accountId in running
    requires running[p.accountId].balance == balances[StoredId(p.accountId)].balance + p.amount
    requires running[q.accountId].balance == balances[StoredId(q.accountId)].balance + q.amount
    ensures Transferred(balances, WriteRows(balances, LockOrder([p, q]), running), p.accountId, q.accountId, q.amount)
  {
    OrderOfTwo(p, q);
    WriteTwo(balances, p.accountId, q.accountId, running);
    WriteTwo(balances, q.accountId, p.accountId, running);
  }

  function ReceiptFor(id: string, currency: string, from: string, to: string, amount: int,
                      before: map<string, BalanceRow>): Receipt
    requires StoredId(from) in before && StoredId(to) in before
  {
    Receipt(id, currency, [LegOf(from, 0 - amount, before), LegOf(to, amount, before)])
  }

  lemma TwoLegReceipt(id: string, currency: string, p: Posting, q: Posting, lines: seq<Line>,
                      balances: map<string, BalanceRow>)
    requires |lines| == 2 && p.amount == 0 - q.amount
    requires StoredId(p.accountId) in balances && StoredId(q.accountId) in balances
    requires lines[0].balanceAfter == balances[StoredId(p.accountId)].balance + p.amount
    requires lines[1].balanceAfter == balances[StoredId(q.accountId)].balance + q.amount
    ensures ReceiptOf(Journal(id, currency, [p, q]), lines) ==
      ReceiptFor(id, currency, p.accountId, q.accountId, q.amount, balances)
  {
  }

  lemma LockedTwo(balances: map<string, BalanceRow>, p: Posting, q: Posting)
    requires Rows(Involved([p, q])) <= balances.Keys
    ensures StoredId(p.accountId) in balances && StoredId(q.accountId) in balances
    ensures
      var start := LockedRows(balances, Involved([p, q]));
      && p.accountId in start && start[p.accountId] == balances[StoredId(p.accountId)]
      && q.accountId in start && start[q.accountId] == balances[StoredId(q.accountId)]
  {
    TwoInvolved(p, q);
    assert StoredId(p.accountId) in Rows(Involved([p, q])) && StoredId(q.accountId) in Rows(Involved([p, q]));
  }

  lemma RanTwoLegs(digest: Digest, db: Db, id: string, currency: string, p: Posting, q: Posting, o: PostOptions,
                   st: LoopState, db': Db)
    requires Ran(digest, db, Journal(id, currency, [p, q]), o, st, db') && p.accountId != q.accountId
    requires p.amount == 0 - q.amount
    ensures StoredId(p.accountId) in db.balances && StoredId(q.accountId) in db.balances
    ensures Transferred(db.balances, db'.balances, p.accountId, q.accountId, q.amount)
    ensures ReceiptOf(Journal(id, currency, [p, q]), st.lines) ==
      ReceiptFor(id, currency, p.accountId, q.accountId, q.amount, db.balances)
    ensures st.lines == [LineOf(digest, id, db.balances[StoredId(p.accountId)], p),
                         LineOf(digest, id, db.balances[StoredId(q.accountId)], q)]
  {
    LockedTwo(db.balances, p, q);
    TwoLegLoop(digest, id, ById(db.accounts, [p, q]), LockedRows(db.balances, Involved([p, q])), p, q);
    TwoRowsWritten(db.balances, p, q, st.running);
    TwoLegReceipt(id, currency, p, q, st.lines, db.balances);
  }

  /** What the debited account's guards promise when it is named as stored. */
  ghost predicate DebitAllowed(db: Db, input: TransferInput, amount: int) {
    AsStored(input.from) && input.from in db.accounts && input.from in db.balances ==>
      Allowed(db.accounts[input.from], Some(input.ownerId), 0 - amount, db.balances[input.from].balance - amount)
  }

  lemma TransferRan(digest: Digest, db: Db, id: string, input: TransferInput, amount: int, st: LoopState, db': Db)
    requires Filed(db.accounts) && input.from != input.to
    requires Ran(digest, db, TransferJournal(id, input, amount), TransferOptions(input), st, db')
    ensures StoredId(input.from) in db.accounts && StoredId(input.to) in db.accounts
    ensures db.accounts[StoredId(input.from)].currency == db.accounts[StoredId(input.to)].currency == CodeOf(input)
    ensures StoredId(input.from) in db.balances && StoredId(input.to) in db.balances
    ensures Transferred(db.balances, db'.balances, input.from, input.to, amount)
    ensures ReceiptOf(TransferJournal(id, input, amount), st.lines) ==
      ReceiptFor(id, CodeOf(input), input.from, input.to, amount, db.balances)
    ensures DebitAllowed(db, input, amount)
  {
    var j, o := TransferJournal(id, input, amount), TransferOptions(input);
    var p, q := j.postings[0], j.postings[1];
    assert j == Journal(id, CodeOf(input), [p, q]);
    CheckAccountsDecides(db.accounts, j.currency, j.postings);
    RanTwoLegs(digest, db, id, CodeOf(input), p, q, o, st, db');
    if AsStored(input.from) { StoredLegAllowed(digest, db, j, o, 0); }
  }

  /** The code of the currency that the request's text finds: that text, for a currency of the ledger. */
  function CodeOf(input: TransferInput): string { if Supported(input.currency) then input.currency else "" }

  function TransferJournal(id: string, input: TransferInput, amount: int): Journal {
    var code := CodeOf(input);
    Journal(id, code, [Posting(input.from, 0 - amount, code), Posting(input.to, amount, code)])
  }

  /** What a transfer is turned into, and each reason why it is turned down, in this order. */
  lemma BuildsExactly(input: TransferInput, id: string)
    ensures BuildTransfer(input, id) ==
      if !(Supported(input.currency) || Inherited(input.currency)) then Err(UnknownCurrency)
      else if !PositiveText(input.amount) then Err(NonPositiveAmount)
      else if input.from == input.to then Err(SameAccount)
      else Ok(TransferJournal(id, input, Value(input.amount)))
  {
    if Sendable(input) {
      TransferMovesAmount(id, input.from, input.to, Value(input.amount), CodeOf(input));
      var amount := BuiltLegs(input, id);
    }
  }

  lemma BuiltLegs(input: TransferInput, id: string) returns (amount: nat)
    requires BuildTransfer(input, id).Ok?
    ensures ParseAmount(input.amount) == Some(amount) && amount > 0 && input.from != input.to
    ensures BuildTransfer(input, id).value == TransferJournal(id, input, amount)
    ensures Sendable(input) && amount == Value(input.amount)
  {
    amount := ParseAmount(input.amount).value;
    assert TransferJournal(id, input, amount).postings[0].currency == CodeOf(input);
  }

  lemma TransferIsPost(digest: Digest, db: Db, id: string, input: TransferInput)
    requires Transfer(digest, db, id, input).1.Success? && !(input.key != "" && input.key in db.keys)
    ensures BuildTransfer(input, id).Ok?
    ensures Post(digest, db, BuildTransfer(input, id).value, TransferOptions(input)).Ok?
    ensures
      var (db', outcome) := Transfer(digest, db, id, input);
      var (after, receipt) := Post(digest, db, BuildTransfer(input, id).value, TransferOptions(input)).value;
      && db'.balances == after.balances && db'.accounts == after.accounts == db.accounts && outcome.receipt == receipt
      && db'.keys == if input.key == "" then db.keys
                     else db.keys[input.key := KeyRow(Fingerprint(digest, input), Some(id), Some(receipt))]
  {
  }

  lemma MovedExactly(before: map<string, BalanceRow>, after: map<string, BalanceRow>, from: string, to: string,
                     amount: int)
    requires Transferred(before, after, from, to, amount) && amount > 0
    ensures Moved(before, after, StoredId(from), StoredId(to), amount) <==> StoredId(from) != StoredId(to)
  {
  }

  /** A transfer that posts, whatever spelling it uses, goes between two accounts of its currency. It moves
      exactly the amount asked for, and touches no third balance, if and only if the two texts stand for two
      rows; for two spellings of one row the later of the two writes remains. The caller is told the new
      balances, and a key is completed with this very answer. A debited account that is named as stored is
      one the caller may debit, and stays at or above its floor. */
  lemma TransferEffect(digest: Digest, db: Db, id: string, input: TransferInput) returns (amount: nat)
    requires Filed(db.accounts)
    requires Transfer(digest, db, id, input).1.Success? && !(input.key != "" && input.key in db.keys)
    ensures Sendable(input) && amount == Value(input.amount) && ParseAmount(input.amount) == Some(amount)
    ensures StoredId(input.from) in db.accounts && StoredId(input.to) in db.accounts
    ensures db.accounts[StoredId(input.from)].currency == db.accounts[StoredId(input.to)].currency == CodeOf(input)
    ensures StoredId(input.from) in db.balances && StoredId(input.to) in db.balances
    ensures DebitAllowed(db, input, amount)
    ensures
      var after := Transfer(digest, db, id, input).0.balances;
      && Transferred(db.balances, after, input.from, input.to, amount)
      && (Moved(db.balances, after, StoredId(input.from), StoredId(input.to), amount) <==>
            StoredId(input.from) != StoredId(input.to))
    ensures
      var (db', outcome) := Transfer(digest, db, id, input);
      && db'.accounts == db.accounts
      && TellsOfTransfer(outcome.receipt, id, input, amount, db.balances)
      && db'.keys == if input.key == "" then db.keys
                     else db.keys[input.key := KeyRow(Fingerprint(digest, input), Some(id), Some(outcome.receipt))]
  {
    TransferIsPost(digest, db, id, input);
    amount := BuiltLegs(input, id);
    var j := TransferJournal(id, input, amount);
    var st := PostRan(digest, db, j, TransferOptions(input));
    var after := Post(digest, db, j, TransferOptions(input)).value.0;
    TransferRan(digest, db, id, input, amount, st, after);
    MovedExactly(db.balances, after.balances, input.from, input.to, amount);
    TransferTold(id, input, amount, db.balances);
  }

  /** The receipt of a transfer: its id, its currency, and two lines whose texts denote the amounts and the new
      balances. */
  predicate TellsOfTransfer(receipt: Receipt, id: string, input: TransferInput, amount: int,
                            before: map<string, BalanceRow>)
    requires StoredId(input.from) in before && StoredId(input.to) in before
  {
    && receipt.id == id && receipt.currency == CodeOf(input) && |receipt.postings| == 2
    && LineTells(receipt.postings[0], input.from, 0 - amount, before[StoredId(input.from)].balance - amount)
    && LineTells(receipt.postings[1], input.to, amount, before[StoredId(input.to)].balance + amount)
  }

  lemma TransferTold(id: string, input: TransferInput, amount: int, before: map<string, BalanceRow>)
    requires StoredId(input.from) in before && StoredId(input.to) in before
    ensures TellsOfTransfer(ReceiptFor(id, CodeOf(input), input.from, input.to, amount, before), id, input, amount,
                            before)
  {
    LegTells(input.from, 0 - amount, before);
    LegTells(input.to, amount, before);
  }

  lemma LegTells(text: string, amount: int, before: map<string, BalanceRow>)
    requires StoredId(text) in before
    ensures LineTells(LegOf(text, amount, before), text, amount, before[StoredId(text)].balance + amount)
  {
    PrintDenotes(Print(amount), amount);
    PrintDenotes(Print(before[StoredId(text)].balance + amount), before[StoredId(text)].balance + amount);
  }

  /** The balance that undoing the first `i + 1` legs of the `m`-th transaction leaves on the account of the last. */
  function UndoneAt(db: Db, m: nat, i: nat): int
    requires m < |db.journals| && i < |Stored(db, m).postings| && Stored(db, m).postings[i].accountId in db.balances
  {
    var ps := Stored(db, m).postings;
    db.balances[ps[i].accountId].balance - Net(ps[..i + 1], ps[i].accountId)
  }

  /** The receipt of a reversal: a line for each leg of the original, in its order, with the opposite amount. */
  ghost predicate TellsOfReversal(receipt: Receipt, id: string, db: Db, m: nat)
    requires m < |db.journals|
  {
    var ps := Stored(db, m).postings;
    && receipt.id == id && receipt.currency == db.journals[m].currency && |receipt.postings| == |ps|
    && forall i | 0 <= i < |ps| ::
      && ps[i].accountId in db.balances
      && LineTells(receipt.postings[i], ps[i].accountId, -ps[i].amount, UndoneAt(db, m, i))
  }

  lemma NegatedPrefix(ps: seq<Posting>, i: nat, a: string)
    requires i < |ps|
    ensures Net(Negated(ps)[..i + 1], a) == -Net(ps[..i + 1], a)
  {
    assert Negated(ps)[..i + 1] == Negated(ps[..i + 1]);
    NegatedNets(ps[..i + 1], a);
  }

  lemma ReversalTold(receipt: Receipt, id: string, db: Db, m: nat)
    requires m < |db.journals| && LegsAsStored(Negated(Stored(db, m).postings))
    requires Tells(receipt, Journal(id, db.journals[m].currency, Negated(Stored(db, m).postings)), db.balances)
    ensures TellsOfReversal(receipt, id, db, m)
  {
    var ps := Stored(db, m).postings;
    var qs := Negated(ps);
    forall i | 0 <= i < |ps|
      ensures ps[i].accountId in db.balances
      ensures LineTells(receipt.postings[i], ps[i].accountId, -ps[i].amount, UndoneAt(db, m, i))
    {
      assert AsStored(qs[i].accountId) && qs[i].accountId == ps[i].accountId;
      NegatedPrefix(ps, i, ps[i].accountId);
    }
  }

  /** Do the accounts of the `m`-th transaction stay at or above their floors while its legs are undone in order? */
  ghost predicate UndoFits(db: Db, m: nat)
    requires m < |db.journals|
  {
    var ps := Stored(db, m).postings;
    forall i | 0 <= i < |ps| ::
      ps[i].accountId in db.accounts && ps[i].accountId in db.balances
        && KeepsFloor(db.accounts[ps[i].accountId], UndoneAt(db, m, i))
  }

  lemma UndoneFits(db: Db, m: nat)
    requires Registered(db) && m < |db.journals|
    requires AllFound(db.accounts, db.journals[m].currency, Negated(Stored(db, m).postings))
    requires LegsAsStored(Negated(Stored(db, m).postings))
    ensures AllLegsFit(db.accounts, db.balances, Negated(Stored(db, m).postings)) <==> UndoFits(db, m)
  {
    var ps := Stored(db, m).postings;
    var qs := Negated(ps);
    forall i | 0 <= i < |ps|
      ensures LegFits(db.accounts, db.balances, qs, i) <==>
        ps[i].accountId in db.accounts && ps[i].accountId in db.balances
          && KeepsFloor(db.accounts[ps[i].accountId], UndoneAt(db, m, i))
    {
      assert AsStored(qs[i].accountId) && qs[i].accountId == ps[i].accountId;
      NegatedPrefix(ps, i, ps[i].accountId);
      assert qs[..i + 1][..i] == qs[..i];
    }
  }

  /** Every answer of a reversal under its exact condition. */
  lemma ReverseAnswers(digest: Digest, db: Db, id: string, target: string)
    requires Kept(db)
    ensures Reverse(digest, db, id, target).1 == Refused(UnknownTransaction) <==>
      forall m | 0 <= m < |db.journals| :: db.journals[m].id != StoredId(target)
    ensures forall m | 0 <= m < |db.journals| && db.journals[m].id == StoredId(target) ::
      var outcome := Reverse(digest, db, id, target).1;
      if exists k | 0 <= k < |db.journals| :: db.journals[k].reverses == Some(db.journals[m].id)
      then outcome == Refused(AlreadyReversed)
      else if UndoFits(db, m) then outcome.Success? else outcome == Refused(InsufficientFunds)
  {
    ReversalAlwaysBuilds(db, target, id);
    FindJournalFinds(db.journals, StoredId(target));
    forall m | 0 <= m < |db.journals| && db.journals[m].id == StoredId(target)
      ensures
        var outcome := Reverse(digest, db, id, target).1;
        && outcome != Refused(UnknownTransaction)
        && if HasReversal(db.journals, db.journals[m].id) then outcome == Refused(AlreadyReversed)
           else if UndoFits(db, m) then outcome.Success? else outcome == Refused(InsufficientFunds)
    {
      ReverseDecides(digest, db, id, target, m);
    }
  }

  lemma ReverseDecides(digest: Digest, db: Db, id: string, target: string, m: nat)
    requires Kept(db) && m < |db.journals| && db.journals[m].id == StoredId(target)
    ensures
      var outcome := Reverse(digest, db, id, target).1;
      if HasReversal(db.journals, db.journals[m].id) then outcome == Refused(AlreadyReversed)
      else if UndoFits(db, m) then outcome.Success? else outcome == Refused(InsufficientFunds)
  {
    ReversalAlwaysBuilds(db, target, id);
    ReversalAdmitted(db, target, id);
    var j := BuildReversal(db, target, id).value;
    CheckAccountsDecides(db.accounts, j.currency, j.postings);
    UndoneFits(db, m);
    FitsAsStored(db, j);
    PostDecides(digest, db, j, ReversalOptions(target));
  }

  /** A reversal that posts undoes the original on every account: all balances move by the opposite fold. */
  lemma ReversalEffect(digest: Digest, db: Db, id: string, target: string, m: nat)
    requires Registered(db) && DistinctJournals(db.journals) && m < |db.journals| && JournalSound(db, m)
    requires StoredId(target) == db.journals[m].id && Reverse(digest, db, id, target).1.Success?
    ensures
      var db' := Reverse(digest, db, id, target).0;
      && db'.accounts == db.accounts && db'.keys == db.keys
      && db'.journals == db.journals + [JournalRow(id, db.journals[m].currency, Some(db.journals[m].id))]
      && !HasReversal(db.journals, db.journals[m].id)
      && db'.balances.Keys == db.balances.Keys
      && forall a | a in db.balances :: db'.balances[a].balance == db.balances[a].balance - LegNet(db, m, a)
  {
    StoredReversalBuilds(db, m, target, id);
    StoredLegsAsStored(db, m);
    PostMovesBalances(digest, db, BuildReversal(db, target, id).value, ReversalOptions(target));
    forall a
      ensures Net(Negated(Stored(db, m).postings), a) == -LegNet(db, m, a)
    {
      NegatedNets(Stored(db, m).postings, a);
    }
  }

  /** And its receipt says so. */
  lemma ReversalReceipt(digest: Digest, db: Db, id: string, target: string, m: nat)
    requires Registered(db) && DistinctJournals(db.journals) && m < |db.journals| && JournalSound(db, m)
    requires StoredId(target) == db.journals[m].id && Reverse(digest, db, id, target).1.Success?
    ensures TellsOfReversal(Reverse(digest, db, id, target).1.receipt, id, db, m)
  {
    StoredReversalBuilds(db, m, target, id);
    StoredLegsAsStored(db, m);
    ReceiptTells(digest, db, BuildReversal(db, target, id).value, ReversalOptions(target));
    ReversalTold(Reverse(digest, db, id, target).1.receipt, id, db, m);
  }

  // ---- services keep the ledger sound ----

  ghost predicate FreshRequest(db: Db, request: Request) {
    match request
    case OpenRequest(id, _, _) => id !in db.accounts && Plain(id)
    case TransferRequest(id, _) => FreshJournal(db, id)
    case ReversalRequest(id, _) => FreshJournal(db, id)
  }

  lemma TransferIsPostable(db: Db, id: string, input: TransferInput)
    requires BuildTransfer(input, id).Ok? && FreshJournal(db, id)
    ensures Postable(db, BuildTransfer(input, id).value, TransferOptions(input))
    ensures BuildTransfer(input, id).value.id == id
    ensures NamesAsStored(TransferRequest(id, input)) <==> LegsAsStored(BuildTransfer(input, id).value.postings)
  {
    var amount := BuiltLegs(input, id);
    TransferMovesAmount(id, input.from, input.to, amount, CodeOf(input));
    var ps := TransferJournal(id, input, amount).postings;
    assert ps[0].accountId == input.from && ps[1].accountId == input.to;
  }

  /** Without a posting a transfer changes nothing; with one it adds at most its key. */
  lemma TransferTables(digest: Digest, db: Db, id: string, input: TransferInput)
    ensures
      var (after, built) := (Transfer(digest, db, id, input).0, BuildTransfer(input, id));
      || after == db
      || (built.Ok? && (input.key == "" || input.key !in db.keys)
          && Post(digest, db, built.value, TransferOptions(input)).Ok?
          && var (posted, receipt) := Post(digest, db, built.value, TransferOptions(input)).value;
             after == if input.key == "" then posted
                      else WithKey(posted, input.key, KeyRow(Fingerprint(digest, input), Some(id), Some(receipt))))
  {
  }

  lemma TransferKeepsKept(digest: Digest, db: Db, id: string, input: TransferInput)
    requires Kept(db) && FreshJournal(db, id)
    ensures Kept(Transfer(digest, db, id, input).0)
  {
    TransferTables(digest, db, id, input);
    if Transfer(digest, db, id, input).0 != db {
      var j, o := BuildTransfer(input, id).value, TransferOptions(input);
      TransferIsPostable(db, id, input);
      PostKeepsKept(digest, db, j, o);
      if input.key != "" { CompletedKeyKeepsKept(digest, db, j, o, input.key, Fingerprint(digest, input)); }
    }
  }

  lemma TransferKeepsSound(digest: Digest, db: Db, id: string, input: TransferInput)
    requires Sound(digest, db) && FreshJournal(db, id) && NamesAsStored(TransferRequest(id, input))
    ensures Sound(digest, Transfer(digest, db, id, input).0)
  {
    TransferTables(digest, db, id, input);
    if Transfer(digest, db, id, input).0 != db {
      var j, o := BuildTransfer(input, id).value, TransferOptions(input);
      TransferIsPostable(db, id, input);
      PostKeepsSound(digest, db, j, o);
      TransferKeepsKept(digest, db, id, input);
      SameLog(Post(digest, db, j, o).value.0, Transfer(digest, db, id, input).0);
    }
  }

  lemma CompletedKeyKeepsKept(digest: Digest, db: Db, j: Journal, o: PostOptions, key: string, fingerprint: string)
    requires Announced(db) && Keyed(db) && Attributed(db) && key !in db.keys
    requires Postable(db, j, o) && o.reverses.None? && Post(digest, db, j, o).Ok?
    requires Kept(Post(digest, db, j, o).value.0)
    ensures
      var (after, receipt) := Post(digest, db, j, o).value;
      Kept(WithKey(after, key, KeyRow(fingerprint, Some(j.id), Some(receipt))))
  {
    var (after, receipt) := Post(digest, db, j, o).value;
    var row := KeyRow(fingerprint, Some(j.id), Some(receipt));
    var rows := PostAppends(digest, db, j, o);
    KeyJoins(db, after, key, row);
    KeyedKeepsKept(after, key, row);
  }

  lemma KeyedKeepsKept(db: Db, key: string, row: KeyRow)
    requires Kept(db) && Keyed(WithKey(db, key, row))
    ensures Kept(WithKey(db, key, row))
  {
    SameLog(db, WithKey(db, key, row));
  }

  /** Soundness of the log depends on the journals and postings alone, and survives new accounts. */
  lemma SameLog(db: Db, db': Db)
    requires db'.journals == db.journals && db'.postings == db.postings && db'.outbox == db.outbox
    requires forall a | a in db.accounts :: a in db'.accounts && db'.accounts[a] == db.accounts[a]
    ensures JournalsSound(db) ==> JournalsSound(db')
    ensures Emitted(db) ==> Emitted(db')
    ensures Attributed(db) ==> Attributed(db')
  {
    if JournalsSound(db) {
      forall k | 0 <= k < |db'.journals| ensures JournalSound(db', k) {
        assert JournalSound(db, k);
        if db'.journals[k].reverses.Some? {
          var m :| 0 <= m < k && Compensates(db, k, m);
          assert Compensates(db', k, m);
        }
      }
    }
    if Attributed(db) {
      forall i | 0 <= i < |db'.postings| ensures LegAttributed(db', db'.postings[i]) {
        assert LegAttributed(db, db.postings[i]);
      }
    }
  }

  /** A new transaction's key joins the completed keys. */
  lemma KeyJoins(db: Db, after: Db, key: string, row: KeyRow)
    requires Keyed(db) && Keyed(after) && DistinctJournals(after.journals)
    requires key !in after.keys && after.keys == db.keys
    requires |db.outbox| == |db.journals| < |after.journals| == |after.outbox| && db.journals <= after.journals
    requires row ==
      KeyRow(row.fingerprint, Some(after.journals[|db.journals|].id), Some(after.outbox[|db.journals|].payload))
    requires after.journals[|db.journals|].reverses.None?
    ensures Keyed(WithKey(after, key, row))
  {
    KeyedByNew(db, after);
    KeysStayServed(after, key, row, |db.journals|);
  }

  /** No earlier key names the transaction that was added last. */
  lemma KeyedByNew(db: Db, after: Db)
    requires Keyed(db) && DistinctJournals(after.journals) && after.keys == db.keys
    requires |db.journals| < |after.journals| && db.journals <= after.journals
    ensures forall k | k in after.keys :: after.keys[k].transactionId != Some(after.journals[|db.journals|].id)
  {
    forall k | k in after.keys ensures after.keys[k].transactionId != Some(after.journals[|db.journals|].id) {
      var m: nat :| KeyServedBy(db, k, m);
      assert after.journals[m].id == db.journals[m].id;
    }
  }

  lemma KeysStayServed(db: Db, key: string, row: KeyRow, at: nat)
    requires Keyed(db) && key !in db.keys && KeyServedBy(WithKey(db, key, row), key, at)
    requires forall k | k in db.keys :: db.keys[k].transactionId != row.transactionId
    ensures Keyed(WithKey(db, key, row))
  {
    var db' := WithKey(db, key, row);
    forall k | k in db'.keys ensures exists m: nat :: KeyServedBy(db', k, m) {
      if k != key {
        var m: nat :| KeyServedBy(db, k, m);
        assert KeyServedBy(db', k, m);
      }
    }
  }

  lemma ReverseIsPost(digest: Digest, db: Db, id: string, target: string)
    ensures
      var built, after := BuildReversal(db, target, id), Reverse(digest, db, id, target).0;
      after == db || (built.Ok? && Post(digest, db, built.value, ReversalOptions(target)).Ok?
                      && after == Post(digest, db, built.value, ReversalOptions(target)).value.0)
  {
  }

  lemma ReverseKeepsKept(digest: Digest, db: Db, id: string, target: string)
    requires Kept(db) && FreshJournal(db, id)
    ensures Kept(Reverse(digest, db, id, target).0)
  {
    ReverseIsPost(digest, db, id, target);
    if Reverse(digest, db, id, target).0 != db {
      ReversalAlwaysBuilds(db, target, id);
      PostKeepsKept(digest, db, BuildReversal(db, target, id).value, ReversalOptions(target));
    }
  }

  lemma ReverseKeepsSound(digest: Digest, db: Db, id: string, target: string)
    requires Sound(digest, db) && FreshJournal(db, id)
    ensures Sound(digest, Reverse(digest, db, id, target).0)
  {
    ReverseIsPost(digest, db, id, target);
    if Reverse(digest, db, id, target).0 != db {
      ReversalAlwaysBuilds(db, target, id);
      PostKeepsSound(digest, db, BuildReversal(db, target, id).value, ReversalOptions(target));
    }
  }

  /** A fresh account joins with an empty log and a zero balance. */
  lemma OpenKeepsChains(digest: Digest, db: Db, id: string)
    requires Registered(db) && Chained(digest, db.postings, db.balances) && id !in db.accounts
    ensures Chained(digest, db.postings, db.balances[id := BalanceRow(0, None)])
  {
    var balances := db.balances[id := BalanceRow(0, None)];
    FilterNone(db.postings, OfAccount(id));
    forall a | a in balances ensures Materialised(digest, AccountLog(db.postings, a), balances[a]) {
      if a != id { assert Materialised(digest, AccountLog(db.postings, a), db.balances[a]); }
    }
  }

  lemma OpenKeepsKept(db: Db, id: string, currency: string, ownerId: string)
    requires Kept(db) && id !in db.accounts && Plain(id)
    ensures Kept(Open(db, id, currency, ownerId).0)
  {
    var db' := Open(db, id, currency, ownerId).0;
    if Supported(currency) {
      SameLog(db, db');
      PostKeepsKeys(db, db');
      OpenKeepsRegistered(db, id, currency, ownerId);
    }
  }

  lemma OpenKeepsRegistered(db: Db, id: string, currency: string, ownerId: string)
    requires Registered(db) && id !in db.accounts && Plain(id) && Supported(currency)
    ensures Registered(Open(db, id, currency, ownerId).0)
  {
  }

  lemma OpenKeepsFloors(db: Db, id: string, currency: string, ownerId: string)
    requires Registered(db) && FloorsKept(db) && id !in db.accounts
    ensures FloorsKept(Open(db, id, currency, ownerId).0)
  {
  }

  lemma OpenKeepsSound(digest: Digest, db: Db, id: string, currency: string, ownerId: string)
    requires Sound(digest, db) && id !in db.accounts && Plain(id)
    ensures Sound(digest, Open(db, id, currency, ownerId).0)
  {
    OpenKeepsKept(db, id, currency, ownerId);
    OpenKeepsFloors(db, id, currency, ownerId);
    OpenKeepsBalances(digest, db, id, currency, ownerId);
    OpenKeepsEvents(db, id, currency, ownerId);
  }

  lemma OpenKeepsEvents(db: Db, id: string, currency: string, ownerId: string)
    requires Emitted(db)
    ensures Emitted(Open(db, id, currency, ownerId).0)
  {
  }

  lemma OpenKeepsBalances(digest: Digest, db: Db, id: string, currency: string, ownerId: string)
    requires Registered(db) && Chained(digest, db.postings, db.balances) && id !in db.accounts
    ensures
      var db' := Open(db, id, currency, ownerId).0;
      Chained(digest, db'.postings, db'.balances)
  {
    if Supported(currency) { OpenKeepsChains(digest, db, id); }
  }

  /** Every operation, in any spelling. */
  lemma ServeKeepsKept(digest: Digest, db: Db, request: Request)
    requires Kept(db) && FreshRequest(db, request)
    ensures Kept(Serve(digest, db, request).0)
  {
    match request
    case TransferRequest(id, input) => TransferKeepsKept(digest, db, id, input);
    case ReversalRequest(id, target) => ReverseKeepsKept(digest, db, id, target);
    case OpenRequest(id, currency, ownerId) => OpenKeepsKept(db, id, currency, ownerId);
  }

  lemma ServeKeepsSound(digest: Digest, db: Db, request: Request)
    requires Sound(digest, db) && FreshRequest(db, request) && NamesAsStored(request)
    ensures Sound(digest, Serve(digest, db, request).0)
  {
    match request
    case TransferRequest(id, input) => TransferKeepsSound(digest, db, id, input);
    case ReversalRequest(id, target) => ReverseKeepsSound(digest, db, id, target);
    case OpenRequest(id, currency, ownerId) => OpenKeepsSound(digest, db, id, currency, ownerId);
  }
}
