/** What the ledger does with requests that spell an id in another letter case than the tables do. The API
    accepts them (src/ledger/interface/transfer.dto.ts), and nothing on the way normalises them. */
module Spelling {
  import opened Wrappers
  import opened Text
  import opened HashChain
  import opened Journals
  import opened Ledger
  import opened Naming
  import opened Soundness
  import opened Guarantees

  // ---- when a transfer is posted ----

  /** Does the account that `text` finds exist in the currency? */
  predicate Found(db: Db, text: string, currency: string) {
    StoredId(text) in db.accounts && StoredId(text) in db.balances && db.accounts[StoredId(text)].currency == currency
  }

  /** The floor as the poster finds it. */
  lemma FloorFound(accounts: map<string, Account>, ps: seq<Posting>, i: nat)
    requires Filed(accounts) && i < |ps| && StoredId(ps[i].accountId) in accounts
    ensures FloorOf(ById(accounts, ps), ps[i].accountId) ==
      if AsStored(ps[i].accountId) then accounts[StoredId(ps[i].accountId)].floor else None
  {
    GuardsFound(accounts, ps, i);
  }

  lemma TransferAdmitted(db: Db, id: string, input: TransferInput, amount: nat)
    requires Filed(db.accounts) && db.balances.Keys == db.accounts.Keys && amount > 0
    ensures Admit(db.accounts, TransferJournal(id, input, amount), Some(input.ownerId)).None? <==>
      && Found(db, input.from, CodeOf(input)) && Found(db, input.to, CodeOf(input))
      && (AsStored(input.from) ==>
            db.accounts[input.from].system || db.accounts[input.from].owner == Some(input.ownerId))
  {
    var j := TransferJournal(id, input, amount);
    var ps := j.postings;
    assert ps[0].accountId == input.from && ps[1].accountId == input.to;
    CheckAccountsDecides(db.accounts, j.currency, ps);
    if AllFound(db.accounts, j.currency, ps) {
      GuardsFound(db.accounts, ps, 0);
      assert OwnsAllDebits(ById(db.accounts, ps), input.ownerId, ps) <==>
        !ForeignDebit(ById(db.accounts, ps), input.ownerId, ps[0]);
    }
  }

  lemma TransferLoopDecides(digest: Digest, db: Db, id: string, input: TransferInput, amount: nat)
    requires Filed(db.accounts) && input.from != input.to
    requires Found(db, input.from, CodeOf(input)) && Found(db, input.to, CodeOf(input))
    ensures Rows(Involved(TransferJournal(id, input, amount).postings)) <= db.balances.Keys
    ensures Loop(digest, db, TransferJournal(id, input, amount)).Ok? <==>
      && (AsStored(input.from) ==>
            IsSufficient(db.balances[input.from].balance, 0 - amount, db.accounts[input.from].floor))
      && (AsStored(input.to) ==> IsSufficient(db.balances[input.to].balance, amount, db.accounts[input.to].floor))
  {
    var ps := TransferJournal(id, input, amount).postings;
    var p, q := ps[0], ps[1];
    TwoInvolved(p, q);
    LockedTwo(db.balances, p, q);
    FloorFound(db.accounts, ps, 0);
    FloorFound(db.accounts, ps, 1);
    TwoLegLoop(digest, id, ById(db.accounts, ps), LockedRows(db.balances, Involved(ps)), p, q);
  }

  /** The errors that need no account to be looked at, in their order, on any ledger at all. */
  lemma TransferValidates(digest: Digest, db: Db, id: string, input: TransferInput)
    ensures
      var outcome := Transfer(digest, db, id, input).1;
      var listed := Supported(input.currency) || Inherited(input.currency);
      && (outcome == Refused(UnknownCurrency) <==> !listed)
      && (outcome == Refused(NonPositiveAmount) <==> listed && !PositiveText(input.amount))
      && (outcome == Refused(SameAccount) <==> listed && PositiveText(input.amount) && input.from == input.to)
  {
    BuildsExactly(input, id);
    if Sendable(input) {
      PostFaults(digest, db, TransferJournal(id, input, Value(input.amount)), TransferOptions(input));
    }
  }

  lemma PostFaults(digest: Digest, db: Db, j: Journal, o: PostOptions)
    ensures Post(digest, db, j, o).Err? ==>
      Post(digest, db, j, o).error !in {UnknownCurrency, NonPositiveAmount, SameAccount}
  {
    CheckAccountsFaults(db.accounts, j.currency, j.postings);
    LoopFaults(digest, j.id, ById(db.accounts, j.postings), LockedRows(db.balances, Involved(j.postings)),
               j.postings);
  }

  lemma {:induction false} LoopFaults(digest: Digest, id: string, byId: map<string, Account>,
                                      start: map<string, BalanceRow>, ps: seq<Posting>)
    ensures
      var r := RunLoop(digest, id, byId, start, ps);
      r.Err? ==> r.error in {UnknownAccount, InsufficientFunds}
  {
    if ps != [] { LoopFaults(digest, id, byId, start, ps[..|ps| - 1]); }
  }

  /** May the caller debit the account, as far as it is named as stored? */
  predicate SenderMay(db: Db, input: TransferInput) {
    AsStored(input.from) && input.from in db.accounts ==>
      db.accounts[input.from].system || db.accounts[input.from].owner == Some(input.ownerId)
  }

  /** Do both accounts stay at or above their floors, as far as they are named as stored? */
  predicate FloorsAllow(db: Db, input: TransferInput)
    requires Digits(input.amount)
  {
    var amount := Value(input.amount);
    && (AsStored(input.from) && input.from in db.accounts && input.from in db.balances ==>
          KeepsFloor(db.accounts[input.from], db.balances[input.from].balance - amount))
    && (AsStored(input.to) && input.to in db.accounts && input.to in db.balances ==>
          KeepsFloor(db.accounts[input.to], db.balances[input.to].balance + amount))
  }

  predicate BothFound(db: Db, input: TransferInput) {
    Found(db, input.from, CodeOf(input)) && Found(db, input.to, CodeOf(input))
  }

  /** Is this the refusal for the first of the two accounts that is unknown or of another currency? */
  predicate RefusesAccount(accounts: map<string, Account>, input: TransferInput, failure: Failure) {
    var from, to, code := StoredId(input.from), StoredId(input.to), CodeOf(input);
    if from !in accounts then failure == UnknownAccount
    else if accounts[from].currency != code then failure == AccountCurrencyMismatch
    else if to !in accounts then failure == UnknownAccount
    else accounts[to].currency != code && failure == AccountCurrencyMismatch
  }

  lemma TransferDenied(db: Db, id: string, input: TransferInput, amount: nat)
    requires Filed(db.accounts) && db.balances.Keys == db.accounts.Keys && amount > 0
    ensures
      var denied := Admit(db.accounts, TransferJournal(id, input, amount), Some(input.ownerId));
      && (BothFound(db, input) ==> denied == if SenderMay(db, input) then None else Some(NotAccountOwner))
      && (!BothFound(db, input) ==> denied.Some? && RefusesAccount(db.accounts, input, denied.value))
  {
    var j := TransferJournal(id, input, amount);
    var ps := j.postings;
    assert ps[..1] == [ps[0]] && ps[..0] == [] && ps[..2] == ps;
    assert ps[0].accountId == input.from && ps[1].accountId == input.to;
    AdmitDecides(db.accounts, j, Some(input.ownerId));
    if BothFound(db, input) {
      TransferAdmitted(db, id, input, amount);
    } else if !Found(db, input.from, CodeOf(input)) {
      assert FirstBad(db.accounts, j.currency, ps, 0);
    } else {
      assert FirstBad(db.accounts, j.currency, ps, 1);
    }
  }

  /** Every answer of a transfer that passes validation under a free key. */
  lemma TransferAnswers(digest: Digest, db: Db, id: string, input: TransferInput)
    requires Filed(db.accounts) && db.balances.Keys == db.accounts.Keys && Sendable(input) && KeyFree(db, input)
    ensures
      var outcome := Transfer(digest, db, id, input).1;
      if !BothFound(db, input) then outcome.Refused? && RefusesAccount(db.accounts, input, outcome.failure)
      else if !SenderMay(db, input) then outcome == Refused(NotAccountOwner)
      else if !FloorsAllow(db, input) then outcome == Refused(InsufficientFunds)
      else outcome.Success?
  {
    var amount := Value(input.amount);
    AnswerOfPost(digest, db, id, input);
    TransferDenied(db, id, input, amount);
    if BothFound(db, input) {
      TransferLoopDecides(digest, db, id, input, amount);
      TransferLoopFails(digest, db, id, input, amount);
    }
  }

  lemma AnswerOfPost(digest: Digest, db: Db, id: string, input: TransferInput)
    requires Sendable(input) && KeyFree(db, input)
    ensures
      var j, outcome := TransferJournal(id, input, Value(input.amount)), Transfer(digest, db, id, input).1;
      var denied, loop := Admit(db.accounts, j, Some(input.ownerId)), Loop(digest, db, j);
      && (denied.Some? ==> outcome == Refused(denied.value))
      && (denied.None? && Rows(Involved(j.postings)) <= db.balances.Keys ==>
            (loop.Ok? <==> outcome.Success?) && (loop.Err? ==> outcome == Refused(loop.error)))
  {
    BuildsExactly(input, id);
  }

  lemma TransferLoopFails(digest: Digest, db: Db, id: string, input: TransferInput, amount: nat)
    requires BothFound(db, input)
    ensures
      var loop := Loop(digest, db, TransferJournal(id, input, amount));
      loop.Err? ==> loop.error == InsufficientFunds
  {
    var j := TransferJournal(id, input, amount);
    TwoInvolved(j.postings[0], j.postings[1]);
    LockedTwo(db.balances, j.postings[0], j.postings[1]);
    LoopRefinesFold(digest, j.id, ById(db.accounts, j.postings), LockedRows(db.balances, Involved(j.postings)),
                    j.postings);
  }

  /** A transfer under a free key is posted if and only if it passes validation, both accounts are found in its
      currency, and those of the two that are named as stored allow it. What is named otherwise is not asked. */
  lemma TransferDecides(digest: Digest, db: Db, id: string, input: TransferInput)
    requires Filed(db.accounts) && db.balances.Keys == db.accounts.Keys && KeyFree(db, input)
    ensures Transfer(digest, db, id, input).1.Success? <==>
      Sendable(input) && BothFound(db, input) && SenderMay(db, input) && FloorsAllow(db, input)
  {
    if Sendable(input) { TransferAnswers(digest, db, id, input); } else { BuildsExactly(input, id); }
  }

  /** Under a key that is taken, a transfer that passes validation is answered from the key's row alone. */
  lemma TakenKeyAnswers(digest: Digest, db: Db, id: string, input: TransferInput)
    requires Kept(db) && Sendable(input) && !KeyFree(db, input)
    ensures
      var (after, outcome), row := Transfer(digest, db, id, input), db.keys[input.key];
      && after == db && row.response.Some?
      && outcome == if row.fingerprint == digest(Canonical(input)) then Success(row.response.value)
                    else Refused(IdempotencyConflict)
  {
    BuildsExactly(input, id);
    var m: nat :| KeyServedBy(db, input.key, m);
  }

  /** On a sound ledger a transfer between accounts named as stored, by a caller who may make it, lacks funds if and
      only if the debit alone would break the debited account's floor. */
  lemma TransferRefusedOnlyForDebit(digest: Digest, db: Db, id: string, input: TransferInput)
    requires Sound(digest, db) && Sendable(input) && KeyFree(db, input) && AsStored(input.from) && AsStored(input.to)
    requires BothFound(db, input) && SenderMay(db, input)
    ensures Transfer(digest, db, id, input).1 == Refused(InsufficientFunds) <==>
      !KeepsFloor(db.accounts[input.from], db.balances[input.from].balance - Value(input.amount))
  {
    RegisteredIsFiled(db);
    BalanceAboveFloor(digest, db, input.to);
    DebitDecides(digest, db, id, input);
  }

  lemma DebitDecides(digest: Digest, db: Db, id: string, input: TransferInput)
    requires Filed(db.accounts) && db.balances.Keys == db.accounts.Keys && Sendable(input) && KeyFree(db, input)
    requires BothFound(db, input) && SenderMay(db, input) && AsStored(input.from) && AsStored(input.to)
    requires KeepsFloor(db.accounts[input.to], db.balances[input.to].balance)
    ensures Transfer(digest, db, id, input).1 == Refused(InsufficientFunds) <==>
      !KeepsFloor(db.accounts[input.from], db.balances[input.from].balance - Value(input.amount))
  {
    FloorsOfDebit(db, input);
    TransferAnswers(digest, db, id, input);
  }

  lemma FloorsOfDebit(db: Db, input: TransferInput)
    requires BothFound(db, input) && AsStored(input.from) && AsStored(input.to) && Digits(input.amount)
    requires KeepsFloor(db.accounts[input.to], db.balances[input.to].balance)
    ensures FloorsAllow(db, input) <==>
      KeepsFloor(db.accounts[input.from], db.balances[input.from].balance - Value(input.amount))
  {
  }

  // ---- two spellings of one account ----

  ghost predicate Reconciled(db: Db) {
    forall a | a in db.balances :: db.balances[a].balance == Sum(AccountLog(db.postings, a))
  }

  lemma SumOfTwo(log: seq<PostingRow>, r: PostingRow, q: PostingRow, a: string)
    ensures Sum(AccountLog(log + [r, q], a)) ==
      Sum(AccountLog(log, a)) + (if r.accountId == a then r.amount else 0) + if q.accountId == a then q.amount else 0
  {
    assert log + [r, q] == log + [r] + [q];
    SumOfOne(log, r, a);
    SumOfOne(log + [r], q, a);
  }

  lemma SumOfOne(log: seq<PostingRow>, r: PostingRow, a: string)
    ensures Sum(AccountLog(log + [r], a)) == Sum(AccountLog(log, a)) + if r.accountId == a then r.amount else 0
  {
    AccountLogGrows(log, r, a);
    var before := AccountLog(log, a);
    assert (before + [r])[..|before|] == before;
  }

  lemma TransferRows(id: string, input: TransferInput, amount: int, lines: seq<Line>) returns (r: PostingRow,
                     q: PostingRow)
    requires |lines| == 2
    ensures RowsOf(id, TransferJournal(id, input, amount).postings, lines) == [r, q]
    ensures r.accountId == StoredId(input.from) && r.amount == -amount && q.accountId == StoredId(input.to)
    ensures q.amount == amount
  {
    var ps := TransferJournal(id, input, amount).postings;
    r, q := RowOf(id, ps[0], lines[0]), RowOf(id, ps[1], lines[1]);
  }

  lemma TransferWrote(digest: Digest, db: Db, id: string, input: TransferInput) returns (lines: seq<Line>)
    requires Transfer(digest, db, id, input).1.Success? && !(input.key != "" && input.key in db.keys)
    ensures PositiveText(input.amount) && |lines| == 2
    ensures Transfer(digest, db, id, input).0.postings ==
      db.postings + RowsOf(id, TransferJournal(id, input, Value(input.amount)).postings, lines)
  {
    var amount := BuiltLegs(input, id);
    lines := Loop(digest, db, TransferJournal(id, input, amount)).value.lines;
  }

  /** A transfer keeps stored balances in step with the log if and only if its two texts stand for two accounts. */
  lemma ReconciledExactly(digest: Digest, db: Db, id: string, input: TransferInput)
    requires Filed(db.accounts) && Reconciled(db)
    requires Transfer(digest, db, id, input).1.Success? && !(input.key != "" && input.key in db.keys)
    ensures Reconciled(Transfer(digest, db, id, input).0) <==> StoredId(input.from) != StoredId(input.to)
  {
    var db' := Transfer(digest, db, id, input).0;
    var amount := TransferEffect(digest, db, id, input);
    var lines := TransferWrote(digest, db, id, input);
    var r, q := TransferRows(id, input, amount, lines);
    forall a
      ensures Sum(AccountLog(db'.postings, a)) ==
        Sum(AccountLog(db.postings, a)) + Change(r.accountId, q.accountId, amount, a)
    {
      SumOfTwo(db.postings, r, q, a);
    }
    BalancesInStep(db, db', StoredId(input.from), StoredId(input.to), input, amount);
  }

  function Change(from: string, to: string, amount: int, a: string): int {
    (if from == a then -amount else 0) + if to == a then amount else 0
  }

  lemma BalancesInStep(db: Db, db': Db, from: string, to: string, input: TransferInput, amount: nat)
    requires Reconciled(db) && amount > 0 && from == StoredId(input.from) && to == StoredId(input.to)
    requires Transferred(db.balances, db'.balances, input.from, input.to, amount) && from in db.balances
    requires to in db.balances
    requires forall a ::
      Sum(AccountLog(db'.postings, a)) == Sum(AccountLog(db.postings, a)) + Change(from, to, amount, a)
    ensures Reconciled(db') <==> from != to
  {
    if from == to { assert db'.balances[from].balance != Sum(AccountLog(db'.postings, from)); }
  }

  // ---- the audit of a posting ----

  lemma StoredNoBar(text: string)
    requires NoBar(text)
    ensures NoBar(StoredId(text))
  {
    forall i | 0 <= i < |text| ensures StoredId(text)[i] != '|' { assert text[i] in text; }
  }

  lemma HeadIsStored(digest: Digest, log: seq<PostingRow>, row: BalanceRow)
    requires HexDigest(digest) && Materialised(digest, log, row)
    ensures StoredHash(row.chainHash)
  {
    if log != [] { assert LinkHolds(digest, Entries(log), |log| - 1); }
  }

  /** What was hashed when the leg was posted, and what the audit hashes. */
  function PostedContent(id: string, p: Posting, row: BalanceRow): Content {
    Content(id, p.accountId, p.amount, row.balance + p.amount)
  }

  function AuditedContent(id: string, p: Posting, row: BalanceRow): Content {
    PostedContent(id, p, row).(accountId := StoredId(p.accountId))
  }

  /** Their pre-images are different and have one digest. */
  ghost predicate SpellingsCollide(digest: Digest, id: string, p: Posting, row: BalanceRow) {
    var posted, audited := PreImage(row.chainHash, PostedContent(id, p, row)), PreImage(row.chainHash,
                                    AuditedContent(id, p, row));
    posted != audited && digest(posted) == digest(audited)
  }

  /** A leg posted under `text` onto a genuine log leaves a chain that verifies if and only if `text` is the stored
      id, or the two spellings collide. */
  lemma LegVerifiesExactly(digest: Digest, log: seq<PostingRow>, row: BalanceRow, id: string, p: Posting)
    requires HexDigest(digest) && Materialised(digest, log, row) && NoBar(id) && NoBar(p.accountId)
    ensures
      || (ValidChain(digest, Entries(log + [RowOf(id, p, LineOf(digest, id, row, p))])) <==> AsStored(p.accountId))
      || SpellingsCollide(digest, id, p, row)
  {
    var r, n := RowOf(id, p, LineOf(digest, id, row, p)), |log|;
    var es := Entries(log + [r]);
    StoredNoBar(p.accountId);
    HeadIsStored(digest, log, row);
    LinkVerifiesExactly(digest, row.chainHash, PostedContent(id, p, row));
    ChainAppends(digest, log, r);
  }

  /** The leg of a transfer that names its account by `text`. */
  function LegBy(input: TransferInput, amount: int, text: string): Posting {
    Posting(text, if text == input.from then 0 - amount else amount, CodeOf(input))
  }

  lemma TransferLines(digest: Digest, db: Db, id: string, input: TransferInput) returns (amount: nat, lines: seq<Line>)
    requires Transfer(digest, db, id, input).1.Success? && !(input.key != "" && input.key in db.keys)
    ensures Sendable(input) && amount == Value(input.amount) && input.from != input.to
    ensures StoredId(input.from) in db.balances && StoredId(input.to) in db.balances
    ensures lines == [LineOf(digest, id, db.balances[StoredId(input.from)], LegBy(input, amount, input.from)),
                      LineOf(digest, id, db.balances[StoredId(input.to)], LegBy(input, amount, input.to))]
    ensures Transfer(digest, db, id, input).0.postings == db.postings +
      RowsOf(id, [LegBy(input, amount, input.from), LegBy(input, amount, input.to)], lines)
  {
    TransferPostings(digest, db, id, input);
    amount := BuiltLegs(input, id);
    var j, o := TransferJournal(id, input, amount), TransferOptions(input);
    var st := PostRan(digest, db, j, o);
    var p, q := LegBy(input, amount, input.from), LegBy(input, amount, input.to);
    assert j == Journal(id, CodeOf(input), [p, q]);
    RanTwoLegs(digest, db, id, CodeOf(input), p, q, o, st, Post(digest, db, j, o).value.0);
    lines := st.lines;
  }

  lemma TransferPostings(digest: Digest, db: Db, id: string, input: TransferInput)
    requires Transfer(digest, db, id, input).1.Success? && !(input.key != "" && input.key in db.keys)
    ensures BuildTransfer(input, id).Ok?
    ensures Post(digest, db, BuildTransfer(input, id).value, TransferOptions(input)).Ok?
    ensures Transfer(digest, db, id, input).0.postings ==
      Post(digest, db, BuildTransfer(input, id).value, TransferOptions(input)).value.0.postings
  {
  }

  lemma TwoRowsOnAccount(log: seq<PostingRow>, r: PostingRow, q: PostingRow, a: string)
    requires (r.accountId == a) != (q.accountId == a)
    ensures AccountLog(log + [r, q], a) == AccountLog(log, a) + [if r.accountId == a then r else q]
  {
    assert log + [r, q] == log + [r] + [q];
    AccountLogGrows(log, r, a);
    AccountLogGrows(log + [r], q, a);
  }

  lemma OneOfTwo(log: seq<PostingRow>, id: string, p: Posting, q: Posting, l: Line, m: Line, a: string)
    requires (StoredId(p.accountId) == a) != (StoredId(q.accountId) == a)
    ensures AccountLog(log + RowsOf(id, [p, q], [l, m]), a) ==
      AccountLog(log, a) + [if StoredId(p.accountId) == a then RowOf(id, p, l) else RowOf(id, q, m)]
  {
    assert RowsOf(id, [p, q], [l, m]) == [RowOf(id, p, l), RowOf(id, q, m)];
    TwoRowsOnAccount(log, RowOf(id, p, l), RowOf(id, q, m), a);
  }

  /** A transfer between two accounts adds one row to the log of each. */
  lemma TransferLogs(digest: Digest, db: Db, id: string, input: TransferInput, text: string) returns (p: Posting)
    requires Transfer(digest, db, id, input).1.Success? && !(input.key != "" && input.key in db.keys)
    requires StoredId(input.from) != StoredId(input.to) && text in {input.from, input.to}
    ensures PositiveText(input.amount) && StoredId(text) in db.balances
    ensures p == LegBy(input, Value(input.amount), text)
    ensures AccountLog(Transfer(digest, db, id, input).0.postings, StoredId(text)) ==
      AccountLog(db.postings, StoredId(text)) + [RowOf(id, p, LineOf(digest, id, db.balances[StoredId(text)], p))]
  {
    var amount, lines := TransferLines(digest, db, id, input);
    p := LegBy(input, amount, text);
    OneOfTwo(db.postings, id, LegBy(input, amount, input.from), LegBy(input, amount, input.to), lines[0], lines[1],
             StoredId(text));
  }

  /** A transfer between two accounts, named in whatever spelling, leaves on each of them a chain that verifies if and
      only if that account was named as stored, or the two spellings collide. */
  lemma TransferVerifiesExactly(digest: Digest, db: Db, id: string, input: TransferInput, text: string)
    requires HexDigest(digest) && Chained(digest, db.postings, db.balances) && NoBar(id) && NoBar(text)
    requires Transfer(digest, db, id, input).1.Success? && !(input.key != "" && input.key in db.keys)
    requires StoredId(input.from) != StoredId(input.to) && text in {input.from, input.to}
    ensures PositiveText(input.amount) && StoredId(text) in db.balances
    ensures
      var log := AccountLog(Transfer(digest, db, id, input).0.postings, StoredId(text));
      || (ValidChain(digest, Entries(log)) <==> AsStored(text))
      || SpellingsCollide(digest, id, LegBy(input, Value(input.amount), text), db.balances[StoredId(text)])
  {
    var p := TransferLogs(digest, db, id, input, text);
    var a := StoredId(text);
    assert Materialised(digest, AccountLog(db.postings, a), db.balances[a]);
    LegVerifiesExactly(digest, AccountLog(db.postings, a), db.balances[a], id, p);
  }

  // ---- the guards of the service ----

  /** A transfer from `text` on a registered ledger with these accounts that is posted. */
  ghost predicate Debits(digest: Digest, accounts: map<string, Account>, text: string, db: Db, id: string,
                         input: TransferInput, amount: nat) {
    && db.accounts == accounts && Registered(db) && input.from == text && input.key == ""
    && Transfer(digest, db, id, input).1.Success? && Digits(input.amount) && Value(input.amount) == amount
  }

  /** Does every such transfer, on every ledger and by every caller, respect owner and floor of the account it
      debits? */
  ghost predicate TransferGuards(digest: Digest, accounts: map<string, Account>, text: string)
    requires StoredId(text) in accounts
  {
    forall db, id, input, amount: nat | Debits(digest, accounts, text, db, id, input, amount) ::
      Allowed(accounts[StoredId(text)], Some(input.ownerId), 0 - amount, db.balances[StoredId(text)].balance - amount)
  }

  /** The account at its floor, all others at zero. */
  function Balances(accounts: map<string, Account>, a: string): map<string, BalanceRow> {
    map b | b in accounts :: BalanceRow(if b == a && accounts[b].floor.Some? then accounts[b].floor.value else 0, None)
  }

  function SomebodyElse(account: Account): string {
    if account.owner.Some? then account.owner.value + "x" else ""
  }

  lemma SelfTransferRequest(digest: Digest, accounts: map<string, Account>, text: string, input: TransferInput)
    requires (forall a | a in accounts :: AccountSound(a, accounts[a])) && StoredId(text) in accounts && !AsStored(text)
    requires input == OneToItself(text, accounts[StoredId(text)])
    ensures Debits(digest, accounts, text, AllAtRest(accounts, StoredId(text)), "", input, 1)
  {
    var db := AllAtRest(accounts, StoredId(text));
    assert "1"[..0] == [];
    assert AccountSound(StoredId(text), accounts[StoredId(text)]);
    StoredIsAsStored(text);
    assert Registered(db);
    RegisteredIsFiled(db);
    TransferDecides(digest, db, "", input);
  }

  function AllAtRest(accounts: map<string, Account>, a: string): Db {
    Db(accounts, Balances(accounts, a), [], [], [], map[])
  }

  /** One unit from an account to itself, by somebody else, the debit under another spelling. */
  function OneToItself(text: string, account: Account): TransferInput {
    TransferInput(text, StoredId(text), "1", account.currency, SomebodyElse(account), "")
  }

  lemma SomebodyElseIsNotAllowed(account: Account)
    requires !Unguarded(account)
    ensures
      var balance := if account.floor.Some? then account.floor.value else 0;
      !Allowed(account, Some(SomebodyElse(account)), -1, balance - 1)
  {
    assert account.owner.Some? ==> |SomebodyElse(account)| == |account.owner.value| + 1;
  }

  lemma StoredTextGuards(digest: Digest, accounts: map<string, Account>, text: string, db: Db, id: string,
                         input: TransferInput, amount: nat)
    requires StoredId(text) in accounts && AsStored(text) && Debits(digest, accounts, text, db, id, input, amount)
    ensures Allowed(accounts[text], Some(input.ownerId), 0 - amount, db.balances[text].balance - amount)
  {
    RegisteredIsFiled(db);
    var n := TransferEffect(digest, db, id, input);
  }

  /** Owner and floor are enforced for every transfer from a text, on every ledger and for every caller, if and only
      if the text is the stored id, or the account has neither. */
  lemma TransferGuardsExactly(digest: Digest, accounts: map<string, Account>, text: string)
    requires (forall a | a in accounts :: AccountSound(a, accounts[a])) && StoredId(text) in accounts
    ensures TransferGuards(digest, accounts, text) <==> AsStored(text) || Unguarded(accounts[StoredId(text)])
  {
    var account := accounts[StoredId(text)];
    if AsStored(text) {
      forall db, id, input, amount: nat | Debits(digest, accounts, text, db, id, input, amount)
        ensures Allowed(account, Some(input.ownerId), 0 - amount, db.balances[text].balance - amount)
      {
        StoredTextGuards(digest, accounts, text, db, id, input, amount);
      }
    } else if !Unguarded(account) {
      SelfTransferRequest(digest, accounts, text, OneToItself(text, account));
      SomebodyElseIsNotAllowed(account);
    }
  }

  // ---- a currency without a code ----

  /** A transfer in a currency that only an inherited property answers to gets past `unknown_currency`, and is then
      turned down for its accounts: no account is in it. */
  lemma NoCodeNeverPosts(digest: Digest, db: Db, id: string, input: TransferInput)
    requires Registered(db) && Inherited(input.currency) && Sendable(input) && KeyFree(db, input)
    ensures Transfer(digest, db, id, input).1 ==
      Refused(if StoredId(input.from) in db.accounts then AccountCurrencyMismatch else UnknownAccount)
  {
    RegisteredIsFiled(db);
    TransferAnswers(digest, db, id, input);
    if StoredId(input.from) in db.accounts {
      assert AccountSound(StoredId(input.from), db.accounts[StoredId(input.from)]);
    }
  }
}
