/** Requests name accounts by text, tables by stored id. The poster fills `floors` and `byId` under the
    stored id and reads them under the text (src/ledger/application/ledger-poster.ts), so what it guards
    depends on how an id is spelled. */
module Naming {
  import opened Wrappers
  import opened Text
  import opened HashChain
  import opened Journals
  import opened Ledger

  /** Account rows under their ids, in the form the `uuid` column returns. */
  ghost predicate Filed(accounts: map<string, Account>) {
    forall a | a in accounts :: accounts[a].id == a && AsStored(a)
  }

  ghost predicate AllFound(accounts: map<string, Account>, currency: string, ps: seq<Posting>) {
    forall i | 0 <= i < |ps| ::
      StoredId(ps[i].accountId) in accounts && accounts[StoredId(ps[i].accountId)].currency == currency
  }

  lemma {:induction false} CheckAccountsDecides(accounts: map<string, Account>, currency: string, ps: seq<Posting>)
    ensures CheckAccounts(accounts, currency, ps).None? <==> AllFound(accounts, currency, ps)
  {
    if ps != [] {
      var n := |ps| - 1;
      CheckAccountsDecides(accounts, currency, ps[..n]);
      assert forall i | 0 <= i < n :: ps[..n][i] == ps[i];
    }
  }

  /** The `k`-th leg is the first one whose account is unknown or of another currency. */
  ghost predicate FirstBad(accounts: map<string, Account>, currency: string, ps: seq<Posting>, k: nat) {
    k < |ps| && AllFound(accounts, currency, ps[..k]) && !AllFound(accounts, currency, ps[..k + 1])
  }

  /** The refusal is that of the first bad leg: unknown, or of another currency. */
  lemma {:induction false} CheckAccountsRefuses(accounts: map<string, Account>, currency: string, ps: seq<Posting>,
                                                k: nat)
    requires FirstBad(accounts, currency, ps, k)
    ensures CheckAccounts(accounts, currency, ps) ==
      Some(if StoredId(ps[k].accountId) in accounts then AccountCurrencyMismatch else UnknownAccount)
  {
    var n := |ps| - 1;
    if k < n {
      assert ps[..n][..k] == ps[..k] && ps[..n][..k + 1] == ps[..k + 1];
      CheckAccountsRefuses(accounts, currency, ps[..n], k);
    } else {
      assert ps[..n] == ps[..k] && ps[..k + 1] == ps;
      CheckAccountsDecides(accounts, currency, ps[..k]);
      assert forall i | 0 <= i < k :: ps[..k][i] == ps[i];
    }
  }

  // ---- what the maps of the poster hold ----

  lemma {:induction false} ByIdHolds(accounts: map<string, Account>, ps: seq<Posting>)
    requires Filed(accounts)
    ensures forall a | a in ById(accounts, ps) :: a in accounts && ById(accounts, ps)[a] == accounts[a]
    ensures forall i | 0 <= i < |ps| && StoredId(ps[i].accountId) in accounts ::
      StoredId(ps[i].accountId) in ById(accounts, ps)
  {
    if ps != [] {
      var n := |ps| - 1;
      ByIdHolds(accounts, ps[..n]);
      assert forall i | 0 <= i < n :: ps[..n][i] == ps[i];
    }
  }

  /** A leg finds its account's guards again exactly when it names the account as it is stored. */
  lemma GuardsFound(accounts: map<string, Account>, ps: seq<Posting>, i: nat)
    requires Filed(accounts) && i < |ps| && StoredId(ps[i].accountId) in accounts
    ensures ps[i].accountId in ById(accounts, ps) <==> AsStored(ps[i].accountId)
    ensures AsStored(ps[i].accountId) ==>
      ps[i].accountId in accounts && ById(accounts, ps)[ps[i].accountId] == accounts[ps[i].accountId]
  {
    ByIdHolds(accounts, ps);
  }

  /** On legs that name accounts as stored the filed maps read like the table itself. */
  lemma StoredGuards(accounts: map<string, Account>, currency: string, ps: seq<Posting>)
    requires Filed(accounts) && LegsAsStored(ps) && AllFound(accounts, currency, ps)
    ensures forall i | 0 <= i < |ps| :: ps[i].accountId in accounts && accounts[ps[i].accountId].currency == currency
    ensures forall i | 0 <= i < |ps| ::
      FloorOf(ById(accounts, ps), ps[i].accountId) == FloorOf(accounts, ps[i].accountId)
    ensures forall i, owner | 0 <= i < |ps| ::
      ForeignDebit(ById(accounts, ps), owner, ps[i]) <==> ForeignDebit(accounts, owner, ps[i])
  {
    forall i | 0 <= i < |ps|
      ensures ps[i].accountId in accounts && accounts[ps[i].accountId].currency == currency
      ensures ps[i].accountId in ById(accounts, ps) && ById(accounts, ps)[ps[i].accountId] == accounts[ps[i].accountId]
    {
      GuardsFound(accounts, ps, i);
    }
  }

  /** A debit of an account that is named as stored and belongs to somebody else. */
  ghost predicate ForeignLeg(accounts: map<string, Account>, owner: string, p: Posting) {
    && p.amount < 0 && AsStored(p.accountId) && p.accountId in accounts
    && !accounts[p.accountId].system && accounts[p.accountId].owner != Some(owner)
  }

  ghost predicate OwnerObjects(accounts: map<string, Account>, requireOwner: Option<string>, ps: seq<Posting>) {
    requireOwner.Some? && exists i | 0 <= i < |ps| :: ForeignLeg(accounts, requireOwner.value, ps[i])
  }

  /** Admission for any journal, in any spelling: a posting is admitted, refused for its owner, or refused for its
      first bad account. */
  lemma AdmitDecides(accounts: map<string, Account>, j: Journal, requireOwner: Option<string>)
    requires Filed(accounts)
    ensures
      var found := AllFound(accounts, j.currency, j.postings);
      var objects := OwnerObjects(accounts, requireOwner, j.postings);
      && (Admit(accounts, j, requireOwner).None? <==> found && !objects)
      && (Admit(accounts, j, requireOwner) == Some(NotAccountOwner) <==> found && objects)
    ensures forall k: nat | FirstBad(accounts, j.currency, j.postings, k) ::
      Admit(accounts, j, requireOwner) ==
        Some(if StoredId(j.postings[k].accountId) in accounts then AccountCurrencyMismatch else UnknownAccount)
  {
    var ps := j.postings;
    CheckAccountsDecides(accounts, j.currency, ps);
    CheckAccountsFaults(accounts, j.currency, ps);
    if AllFound(accounts, j.currency, ps) && requireOwner.Some? {
      forall i | 0 <= i < |ps|
        ensures ForeignDebit(ById(accounts, ps), requireOwner.value, ps[i]) <==>
          ForeignLeg(accounts, requireOwner.value, ps[i])
      {
        GuardsFound(accounts, ps, i);
      }
    }
    forall k: nat | FirstBad(accounts, j.currency, ps, k)
      ensures Admit(accounts, j, requireOwner) ==
        Some(if StoredId(ps[k].accountId) in accounts then AccountCurrencyMismatch else UnknownAccount)
    {
      CheckAccountsRefuses(accounts, j.currency, ps, k);
    }
  }

  lemma {:induction false} CheckAccountsFaults(accounts: map<string, Account>, currency: string, ps: seq<Posting>)
    ensures CheckAccounts(accounts, currency, ps) in {None, Some(UnknownAccount), Some(AccountCurrencyMismatch)}
  {
    if ps != [] { CheckAccountsFaults(accounts, currency, ps[..|ps| - 1]); }
  }

  // ---- rows ----

  lemma RowsAsStored(ids: set<string>)
    requires forall a | a in ids :: AsStored(a)
    ensures Rows(ids) == ids
  {
    forall a | a in ids ensures a in Rows(ids) { assert StoredId(a) == a; }
  }

  lemma InvolvedAsStored(ps: seq<Posting>)
    requires LegsAsStored(ps)
    ensures (forall a | a in Involved(ps) :: AsStored(a)) && Rows(Involved(ps)) == Involved(ps)
  {
    RowsAsStored(Involved(ps));
  }

  lemma LockedAsStored(balances: map<string, BalanceRow>, ids: set<string>)
    requires forall a | a in ids :: AsStored(a)
    ensures LockedRows(balances, ids) == map a | a in ids && a in balances :: balances[a]
  {
  }

  lemma {:induction false} WriteRowsElsewhere(balances: map<string, BalanceRow>, order: seq<string>,
                                              running: map<string, BalanceRow>, a: string)
    requires a in balances && forall i | 0 <= i < |order| :: StoredId(order[i]) != a
    ensures WriteRows(balances, order, running)[a] == balances[a]
  {
    if order != [] {
      assert forall i | 0 <= i < |order| - 1 :: order[..|order| - 1][i] == order[i];
      WriteRowsElsewhere(balances, order[..|order| - 1], running, a);
    }
  }

  /** The row holds what was written to it last. */
  lemma {:induction false} WriteRowsLast(balances: map<string, BalanceRow>, order: seq<string>,
                                         running: map<string, BalanceRow>, k: nat)
    requires k < |order| && order[k] in running && StoredId(order[k]) in balances
    requires forall i | k < i < |order| :: StoredId(order[i]) != StoredId(order[k])
    ensures WriteRows(balances, order, running)[StoredId(order[k])] == running[order[k]]
  {
    var n := |order| - 1;
    if k < n {
      assert forall i | 0 <= i < n :: order[..n][i] == order[i];
      WriteRowsLast(balances, order[..n], running, k);
    }
  }

  lemma WriteRowAsStored(balances: map<string, BalanceRow>, order: seq<string>, running: map<string, BalanceRow>,
                         a: string)
    requires StrictlySorted(order) && (forall b | b in order :: AsStored(b) && b in running && b in balances)
    requires a in balances
    ensures WriteRows(balances, order, running)[a] == if a in order then running[a] else balances[a]
  {
    if a in order {
      var k :| 0 <= k < |order| && order[k] == a;
      forall i | k < i < |order| ensures StoredId(order[i]) != StoredId(a) {
        assert Less(order[k], order[i]) && order[i] in order;
        LessIrreflexive(a);
      }
      WriteRowsLast(balances, order, running, k);
    } else {
      forall i | 0 <= i < |order| ensures StoredId(order[i]) != a { assert order[i] in order; }
      WriteRowsElsewhere(balances, order, running, a);
    }
  }

  /** Distinct rows are written independently of the order. */
  lemma WriteRowsAsStored(balances: map<string, BalanceRow>, ps: seq<Posting>, running: map<string, BalanceRow>)
    requires LegsAsStored(ps) && running.Keys == Involved(ps) <= balances.Keys
    ensures WriteRows(balances, LockOrder(ps), running) == balances + running
  {
    var order := LockOrder(ps);
    InvolvedAsStored(ps);
    forall a | a in balances ensures WriteRows(balances, order, running)[a] == (balances + running)[a] {
      WriteRowAsStored(balances, order, running, a);
    }
  }

  // ---- when the guards work ----

  /** Every leg respects the floor that was found for it, at the moment it is posted. */
  lemma {:induction false} LoopKeepsFloors(digest: Digest, id: string, byId: map<string, Account>,
                                           start: map<string, BalanceRow>, ps: seq<Posting>)
    requires RunLoop(digest, id, byId, start, ps).Ok?
    ensures
      var lines := RunLoop(digest, id, byId, start, ps).value.lines;
      forall i | 0 <= i < |ps| ::
        IsSufficient(lines[i].balanceAfter, 0, FloorOf(byId, ps[i].accountId)) && ps[i].accountId in start
  {
    if ps != [] { LoopKeepsFloors(digest, id, byId, start, ps[..|ps| - 1]); }
  }

  /** Does a balance respect the account's floor? */
  predicate KeepsFloor(account: Account, balance: int) { account.floor.Some? ==> balance >= account.floor.value }

  /** May a caller move `amount` on the account, ending at `balanceAfter`? */
  predicate Allowed(account: Account, requireOwner: Option<string>, amount: int, balanceAfter: int) {
    && (requireOwner.Some? && amount < 0 ==> account.system || account.owner == requireOwner)
    && KeepsFloor(account, balanceAfter)
  }

  /** Was the `i`-th leg of a successful posting allowed by its account's owner and floor? */
  ghost predicate Guarded(digest: Digest, db: Db, j: Journal, o: PostOptions, i: nat)
    requires i < |j.postings| && StoredId(j.postings[i].accountId) in db.accounts && Post(digest, db, j, o).Ok?
  {
    Allowed(db.accounts[StoredId(j.postings[i].accountId)], o.requireOwner, j.postings[i].amount,
            Post(digest, db, j, o).value.0.postings[|db.postings| + i].balanceAfter)
  }

  /** Does every posting that names an account by `text`, whatever its legs, balances and caller, respect that
      account's owner and floor? */
  ghost predicate GuardsWork(digest: Digest, accounts: map<string, Account>, text: string) {
    forall db: Db, j, o, i: nat |
      db.accounts == accounts && Post(digest, db, j, o).Ok? && i < |j.postings| && j.postings[i].accountId == text
        && StoredId(text) in accounts ::
      Guarded(digest, db, j, o, i)
  }

  /** An account that anybody may debit without limit, like the seeded `@world` accounts. */
  predicate Unguarded(account: Account) { account.system && account.floor.None? }

  lemma WrittenRow(db: Db, j: Journal, o: PostOptions, st: LoopState, i: nat)
    requires |j.postings| == |st.lines| && i < |st.lines|
    ensures Written(db, j, o, st).postings[|db.postings| + i] == RowOf(j.id, j.postings[i], st.lines[i])
  {
  }

  lemma GuardedByLoop(digest: Digest, db: Db, j: Journal, o: PostOptions, i: nat)
    requires i < |j.postings| && StoredId(j.postings[i].accountId) in db.accounts && Post(digest, db, j, o).Ok?
    ensures Loop(digest, db, j).Ok?
    ensures Guarded(digest, db, j, o, i) <==> Allowed(db.accounts[StoredId(j.postings[i].accountId)], o.requireOwner,
      j.postings[i].amount, Loop(digest, db, j).value.lines[i].balanceAfter)
  {
    var st := PostRan(digest, db, j, o);
    WrittenRow(db, j, o, st, i);
  }

  lemma StoredLegAllowed(digest: Digest, db: Db, j: Journal, o: PostOptions, i: nat)
    requires Filed(db.accounts) && Admit(db.accounts, j, o.requireOwner).None? && Loop(digest, db, j).Ok?
    requires i < |j.postings| && AsStored(j.postings[i].accountId)
    ensures StoredId(j.postings[i].accountId) in db.accounts
    ensures Allowed(db.accounts[StoredId(j.postings[i].accountId)], o.requireOwner,
      j.postings[i].amount, Loop(digest, db, j).value.lines[i].balanceAfter)
  {
    CheckAccountsDecides(db.accounts, j.currency, j.postings);
    GuardsFound(db.accounts, j.postings, i);
    LoopKeepsFloors(digest, j.id, ById(db.accounts, j.postings), LockedRows(db.balances, Involved(j.postings)),
                    j.postings);
    if o.requireOwner.Some? {
      assert !ForeignDebit(ById(db.accounts, j.postings), o.requireOwner.value, j.postings[i]);
    }
  }

  lemma StoredNameGuards(digest: Digest, db: Db, j: Journal, o: PostOptions, i: nat)
    requires Filed(db.accounts) && Post(digest, db, j, o).Ok? && i < |j.postings| && AsStored(j.postings[i].accountId)
    ensures StoredId(j.postings[i].accountId) in db.accounts && Guarded(digest, db, j, o, i)
  {
    var st := PostRan(digest, db, j, o);
    StoredLegAllowed(digest, db, j, o, i);
    GuardedByLoop(digest, db, j, o, i);
  }

  // ---- a posting that escapes them ----

  /** One unit from an account to itself, the debit under another spelling. */
  function SelfTransfer(text: string, currency: string): Journal {
    Journal("", currency, [Posting(text, -1, currency), Posting(StoredId(text), 1, currency)])
  }

  /** The account stands at its floor. */
  function AtFloor(accounts: map<string, Account>, text: string, account: Account): Db {
    var row := BalanceRow(if account.floor.Some? then account.floor.value else 0, None);
    Db(accounts, map[StoredId(text) := row], [], [], [], map[])
  }

  /** A caller who is not the owner, unless the floor is what is going to be broken. */
  function Stranger(account: Account): PostOptions {
    var other := if account.owner.Some? then account.owner.value + "x" else "";
    PostOptions(if account.floor.Some? then None else Some(other), "transfer.posted", None)
  }

  lemma SelfTransferAdmitted(accounts: map<string, Account>, text: string, account: Account)
    requires Filed(accounts) && StoredId(text) in accounts && account == accounts[StoredId(text)] && !AsStored(text)
    ensures text !in ById(accounts, SelfTransfer(text, account.currency).postings)
    ensures Admit(accounts, SelfTransfer(text, account.currency), Stranger(account).requireOwner).None?
  {
    var j := SelfTransfer(text, account.currency);
    StoredIsAsStored(text);
    assert j.postings[0].accountId == text && j.postings[1].accountId == StoredId(text);
    GuardsFound(accounts, j.postings, 0);
    assert AllFound(accounts, j.currency, j.postings);
    CheckAccountsDecides(accounts, j.currency, j.postings);
  }

  /** The line of a leg that finds `row`. */
  function LineOf(digest: Digest, id: string, row: BalanceRow, p: Posting): Line {
    Line(row.balance + p.amount, row.chainHash,
         HashPosting(digest, row.chainHash, Content(id, p.accountId, p.amount, row.balance + p.amount)))
  }

  lemma {:induction false} TwoLegLoop(digest: Digest, id: string, byId: map<string, Account>,
                                      start: map<string, BalanceRow>, p: Posting, q: Posting)
    requires p.accountId != q.accountId && p.accountId in start && q.accountId in start
    ensures
      var r := RunLoop(digest, id, byId, start, [p, q]);
      && (r.Ok? <==>
            && IsSufficient(start[p.accountId].balance, p.amount, FloorOf(byId, p.accountId))
            && IsSufficient(start[q.accountId].balance, q.amount, FloorOf(byId, q.accountId)))
      && (r.Ok? ==>
            && r.value.lines == [LineOf(digest, id, start[p.accountId], p), LineOf(digest, id, start[q.accountId], q)]
            && r.value.running[p.accountId].balance == start[p.accountId].balance + p.amount
            && r.value.running[q.accountId].balance == start[q.accountId].balance + q.amount)
  {
    TwoLegsRun(digest, id, byId, start, p, q);
    if IsSufficient(start[p.accountId].balance, p.amount, FloorOf(byId, p.accountId)) {
      FoundLeg(digest, id, byId, LoopState([], start), p);
      FoundLeg(digest, id, byId, PostLeg(digest, id, byId, LoopState([], start), p).value, q);
    }
  }

  lemma TwoLegsRun(digest: Digest, id: string, byId: map<string, Account>, start: map<string, BalanceRow>, p: Posting,
                   q: Posting)
    ensures
      var first := PostLeg(digest, id, byId, LoopState([], start), p);
      RunLoop(digest, id, byId, start, [p, q]) ==
        if first.Err? then first else PostLeg(digest, id, byId, first.value, q)
  {
    var ps := [p, q];
    assert ps[..1] == [p] && [p][..0] == [];
    assert RunLoop(digest, id, byId, start, ps[..1]) == PostLeg(digest, id, byId, LoopState([], start), p);
  }

  lemma FoundLeg(digest: Digest, id: string, byId: map<string, Account>, st: LoopState, p: Posting)
    requires p.accountId in st.running
    ensures
      var r, row := PostLeg(digest, id, byId, st, p), st.running[p.accountId];
      if IsSufficient(row.balance, p.amount, FloorOf(byId, p.accountId))
      then r.Ok? && r.value.lines == st.lines + [LineOf(digest, id, row, p)] && r.value.running.Keys == st.running.Keys
           && r.value.running[p.accountId].balance == row.balance + p.amount
           && forall a | a in st.running && a != p.accountId :: r.value.running[a] == st.running[a]
      else r == Err(InsufficientFunds)
  {
  }

  lemma SelfTransferRuns(digest: Digest, byId: map<string, Account>, text: string, account: Account)
    requires text !in byId && !AsStored(text) && FloorOf(byId, StoredId(text)) in {None, account.floor}
    ensures
      var j, db := SelfTransfer(text, account.currency), AtFloor(map[], text, account);
      var r := RunLoop(digest, j.id, byId, LockedRows(db.balances, Involved(j.postings)), j.postings);
      r.Ok? && |r.value.lines| == 2 && r.value.lines[0].balanceAfter == db.balances[StoredId(text)].balance - 1
  {
    var j, db := SelfTransfer(text, account.currency), AtFloor(map[], text, account);
    StoredIsAsStored(text);
    assert j.postings[0].accountId in Involved(j.postings) && j.postings[1].accountId in Involved(j.postings);
    TwoLegLoop(digest, j.id, byId, LockedRows(db.balances, Involved(j.postings)), j.postings[0], j.postings[1]);
  }

  lemma SelfTransferRow(text: string, currency: string)
    ensures Rows(Involved(SelfTransfer(text, currency).postings)) <= {StoredId(text)}
  {
    StoredIsAsStored(text);
  }

  lemma SelfTransferEscapes(digest: Digest, accounts: map<string, Account>, text: string, account: Account)
    requires Filed(accounts) && StoredId(text) in accounts && account == accounts[StoredId(text)]
    requires !AsStored(text) && !Unguarded(account)
    ensures
      var db, j, o := AtFloor(accounts, text, account), SelfTransfer(text, account.currency), Stranger(account);
      Post(digest, db, j, o).Ok? && !Guarded(digest, db, j, o, 0)
  {
    var db, j, o := AtFloor(accounts, text, account), SelfTransfer(text, account.currency), Stranger(account);
    SelfTransferAdmitted(accounts, text, account);
    StoredIsAsStored(text);
    ByIdHolds(accounts, j.postings);
    SelfTransferRuns(digest, ById(accounts, j.postings), text, account);
    SelfTransferRow(text, account.currency);
    RunPosts(digest, db, j, o);
    GuardedByLoop(digest, db, j, o, 0);
  }

  lemma RunPosts(digest: Digest, db: Db, j: Journal, o: PostOptions)
    requires Admit(db.accounts, j, o.requireOwner).None? && Rows(Involved(j.postings)) <= db.balances.Keys
    requires Loop(digest, db, j).Ok? && (o.reverses.Some? ==> !HasReversal(db.journals, o.reverses.value))
    ensures Post(digest, db, j, o) ==
      Ok((Written(db, j, o, Loop(digest, db, j).value), ReceiptOf(j, Loop(digest, db, j).value.lines)))
  {
  }

  /** Owner and floor of an account are enforced for every journal, balance and caller if and only if the
      request names the account as it is stored, or there is nothing to enforce. */
  lemma GuardsWorkExactly(digest: Digest, accounts: map<string, Account>, text: string)
    requires Filed(accounts) && StoredId(text) in accounts
    ensures GuardsWork(digest, accounts, text) <==> AsStored(text) || Unguarded(accounts[StoredId(text)])
  {
    var account := accounts[StoredId(text)];
    if AsStored(text) || Unguarded(account) {
      forall db: Db, j, o, i: nat |
        db.accounts == accounts && Post(digest, db, j, o).Ok? && i < |j.postings| && j.postings[i].accountId == text
        ensures Guarded(digest, db, j, o, i)
      {
        if AsStored(text) { StoredNameGuards(digest, db, j, o, i); }
      }
    } else {
      SelfTransferEscapes(digest, accounts, text, account);
    }
  }

  // ---- what else depends on the spelling ----

  /** The hash covers the text of the request, while the audit recomputes it from the stored id: the link of
      a row verifies if and only if the two are the same, or their pre-images collide. */
  lemma LinkVerifiesExactly(digest: Digest, prevHash: Option<string>, c: Content)
    requires PlainIds(c) && StoredHash(prevHash) && NoBar(StoredId(c.accountId))
    ensures
      var stored := c.(accountId := StoredId(c.accountId));
      || (HashPosting(digest, prevHash, stored) == HashPosting(digest, prevHash, c) <==> AsStored(c.accountId))
      || (PreImage(prevHash, stored) != PreImage(prevHash, c)
          && digest(PreImage(prevHash, stored)) == digest(PreImage(prevHash, c)))
  {
    var stored := c.(accountId := StoredId(c.accountId));
    if PreImage(prevHash, stored) == PreImage(prevHash, c) { PreImageInjective(prevHash, stored, prevHash, c); }
  }
}
