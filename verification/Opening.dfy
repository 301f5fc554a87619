/** What opening an account means for every later call (src/ledger/application/accounts.service.ts,
    src/ledger/domain/account.ts). */
module Opening {
  import opened Wrappers
  import opened Text
  import opened HashChain
  import opened Journals
  import opened Ledger
  import opened Naming
  import opened Soundness
  import opened Guarantees
  import opened Spelling
  import opened Protocol
  import opened Invariant
  import opened Runs
  import opened Serializability
  import opened Solo
  import opened Statements

  /** Every answer of the call under its exact condition. */
  lemma OpenAnswers(db: Db, id: string, currency: string, ownerId: string)
    requires Registered(db)
    ensures
      var (after, outcome) := Open(db, id, currency, ownerId);
      && (outcome == AccountOpened <==> Supported(currency) && id !in db.accounts)
      && (outcome == Refused(UnknownCurrency) <==> !Supported(currency) && !Inherited(currency))
      && (outcome != AccountOpened ==> after == db)
      && (outcome == AccountOpened ==>
            && after.accounts.Keys == db.accounts.Keys + {id} == after.balances.Keys
            && after.balances[id].balance == 0
            && (forall a | a in db.accounts :: after.accounts[a] == db.accounts[a])
            && (forall a | a in db.balances :: after.balances[a] == db.balances[a])
            && after == db.(accounts := after.accounts, balances := after.balances))
  {
  }

  // ---- what the account is good for ----

  /** Nobody but the owner is debited, nor more than there is, nor in another currency. */
  ghost predicate OwnerPays(digest: Digest, db: Db, id: string, currency: string, ownerId: string) {
    forall transfer, input: TransferInput | input.from == id && KeyFree(db, input) && id in db.balances ::
      Transfer(digest, db, transfer, input).1.Success? ==>
        && input.ownerId == ownerId && input.currency == currency
        && PositiveText(input.amount) && Value(input.amount) <= db.balances[id].balance
  }

  /** May the other side of a transfer to or from `id` take part in it? */
  predicate OtherSide(db: Db, text: string, currency: string, change: int) {
    && Found(db, text, currency)
    && (AsStored(text) ==> KeepsFloor(db.accounts[text], db.balances[text].balance + change))
  }

  /** The owner can pay whatever there is to anybody who has an account in the currency. */
  ghost predicate OwnerCanPay(digest: Digest, db: Db, id: string, currency: string, ownerId: string) {
    forall transfer, input: TransferInput |
      && input.from == id && KeyFree(db, input) && Sendable(input) && id in db.balances
      && input.currency == currency && OtherSide(db, input.to, currency, Value(input.amount)) ::
      var outcome := Transfer(digest, db, transfer, input).1;
      if input.ownerId != ownerId then outcome == Refused(NotAccountOwner)
      else if Value(input.amount) > db.balances[id].balance then outcome == Refused(InsufficientFunds)
      else outcome.Success?
  }

  /** What arrives in the currency is credited, unless the account is overdrawn and stays so; what is sent in
      another one is refused. */
  ghost predicate TakesCredit(digest: Digest, db: Db, id: string, currency: string) {
    forall transfer, input: TransferInput |
      && input.to == id && KeyFree(db, input) && Sendable(input) && id in db.balances
      && Found(db, input.from, CodeOf(input)) ::
      CreditAnswered(digest, db, id, currency, transfer, input)
  }

  ghost predicate CreditAnswered(digest: Digest, db: Db, id: string, currency: string, transfer: string,
                                 input: TransferInput)
    requires Sendable(input) && id in db.balances
  {
    var outcome := Transfer(digest, db, transfer, input).1;
    if input.currency != currency then outcome == Refused(AccountCurrencyMismatch)
    else if !SenderMay(db, input) then outcome == Refused(NotAccountOwner)
    else outcome.Success? <==>
      && OtherSide(db, input.from, currency, 0 - Value(input.amount))
      && db.balances[id].balance + Value(input.amount) >= 0
  }

  /** The owner alone sees the statement. */
  ghost predicate OwnerSees(db: Db, id: string, ownerId: string) {
    forall table, subject, limit, cursor ::
      ForAccount(db.accounts, table, id, subject, limit, cursor).Some? <==> subject == ownerId
  }

  ghost predicate ServesOwner(digest: Digest, db: Db, id: string, currency: string, ownerId: string) {
    && id in db.accounts && id in db.balances
    && OwnerPays(digest, db, id, currency, ownerId) && OwnerCanPay(digest, db, id, currency, ownerId)
    && TakesCredit(digest, db, id, currency) && OwnerSees(db, id, ownerId)
  }

  // ---- from the row to what it means ----

  /** The row that was written for the account is still there. */
  ghost predicate StillOpen(db: Db, id: string, currency: string, ownerId: string) {
    && Plain(id) && Supported(currency) && id in db.accounts
    && db.accounts[id] == Account(id, false, currency, Some(0), Some(ownerId))
  }

  lemma OpenWrites(db: Db, id: string, currency: string, ownerId: string)
    requires Plain(id) && Open(db, id, currency, ownerId).1 == AccountOpened
    ensures StillOpen(Open(db, id, currency, ownerId).0, id, currency, ownerId)
  {
  }

  lemma OwnersDebits(digest: Digest, db: Db, id: string, currency: string, ownerId: string)
    requires Registered(db) && StillOpen(db, id, currency, ownerId)
    ensures OwnerPays(digest, db, id, currency, ownerId)
  {
    RegisteredIsFiled(db);
    forall transfer, input: TransferInput |
      input.from == id && KeyFree(db, input) && Transfer(digest, db, transfer, input).1.Success?
      ensures input.ownerId == ownerId && input.currency == currency
      ensures PositiveText(input.amount) && Value(input.amount) <= db.balances[id].balance
    {
      TransferDecides(digest, db, transfer, input);
    }
  }

  lemma OwnersPayments(digest: Digest, db: Db, id: string, currency: string, ownerId: string)
    requires Registered(db) && StillOpen(db, id, currency, ownerId)
    ensures OwnerCanPay(digest, db, id, currency, ownerId)
  {
    RegisteredIsFiled(db);
    forall transfer, input: TransferInput |
      && input.from == id && KeyFree(db, input) && Sendable(input)
      && input.currency == currency && OtherSide(db, input.to, currency, Value(input.amount))
      ensures
        var outcome := Transfer(digest, db, transfer, input).1;
        if input.ownerId != ownerId then outcome == Refused(NotAccountOwner)
        else if Value(input.amount) > db.balances[id].balance then outcome == Refused(InsufficientFunds)
        else outcome.Success?
    {
      TransferAnswers(digest, db, transfer, input);
    }
  }

  lemma CreditFloors(db: Db, id: string, currency: string, ownerId: string, input: TransferInput)
    requires Filed(db.accounts) && db.balances.Keys == db.accounts.Keys && StillOpen(db, id, currency, ownerId)
    requires input.to == id && Digits(input.amount) && Found(db, input.from, currency)
    ensures FloorsAllow(db, input) <==>
      && OtherSide(db, input.from, currency, 0 - Value(input.amount))
      && db.balances[id].balance + Value(input.amount) >= 0
  {
  }

  lemma CreditFound(db: Db, id: string, currency: string, ownerId: string, input: TransferInput)
    requires db.balances.Keys == db.accounts.Keys && StillOpen(db, id, currency, ownerId) && input.to == id
    requires Found(db, input.from, CodeOf(input)) && (Supported(input.currency) || Inherited(input.currency))
    ensures BothFound(db, input) <==> input.currency == currency
    ensures CodeOf(input) == currency <==> input.currency == currency
    ensures RefusesAccount(db.accounts, input, AccountCurrencyMismatch) <==> input.currency != currency
  {
  }

  lemma CreditAnswers(digest: Digest, db: Db, id: string, currency: string, ownerId: string, transfer: string,
                      input: TransferInput)
    requires Filed(db.accounts) && db.balances.Keys == db.accounts.Keys && StillOpen(db, id, currency, ownerId)
    requires input.to == id && KeyFree(db, input) && Sendable(input) && Found(db, input.from, CodeOf(input))
    ensures
      var outcome := Transfer(digest, db, transfer, input).1;
      if input.currency != currency then outcome == Refused(AccountCurrencyMismatch)
      else if !SenderMay(db, input) then outcome == Refused(NotAccountOwner)
      else outcome.Success? <==> FloorsAllow(db, input)
  {
    CreditFound(db, id, currency, ownerId, input);
    TransferAnswers(digest, db, transfer, input);
    if input.currency != currency { OneRefusal(db.accounts, input, Transfer(digest, db, transfer, input).1.failure); }
  }

  lemma OneRefusal(accounts: map<string, Account>, input: TransferInput, failure: Failure)
    requires RefusesAccount(accounts, input, failure) && RefusesAccount(accounts, input, AccountCurrencyMismatch)
    ensures failure == AccountCurrencyMismatch
  {
  }

  lemma Credits(digest: Digest, db: Db, id: string, currency: string, ownerId: string)
    requires Filed(db.accounts) && db.balances.Keys == db.accounts.Keys && StillOpen(db, id, currency, ownerId)
    ensures TakesCredit(digest, db, id, currency)
  {
    forall transfer, input: TransferInput |
      input.to == id && KeyFree(db, input) && Sendable(input) && Found(db, input.from, CodeOf(input))
      ensures CreditAnswered(digest, db, id, currency, transfer, input)
    {
      CreditAnswers(digest, db, id, currency, ownerId, transfer, input);
      if input.currency == currency {
        CreditFound(db, id, currency, ownerId, input);
        CreditFloors(db, id, currency, ownerId, input);
      }
    }
  }

  /** On any ledger that still has its row, at any later moment, the account serves its owner. */
  lemma OpenedServes(digest: Digest, db: Db, later: Db, id: string, currency: string, ownerId: string)
    requires Plain(id) && Open(db, id, currency, ownerId).1 == AccountOpened
    requires Registered(later) && id in later.accounts
    requires later.accounts[id] == Open(db, id, currency, ownerId).0.accounts[id]
    ensures ServesOwner(digest, later, id, currency, ownerId)
  {
    RowServes(digest, later, id, currency, ownerId);
  }

  lemma RowServes(digest: Digest, db: Db, id: string, currency: string, ownerId: string)
    requires Registered(db) && StillOpen(db, id, currency, ownerId)
    ensures ServesOwner(digest, db, id, currency, ownerId)
  {
    RegisteredIsFiled(db);
    OwnersDebits(digest, db, id, currency, ownerId);
    OwnersPayments(digest, db, id, currency, ownerId);
    Credits(digest, db, id, currency, ownerId);
  }

  // ---- over whole runs ----

  /** The row that the request has written is still there. */
  ghost predicate OpenedBy(db: Db, request: Request) {
    request.OpenRequest? && StillOpen(db, request.id, request.currency, request.ownerId)
  }

  lemma OpensFromIdle(cfg: Config, s: State, p: nat, s': State)
    requires p < |s.procs| == |cfg.requests| == |s'.procs| && Advance(cfg, s, p) == Some(s')
    requires s'.procs[p] == Done(AccountOpened)
    ensures s.procs[p].Idle? && cfg.requests[p].OpenRequest?
  {
    SucceedsFrom(cfg, s, p, s');
  }

  lemma OpeningStep(cfg: Config, s: State, p: nat, s': State)
    requires p < |s.procs| == |cfg.requests| == |s'.procs| && Advance(cfg, s, p) == Some(s')
    requires FreshRequest(s.db, cfg.requests[p]) && s'.procs[p] == Done(AccountOpened)
    ensures OpenedBy(s'.db, cfg.requests[p])
  {
    OpensFromIdle(cfg, s, p, s');
    OpenServes(cfg, s, p, s');
    var OpenRequest(id, currency, ownerId) := cfg.requests[p];
    OpenWrites(s.db, id, currency, ownerId);
  }

  lemma OtherStep(cfg: Config, s: State, action: Action, s': State, p: nat)
    requires |s.procs| == |cfg.requests| && Take(cfg, s, action) == Some(s') && p < |s.procs|
    requires s'.procs[p] == Done(AccountOpened) && action != Run(p)
    ensures s.procs[p] == Done(AccountOpened)
  {
  }

  lemma {:induction false} RowStays(cfg: Config, schedule: seq<Action>, p: nat)
    requires WellFormed(cfg) && p < |cfg.requests| && Exec(cfg, schedule).procs[p] == Done(AccountOpened)
    ensures OpenedBy(Exec(cfg, schedule).db, cfg.requests[p])
  {
    if schedule != [] {
      var n := |schedule| - 1;
      var s, action := Exec(cfg, schedule[..n]), schedule[n];
      if s.procs[p] == Done(AccountOpened) {
        RowStays(cfg, schedule[..n], p);
        TablesOnlyGrow(cfg, schedule[..n], [action]);
        assert schedule[..n] + [action] == schedule;
      } else {
        EveryRequestGood(cfg, schedule[..n]);
        assert action == Run(p) by {
          if action != Run(p) { OtherStep(cfg, s, action, Exec(cfg, schedule), p); }
        }
        OpensFromIdle(cfg, s, p, Exec(cfg, schedule));
        assert Good(cfg, s.db, cfg.requests[p], s.procs[p]);
        OpeningStep(cfg, s, p, Exec(cfg, schedule));
      }
    }
  }

  /** In every state of every run, an account whose opening was answered serves its owner. */
  lemma {:induction false} OpenedForGood(cfg: Config, schedule: seq<Action>, p: nat)
    requires WellFormed(cfg) && p < |cfg.requests| && Exec(cfg, schedule).procs[p] == Done(AccountOpened)
    ensures cfg.requests[p].OpenRequest?
    ensures
      var OpenRequest(id, currency, ownerId) := cfg.requests[p];
      ServesOwner(cfg.digest, Exec(cfg, schedule).db, id, currency, ownerId)
  {
    RowStays(cfg, schedule, p);
    EveryLedgerKept(cfg, schedule);
    var OpenRequest(id, currency, ownerId) := cfg.requests[p];
    RowServes(cfg.digest, Exec(cfg, schedule).db, id, currency, ownerId);
  }
}
