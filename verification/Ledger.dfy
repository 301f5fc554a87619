/** The tables, and the ledger's operations run one at a time on them.

    This is the sequential reference: `Post` and the three services as functions from tables to tables.
    The imperative store (Store.dfy) implements them; the concurrent protocol (Protocol.dfy) refines them. */
module Ledger {
  import opened Wrappers
  import opened Text
  import opened HashChain
  import opened Journals

  // ---- rows ----

  datatype Account = Account(id: string, system: bool, currency: string, floor: Option<int>, owner: Option<string>)

  datatype BalanceRow = BalanceRow(balance: int, chainHash: Option<string>)

  datatype JournalRow = JournalRow(id: string, currency: string, reverses: Option<string>)

  datatype PostingRow = PostingRow(transactionId: string, accountId: string, amount: int, balanceAfter: int,
                                   prevHash: Option<string>, hash: string)

  datatype ReceiptLine = ReceiptLine(accountId: string, amount: string, balanceAfter: string)

  datatype Receipt = Receipt(id: string, currency: string, postings: seq<ReceiptLine>)

  datatype OutboxEvent = OutboxEvent(eventType: string, payload: Receipt)

  datatype KeyRow = KeyRow(fingerprint: string, transactionId: Option<string>, response: Option<Receipt>)

  /** The committed tables; `journals`, `postings` and `outbox` in commit order. */
  datatype Db = Db(accounts: map<string, Account>, balances: map<string, BalanceRow>, journals: seq<JournalRow>,
                   postings: seq<PostingRow>, outbox: seq<OutboxEvent>, keys: map<string, KeyRow>)

  datatype Failure =
    | UnknownCurrency | NonPositiveAmount | SameAccount
    | UnknownAccount | AccountCurrencyMismatch | NotAccountOwner | InsufficientFunds
    | IdempotencyConflict | UnknownTransaction | AlreadyReversed
    | Internal(fault: Fault)

  /** Errors the code throws for states it believes impossible. */
  datatype Fault =
    | NoBalanceRow | DuplicateId | NoCurrencyCode | KeyDisappeared | NoStoredResponse | UnknownStoredCurrency
    | Uncompensable

  datatype Outcome = Success(receipt: Receipt) | AccountOpened | Refused(failure: Failure)

  // ---- queries ----

  function Filter<T>(s: seq<T>, f: T -> bool): seq<T> {
    if s == [] then []
    else Filter(s[..|s| - 1], f) + if f(s[|s| - 1]) then [s[|s| - 1]] else []
  }

  function OfAccount(accountId: string): PostingRow -> bool { (r: PostingRow) => r.accountId == accountId }

  function OfTransaction(id: string): PostingRow -> bool { (r: PostingRow) => r.transactionId == id }

  function AccountLog(rows: seq<PostingRow>, accountId: string): seq<PostingRow> { Filter(rows, OfAccount(accountId)) }

  function TransactionLog(rows: seq<PostingRow>, id: string): seq<PostingRow> { Filter(rows, OfTransaction(id)) }

  function FindJournal(journals: seq<JournalRow>, id: string): Option<JournalRow> {
    if journals == [] then None
    else if journals[|journals| - 1].id == id then Some(journals[|journals| - 1])
    else FindJournal(journals[..|journals| - 1], id)
  }

  predicate HasReversal(journals: seq<JournalRow>, target: string) {
    exists k | 0 <= k < |journals| :: journals[k].reverses == Some(target)
  }

  /** The legs a stored transaction was built from. */
  function StoredLegs(rows: seq<PostingRow>, currency: string): (ps: seq<Posting>)
    ensures |ps| == |rows|
  {
    seq(|rows|, i requires 0 <= i < |rows| => Posting(rows[i].accountId, rows[i].amount, currency))
  }

  // ---- the posting loop ----

  datatype Line = Line(balanceAfter: int, prevHash: Option<string>, hash: string)

  datatype LoopState = LoopState(lines: seq<Line>, running: map<string, BalanceRow>)

  datatype PostOptions = PostOptions(requireOwner: Option<string>, eventType: string, reverses: Option<string>)

  predicate IsSufficient(balance: int, delta: int, floor: Option<int>) {
    floor.None? || balance + delta >= floor.value
  }

  /** `floors.get(id) ?? null`: accounts are filed under their stored ids and looked up under the text that
      the request used. */
  function FloorOf(byId: map<string, Account>, id: string): Option<int> {
    if id in byId then byId[id].floor else None
  }

  function PostLeg(digest: Digest, id: string, byId: map<string, Account>, st: LoopState, p: Posting): Result<LoopState,
                   Failure> {
    if p.accountId !in st.running then Err(UnknownAccount)
    else
      var row := st.running[p.accountId];
      if !IsSufficient(row.balance, p.amount, FloorOf(byId, p.accountId)) then Err(InsufficientFunds)
      else
        var balanceAfter := row.balance + p.amount;
        var hash := HashPosting(digest, row.chainHash, Content(id, p.accountId, p.amount, balanceAfter));
        Ok(LoopState(st.lines + [Line(balanceAfter, row.chainHash, hash)],
                     st.running[p.accountId := BalanceRow(balanceAfter, Some(hash))]))
  }

  function RunLoop(digest: Digest, id: string, byId: map<string, Account>, start: map<string, BalanceRow>,
                   ps: seq<Posting>): (r: Result<LoopState, Failure>)
    ensures r.Ok? ==> |r.value.lines| == |ps| && r.value.running.Keys == start.Keys
  {
    if ps == [] then Ok(LoopState([], start))
    else
      var before := RunLoop(digest, id, byId, start, ps[..|ps| - 1]);
      if before.Err? then before else PostLeg(digest, id, byId, before.value, ps[|ps| - 1])
  }

  // ---- LedgerPoster.post ----

  /** `findById`: the id may be spelled in any letter case. */
  function FindAccount(accounts: map<string, Account>, text: string): Option<Account> {
    if StoredId(text) in accounts then Some(accounts[StoredId(text)]) else None
  }

  function LegDenied(accounts: map<string, Account>, currency: string, p: Posting): Option<Failure> {
    var found := FindAccount(accounts, p.accountId);
    if found.None? then Some(UnknownAccount)
    else if found.value.currency != currency then Some(AccountCurrencyMismatch)
    else None
  }

  /** The first account, in leg order, that is unknown or of another currency. */
  function CheckAccounts(accounts: map<string, Account>, currency: string, ps: seq<Posting>): Option<Failure> {
    if ps == [] then None
    else
      var before := CheckAccounts(accounts, currency, ps[..|ps| - 1]);
      if before.Some? then before else LegDenied(accounts, currency, ps[|ps| - 1])
  }

  /** The accounts found for the legs, filed under their stored ids. */
  function ById(accounts: map<string, Account>, ps: seq<Posting>): map<string, Account> {
    if ps == [] then map[]
    else
      var before, found := ById(accounts, ps[..|ps| - 1]), FindAccount(accounts, ps[|ps| - 1].accountId);
      if found.None? then before else before[found.value.id := found.value]
  }

  function FloorsOf(byId: map<string, Account>): map<string, Option<int>> { map a | a in byId :: byId[a].floor }

  /** Is `p` a debit of somebody else's account, as far as `byId` tells? System accounts may be debited by anyone. */
  predicate ForeignDebit(byId: map<string, Account>, owner: string, p: Posting) {
    && p.amount < 0
    && p.accountId in byId
    && !byId[p.accountId].system
    && byId[p.accountId].owner != Some(owner)
  }

  predicate OwnsAllDebits(byId: map<string, Account>, owner: string, ps: seq<Posting>) {
    forall i | 0 <= i < |ps| :: !ForeignDebit(byId, owner, ps[i])
  }

  function Admit(accounts: map<string, Account>, j: Journal, requireOwner: Option<string>): Option<Failure> {
    var denied := CheckAccounts(accounts, j.currency, j.postings);
    if denied.Some? then denied
    else if requireOwner.Some? && !OwnsAllDebits(ById(accounts, j.postings), requireOwner.value, j.postings)
    then Some(NotAccountOwner)
    else None
  }

  function AccountIds(ps: seq<Posting>): (ids: seq<string>)
    ensures |ids| == |ps|
  {
    seq(|ps|, i requires 0 <= i < |ps| => ps[i].accountId)
  }

  function Involved(ps: seq<Posting>): set<string> { set i | 0 <= i < |ps| :: ps[i].accountId }

  /** The order in which `lockForUpdate` takes the balance rows: that of the texts in the request. */
  function LockOrder(ps: seq<Posting>): (order: seq<string>)
    ensures StrictlySorted(order)
    ensures forall a :: a in order <==> a in Involved(ps)
  {
    assert forall a :: a in AccountIds(ps) <==> a in Involved(ps) by {
      forall a | a in Involved(ps) ensures a in AccountIds(ps) {
        var i :| 0 <= i < |ps| && ps[i].accountId == a;
        assert AccountIds(ps)[i] == a;
      }
    }
    SortedDistinct(AccountIds(ps))
  }

  /** The rows that a set of requested ids stands for. */
  function Rows(ids: set<string>): set<string> { set a | a in ids :: StoredId(a) }

  /** What `lockForUpdate` returns: each row under the id it was requested by. */
  function LockedRows(balances: map<string, BalanceRow>, ids: set<string>): map<string, BalanceRow> {
    map a | a in ids && StoredId(a) in balances :: balances[StoredId(a)]
  }

  function RowOf(id: string, p: Posting, line: Line): PostingRow {
    PostingRow(id, StoredId(p.accountId), p.amount, line.balanceAfter, line.prevHash, line.hash)
  }

  function RowsOf(id: string, ps: seq<Posting>, lines: seq<Line>): (rows: seq<PostingRow>)
    requires |ps| == |lines|
    ensures |rows| == |ps|
  {
    seq(|ps|, i requires 0 <= i < |ps| => RowOf(id, ps[i], lines[i]))
  }

  function ReceiptOf(j: Journal, lines: seq<Line>): Receipt
    requires |j.postings| == |lines|
  {
    Receipt(j.id, j.currency,
            seq(|lines|, i requires 0 <= i < |lines| =>
              ReceiptLine(j.postings[i].accountId, Print(j.postings[i].amount), Print(lines[i].balanceAfter))))
  }

  /** The update of every running row, in the order of the map. */
  function WriteRows(balances: map<string, BalanceRow>, order: seq<string>,
                     running: map<string, BalanceRow>): (r: map<string, BalanceRow>)
    ensures r.Keys == balances.Keys
  {
    if order == [] then balances
    else
      var before, a := WriteRows(balances, order[..|order| - 1], running), order[|order| - 1];
      if a in running && StoredId(a) in before then before[StoredId(a) := running[a]] else before
  }

  /** All the rows one posting writes. */
  function Written(db: Db, j: Journal, o: PostOptions, st: LoopState): Db
    requires |j.postings| == |st.lines|
  {
    db.(balances := WriteRows(db.balances, LockOrder(j.postings), st.running),
        journals := db.journals + [JournalRow(j.id, j.currency, o.reverses)],
        postings := db.postings + RowsOf(j.id, j.postings, st.lines),
        outbox := db.outbox + [OutboxEvent(o.eventType, ReceiptOf(j, st.lines))])
  }

  /** The posting loop over the locked rows of the tables. */
  function Loop(digest: Digest, db: Db, j: Journal): (r: Result<LoopState, Failure>)
    ensures r.Ok? ==> |r.value.lines| == |j.postings|
  {
    RunLoop(digest, j.id, ById(db.accounts, j.postings), LockedRows(db.balances, Involved(j.postings)), j.postings)
  }

  function Post(digest: Digest, db: Db, j: Journal, o: PostOptions): Result<(Db, Receipt), Failure> {
    var denied := Admit(db.accounts, j, o.requireOwner);
    if denied.Some? then Err(denied.value)
    else if !(Rows(Involved(j.postings)) <= db.balances.Keys) then Err(Internal(NoBalanceRow))
    else
      var loop := Loop(digest, db, j);
      if loop.Err? then Err(loop.error)
      else if o.reverses.Some? && HasReversal(db.journals, o.reverses.value) then Err(AlreadyReversed)
      else Ok((Written(db, j, o, loop.value), ReceiptOf(j, loop.value.lines)))
  }

  /** What a successful posting has run and written. */
  ghost predicate Ran(digest: Digest, db: Db, j: Journal, o: PostOptions, st: LoopState, db': Db) {
    && Loop(digest, db, j) == Ok(st)
    && db' == Written(db, j, o, st)
    && Admit(db.accounts, j, o.requireOwner).None?
    && Rows(Involved(j.postings)) <= db.balances.Keys
    && (o.reverses.Some? ==> !HasReversal(db.journals, o.reverses.value))
  }

  lemma PostRan(digest: Digest, db: Db, j: Journal, o: PostOptions) returns (st: LoopState)
    requires Post(digest, db, j, o).Ok?
    ensures Ran(digest, db, j, o, st, Post(digest, db, j, o).value.0)
    ensures Post(digest, db, j, o).value.1 == ReceiptOf(j, st.lines)
  {
    st := Loop(digest, db, j).value;
  }

  // ---- TransferService, ReverseService, AccountsService ----

  /** `key` is empty when the caller sent none. */
  datatype TransferInput = TransferInput(from: string, to: string, amount: string, currency: string, ownerId: string,
                                         key: string)

  /** The fresh ids are the random UUIDs the request will draw. */
  datatype Request =
    | TransferRequest(id: string, input: TransferInput)
    | ReversalRequest(id: string, target: string)
    | OpenRequest(id: string, currency: string, ownerId: string)

  function ParseAmount(raw: string): Option<nat> {
    if raw != [] && Digits(raw) then Some(Value(raw)) else None
  }

  function Canonical(input: TransferInput): string {
    Join([input.ownerId, input.from, input.to, input.amount, input.currency])
  }

  function Fingerprint(digest: Digest, input: TransferInput): string { digest(Canonical(input)) }

  lemma CanonicalText(input: TransferInput)
    ensures Canonical(input) ==
      input.ownerId + "|" + input.from + "|" + input.to + "|" + input.amount + "|" + input.currency
  {
    JoinFive(input.ownerId, input.from, input.to, input.amount, input.currency);
  }

  function BuildTransfer(input: TransferInput, id: string): Result<Journal, Failure> {
    var currency := CurrencyOf(input.currency);
    if currency.None? then Err(UnknownCurrency)
    else
      var amount := ParseAmount(input.amount);
      if amount.None? || amount.value == 0 then Err(NonPositiveAmount)
      else if input.from == input.to then Err(SameAccount)
      else
        var built := CreateTransfer(id, input.from, input.to, amount.value, currency.value);
        if built.Err? then Err(NonPositiveAmount) else Ok(built.value)
  }

  /** One or more digits, and not all of them zero. */
  predicate PositiveText(raw: string) { raw != [] && Digits(raw) && Value(raw) > 0 }

  /** What a caller has to see to before the ledger looks at any account: a currency that the lookup finds, a
      positive amount, and two different texts. */
  predicate Sendable(input: TransferInput) {
    && (Supported(input.currency) || Inherited(input.currency))
    && PositiveText(input.amount)
    && input.from != input.to
  }

  /** No key, or one that nobody has used. */
  predicate KeyFree(db: Db, input: TransferInput) { input.key == "" || input.key !in db.keys }

  function TransferOptions(input: TransferInput): PostOptions {
    PostOptions(Some(input.ownerId), "transfer.posted", None)
  }

  function BuildReversal(db: Db, target: string, id: string): Result<Journal, Failure> {
    var original := FindJournal(db.journals, StoredId(target));
    if original.None? then Err(UnknownTransaction)
    else if CurrencyOf(original.value.currency).None? then Err(Internal(UnknownStoredCurrency))
    else
      var currency := CurrencyOf(original.value.currency).value;
      var built := Create(id,
                          Negated(StoredLegs(TransactionLog(db.postings, StoredId(target)), currency)));
      if built.Err? then Err(Internal(Uncompensable)) else Ok(built.value)
  }

  function ReversalOptions(target: string): PostOptions {
    PostOptions(None, "transfer.reversed", Some(StoredId(target)))
  }

  /** What a caller gets who did not win the key. */
  function Replay(row: KeyRow, fingerprint: string): Outcome {
    if row.fingerprint != fingerprint then Refused(IdempotencyConflict)
    else if row.response.None? then Refused(Internal(NoStoredResponse))
    else Success(row.response.value)
  }

  function Transfer(digest: Digest, db: Db, id: string, input: TransferInput): (Db, Outcome) {
    var built := BuildTransfer(input, id);
    if built.Err? then (db, Refused(built.error))
    else if input.key != "" && input.key in db.keys then (db, Replay(db.keys[input.key], Fingerprint(digest, input)))
    else
      var posted := Post(digest, db, built.value, TransferOptions(input));
      if posted.Err? then (db, Refused(posted.error))
      else
        var (after, receipt) := posted.value;
        (if input.key == "" then after
         else WithKey(after, input.key, KeyRow(Fingerprint(digest, input), Some(id), Some(receipt))),
         Success(receipt))
  }

  function WithKey(db: Db, key: string, row: KeyRow): Db { db.(keys := db.keys[key := row]) }

  function Reverse(digest: Digest, db: Db, id: string, target: string): (Db, Outcome) {
    var built := BuildReversal(db, target, id);
    if built.Err? then (db, Refused(built.error))
    else if HasReversal(db.journals, StoredId(target)) then (db, Refused(AlreadyReversed))
    else
      var posted := Post(digest, db, built.value, ReversalOptions(target));
      if posted.Err? then (db, Refused(posted.error)) else (posted.value.0, Success(posted.value.1))
  }

  function Open(db: Db, id: string, currency: string, ownerId: string): (Db, Outcome) {
    if CurrencyOf(currency).None? then (db, Refused(UnknownCurrency))
    else if !Supported(currency) then (db, Refused(Internal(NoCurrencyCode)))
    else if id in db.accounts || id in db.balances then (db, Refused(Internal(DuplicateId)))
    else
      (db.(accounts := db.accounts[id := Account(id, false, currency, Some(0), Some(ownerId))],
           balances := db.balances[id := BalanceRow(0, None)]),
       AccountOpened)
  }

  function Serve(digest: Digest, db: Db, request: Request): (Db, Outcome) {
    match request
    case TransferRequest(id, input) => Transfer(digest, db, id, input)
    case ReversalRequest(id, target) => Reverse(digest, db, id, target)
    case OpenRequest(id, currency, ownerId) => Open(db, id, currency, ownerId)
  }

  /** Do the texts by which a request names accounts agree with the ids under which they are stored? */
  predicate NamesAsStored(request: Request) {
    request.TransferRequest? ==> AsStored(request.input.from) && AsStored(request.input.to)
  }

  /** Do two texts come in the order of the rows they stand for? Any order will do for one row. */
  predicate InRowOrder(from: string, to: string) {
    StoredId(from) == StoredId(to) || (Less(from, to) <==> Less(StoredId(from), StoredId(to)))
  }

  /** Does the request lock rows in the order of their stored ids? */
  predicate LocksInRowOrder(request: Request) {
    request.TransferRequest? ==> InRowOrder(request.input.from, request.input.to)
  }

  predicate LegsAsStored(ps: seq<Posting>) { forall i | 0 <= i < |ps| :: AsStored(ps[i].accountId) }

  lemma CodesHaveNoBar(name: string)
    ensures CurrencyOf(name).Some? ==> NoBar(name)
  {
  }

  /** On validated input (UUID accounts, digits, a known currency) the fingerprinted text determines the
      whole request except its key, even when the owner id contains the separator. */
  lemma CanonicalInjective(a: TransferInput, b: TransferInput)
    requires NoBar(a.from) && NoBar(a.to) && ParseAmount(a.amount).Some? && CurrencyOf(a.currency).Some?
    requires NoBar(b.from) && NoBar(b.to) && ParseAmount(b.amount).Some? && CurrencyOf(b.currency).Some?
    requires Canonical(a) == Canonical(b)
    ensures a == b.(key := a.key)
  {
    var x := [a.ownerId, a.from, a.to, a.amount, a.currency];
    var y := [b.ownerId, b.from, b.to, b.amount, b.currency];
    assert forall s: string :: Digits(s) ==> NoBar(s);
    CodesHaveNoBar(a.currency);
    CodesHaveNoBar(b.currency);
    JoinInjective(x, y);
    assert x[0] == y[0] && x[1] == y[1] && x[2] == y[2] && x[3] == y[3] && x[4] == y[4];
  }
}
