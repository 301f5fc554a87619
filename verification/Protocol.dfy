/** The concurrent ledger: any number of requests, each one database transaction, interleaved statement by
    statement under read committed.

    What is shared between transactions is what Postgres shares: the committed tables, the `FOR UPDATE` row
    locks, uncommitted unique-index entries (idempotency keys and reversal links) and the sequence behind
    `postings.seq`, which never rolls back. Everything else a transaction writes is private until commit. */
module Protocol {
  import opened Wrappers
  import opened Text
  import opened HashChain
  import opened Journals
  import opened Ledger
  import opened Soundness
  import opened Guarantees

  /** A run's fixed data: the ledger it starts from, with the seq of each posting, and the requests that arrive. */
  datatype Config = Config(digest: Digest, initial: Db, seqs: seq<nat>, nextSeq: nat, requests: seq<Request>)

  /** The rows a transaction has written and nobody else can see yet. */
  datatype Writes = Writes(journal: JournalRow, postings: seq<PostingRow>, order: seq<string>,
                           balances: map<string, BalanceRow>, event: OutboxEvent, key: Option<(string, KeyRow)>)

  /** Where a request stands; each value is the statement it is about to execute. */
  datatype Proc =
    | Idle                                                               // not yet arrived
    | Claiming(j: Journal)                                               // INSERT the key ON CONFLICT DO NOTHING
    | ReadingKey                                                         // SELECT the key that conflicted
    | PreChecking(j: Journal)                                            // SELECT an existing reversal
    | Admitting(j: Journal)                                              // SELECT the accounts, check them
    | Locking(j: Journal, taken: nat, locked: map<string, BalanceRow>)   // SELECT the next row FOR UPDATE
    | Inserting(j: Journal, st: LoopState)                               // INSERT the journal row
    | Appending(j: Journal, st: LoopState, drawn: seq<nat>)              // INSERT the postings, one seq at a time
    | Committing(j: Journal, st: LoopState, drawn: seq<nat>, w: Writes, receipt: Receipt)
    | Done(outcome: Outcome)                                             // ended; the answer may still get lost
    | Crashed                                                            // rolled back with its connection

  /** `seqs[i]` is the seq of `db.postings[i]`; `history` lists the requests that committed, in commit order. */
  datatype State = State(db: Db, seqs: seq<nat>, nextSeq: nat, procs: seq<Proc>, history: seq<nat>)

  function KeyOf(request: Request): string {
    if request.TransferRequest? then request.input.key else ""
  }

  function OptionsOf(request: Request): PostOptions {
    match request
    case TransferRequest(_, input) => TransferOptions(input)
    case ReversalRequest(_, target) => ReversalOptions(target)
    case OpenRequest(_, _, _) => PostOptions(None, "", None)
  }

  // ---- what a transaction holds ----

  /** The locked rows, by stored id. */
  function Held(proc: Proc): set<string> {
    match proc
    case Locking(_, _, locked) => Rows(locked.Keys)
    case Inserting(j, _) => Rows(Involved(j.postings))
    case Appending(j, _, _) => Rows(Involved(j.postings))
    case Committing(j, _, _, _, _) => Rows(Involved(j.postings))
    case _ => {}
  }

  /** Past its claim and not finished: an uncommitted key row exists, if the request carries a key. */
  predicate PastClaim(proc: Proc) {
    proc.Admitting? || proc.Locking? || proc.Inserting? || proc.Appending? || proc.Committing?
  }

  /** An uncommitted journal row exists. */
  predicate HasInserted(proc: Proc) { proc.Appending? || proc.Committing? }

  predicate OwnsKey(cfg: Config, procs: seq<Proc>, q: nat, key: string)
    requires q < |procs| == |cfg.requests|
  {
    PastClaim(procs[q]) && KeyOf(cfg.requests[q]) == key != ""
  }

  predicate OwnsReversal(cfg: Config, procs: seq<Proc>, q: nat, target: string)
    requires q < |procs| == |cfg.requests|
  {
    HasInserted(procs[q]) && OptionsOf(cfg.requests[q]).reverses == Some(target)
  }

  predicate KeyTaken(cfg: Config, procs: seq<Proc>, p: nat, key: string)
    requires |procs| == |cfg.requests|
  {
    exists q | 0 <= q < |procs| :: q != p && OwnsKey(cfg, procs, q, key)
  }

  predicate RowTaken(procs: seq<Proc>, p: nat, a: string) {
    exists q | 0 <= q < |procs| :: q != p && a in Held(procs[q])
  }

  predicate ReversalTaken(cfg: Config, procs: seq<Proc>, p: nat, target: string)
    requires |procs| == |cfg.requests|
  {
    exists q | 0 <= q < |procs| :: q != p && OwnsReversal(cfg, procs, q, target)
  }

  // ---- steps ----

  function Goto(s: State, p: nat, proc: Proc): State
    requires p < |s.procs|
  {
    s.(procs := s.procs[p := proc])
  }

  /** Everything before the first write: validation, and for a reversal the reads outside the transaction. */
  function Begin(cfg: Config, s: State, p: nat): State
    requires p < |s.procs| == |cfg.requests|
  {
    match cfg.requests[p]
    case TransferRequest(id, input) =>
      var built := BuildTransfer(input, id);
      Goto(s, p, if built.Err? then Done(Refused(built.error))
                 else if input.key == "" then Admitting(built.value)
                 else Claiming(built.value))
    case ReversalRequest(id, target) =>
      var built := BuildReversal(s.db, target, id);
      Goto(s, p, if built.Err? then Done(Refused(built.error)) else PreChecking(built.value))
    case OpenRequest(id, currency, ownerId) =>
      var (db, outcome) := Open(s.db, id, currency, ownerId);
      if outcome == AccountOpened
      then s.(db := db, procs := s.procs[p := Done(outcome)], history := s.history + [p])
      else Goto(s, p, Done(outcome))
  }

  /** The conflicting key row is committed; a replay commits a transaction that wrote nothing. */
  function ReadKey(cfg: Config, s: State, p: nat): State
    requires p < |s.procs| == |cfg.requests|
    requires cfg.requests[p].TransferRequest?
  {
    var input := cfg.requests[p].input;
    if input.key !in s.db.keys then Goto(s, p, Done(Refused(Internal(KeyDisappeared))))
    else
      var outcome := Replay(s.db.keys[input.key], Fingerprint(cfg.digest, input));
      if outcome.Success?
      then s.(procs := s.procs[p := Done(outcome)], history := s.history + [p])
      else Goto(s, p, Done(outcome))
  }

  /** One more balance row, or, with all rows locked, the posting loop over the locked rows. */
  function LockNext(cfg: Config, s: State, p: nat, j: Journal, taken: nat,
                    locked: map<string, BalanceRow>): Option<State>
    requires p < |s.procs| == |cfg.requests|
  {
    var order := LockOrder(j.postings);
    if taken < |order| then
      var a, row := order[taken], StoredId(order[taken]);
      if RowTaken(s.procs, p, row) then None
      else if row !in s.db.balances then Some(Goto(s, p, Done(Refused(Internal(NoBalanceRow)))))
      else Some(Goto(s, p, Locking(j, taken + 1, locked[a := s.db.balances[row]])))
    else
      var loop := RunLoop(cfg.digest, j.id, ById(s.db.accounts, j.postings), locked, j.postings);
      Some(Goto(s, p, if loop.Err? then Done(Refused(loop.error)) else Inserting(j, loop.value)))
  }

  function WritesOf(cfg: Config, request: Request, j: Journal, st: LoopState): Writes
    requires |j.postings| == |st.lines|
  {
    var o, receipt := OptionsOf(request), ReceiptOf(j, st.lines);
    Writes(JournalRow(j.id, j.currency, o.reverses), RowsOf(j.id, j.postings, st.lines), LockOrder(j.postings),
           st.running,
           OutboxEvent(o.eventType, receipt),
           if KeyOf(request) == "" then None
           else Some((KeyOf(request), KeyRow(Fingerprint(cfg.digest, request.input), Some(j.id), Some(receipt)))))
  }

  function ApplyWrites(db: Db, w: Writes): Db {
    Db(db.accounts, WriteRows(db.balances, w.order, w.balances), db.journals + [w.journal], db.postings + w.postings,
       db.outbox + [w.event],
       if w.key.None? then db.keys else db.keys[w.key.value.0 := w.key.value.1])
  }

  /** The next statement of request `p`; `None` while it waits for another transaction, or when it is finished.
      A refusal aborts: it gives up locks, key and reversal link, and keeps none of its writes. */
  function Advance(cfg: Config, s: State, p: nat): Option<State>
    requires p < |s.procs| == |cfg.requests|
  {
    var request := cfg.requests[p];
    match s.procs[p]
    case Idle => Some(Begin(cfg, s, p))
    case Claiming(j) =>
      if KeyTaken(cfg, s.procs, p, KeyOf(request)) then None
      else if KeyOf(request) in s.db.keys then Some(Goto(s, p, ReadingKey))
      else Some(Goto(s, p, Admitting(j)))
    case ReadingKey => if request.TransferRequest? then Some(ReadKey(cfg, s, p)) else None
    case PreChecking(j) =>
      var o := OptionsOf(request);
      Some(Goto(s, p, if o.reverses.Some? && HasReversal(s.db.journals, o.reverses.value)
                      then Done(Refused(AlreadyReversed)) else Admitting(j)))
    case Admitting(j) =>
      var denied := Admit(s.db.accounts, j, OptionsOf(request).requireOwner);
      Some(Goto(s, p, if denied.Some? then Done(Refused(denied.value)) else Locking(j, 0, map[])))
    case Locking(j, taken, locked) => LockNext(cfg, s, p, j, taken, locked)
    case Inserting(j, st) =>
      var reverses := OptionsOf(request).reverses;
      if reverses.Some? && ReversalTaken(cfg, s.procs, p, reverses.value) then None
      else if reverses.Some? && HasReversal(s.db.journals, reverses.value)
      then Some(Goto(s, p, Done(Refused(AlreadyReversed))))
      else Some(Goto(s, p, Appending(j, st, [])))
    case Appending(j, st, drawn) =>
      if |drawn| < |j.postings| then
        Some(Goto(s, p, Appending(j, st, drawn + [s.nextSeq])).(nextSeq := s.nextSeq + 1))
      else if |j.postings| == |st.lines| then
        Some(Goto(s, p, Committing(j, st, drawn, WritesOf(cfg, request, j, st), ReceiptOf(j, st.lines))))
      else None
    case Committing(j, st, drawn, w, receipt) =>
      Some(State(ApplyWrites(s.db, w), s.seqs + drawn, s.nextSeq, s.procs[p := Done(Success(receipt))],
        s.history + [p]))
    case Done(_) => None
    case Crashed => None
  }

  predicate Finished(proc: Proc) { proc.Done? || proc.Crashed? }

  /** A schedule names who moves next; `Crash` loses a connection at any point before commit. */
  datatype Action = Run(p: nat) | Crash(p: nat)

  function Take(cfg: Config, s: State, action: Action): Option<State>
    requires |s.procs| == |cfg.requests|
  {
    if action.p >= |s.procs| then None
    else
      match action
      case Run(p) => Advance(cfg, s, p)
      case Crash(p) => if Finished(s.procs[p]) then None else Some(Goto(s, p, Crashed))
  }

  function Start(cfg: Config): State {
    State(cfg.initial, cfg.seqs, cfg.nextSeq, seq(|cfg.requests|, _ => Idle), [])
  }

  /** The state after a schedule; a step that cannot be taken leaves the state as it is. */
  function Exec(cfg: Config, schedule: seq<Action>): (s: State)
    ensures |s.procs| == |cfg.requests|
  {
    if schedule == [] then Start(cfg)
    else
      var s := Exec(cfg, schedule[..|schedule| - 1]);
      var next := Take(cfg, s, schedule[|schedule| - 1]);
      if next.Some? then next.value else s
  }

  lemma {:induction false} ExecSnoc(cfg: Config, schedule: seq<Action>, action: Action)
    ensures
      var next := Take(cfg, Exec(cfg, schedule), action);
      Exec(cfg, schedule + [action]) == if next.Some? then next.value else Exec(cfg, schedule)
  {
    assert (schedule + [action])[..|schedule|] == schedule;
  }

  lemma {:induction false} ScheduleSnoc(schedule: seq<Action>, more: seq<Action>)
    requires more != []
    ensures schedule + more == schedule + more[..|more| - 1] + [more[|more| - 1]]
  {
  }

  // ---- the serial ledger ----

  predicate Indices(cfg: Config, history: seq<nat>) { forall i | 0 <= i < |history| :: history[i] < |cfg.requests| }

  /** The requests in `history`, served one at a time. */
  function Serial(cfg: Config, history: seq<nat>): Db
    requires Indices(cfg, history)
  {
    if history == [] then cfg.initial
    else
      var n := |history| - 1;
      Serve(cfg.digest, Serial(cfg, history[..n]), cfg.requests[history[n]]).0
  }

  // ---- assumptions about a run ----

  /** Postings of one account, and postings of one transaction, carry increasing seqs. */
  ghost predicate Ordered(postings: seq<PostingRow>, seqs: seq<nat>) {
    && |seqs| == |postings|
    && forall i, k | 0 <= i < k < |postings| :: Related(postings[i], postings[k]) ==> seqs[i] < seqs[k]
  }

  predicate Related(r: PostingRow, q: PostingRow) { r.accountId == q.accountId || r.transactionId == q.transactionId }

  /** A ledger to start from that keeps its tables, and fresh, pairwise distinct random ids. */
  ghost predicate WellFormed(cfg: Config) {
    && Kept(cfg.initial)
    && Ordered(cfg.initial.postings, cfg.seqs)
    && (forall i | 0 <= i < |cfg.seqs| :: cfg.seqs[i] < cfg.nextSeq)
    && (forall p | 0 <= p < |cfg.requests| :: FreshRequest(cfg.initial, cfg.requests[p]))
    && (forall p, q | 0 <= p < q < |cfg.requests| :: cfg.requests[p].id != cfg.requests[q].id)
  }

  /** Besides, a sound ledger to start from, and requests that name accounts as they are stored: what chains,
      floors, balances and receipts need, and locks, keys, seqs and the serial order do not. */
  ghost predicate Proper(cfg: Config) {
    && WellFormed(cfg) && Sound(cfg.digest, cfg.initial)
    && forall p | 0 <= p < |cfg.requests| :: NamesAsStored(cfg.requests[p])
  }
}
