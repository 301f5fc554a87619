/** The ledger as the code runs it: repositories over mutable tables, the poster's loops, and the three
    services' units of work with rollback. Every method is proved against its sequential specification in
    Ledger.dfy. */
module Store {
  import opened Wrappers
  import opened Text
  import opened HashChain
  import opened Journals
  import opened Ledger

  datatype Claim = Owned | Taken(row: KeyRow)

  /** The next `n` values of the identity column. */
  function Drawn(from: nat, n: nat): (s: seq<nat>)
    ensures |s| == n && forall i | 0 <= i < n :: s[i] == from + i
  {
    seq(n, i => from + i)
  }

  lemma StillNumbered(seqs: seq<nat>, next: nat, n: nat)
    requires forall i, k | 0 <= i < k < |seqs| :: seqs[i] < seqs[k]
    requires forall i | 0 <= i < |seqs| :: seqs[i] < next
    ensures forall i, k | 0 <= i < k < |seqs| + n :: (seqs + Drawn(next, n))[i] < (seqs + Drawn(next, n))[k]
    ensures forall i | 0 <= i < |seqs| + n :: (seqs + Drawn(next, n))[i] < next + n
  {
  }

  // ---- prefixes of loops that stop early ----

  lemma {:induction false} CheckStops(accounts: map<string, Account>, currency: string, ps: seq<Posting>, n: nat)
    requires n <= |ps| && CheckAccounts(accounts, currency, ps[..n]).Some?
    ensures CheckAccounts(accounts, currency, ps) == CheckAccounts(accounts, currency, ps[..n])
  {
    if n < |ps| {
      assert ps[..|ps| - 1][..n] == ps[..n];
      CheckStops(accounts, currency, ps[..|ps| - 1], n);
    } else {
      assert ps[..n] == ps;
    }
  }

  lemma {:induction false} LoopStops(digest: Digest, id: string, byId: map<string, Account>,
                                     start: map<string, BalanceRow>, ps: seq<Posting>, n: nat)
    requires n <= |ps| && RunLoop(digest, id, byId, start, ps[..n]).Err?
    ensures RunLoop(digest, id, byId, start, ps) == RunLoop(digest, id, byId, start, ps[..n])
  {
    if n < |ps| {
      assert ps[..|ps| - 1][..n] == ps[..n];
      LoopStops(digest, id, byId, start, ps[..|ps| - 1], n);
    } else {
      assert ps[..n] == ps;
    }
  }

  lemma LoopGrows(digest: Digest, id: string, byId: map<string, Account>, start: map<string, BalanceRow>,
                  ps: seq<Posting>, n: nat)
    requires n < |ps| && RunLoop(digest, id, byId, start, ps[..n]).Ok?
    ensures RunLoop(digest, id, byId, start, ps[..n + 1]) ==
            PostLeg(digest, id, byId, RunLoop(digest, id, byId, start, ps[..n]).value, ps[n])
  {
    assert ps[..n + 1][..n] == ps[..n];
  }

  lemma LegStops(digest: Digest, id: string, byId: map<string, Account>, start: map<string, BalanceRow>,
                 ps: seq<Posting>, n: nat, st: LoopState)
    requires n < |ps| && RunLoop(digest, id, byId, start, ps[..n]) == Ok(st)
    requires PostLeg(digest, id, byId, st, ps[n]).Err?
    ensures RunLoop(digest, id, byId, start, ps) == PostLeg(digest, id, byId, st, ps[n])
  {
    LoopGrows(digest, id, byId, start, ps, n);
    LoopStops(digest, id, byId, start, ps, n + 1);
  }

  lemma LoopEnds(digest: Digest, id: string, byId: map<string, Account>, start: map<string, BalanceRow>,
                 ps: seq<Posting>, n: nat)
    requires n == |ps|
    ensures RunLoop(digest, id, byId, start, ps[..n]) == RunLoop(digest, id, byId, start, ps)
  {
    assert ps[..n] == ps;
  }

  lemma FloorRead(byId: map<string, Account>, text: string)
    ensures FloorOf(byId, text) == if text in FloorsOf(byId) then FloorsOf(byId)[text] else None
  {
  }

  // ---- the poster's two halves ----

  function Prepared(digest: Digest, accounts: map<string, Account>, balances: map<string, BalanceRow>, j: Journal,
                    requireOwner: Option<string>): (r: Result<LoopState, Failure>)
    ensures r.Ok? ==> |r.value.lines| == |j.postings| && r.value.running.Keys == Involved(j.postings)
  {
    var denied := Admit(accounts, j, requireOwner);
    if denied.Some? then Err(denied.value)
    else if !(Rows(Involved(j.postings)) <= balances.Keys) then Err(Internal(NoBalanceRow))
    else
      AllLocked(balances, Involved(j.postings));
      RunLoop(digest, j.id, ById(accounts, j.postings), LockedRows(balances, Involved(j.postings)), j.postings)
  }

  lemma AllLocked(balances: map<string, BalanceRow>, ids: set<string>)
    requires Rows(ids) <= balances.Keys
    ensures LockedRows(balances, ids).Keys == ids
  {
    forall a | a in ids ensures StoredId(a) in balances { assert StoredId(a) in Rows(ids); }
  }

  /** The ids among the first `n`. */
  function Among(ids: seq<string>, n: nat): set<string>
    requires n <= |ids|
  {
    set i | 0 <= i < n :: ids[i]
  }

  lemma AmongGrows(ids: seq<string>, n: nat)
    requires n < |ids|
    ensures Among(ids, n + 1) == Among(ids, n) + {ids[n]}
  {
  }

  lemma LockedGrows(balances: map<string, BalanceRow>, ids: set<string>, a: string)
    requires Rows(ids) <= balances.Keys && StoredId(a) in balances
    ensures Rows(ids + {a}) <= balances.Keys
    ensures LockedRows(balances, ids + {a}) == LockedRows(balances, ids)[a := balances[StoredId(a)]]
  {
  }

  lemma AmongSorted(ids: seq<string>)
    ensures Among(SortedDistinct(ids), |SortedDistinct(ids)|) == set id | id in ids
  {
    var ordered := SortedDistinct(ids);
    forall a ensures a in Among(ordered, |ordered|) <==> a in ids { assert a in ordered <==> a in ids; }
  }

  lemma OrderOfLegs(ps: seq<Posting>)
    ensures LockOrder(ps) == SortedDistinct(AccountIds(ps))
    ensures forall a | a in LockOrder(ps) :: a in Involved(ps)
  {
  }

  lemma PostIsPrepareThenWrite(digest: Digest, db: Db, j: Journal, o: PostOptions)
    ensures
      match Prepared(digest, db.accounts, db.balances, j, o.requireOwner)
      case Err(failure) => Post(digest, db, j, o) == Err(failure)
      case Ok(st) =>
        Post(digest, db, j, o) ==
        if o.reverses.Some? && HasReversal(db.journals, o.reverses.value) then Err(AlreadyReversed)
        else Ok((Written(db, j, o, st), ReceiptOf(j, st.lines)))
  {
  }

  /** Does answer `r` with tables `now` agree with what the reference makes of tables `before`? */
  ghost predicate Posted(before: Db, reference: Result<(Db, Receipt), Failure>, r: Result<Receipt, Failure>, now: Db) {
    match reference
    case Ok((after, receipt)) => r == Ok(receipt) && now == after
    case Err(failure) => r == Err(failure) && now == before
  }

  lemma IdsAreInvolved(ps: seq<Posting>)
    ensures (set id | id in AccountIds(ps)) == Involved(ps)
    ensures forall a :: a in AccountIds(ps) <==> a in Involved(ps)
  {
    forall a | a in Involved(ps) ensures a in AccountIds(ps) {
      var i :| 0 <= i < |ps| && ps[i].accountId == a;
      assert AccountIds(ps)[i] == a;
    }
  }

  /** The poster neither reads nor writes key rows. */
  lemma PostIgnoresKeys(digest: Digest, db: Db, db': Db, j: Journal, o: PostOptions)
    requires db' == db.(keys := db'.keys)
    ensures
      match Ledger.Post(digest, db, j, o)
      case Ok((after, receipt)) =>
        Ledger.Post(digest, db', j, o) == Ok((after.(keys := db'.keys), receipt)) && after.keys == db.keys
      case Err(failure) => Ledger.Post(digest, db', j, o) == Err(failure)
  {
  }

  /** What `run` starts posting from. */
  function Claimed(digest: Digest, db: Db, input: TransferInput): Db {
    if input.key == "" then db else WithKey(db, input.key, KeyRow(Fingerprint(digest, input), None, None))
  }

  /** A claim that is completed is the row the reference writes at once. */
  lemma CompletedClaim(keys: map<string, KeyRow>, key: string, fingerprint: string, row: KeyRow)
    ensures keys[key := KeyRow(fingerprint, None, None)][key := row] == keys[key := row]
  {
  }

  /** Posting under a fresh claim and completing it is the reference transfer. */
  lemma ClaimThenPost(digest: Digest, db: Db, j: Journal, input: TransferInput)
    requires BuildTransfer(input, j.id) == Ok(j)
    requires input.key == "" || input.key !in db.keys
    ensures
      match Post(digest, Claimed(digest, db, input), j, TransferOptions(input))
      case Ok((after, receipt)) =>
        && after.keys == Claimed(digest, db, input).keys
        && Transfer(digest, db, j.id, input) ==
           (if input.key == "" then after
            else WithKey(after, input.key, KeyRow(Fingerprint(digest, input), Some(j.id), Some(receipt))),
            Success(receipt))
      case Err(failure) => Transfer(digest, db, j.id, input) == (db, Refused(failure))
  {
    PostIgnoresKeys(digest, db, Claimed(digest, db, input), j, TransferOptions(input));
    var posted := Post(digest, db, j, TransferOptions(input));
    if posted.Ok? {
      CompletedClaim(db.keys, input.key, Fingerprint(digest, input),
                     KeyRow(Fingerprint(digest, input), Some(j.id), Some(posted.value.1)));
    }
  }

  class LedgerStore {
    const digest: Digest
    var accounts: map<string, Account>
    var balances: map<string, BalanceRow>
    var journals: seq<JournalRow>
    var postings: seq<PostingRow>
    var outbox: seq<OutboxEvent>
    var keys: map<string, KeyRow>
    /** The identity column of `postings`, and the sequence behind it. */
    var seqs: seq<nat>
    var nextSeq: nat

    function Tables(): Db
      reads this
    {
      Db(accounts, balances, journals, postings, outbox, keys)
    }

    /** Every posting row carries a number of its own, rising in commit order and below the next to be drawn. */
    ghost predicate Numbered()
      reads this
    {
      && |seqs| == |postings|
      && (forall i, k | 0 <= i < k < |seqs| :: seqs[i] < seqs[k])
      && forall i | 0 <= i < |seqs| :: seqs[i] < nextSeq
    }

    /** The migrated, empty ledger with its seeded accounts. */
    constructor (digest: Digest, seeded: map<string, Account>)
      ensures this.digest == digest && Numbered()
      ensures Tables() == Db(seeded, map a | a in seeded :: BalanceRow(0, None), [], [], [], map[])
    {
      this.digest := digest;
      accounts, balances := seeded, map a | a in seeded :: BalanceRow(0, None);
      journals, postings, outbox, keys := [], [], [], map[];
      seqs, nextSeq := [], 1;
    }

    // ---- account balances ----

    /** The primary key refuses a second row. */
    method Initialize(id: string) returns (ok: bool)
      modifies this`balances
      ensures ok <==> id !in old(balances)
      ensures balances == if ok then old(balances)[id := BalanceRow(0, None)] else old(balances)
    {
      ok := id !in balances;
      if ok { balances := balances[id := BalanceRow(0, None)]; }
    }

    method UpdateBalance(text: string, balance: int, chainHash: Option<string>)
      modifies this`balances
      ensures balances ==
        if StoredId(text) in old(balances)
        then old(balances)[StoredId(text) := BalanceRow(balance, chainHash)]
        else old(balances)
    {
      if StoredId(text) in balances { balances := balances[StoredId(text) := BalanceRow(balance, chainHash)]; }
    }

    /** Reads the rows of the distinct ids in lock order, each under the text it was asked for; fails on the
        first id without a row. */
    method LockForUpdate(ids: seq<string>) returns (r: Result<map<string, BalanceRow>, Failure>)
      ensures r ==
        if Rows(set id | id in ids) <= balances.Keys
        then Ok(LockedRows(balances, set id | id in ids))
        else Err(Internal(NoBalanceRow))
    {
      var ordered := SortedDistinct(ids);
      var locked: map<string, BalanceRow> := map[];
      var i := 0;
      AmongSorted(ids);
      while i < |ordered|
        invariant 0 <= i <= |ordered|
        invariant Rows(Among(ordered, i)) <= balances.Keys
        invariant locked == LockedRows(balances, Among(ordered, i))
      {
        var id := ordered[i];
        if StoredId(id) !in balances {
          assert id in Among(ordered, |ordered|);
          return Err(Internal(NoBalanceRow));
        }
        AmongGrows(ordered, i);
        LockedGrows(balances, Among(ordered, i), id);
        locked := locked[id := balances[StoredId(id)]];
        i := i + 1;
      }
      r := Ok(locked);
    }

    // ---- journals ----

    /** The unique constraint on reversal links refuses before anything is written. */
    method AppendJournal(j: Journal, lines: seq<Line>, reverses: Option<string>) returns (ok: bool)
      requires |lines| == |j.postings|
      modifies this`journals, this`postings, this`seqs, this`nextSeq
      ensures ok <==> !(reverses.Some? && HasReversal(old(journals), reverses.value))
      ensures ok ==> journals == old(journals) + [JournalRow(j.id, j.currency, reverses)]
      ensures ok ==> postings == old(postings) + RowsOf(j.id, j.postings, lines)
      ensures ok ==> seqs == old(seqs) + Drawn(old(nextSeq), |lines|) && nextSeq == old(nextSeq) + |lines|
      ensures !ok ==>
        journals == old(journals) && postings == old(postings) && seqs == old(seqs) && nextSeq == old(nextSeq)
    {
      if reverses.Some? && HasReversal(journals, reverses.value) { return false; }
      journals := journals + [JournalRow(j.id, j.currency, reverses)];
      postings := postings + RowsOf(j.id, j.postings, lines);
      seqs := seqs + Drawn(nextSeq, |lines|);
      nextSeq := nextSeq + |lines|;
      ok := true;
    }

    // ---- idempotency keys ----

    method ClaimKey(key: string, fingerprint: string) returns (claim: Claim)
      modifies this`keys
      ensures key in old(keys) ==> claim == Taken(old(keys)[key]) && keys == old(keys)
      ensures key !in old(keys) ==> claim == Owned && keys == old(keys)[key := KeyRow(fingerprint, None, None)]
    {
      if key in keys { return Taken(keys[key]); }
      keys := keys[key := KeyRow(fingerprint, None, None)];
      claim := Owned;
    }

    method CompleteKey(key: string, transactionId: string, response: Receipt)
      modifies this`keys
      ensures keys ==
        if key in old(keys)
        then old(keys)[key := KeyRow(old(keys)[key].fingerprint, Some(transactionId), Some(response))]
        else old(keys)
    {
      if key in keys {
        keys := keys[key := keys[key].(transactionId := Some(transactionId), response := Some(response))];
      }
    }

    // ---- the poster ----

    /** The account loop: stops at the first bad account, otherwise files `floors` and `byId` under stored ids. */
    method ReadAccounts(ps: seq<Posting>, currency: string)
      returns (denied: Option<Failure>, floors: map<string, Option<int>>, byId: map<string, Account>)
      ensures denied == CheckAccounts(accounts, currency, ps)
      ensures denied.None? ==> byId == ById(accounts, ps) && floors == FloorsOf(byId)
    {
      floors, byId := map[], map[];
      var i := 0;
      while i < |ps|
        invariant 0 <= i <= |ps|
        invariant CheckAccounts(accounts, currency, ps[..i]).None?
        invariant byId == ById(accounts, ps[..i]) && floors == FloorsOf(byId)
      {
        assert ps[..i + 1][..i] == ps[..i];
        var found := FindAccount(accounts, ps[i].accountId);
        if found.None? {
          CheckStops(accounts, currency, ps, i + 1);
          return Some(UnknownAccount), floors, byId;
        }
        var account := found.value;
        if account.currency != currency {
          CheckStops(accounts, currency, ps, i + 1);
          return Some(AccountCurrencyMismatch), floors, byId;
        }
        floors := floors[account.id := account.floor];
        byId := byId[account.id := account];
        i := i + 1;
      }
      assert ps[..i] == ps;
      denied := None;
    }

    /** The ownership loop over the debits: a text that is not a key of `byId` is passed over. */
    method OwnsDebits(ps: seq<Posting>, byId: map<string, Account>, owner: string) returns (ok: bool)
      ensures ok <==> OwnsAllDebits(byId, owner, ps)
    {
      var i := 0;
      while i < |ps|
        invariant 0 <= i <= |ps|
        invariant forall k | 0 <= k < i :: !ForeignDebit(byId, owner, ps[k])
      {
        if ps[i].amount < 0 && ps[i].accountId in byId {
          var source := byId[ps[i].accountId];
          if !source.system && source.owner != Some(owner) {
            assert ForeignDebit(byId, owner, ps[i]);
            return false;
          }
        }
        i := i + 1;
      }
      ok := true;
    }

    /** One leg: floor check, new balance, chain link. */
    method PostNext(id: string, p: Posting, floors: map<string, Option<int>>, st: LoopState,
                    ghost byId: map<string, Account>)
      returns (r: Result<LoopState, Failure>)
      requires floors == FloorsOf(byId)
      ensures r == PostLeg(digest, id, byId, st, p)
    {
      var key := p.accountId;
      if key !in st.running { return Err(UnknownAccount); }
      var state := st.running[key];
      FloorRead(byId, key);
      if !IsSufficient(state.balance, p.amount, if key in floors then floors[key] else None) {
        return Err(InsufficientFunds);
      }
      var balanceAfter := state.balance + p.amount;
      var hash := HashPosting(digest, state.chainHash, Content(id, key, p.amount, balanceAfter));
      var line := Line(balanceAfter, state.chainHash, hash);
      r := Ok(LoopState(st.lines + [line], st.running[key := BalanceRow(balanceAfter, Some(hash))]));
    }

    /** The posting loop, up to the first leg that fails. */
    method PostLegs(j: Journal, floors: map<string, Option<int>>, locked: map<string, BalanceRow>,
                    ghost byId: map<string, Account>)
      returns (r: Result<LoopState, Failure>)
      requires floors == FloorsOf(byId)
      ensures r == RunLoop(digest, j.id, byId, locked, j.postings)
    {
      var st := LoopState([], locked);
      var i := 0;
      while i < |j.postings|
        invariant 0 <= i <= |j.postings|
        invariant RunLoop(digest, j.id, byId, locked, j.postings[..i]) == Ok(st)
      {
        var next := PostNext(j.id, j.postings[i], floors, st, byId);
        if next.Err? {
          LegStops(digest, j.id, byId, locked, j.postings, i, st);
          return next;
        }
        LoopGrows(digest, j.id, byId, locked, j.postings, i);
        st := next.value;
        i := i + 1;
      }
      LoopEnds(digest, j.id, byId, locked, j.postings, i);
      r := Ok(st);
    }

    /** Writes every running row back, in the order in which the rows were locked. */
    method WriteBalances(order: seq<string>, running: map<string, BalanceRow>)
      requires forall a | a in order :: a in running
      modifies this`balances
      ensures balances == WriteRows(old(balances), order, running)
    {
      var i := 0;
      while i < |order|
        invariant 0 <= i <= |order|
        invariant balances == WriteRows(old(balances), order[..i], running)
      {
        assert order[..i + 1][..i] == order[..i] && order[i] in order;
        UpdateBalance(order[i], running[order[i]].balance, running[order[i]].chainHash);
        i := i + 1;
      }
      assert order[..i] == order;
    }

    /** Everything `post` decides before it writes: admission, locks, and the posting loop. */
    method Prepare(j: Journal, o: PostOptions) returns (r: Result<LoopState, Failure>)
      ensures r == Prepared(digest, accounts, balances, j, o.requireOwner)
    {
      var denied, floors, byId := ReadAccounts(j.postings, j.currency);
      if denied.Some? { return Err(denied.value); }
      if o.requireOwner.Some? {
        var owns := OwnsDebits(j.postings, byId, o.requireOwner.value);
        if !owns { return Err(NotAccountOwner); }
      }
      IdsAreInvolved(j.postings);
      var locked := LockForUpdate(AccountIds(j.postings));
      if locked.Err? { return Err(locked.error); }
      r := PostLegs(j, floors, locked.value, byId);
    }

    /** Everything it writes: journal and postings, balances, then the event. */
    method Write(j: Journal, o: PostOptions, st: LoopState) returns (ok: bool)
      requires |st.lines| == |j.postings| && st.running.Keys == Involved(j.postings)
      modifies this
      ensures ok <==> !(o.reverses.Some? && HasReversal(old(journals), o.reverses.value))
      ensures ok ==> Tables() == Written(old(Tables()), j, o, st)
      ensures ok ==> seqs == old(seqs) + Drawn(old(nextSeq), |j.postings|) && nextSeq == old(nextSeq) + |j.postings|
      ensures !ok ==> Tables() == old(Tables()) && seqs == old(seqs) && nextSeq == old(nextSeq)
    {
      ok := AppendJournal(j, st.lines, o.reverses);
      if !ok { return; }
      OrderOfLegs(j.postings);
      WriteBalances(LockOrder(j.postings), st.running);
      outbox := outbox + [OutboxEvent(o.eventType, ReceiptOf(j, st.lines))];
    }

    method Post(j: Journal, o: PostOptions) returns (r: Result<Receipt, Failure>)
      requires Numbered()
      modifies this
      ensures Posted(old(Tables()), Ledger.Post(digest, old(Tables()), j, o), r, Tables())
      ensures seqs == old(seqs) + Drawn(old(nextSeq), if r.Ok? then |j.postings| else 0)
      ensures nextSeq == old(nextSeq) + if r.Ok? then |j.postings| else 0
      ensures Numbered()
    {
      ghost var before, drawn, next := Tables(), seqs, nextSeq;
      PostIsPrepareThenWrite(digest, before, j, o);
      var loop := Prepare(j, o);
      if loop.Err? { return Err(loop.error); }
      var written := Write(j, o, loop.value);
      if !written { return Err(AlreadyReversed); }
      assert |postings| == |before.postings| + |j.postings|;
      StillNumbered(drawn, next, |j.postings|);
      r := Ok(ReceiptOf(j, loop.value.lines));
    }

    // ---- units of work ----

    /** Rolling back restores every table; the sequence keeps what it has handed out. */
    method Rollback(saved: Db, savedSeqs: seq<nat>)
      modifies this
      ensures Tables() == saved && seqs == savedSeqs && nextSeq == old(nextSeq)
    {
      accounts, balances, journals := saved.accounts, saved.balances, saved.journals;
      postings, outbox, keys, seqs := saved.postings, saved.outbox, saved.keys, savedSeqs;
    }

    /** `run`: post under the claimed key and complete it, or roll everything back. */
    method Run(journal: Journal, input: TransferInput, fingerprint: string) returns (outcome: Outcome)
      requires fingerprint == Fingerprint(digest, input)
      requires BuildTransfer(input, journal.id) == Ok(journal)
      requires Numbered()
      modifies this
      ensures (Tables(), outcome) == Ledger.Transfer(digest, old(Tables()), journal.id, input)
      ensures outcome.Refused? ==> Tables() == old(Tables()) && seqs == old(seqs)
      ensures Numbered() && old(seqs) <= seqs && old(nextSeq) <= nextSeq
    {
      var saved, savedSeqs := Tables(), seqs;
      if input.key != "" {
        var claim := ClaimKey(input.key, fingerprint);
        if claim.Taken? { return Replay(claim.row, fingerprint); }
        assert Tables() == WithKey(saved, input.key, KeyRow(fingerprint, None, None));
      }
      ClaimThenPost(digest, saved, journal, input);
      var posted := Post(journal, TransferOptions(input));
      if posted.Err? {
        Rollback(saved, savedSeqs);
        return Refused(posted.error);
      }
      ghost var after := Tables();
      if input.key != "" {
        CompleteKey(input.key, journal.id, posted.value);
        assert Tables() == WithKey(after, input.key, KeyRow(fingerprint, Some(journal.id), Some(posted.value)));
      }
      outcome := Success(posted.value);
    }

    method Transfer(id: string, input: TransferInput) returns (outcome: Outcome)
      requires Numbered()
      modifies this
      ensures (Tables(), outcome) == Ledger.Transfer(digest, old(Tables()), id, input)
      ensures outcome.Refused? ==> Tables() == old(Tables()) && seqs == old(seqs)
      ensures Numbered() && old(seqs) <= seqs && old(nextSeq) <= nextSeq
    {
      var built := BuildTransfer(input, id);
      if built.Err? { return Refused(built.error); }
      outcome := Run(built.value, input, Fingerprint(digest, input));
    }

    method Reverse(id: string, target: string) returns (outcome: Outcome)
      requires Numbered()
      modifies this
      ensures (Tables(), outcome) == Ledger.Reverse(digest, old(Tables()), id, target)
      ensures outcome.Refused? ==> Tables() == old(Tables()) && seqs == old(seqs)
      ensures Numbered() && old(seqs) <= seqs && old(nextSeq) <= nextSeq
    {
      var built := BuildReversal(Tables(), target, id);
      if built.Err? { return Refused(built.error); }
      if HasReversal(journals, StoredId(target)) { return Refused(AlreadyReversed); }
      var posted := Post(built.value, ReversalOptions(target));
      outcome := if posted.Err? then Refused(posted.error) else Success(posted.value);
    }

    method Open(id: string, currency: string, ownerId: string) returns (outcome: Outcome)
      modifies this
      ensures (Tables(), outcome) == Ledger.Open(old(Tables()), id, currency, ownerId)
      ensures seqs == old(seqs) && nextSeq == old(nextSeq)
    {
      if CurrencyOf(currency).None? { return Refused(UnknownCurrency); }
      if !Supported(currency) { return Refused(Internal(NoCurrencyCode)); }
      if id in accounts { return Refused(Internal(DuplicateId)); }
      var saved := Tables();
      accounts := accounts[id := Account(id, false, currency, Some(0), Some(ownerId))];
      var ok := Initialize(id);
      if !ok {
        Rollback(saved, seqs);
        return Refused(Internal(DuplicateId));
      }
      outcome := AccountOpened;
    }
  }
}
