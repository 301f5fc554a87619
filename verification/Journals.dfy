/** The balanced journal entry and its per-account fold
    (src/ledger/domain/journal-transaction.ts, balance-fold.ts, src/shared/kernel/money.ts). */
module Journals {
  import opened Wrappers

  /** One leg: an account and a signed amount of money. */
  datatype Posting = Posting(accountId: string, amount: int, currency: string)

  datatype Journal = Journal(id: string, currency: string, postings: seq<Posting>)

  datatype JournalError = Empty | CurrencyMismatch | ZeroAmountPosting | Unbalanced

  /** The currencies of the ledger. */
  predicate Supported(currency: string) { currency in {"USD", "EUR", "JPY"} }

  /** What an object literal answers to besides its own properties. */
  predicate Inherited(name: string) {
    name in {"constructor", "hasOwnProperty", "isPrototypeOf", "propertyIsEnumerable", "toLocaleString", "toString",
             "valueOf", "__proto__", "__defineGetter__", "__defineSetter__", "__lookupGetter__", "__lookupSetter__"}
  }

  /** `Currency.of`: the code of the currency that the lookup finds. An inherited property is found too; it has
      no code, which is written as the empty one here. */
  function CurrencyOf(name: string): Option<string> {
    if Supported(name) then Some(name) else if Inherited(name) then Some("") else None
  }

  function Total(ps: seq<Posting>): int {
    if ps == [] then 0 else Total(ps[..|ps| - 1]) + ps[|ps| - 1].amount
  }

  /** What the legs add to one account. */
  function Net(ps: seq<Posting>, accountId: string): int {
    if ps == [] then 0
    else
      var p := ps[|ps| - 1];
      Net(ps[..|ps| - 1], accountId) + if p.accountId == accountId then p.amount else 0
  }

  function LegDefect(p: Posting, currency: string): Option<JournalError> {
    if p.currency != currency then Some(CurrencyMismatch)
    else if p.amount == 0 then Some(ZeroAmountPosting)
    else None
  }

  /** The first leg, in order, that the constructor's loop rejects. */
  function FirstDefect(ps: seq<Posting>, currency: string): Option<JournalError> {
    if ps == [] then None
    else
      var before := FirstDefect(ps[..|ps| - 1], currency);
      if before.Some? then before else LegDefect(ps[|ps| - 1], currency)
  }

  function Create(id: string, ps: seq<Posting>): Result<Journal, JournalError> {
    if ps == [] then Err(Empty)
    else
      var currency := ps[0].currency;
      var defect := FirstDefect(ps, currency);
      if defect.Some? then Err(defect.value)
      else if Total(ps) != 0 then Err(Unbalanced)
      else Ok(Journal(id, currency, ps))
  }

  function CreateTransfer(id: string, from: string, to: string, amount: int, currency: string): Result<Journal,
                          JournalError> {
    Create(id, [Posting(from, -amount, currency), Posting(to, amount, currency)])
  }

  /** A double entry: at least one leg, one currency, no empty legs, nothing created or destroyed. */
  ghost predicate DoubleEntry(j: Journal) {
    && j.postings != []
    && (forall i | 0 <= i < |j.postings| :: j.postings[i].currency == j.currency && j.postings[i].amount != 0)
    && Total(j.postings) == 0
  }

  lemma {:induction false} FirstDefectIsFirst(ps: seq<Posting>, currency: string)
    ensures FirstDefect(ps, currency).None? <==> forall i | 0 <= i < |ps| :: LegDefect(ps[i], currency).None?
    ensures FirstDefect(ps, currency).Some? ==>
      exists k | 0 <= k < |ps| ::
        && LegDefect(ps[k], currency) == FirstDefect(ps, currency)
        && forall i | 0 <= i < k :: LegDefect(ps[i], currency).None?
  {
    if ps != [] {
      var n := |ps| - 1;
      FirstDefectIsFirst(ps[..n], currency);
      if FirstDefect(ps[..n], currency).Some? {
        var k :| 0 <= k < n && LegDefect(ps[..n][k], currency) == FirstDefect(ps[..n], currency)
          && forall i | 0 <= i < k :: LegDefect(ps[..n][i], currency).None?;
        assert LegDefect(ps[k], currency) == FirstDefect(ps, currency);
        forall i | 0 <= i < k ensures LegDefect(ps[i], currency).None? { assert ps[..n][i] == ps[i]; }
      } else {
        assert LegDefect(ps[n], currency) == FirstDefect(ps, currency);
        forall i | 0 <= i < n ensures LegDefect(ps[i], currency).None? { assert ps[..n][i] == ps[i]; }
      }
    }
  }

  /** The constructor builds a journal exactly from the double entries, and reports the first bad leg otherwise. */
  lemma CreateBuildsDoubleEntries(id: string, ps: seq<Posting>)
    ensures Create(id, ps).Ok? <==> ps != [] && DoubleEntry(Journal(id, ps[0].currency, ps))
    ensures Create(id, ps).Ok? ==> Create(id, ps).value == Journal(id, ps[0].currency, ps)
    ensures Create(id, ps) == Err(Empty) <==> ps == []
    ensures Create(id, ps) == Err(Unbalanced) <==>
      ps != [] && Total(ps) != 0 && forall i | 0 <= i < |ps| :: ps[i].currency == ps[0].currency && ps[i].amount != 0
    ensures Create(id, ps) in {Err(CurrencyMismatch), Err(ZeroAmountPosting)} ==>
      exists k | 0 <= k < |ps| ::
        && LegDefect(ps[k], ps[0].currency) == Some(Create(id, ps).error)
        && forall i | 0 <= i < k :: LegDefect(ps[i], ps[0].currency).None?
  {
    if ps != [] { FirstDefectIsFirst(ps, ps[0].currency); }
  }

  lemma TransferMovesAmount(id: string, from: string, to: string, amount: int, currency: string)
    ensures CreateTransfer(id, from, to, amount, currency).Ok? <==> amount != 0
    ensures amount != 0 ==>
      var j := CreateTransfer(id, from, to, amount, currency).value;
      && DoubleEntry(j)
      && (from != to ==> Net(j.postings, from) == -amount && Net(j.postings, to) == amount)
      && forall a | a != from && a != to :: Net(j.postings, a) == 0
  {
    var ps := [Posting(from, -amount, currency), Posting(to, amount, currency)];
    assert ps[..1] == [ps[0]] && ps[..1][..0] == [];
    CreateBuildsDoubleEntries(id, ps);
    assert Total(ps[..1]) == -amount;
    assert LegDefect(ps[0], currency).None? <==> amount != 0;
    forall a ensures Net(ps, a) == (if a == from then -amount else 0) + (if a == to then amount else 0) {
      assert Net(ps[..1], a) == if a == from then -amount else 0;
    }
    if amount != 0 {
      assert DoubleEntry(Journal(id, currency, ps));
    }
  }

  /** The legs of a compensating entry. */
  function Negated(ps: seq<Posting>): (r: seq<Posting>)
    ensures |r| == |ps|
  {
    seq(|ps|, i requires 0 <= i < |ps| => ps[i].(amount := -ps[i].amount))
  }

  lemma {:induction false} NegatedNets(ps: seq<Posting>, accountId: string)
    ensures Net(Negated(ps), accountId) == -Net(ps, accountId)
    ensures Total(Negated(ps)) == -Total(ps)
  {
    if ps != [] {
      NegatedNets(ps[..|ps| - 1], accountId);
      assert Negated(ps)[..|ps| - 1] == Negated(ps[..|ps| - 1]);
    }
  }

  /** A double entry can always be compensated. */
  lemma NegatedIsDoubleEntry(j: Journal, id: string)
    requires DoubleEntry(j)
    ensures Create(id, Negated(j.postings)) == Ok(Journal(id, j.currency, Negated(j.postings)))
    ensures DoubleEntry(Journal(id, j.currency, Negated(j.postings)))
  {
    NegatedNets(j.postings, "");
    CreateBuildsDoubleEntries(id, Negated(j.postings));
    assert DoubleEntry(Journal(id, j.currency, Negated(j.postings)));
  }

  method FoldByAccount(ps: seq<Posting>) returns (balances: map<string, int>)
    ensures forall a :: a in balances <==> exists i | 0 <= i < |ps| :: ps[i].accountId == a
    ensures forall a | a in balances :: balances[a] == Net(ps, a)
  {
    balances := map[];
    var i := 0;
    while i < |ps|
      invariant 0 <= i <= |ps|
      invariant forall a :: a in balances <==> exists k | 0 <= k < i :: ps[k].accountId == a
      invariant forall a :: Net(ps[..i], a) == if a in balances then balances[a] else 0
    {
      var key := ps[i].accountId;
      assert ps[..i + 1][..i] == ps[..i];
      balances := balances[key := (if key in balances then balances[key] else 0) + ps[i].amount];
      i := i + 1;
    }
    assert ps[..i] == ps;
  }
}
