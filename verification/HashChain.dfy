/** The per-account hash chain (src/ledger/domain/hash-chain.ts).

    SHA-256 is an arbitrary function `digest`; nothing here assumes that it is injective. A claim that
    needs collision resistance ends in "or these two concrete pre-images collide", where the two
    pre-images come from the chains in question. */
module HashChain {
  import opened Wrappers
  import opened Text

  type Digest = string -> string

  /** What `createHash('sha256')...digest('hex')` guarantees about its output. */
  ghost predicate HexDigest(digest: Digest) {
    forall x :: |digest(x)| == 64 && forall i | 0 <= i < 64 :: Digit(digest(x)[i]) || 'a' <= digest(x)[i] <= 'f'
  }

  datatype Content = Content(transactionId: string, accountId: string, amount: int, balanceAfter: int)

  datatype Entry = Entry(prevHash: Option<string>, hash: string, content: Content)

  datatype Verification = Verification(valid: bool, brokenAtIndex: Option<nat>)

  function PreImage(prevHash: Option<string>, c: Content): string {
    Join([TextOf(prevHash), c.transactionId, c.accountId, Print(c.amount), Print(c.balanceAfter)])
  }

  function HashPosting(digest: Digest, prevHash: Option<string>, c: Content): string {
    digest(PreImage(prevHash, c))
  }

  /** The ids of a row are UUIDs, so they hold no separator. */
  predicate PlainIds(c: Content) { NoBar(c.transactionId) && NoBar(c.accountId) }

  /** A digest is never empty, so `null ?? ''` cannot be confused with a stored hash. */
  predicate StoredHash(prevHash: Option<string>) { prevHash.Some? ==> prevHash.value != "" }

  function TextOf(prevHash: Option<string>): string { if prevHash.Some? then prevHash.value else "" }

  /** The text that is hashed, with the numbers in decimal. */
  lemma PreImageText(prevHash: Option<string>, c: Content, amount: string, balance: string)
    requires Denotes(amount, c.amount) && Denotes(balance, c.balanceAfter)
    ensures PreImage(prevHash, c) ==
      TextOf(prevHash) + "|" + c.transactionId + "|" + c.accountId + "|" + amount + "|" + balance
  {
    PrintDenotes(amount, c.amount);
    PrintDenotes(balance, c.balanceAfter);
    JoinFive(TextOf(prevHash), c.transactionId, c.accountId, amount, balance);
  }

  /** On content without separators the encoding confuses nothing but `null` with the empty text. */
  lemma PreImageExactly(p: Option<string>, c: Content, q: Option<string>, d: Content)
    requires PlainIds(c) && PlainIds(d)
    ensures PreImage(p, c) == PreImage(q, d) <==> c == d && TextOf(p) == TextOf(q)
  {
    if PreImage(p, c) == PreImage(q, d) {
      var a := [TextOf(p), c.transactionId, c.accountId, Print(c.amount), Print(c.balanceAfter)];
      var b := [TextOf(q), d.transactionId, d.accountId, Print(d.amount), Print(d.balanceAfter)];
      PrintNoBar(c.amount); PrintNoBar(c.balanceAfter);
      PrintNoBar(d.amount); PrintNoBar(d.balanceAfter);
      JoinInjective(a, b);
      assert a[0] == b[0] && a[1] == b[1] && a[2] == b[2] && a[3] == b[3] && a[4] == b[4];
      PrintInjective(c.amount, d.amount);
      PrintInjective(c.balanceAfter, d.balanceAfter);
    }
  }

  lemma PreImageInjective(p: Option<string>, c: Content, q: Option<string>, d: Content)
    requires PlainIds(c) && PlainIds(d) && StoredHash(p) && StoredHash(q)
    requires PreImage(p, c) == PreImage(q, d)
    ensures p == q && c == d
  {
    PreImageExactly(p, c, q, d);
  }

  /** The stored hash of the entry before position `i`; `null` at genesis. */
  function PrevOf(es: seq<Entry>, i: nat): Option<string>
    requires i <= |es|
  {
    if i == 0 then None else Some(es[i - 1].hash)
  }

  function Head(es: seq<Entry>): Option<string> { PrevOf(es, |es|) }

  predicate LinkHolds(digest: Digest, es: seq<Entry>, i: nat)
    requires i < |es|
  {
    es[i].prevHash == PrevOf(es, i) && es[i].hash == HashPosting(digest, PrevOf(es, i), es[i].content)
  }

  predicate ValidChain(digest: Digest, es: seq<Entry>) {
    forall i | 0 <= i < |es| :: LinkHolds(digest, es, i)
  }

  /** `at` is the first position whose link or hash fails. */
  ghost predicate FirstDivergence(digest: Digest, es: seq<Entry>, at: Option<nat>) {
    match at
    case None => ValidChain(digest, es)
    case Some(i) => i < |es| && !LinkHolds(digest, es, i) && ValidChain(digest, es[..i])
  }

  /** The verification loop as a function, for callers that are expressions. */
  function Verify(digest: Digest, es: seq<Entry>): Verification {
    var at := FirstBroken(digest, es, 0);
    Verification(at.None?, at)
  }

  function FirstBroken(digest: Digest, es: seq<Entry>, from: nat): (at: Option<nat>)
    requires from <= |es|
    ensures at.None? ==> forall i | from <= i < |es| :: LinkHolds(digest, es, i)
    ensures at.Some? ==> from <= at.value < |es| && !LinkHolds(digest, es, at.value)
    ensures at.Some? ==> forall i | from <= i < at.value :: LinkHolds(digest, es, i)
    decreases |es| - from
  {
    if from == |es| then None
    else if !LinkHolds(digest, es, from) then Some(from)
    else FirstBroken(digest, es, from + 1)
  }

  lemma PrefixLinks(digest: Digest, es: seq<Entry>, n: nat)
    requires n <= |es|
    ensures ValidChain(digest, es[..n]) <==> forall i | 0 <= i < n :: LinkHolds(digest, es, i)
  {
    assert forall i | 0 <= i < n :: LinkHolds(digest, es[..n], i) <==> LinkHolds(digest, es, i);
  }

  method VerifyChain(digest: Digest, entries: seq<Entry>) returns (v: Verification)
    ensures v == Verify(digest, entries)
    ensures v.valid <==> v.brokenAtIndex.None?
    ensures FirstDivergence(digest, entries, v.brokenAtIndex)
  {
    var prev: Option<string> := None;
    var index := 0;
    while index < |entries|
      invariant 0 <= index <= |entries|
      invariant prev == PrevOf(entries, index)
      invariant forall i | 0 <= i < index :: LinkHolds(digest, entries, i)
      invariant FirstBroken(digest, entries, 0) == FirstBroken(digest, entries, index)
    {
      var entry := entries[index];
      if entry.prevHash != prev || entry.hash != HashPosting(digest, prev, entry.content) {
        PrefixLinks(digest, entries, index);
        return Verification(false, Some(index));
      }
      prev := Some(entry.hash);
      index := index + 1;
    }
    return Verification(true, None);
  }

  lemma VerifyFindsFirstDivergence(digest: Digest, es: seq<Entry>, at: Option<nat>)
    ensures FirstDivergence(digest, es, at) <==> Verify(digest, es) == Verification(at.None?, at)
  {
    var found := FirstBroken(digest, es, 0);
    forall n: nat | n <= |es|
      ensures ValidChain(digest, es[..n]) <==> forall i | 0 <= i < n :: LinkHolds(digest, es, i)
    {
      PrefixLinks(digest, es, n);
    }
    assert es[..|es|] == es;
  }

  // ---- tamper evidence ----

  /** Some entry of `a` and some entry of `b` have different pre-images with the same digest. */
  ghost predicate Collide(digest: Digest, a: seq<Entry>, b: seq<Entry>) {
    exists i, j | 0 <= i < |a| && 0 <= j < |b| :: EntriesCollide(digest, a[i], b[j])
  }

  ghost predicate EntriesCollide(digest: Digest, x: Entry, y: Entry) {
    && PreImage(x.prevHash, x.content) != PreImage(y.prevHash, y.content)
    && HashPosting(digest, x.prevHash, x.content) == HashPosting(digest, y.prevHash, y.content)
  }

  ghost predicate PlainEntries(es: seq<Entry>) {
    forall i | 0 <= i < |es| :: PlainIds(es[i].content)
  }

  lemma ValidPrefix(digest: Digest, es: seq<Entry>, n: nat)
    requires ValidChain(digest, es) && n < |es|
    ensures ValidChain(digest, es[..n])
    ensures es[n].prevHash == Head(es[..n])
    ensures es[n].hash == HashPosting(digest, es[n].prevHash, es[n].content)
    ensures HexDigest(digest) ==> StoredHash(es[n].prevHash)
  {
    assert LinkHolds(digest, es, n);
    if n > 0 { assert LinkHolds(digest, es, n - 1); }
    forall i | 0 <= i < n ensures LinkHolds(digest, es[..n], i) { assert LinkHolds(digest, es, i); }
  }

  lemma DropLast(digest: Digest, es: seq<Entry>) returns (front: seq<Entry>)
    requires ValidChain(digest, es) && PlainEntries(es) && es != []
    ensures front == es[..|es| - 1] && es == front + [es[|es| - 1]]
    ensures ValidChain(digest, front) && PlainEntries(front) && Head(front) == es[|es| - 1].prevHash
  {
    ValidPrefix(digest, es, |es| - 1);
    front := es[..|es| - 1];
  }

  lemma LastEntriesAgree(digest: Digest, a: seq<Entry>, b: seq<Entry>)
    requires HexDigest(digest) && a != [] && b != []
    requires ValidChain(digest, a) && ValidChain(digest, b)
    requires PlainEntries(a) && PlainEntries(b)
    requires Head(a) == Head(b)
    ensures a[|a| - 1] == b[|b| - 1] || Collide(digest, a, b)
  {
    var m, n := |a| - 1, |b| - 1;
    ValidPrefix(digest, a, m);
    ValidPrefix(digest, b, n);
    if !EntriesCollide(digest, a[m], b[n]) {
      PreImageInjective(a[m].prevHash, a[m].content, b[n].prevHash, b[n].content);
    }
  }

  /** A chain that verifies and ends in the same head as a genuine chain is that chain: no edit,
      deletion, insertion, reordering or truncation survives, unless it exhibits a collision. */
  lemma {:induction false} TamperEvidence(digest: Digest, a: seq<Entry>, b: seq<Entry>)
    requires HexDigest(digest)
    requires ValidChain(digest, a) && ValidChain(digest, b)
    requires PlainEntries(a) && PlainEntries(b)
    requires Head(a) == Head(b)
    ensures a == b || Collide(digest, a, b)
  {
    if a != [] && !Collide(digest, a, b) {
      LastEntriesAgree(digest, a, b);
      var a0 := DropLast(digest, a);
      var b0 := DropLast(digest, b);
      CollideExtends(digest, a, |a0|, b, |b0|);
      TamperEvidence(digest, a0, b0);
    }
  }

  lemma CollideExtends(digest: Digest, a: seq<Entry>, m: nat, b: seq<Entry>, n: nat)
    requires m <= |a| && n <= |b|
    ensures Collide(digest, a[..m], b[..n]) ==> Collide(digest, a, b)
  {
    if Collide(digest, a[..m], b[..n]) {
      var i, j :| 0 <= i < m && 0 <= j < n && EntriesCollide(digest, a[..m][i], b[..n][j]);
      assert EntriesCollide(digest, a[i], b[j]);
    }
  }

  /** Did the editor of entry `k` recompute its link and hash? */
  predicate Recomputed(digest: Digest, es: seq<Entry>, k: nat, e: Entry)
    requires k < |es|
  {
    e.prevHash == es[k].prevHash && e.hash == HashPosting(digest, e.prevHash, e.content)
  }

  lemma ReplacedLinks(digest: Digest, es: seq<Entry>, k: nat, e: Entry)
    requires ValidChain(digest, es) && k < |es|
    ensures
      var fs := es[k := e];
      && (forall i | 0 <= i < |es| && i != k && i != k + 1 :: LinkHolds(digest, fs, i))
      && (LinkHolds(digest, fs, k) <==> Recomputed(digest, es, k, e))
      && (k + 1 < |es| ==> (LinkHolds(digest, fs, k + 1) <==> e.hash == es[k].hash))
  {
    var fs := es[k := e];
    assert LinkHolds(digest, es, k);
    forall i | 0 <= i < |es| && i != k && i != k + 1
      ensures LinkHolds(digest, fs, i)
    {
      assert LinkHolds(digest, es, i);
    }
    if k + 1 < |es| { assert LinkHolds(digest, es, k + 1); }
  }

  lemma UnchangedHashCollides(digest: Digest, es: seq<Entry>, k: nat, e: Entry)
    requires HexDigest(digest) && ValidChain(digest, es) && PlainEntries(es)
    requires k < |es| && e != es[k] && PlainIds(e.content) && Recomputed(digest, es, k, e) && e.hash == es[k].hash
    ensures EntriesCollide(digest, e, es[k])
  {
    ValidPrefix(digest, es, k);
    if PreImage(e.prevHash, e.content) == PreImage(es[k].prevHash, es[k].content) {
      PreImageInjective(e.prevHash, e.content, es[k].prevHash, es[k].content);
    }
  }

  /** What one replaced entry does to the verification of a valid chain, in every case: it is reported
      at that very position unless its link and hash were recomputed; a recomputed entry moves the report
      one position on, or the head when it was last; and a recomputed hash that did not change is a collision. */
  lemma ReplacedEntry(digest: Digest, es: seq<Entry>, k: nat, e: Entry)
    requires HexDigest(digest) && ValidChain(digest, es) && PlainEntries(es)
    requires k < |es| && e != es[k] && PlainIds(e.content)
    ensures
      var at := Verify(digest, es[k := e]).brokenAtIndex;
      if !Recomputed(digest, es, k, e) then at == Some(k)
      else if e.hash == es[k].hash then EntriesCollide(digest, e, es[k])
      else if k + 1 < |es| then at == Some(k + 1)
      else at == None && Head(es[k := e]) != Head(es)
  {
    ReplacedLinks(digest, es, k, e);
    if Recomputed(digest, es, k, e) && e.hash == es[k].hash { UnchangedHashCollides(digest, es, k, e); }
  }

  /** The single-field edits: a changed link, stored hash, amount or balance is reported at its own
      position; for the hashed fields the only escape is an explicit collision. */
  lemma SingleFieldEdit(digest: Digest, es: seq<Entry>, k: nat, prevHash: Option<string>, hash: string, amount: int,
                        balanceAfter: int)
    requires HexDigest(digest) && ValidChain(digest, es) && PlainEntries(es) && k < |es|
    ensures
      prevHash != es[k].prevHash ==>
        Verify(digest, es[k := es[k].(prevHash := prevHash)]).brokenAtIndex == Some(k)
    ensures
      hash != es[k].hash ==>
        Verify(digest, es[k := es[k].(hash := hash)]).brokenAtIndex == Some(k)
    ensures
      var e := es[k].(content := es[k].content.(amount := amount));
      amount != es[k].content.amount ==>
        Verify(digest, es[k := e]).brokenAtIndex == Some(k) || EntriesCollide(digest, e, es[k])
    ensures
      var e := es[k].(content := es[k].content.(balanceAfter := balanceAfter));
      balanceAfter != es[k].content.balanceAfter ==>
        Verify(digest, es[k := e]).brokenAtIndex == Some(k) || EntriesCollide(digest, e, es[k])
  {
    var e := es[k];
    assert LinkHolds(digest, es, k);
    if prevHash != e.prevHash { ReplacedEntry(digest, es, k, e.(prevHash := prevHash)); }
    if hash != e.hash { ReplacedEntry(digest, es, k, e.(hash := hash)); }
    if amount != e.content.amount { ReplacedEntry(digest, es, k, e.(content := e.content.(amount := amount))); }
    if balanceAfter != e.content.balanceAfter {
      ReplacedEntry(digest, es, k, e.(content := e.content.(balanceAfter := balanceAfter)));
    }
  }

  /** `null` and `''` hash alike, yet the verifier still tells them apart through the stored link. */
  lemma NullAndEmptyLink(digest: Digest, c: Content)
    ensures HashPosting(digest, None, c) == HashPosting(digest, Some(""), c)
    ensures Verify(digest, [Entry(Some(""), HashPosting(digest, Some(""), c), c)]).brokenAtIndex == Some(0)
    ensures Verify(digest, [Entry(None, HashPosting(digest, None, c), c)]).valid
  {
    var good := [Entry(None, HashPosting(digest, None, c), c)];
    assert LinkHolds(digest, good, 0);
  }
}
