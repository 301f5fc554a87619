/** Strings as the ledger uses them: the lock order, decimal text, and `|`-joined records. */
module Text {

  /** Code-unit lexicographic order, the order of JavaScript's default sort. */
  predicate Less(a: string, b: string) {
    |b| > 0 && (|a| == 0 || a[0] < b[0] || (a[0] == b[0] && Less(a[1..], b[1..])))
  }

  lemma {:induction false} LessIrreflexive(a: string)
    ensures !Less(a, a)
  {
    if a != [] { LessIrreflexive(a[1..]); }
  }

  lemma {:induction false} LessTransitive(a: string, b: string, c: string)
    requires Less(a, b) && Less(b, c)
    ensures Less(a, c)
  {
    if a != [] && a[0] == b[0] == c[0] { LessTransitive(a[1..], b[1..], c[1..]); }
  }

  lemma {:induction false} LessTotal(a: string, b: string)
    ensures a == b || Less(a, b) || Less(b, a)
  {
    if a != [] && b != [] && a[0] == b[0] {
      LessTotal(a[1..], b[1..]);
      assert a == [a[0]] + a[1..] && b == [b[0]] + b[1..];
    }
  }

  predicate StrictlySorted(s: seq<string>) {
    forall i, j | 0 <= i < j < |s| :: Less(s[i], s[j])
  }

  function Insert(x: string, s: seq<string>): (r: seq<string>)
    requires StrictlySorted(s)
    ensures StrictlySorted(r)
    ensures forall y :: y in r <==> y == x || y in s
  {
    if s == [] then [x]
    else if x == s[0] then s
    else if Less(x, s[0]) then
      assert forall j | 0 <= j < |s| :: Less(x, s[j]) by {
        forall j | 0 < j < |s| ensures Less(x, s[j]) { LessTransitive(x, s[0], s[j]); }
      }
      [x] + s
    else
      var rest := Insert(x, s[1..]);
      assert forall j | 0 <= j < |rest| :: Less(s[0], rest[j]) by {
        LessTotal(x, s[0]);
        forall j | 0 <= j < |rest| ensures Less(s[0], rest[j]) {
          assert rest[j] == x || rest[j] in s[1..];
        }
      }
      assert s == [s[0]] + s[1..];
      [s[0]] + rest
  }

  /** Duplicates dropped, then sorted: the order in which balance rows are locked. */
  function SortedDistinct(ids: seq<string>): (r: seq<string>)
    ensures StrictlySorted(r)
    ensures forall y :: y in r <==> y in ids
  {
    if ids == [] then []
    else
      assert ids == [ids[0]] + ids[1..];
      Insert(ids[0], SortedDistinct(ids[1..]))
  }

  // ---- ids ----

  function LowerCase(c: char): char {
    if 'A' <= c <= 'Z' then (c as int + 32) as char else c
  }

  /** How a `uuid` column stores and returns the id that `text` spells: any letter case is accepted, and
      equality ignores it. */
  function StoredId(text: string): (id: string)
    ensures |id| == |text|
  {
    seq(|text|, i requires 0 <= i < |text| => LowerCase(text[i]))
  }

  predicate AsStored(text: string) { StoredId(text) == text }

  lemma StoredIsAsStored(text: string)
    ensures AsStored(StoredId(text))
  {
  }

  // ---- decimal text ----

  predicate Digit(c: char) { '0' <= c <= '9' }

  predicate Digits(s: string) { forall i | 0 <= i < |s| :: Digit(s[i]) }

  function DigitValue(c: char): nat
    requires Digit(c)
  {
    c as int - '0' as int
  }

  function DigitOf(n: nat): (c: char)
    requires n < 10
    ensures Digit(c) && DigitValue(c) == n
  {
    ('0' as int + n) as char
  }

  /** The number a digit string denotes. */
  function Value(s: string): nat
    requires Digits(s)
  {
    if s == [] then 0 else 10 * Value(s[..|s| - 1]) + DigitValue(s[|s| - 1])
  }

  function PrintNat(n: nat): (s: string)
    ensures s != [] && Digits(s)
  {
    if n < 10 then [DigitOf(n)] else PrintNat(n / 10) + [DigitOf(n % 10)]
  }

  /** `BigInt.prototype.toString`. */
  function Print(n: int): string {
    if n < 0 then "-" + PrintNat(-n) else PrintNat(n)
  }

  lemma {:induction false} PrintNatValue(n: nat)
    ensures Value(PrintNat(n)) == n
  {
    if n >= 10 {
      PrintNatValue(n / 10);
      var s := PrintNat(n);
      assert s[..|s| - 1] == PrintNat(n / 10);
    } else {
      assert PrintNat(n)[..0] == [];
    }
  }

  /** Decimal text without superfluous zeros. */
  predicate CanonicalDigits(d: string) {
    d != [] && Digits(d) && (|d| > 1 ==> d[0] != '0')
  }

  lemma {:induction false} LeadingDigitCounts(d: string)
    requires d != [] && Digits(d) && d[0] != '0'
    ensures Value(d) >= 1
  {
    if |d| > 1 { LeadingDigitCounts(d[..|d| - 1]); } else { assert d[..0] == []; }
  }

  lemma {:induction false} CanonicalIsPrinted(d: string)
    requires CanonicalDigits(d)
    ensures PrintNat(Value(d)) == d
  {
    var n := |d| - 1;
    if n > 0 {
      LeadingDigitCounts(d[..n]);
      CanonicalIsPrinted(d[..n]);
      assert d == d[..n] + [d[n]];
    } else {
      assert d[..0] == [] && d == [d[0]];
    }
  }

  lemma {:induction false} PrintedIsCanonical(n: nat)
    ensures CanonicalDigits(PrintNat(n)) && (n > 0 ==> PrintNat(n)[0] != '0')
  {
    if n >= 10 { PrintedIsCanonical(n / 10); }
  }

  /** Does the text write this number, in digits without superfluous zeros and with a sign if it is negative? */
  predicate Denotes(text: string, n: int) {
    if n < 0 then text != [] && text[0] == '-' && CanonicalDigits(text[1..]) && Value(text[1..]) == -n
    else CanonicalDigits(text) && Value(text) == n
  }

  /** What is printed is the one text that denotes the number. */
  lemma PrintDenotes(text: string, n: int)
    ensures text == Print(n) <==> Denotes(text, n)
  {
    var m := if n < 0 then -n else n;
    var digits := if n < 0 && text != [] then text[1..] else text;
    PrintNatValue(m);
    PrintedIsCanonical(m);
    assert ("-" + PrintNat(m))[1..] == PrintNat(m);
    if CanonicalDigits(digits) && Value(digits) == m { CanonicalIsPrinted(digits); }
    if n < 0 && text != [] && text[0] == '-' { assert text == "-" + text[1..]; }
  }

  /** Decimal printing of signed big integers loses nothing. */
  lemma PrintInjective(a: int, b: int)
    requires Print(a) == Print(b)
    ensures a == b
  {
    var x, y := PrintNat(if a < 0 then -a else a), PrintNat(if b < 0 then -b else b);
    PrintNatValue(if a < 0 then -a else a);
    PrintNatValue(if b < 0 then -b else b);
    assert Digit(x[0]) && Digit(y[0]) && ("-" + x)[0] == '-' && ("-" + y)[0] == '-';
    assert a < 0 <==> b < 0;
    assert ("-" + x)[1..] == x && ("-" + y)[1..] == y;
  }

  lemma ConcatAssociates<T>(a: seq<T>, b: seq<T>, c: seq<T>)
    ensures a + (b + c) == a + b + c
  {
  }

  // ---- joined records ----

  predicate NoBar(s: string) { '|' !in s }

  lemma PrintNoBar(n: int)
    ensures NoBar(Print(n))
  {
    var digits := PrintNat(if n < 0 then -n else n);
    assert forall c | c in digits :: Digit(c);
  }

  /** `fields.join('|')`. */
  function Join(fields: seq<string>): string
    requires fields != []
  {
    if |fields| == 1 then fields[0]
    else Join(fields[..|fields| - 1]) + "|" + fields[|fields| - 1]
  }

  lemma JoinLast(fields: seq<string>, last: string)
    requires fields != []
    ensures Join(fields + [last]) == Join(fields) + "|" + last
  {
    assert (fields + [last])[..|fields|] == fields;
  }

  lemma JoinFive(a: string, b: string, c: string, d: string, e: string)
    ensures Join([a, b, c, d, e]) == a + "|" + b + "|" + c + "|" + d + "|" + e
  {
    JoinLast([a], b);
    JoinLast([a, b], c);
    JoinLast([a, b, c], d);
    JoinLast([a, b, c, d], e);
    assert [a] + [b] == [a, b] && [a, b] + [c] == [a, b, c] && [a, b, c] + [d] == [a, b, c, d];
    assert [a, b, c, d] + [e] == [a, b, c, d, e];
  }

  lemma {:induction false} LastBarSplits(x: string, y: string, x': string, y': string)
    requires x + "|" + y == x' + "|" + y'
    requires NoBar(y) && NoBar(y')
    ensures x == x' && y == y'
  {
    var s := x + "|" + y;
    assert s[|x|] == '|' && s[|x'|] == '|' by { assert s == x' + "|" + y'; }
    assert forall j | |x| < j < |s| :: s[j] == y[j - |x| - 1];
    assert forall j | |x'| < j < |s| :: s[j] == y'[j - |x'| - 1] by { assert s == x' + "|" + y'; }
    assert |x| == |x'|;
    assert x == s[..|x|] == x';
    assert y == s[|x| + 1..] == y';
  }

  /** Joining keeps every field apart as long as only the first one may contain the separator. */
  lemma {:induction false} JoinInjective(a: seq<string>, b: seq<string>)
    requires |a| == |b| > 0
    requires forall i | 0 < i < |a| :: NoBar(a[i]) && NoBar(b[i])
    requires Join(a) == Join(b)
    ensures a == b
  {
    var n := |a| - 1;
    if n > 0 {
      LastBarSplits(Join(a[..n]), a[n], Join(b[..n]), b[n]);
      JoinInjective(a[..n], b[..n]);
      assert a == a[..n] + [a[n]] && b == b[..n] + [b[n]];
    } else {
      assert a == [a[0]] && b == [b[0]];
    }
  }
}
