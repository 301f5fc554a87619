/** Money as the dashboard shows and reads it (web/src/lib/money.ts): minor units to grouped decimal text and back. */
module MoneyText {
  import opened Wrappers
  import opened Text
  import Ledger

  // ---- string helpers ----

  function Zeros(n: nat): (s: string)
    ensures |s| == n && Digits(s)
  {
    seq(n, _ => '0')
  }

  function PadStart(s: string, width: nat): string {
    if |s| < width then Zeros(width - |s|) + s else s
  }

  function PadEnd(s: string, width: nat): string {
    if |s| < width then s + Zeros(width - |s|) else s
  }

  function IndexOf(s: string, c: char): (i: nat)
    ensures i <= |s| && forall k | 0 <= k < i :: s[k] != c
    ensures i < |s| ==> s[i] == c
  {
    if s == [] || s[0] == c then 0 else 1 + IndexOf(s[1..], c)
  }

  /** White space as `String.prototype.trim` knows it. */
  predicate White(c: char) {
    var n := c as int;
    || 9 <= n <= 13 || n == 0x20 || n == 0xA0 || n == 0x1680 || 0x2000 <= n <= 0x200A
    || n == 0x2028 || n == 0x2029 || n == 0x202F || n == 0x205F || n == 0x3000 || n == 0xFEFF
  }

  function Trim(s: string): (t: string)
    decreases |s|
  {
    if s == [] then []
    else if White(s[0]) then Trim(s[1..])
    else if White(s[|s| - 1]) then Trim(s[..|s| - 1])
    else s
  }

  function StripCommas(s: string): string {
    if s == [] then [] else StripCommas(s[..|s| - 1]) + if s[|s| - 1] == ',' then [] else [s[|s| - 1]]
  }

  /** Drops leading zeros that are followed by a digit. */
  function StripZeros(s: string): string {
    if |s| >= 2 && s[0] == '0' && Digit(s[1]) then StripZeros(s[1..]) else s
  }

  // ---- formatMoney ----

  /** A comma before every position, other than the first, that has a positive multiple of three digits to its right. */
  function GroupFrom(whole: string, i: nat): string
    requires i <= |whole|
    decreases |whole| - i
  {
    if i == |whole| then []
    else Mark(|whole|, i) + [whole[i]] + GroupFrom(whole, i + 1)
  }

  function Mark(length: nat, i: nat): string
    requires i <= length
  {
    if 0 < i && (length - i) % 3 == 0 then "," else ""
  }

  /** The digits shown before the point, and after it; there is always a digit before it. */
  function WholeOf(unsigned: string, scale: nat): (whole: string)
    ensures whole != [] && (Digits(unsigned) ==> Digits(whole))
    ensures |whole| == if |unsigned| <= scale then 1 else |unsigned| - scale
  {
    var digits := PadStart(unsigned, scale + 1);
    digits[..|digits| - scale]
  }

  function FractionOf(unsigned: string, scale: nat): (fraction: string)
    ensures |fraction| == scale && (Digits(unsigned) ==> Digits(fraction))
  {
    var digits := PadStart(unsigned, scale + 1);
    digits[|digits| - scale..]
  }

  /** No point is shown when the currency has no minor digits. */
  function Tail(fraction: string): string { if fraction == [] then [] else "." + fraction }

  function FormatUnsigned(unsigned: string, scale: nat): string {
    GroupFrom(WholeOf(unsigned, scale), 0) + Tail(FractionOf(unsigned, scale))
  }

  function FormatMoney(minorUnits: string, scale: nat): string {
    if minorUnits != [] && minorUnits[0] == '-' then "-" + FormatUnsigned(minorUnits[1..], scale)
    else FormatUnsigned(minorUnits, scale)
  }

  // ---- toMinorUnits ----

  /** The text before the first dot, and the text after it if there is one. */
  function SplitDot(t: string): (string, Option<string>) {
    var dot := IndexOf(t, '.');
    (t[..dot], if dot < |t| then Some(t[dot + 1..]) else None)
  }

  /** One or more digits, optionally a dot and one or more digits. */
  predicate DecimalText(t: string) {
    var (whole, fraction) := SplitDot(t);
    && whole != [] && Digits(whole)
    && (fraction.Some? ==> fraction.value != [] && Digits(fraction.value))
  }

  function ToMinorUnits(input: string, scale: nat): Option<string> {
    var trimmed := Trim(input);
    if !DecimalText(trimmed) then None
    else
      var (whole, tail) := SplitDot(trimmed);
      var fraction := if tail.Some? then tail.value else "";
      if |fraction| > scale then None
      else
        var minor := StripZeros(whole + PadEnd(fraction, scale));
        Some(if minor == [] then "0" else minor)
  }

  // ---- values ----

  function Pow10(n: nat): (p: nat)
    ensures p >= 1
  {
    if n == 0 then 1 else 10 * Pow10(n - 1)
  }

  lemma {:induction false} ValueAppend(a: string, b: string)
    requires Digits(a) && Digits(b)
    ensures Value(a + b) == Value(a) * Pow10(|b|) + Value(b)
  {
    if b == [] {
      assert a + b == a;
    } else {
      var n := |b| - 1;
      ValueAppend(a, b[..n]);
      assert (a + b)[..|a + b| - 1] == a + b[..n];
      assert 10 * (Value(a) * Pow10(n)) == Value(a) * Pow10(n + 1);
    }
  }

  lemma {:induction false} ValueZeros(n: nat)
    ensures Value(Zeros(n)) == 0
  {
    if n > 0 {
      assert Zeros(n)[..n - 1] == Zeros(n - 1);
      ValueZeros(n - 1);
    }
  }

  lemma {:induction false} StripZerosCanonical(s: string)
    requires s != [] && Digits(s)
    ensures CanonicalDigits(StripZeros(s)) && Value(StripZeros(s)) == Value(s)
  {
    if |s| >= 2 && s[0] == '0' {
      StripZerosCanonical(s[1..]);
      ValueAppend(s[..1], s[1..]);
      assert s == s[..1] + s[1..];
      assert s[..1][..0] == [];
    }
  }

  /** Stripping is printing the value. */
  lemma StripZerosPrints(s: string)
    requires s != [] && Digits(s)
    ensures StripZeros(s) == PrintNat(Value(s))
  {
    StripZerosCanonical(s);
    CanonicalIsPrinted(StripZeros(s));
  }

  // ---- what toMinorUnits accepts, and what it answers ----

  lemma {:induction false} SplitAt(whole: string, fraction: string)
    requires Digits(whole)
    ensures SplitDot(whole + "." + fraction) == (whole, Some(fraction))
    ensures SplitDot(whole) == (whole, None)
  {
    var t := whole + "." + fraction;
    var dot := IndexOf(t, '.');
    assert t[|whole|] == '.';
    assert forall k | 0 <= k < |whole| :: t[k] == whole[k];
    assert dot == |whole|;
    assert t[..dot] == whole && t[dot + 1..] == fraction;
    assert IndexOf(whole, '.') == |whole|;
    assert whole[..|whole|] == whole;
  }

  /** Does `t` spell the number `whole`.`fraction`? */
  ghost predicate Spells(t: string, whole: string, fraction: string) {
    && whole != [] && Digits(whole) && Digits(fraction)
    && t == if fraction == [] then whole else whole + "." + fraction
  }

  /** The number, scaled to minor units. */
  function Scaled(whole: string, fraction: string, scale: nat): nat
    requires Digits(whole) && Digits(fraction) && |fraction| <= scale
  {
    Value(whole) * Pow10(scale) + Value(fraction) * Pow10(scale - |fraction|)
  }

  lemma DecimalTextSplits(t: string) returns (whole: string, fraction: string)
    requires DecimalText(t)
    ensures Spells(t, whole, fraction)
  {
    var dot := IndexOf(t, '.');
    whole, fraction := t[..dot], if dot < |t| then t[dot + 1..] else "";
    if dot < |t| { assert t == t[..dot] + "." + t[dot + 1..]; } else { assert t[..dot] == t; }
  }

  lemma DecimalTextSpells(t: string)
    ensures DecimalText(t) <==> exists whole, fraction :: Spells(t, whole, fraction)
  {
    if DecimalText(t) { var whole, fraction := DecimalTextSplits(t); }
    forall whole, fraction | Spells(t, whole, fraction) ensures DecimalText(t) { SplitAt(whole, fraction); }
  }

  lemma PaddedFractionValue(whole: string, fraction: string, scale: nat)
    requires Digits(whole) && Digits(fraction) && |fraction| <= scale
    ensures Digits(PadEnd(fraction, scale)) && Value(whole + PadEnd(fraction, scale)) == Scaled(whole, fraction, scale)
  {
    var rest := PadEnd(fraction, scale);
    assert rest == fraction + Zeros(scale - |fraction|);
    ValueAppend(fraction, Zeros(scale - |fraction|));
    ValueZeros(scale - |fraction|);
    ValueAppend(whole, rest);
  }

  predicate Blank(s: string) { forall i | 0 <= i < |s| :: White(s[i]) }

  /** White space around the text, and none at its ends. */
  ghost predicate Padded(input: string, before: string, t: string, after: string) {
    && input == before + t + after && Blank(before) && Blank(after)
    && (t != [] ==> !White(t[0]) && !White(t[|t| - 1]))
  }

  /** Trimming takes the white space around a text away, and nothing else. */
  lemma {:induction false} TrimSplits(s: string) returns (before: string, after: string)
    ensures Padded(s, before, Trim(s), after)
    decreases |s|
  {
    if s != [] && White(s[0]) {
      before, after := TrimSplits(s[1..]);
      PadsWider(s[1..], before, Trim(s[1..]), after, s[0]);
      assert s == [s[0]] + s[1..];
      before := [s[0]] + before;
    } else if s != [] && White(s[|s| - 1]) {
      before, after := TrimSplits(s[..|s| - 1]);
      PadsWider(s[..|s| - 1], before, Trim(s[..|s| - 1]), after, s[|s| - 1]);
      assert s == s[..|s| - 1] + [s[|s| - 1]];
      after := after + [s[|s| - 1]];
    } else {
      before, after := "", "";
    }
  }

  lemma PadsWider(s: string, before: string, t: string, after: string, c: char)
    requires Padded(s, before, t, after) && White(c)
    ensures Padded([c] + s, [c] + before, t, after) && Padded(s + [c], before, t, after + [c])
  {
    assert [c] + s == [c] + before + t + after && s + [c] == before + t + (after + [c]);
  }

  lemma {:induction false} TrimUndoes(before: string, t: string, after: string)
    requires Padded(before + t + after, before, t, after) && t != []
    ensures Trim(before + t + after) == t
    decreases |before| + |after|
  {
    var s := before + t + after;
    if before != [] {
      assert s[1..] == before[1..] + t + after;
      TrimUndoes(before[1..], t, after);
    } else if after != [] {
      assert s[..|s| - 1] == before + t + after[..|after| - 1];
      TrimUndoes(before, t, after[..|after| - 1]);
    } else {
      assert s == t;
    }
  }

  /** Has the user typed the number `whole`.`fraction`, with any white space around it? */
  ghost predicate Typed(input: string, whole: string, fraction: string) {
    exists before, t, after :: Padded(input, before, t, after) && Spells(t, whole, fraction)
  }

  lemma TypedTrims(input: string, whole: string, fraction: string)
    ensures Typed(input, whole, fraction) <==> Spells(Trim(input), whole, fraction)
  {
    if Typed(input, whole, fraction) {
      var before, t, after :| Padded(input, before, t, after) && Spells(t, whole, fraction);
      TrimUndoes(before, t, after);
    }
    if Spells(Trim(input), whole, fraction) { var before, after := TrimSplits(input); }
  }

  /** Accepted decimals become exactly their value in minor units, without leading zeros; a fraction finer than
      the currency's scale is refused. */
  lemma ParsesExactly(input: string, scale: nat, whole: string, fraction: string)
    requires Typed(input, whole, fraction)
    ensures
      var minor := ToMinorUnits(input, scale);
      if |fraction| <= scale then minor.Some? && Denotes(minor.value, Scaled(whole, fraction, scale)) else minor.None?
  {
    TypedTrims(input, whole, fraction);
    TrimmedParses(input, scale, whole, fraction);
    if |fraction| <= scale {
      var n := Scaled(whole, fraction, scale);
      PrintDenotes(PrintNat(n), n);
    }
  }

  lemma TrimmedParses(input: string, scale: nat, whole: string, fraction: string)
    requires Spells(Trim(input), whole, fraction)
    ensures ToMinorUnits(input, scale) ==
      if |fraction| <= scale then Some(PrintNat(Scaled(whole, fraction, scale))) else None
  {
    SplitAt(whole, fraction);
    if |fraction| <= scale {
      PaddedFractionValue(whole, fraction, scale);
      StripZerosPrints(whole + PadEnd(fraction, scale));
    }
  }

  lemma SpelledOnce(t: string, whole: string, fraction: string, w: string, f: string)
    requires Spells(t, whole, fraction) && Spells(t, w, f)
    ensures whole == w && fraction == f
  {
    SplitAt(whole, fraction);
    SplitAt(w, f);
  }

  /** Everything else is refused. */
  lemma RefusesTheRest(input: string, scale: nat)
    ensures ToMinorUnits(input, scale).Some? <==>
      exists whole, fraction :: Typed(input, whole, fraction) && |fraction| <= scale
  {
    DecimalTextSpells(Trim(input));
    if DecimalText(Trim(input)) {
      var whole, fraction :| Spells(Trim(input), whole, fraction);
      TrimmedParses(input, scale, whole, fraction);
      TypedTrims(input, whole, fraction);
      forall w, f | Typed(input, w, f) ensures f == fraction {
        TypedTrims(input, w, f);
        SpelledOnce(Trim(input), whole, fraction, w, f);
      }
    } else {
      forall w, f ensures !Typed(input, w, f) { TypedTrims(input, w, f); }
    }
  }

  /** The ledger reads back, as the amount of a transfer, the very number that was typed. */
  lemma LedgerReadsWhatWasTyped(input: string, scale: nat, whole: string, fraction: string)
    requires Typed(input, whole, fraction) && |fraction| <= scale
    ensures ToMinorUnits(input, scale).Some?
    ensures Ledger.ParseAmount(ToMinorUnits(input, scale).value) == Some(Scaled(whole, fraction, scale))
  {
    ParsesExactly(input, scale, whole, fraction);
  }

  // ---- formatting and parsing back ----

  lemma {:induction false} StripAppend(a: string, b: string)
    ensures StripCommas(a + b) == StripCommas(a) + StripCommas(b)
  {
    if b == [] {
      assert a + b == a;
    } else {
      assert (a + b)[..|a + b| - 1] == a + b[..|b| - 1];
      StripAppend(a, b[..|b| - 1]);
    }
  }

  lemma {:induction false} NothingToStrip(s: string)
    requires ',' !in s
    ensures StripCommas(s) == s
  {
    if s != [] {
      NothingToStrip(s[..|s| - 1]);
      assert s == s[..|s| - 1] + [s[|s| - 1]];
    }
  }

  lemma {:induction false} UngroupFrom(whole: string, i: nat)
    requires i <= |whole| && ',' !in whole
    ensures StripCommas(GroupFrom(whole, i)) == whole[i..]
    decreases |whole| - i
  {
    if i < |whole| {
      var mark := Mark(|whole|, i);
      UngroupFrom(whole, i + 1);
      StripAppend(mark + [whole[i]], GroupFrom(whole, i + 1));
      StripAppend(mark, [whole[i]]);
      assert mark[..0] == [] && [whole[i]][..0] == [];
      assert whole[i..] == [whole[i]] + whole[i + 1..];
    }
  }

  /** Commas split the last three digits off, again and again. */
  lemma {:induction false} GroupsOfThree(whole: string, i: nat)
    requires i + 3 < |whole|
    ensures GroupFrom(whole, i) == GroupFrom(whole[..|whole| - 3], i) + ("," + whole[|whole| - 3..])
    decreases |whole| - i
  {
    var front, back := whole[..|whole| - 3], "," + whole[|whole| - 3..];
    assert Mark(|whole|, i) == Mark(|front|, i);
    assert GroupFrom(whole, i + 1) == GroupFrom(front, i + 1) + back by {
      if i + 4 == |whole| { ThreeLeft(whole, i + 1); } else { GroupsOfThree(whole, i + 1); }
    }
    assert GroupFrom(front, i) == Mark(|front|, i) + [front[i]] + GroupFrom(front, i + 1);
    ConcatAssociates(Mark(|front|, i) + [front[i]], GroupFrom(front, i + 1), back);
  }

  lemma ThreeLeft(whole: string, i: nat)
    requires 0 < i && |whole| - i == 3
    ensures GroupFrom(whole, i) == "," + whole[i..]
  {
    assert GroupFrom(whole, i + 3) == [];
    assert GroupFrom(whole, i + 2) == [whole[i + 2]];
    assert GroupFrom(whole, i + 1) == [whole[i + 1], whole[i + 2]];
    assert whole[i..] == [whole[i], whole[i + 1], whole[i + 2]];
  }

  /** Up to three digits stay together. */
  lemma {:induction false} ShortStays(whole: string, i: nat)
    requires i <= |whole| <= 3
    ensures GroupFrom(whole, i) == whole[i..]
    decreases |whole| - i
  {
    if i < |whole| {
      ShortStays(whole, i + 1);
      assert whole[i..] == [whole[i]] + whole[i + 1..];
    }
  }

  /** Groups of three digits from the right, with a comma before each but the first. */
  function Grouped(whole: string): string {
    if |whole| <= 3 then whole else Grouped(whole[..|whole| - 3]) + "," + whole[|whole| - 3..]
  }

  lemma {:induction false} CommasGroup(whole: string)
    ensures GroupFrom(whole, 0) == Grouped(whole)
  {
    if |whole| <= 3 {
      ShortStays(whole, 0);
      assert whole[0..] == whole;
    } else {
      GroupsOfThree(whole, 0);
      CommasGroup(whole[..|whole| - 3]);
      ConcatAssociates(Grouped(whole[..|whole| - 3]), ",", whole[|whole| - 3..]);
    }
  }

  lemma TrimKeeps(s: string)
    requires s != [] && !White(s[0]) && !White(s[|s| - 1])
    ensures Trim(s) == s
  {
  }

  lemma SignIsKept(d: string, scale: nat)
    requires Digits(d)
    ensures FormatMoney(d, scale) == FormatUnsigned(d, scale)
    ensures FormatMoney("-" + d, scale) == "-" + FormatUnsigned(d, scale)
  {
    assert ("-" + d)[1..] == d && ("-" + d)[0] == '-';
  }

  lemma Ungrouped(whole: string, fraction: string)
    requires Digits(whole) && Digits(fraction)
    ensures StripCommas(GroupFrom(whole, 0) + Tail(fraction)) == whole + Tail(fraction)
  {
    UngroupFrom(whole, 0);
    StripAppend(GroupFrom(whole, 0), Tail(fraction));
    NothingToStrip(Tail(fraction));
    assert whole[0..] == whole;
  }

  lemma TailSpells(whole: string, fraction: string)
    requires whole != [] && Digits(whole) && Digits(fraction)
    ensures Spells(whole + Tail(fraction), whole, fraction)
  {
    assert whole + "." + fraction == whole + ("." + fraction);
    assert whole + [] == whole;
  }

  lemma UngroupedSpells(whole: string, fraction: string)
    requires whole != [] && Digits(whole) && Digits(fraction)
    ensures Spells(StripCommas(GroupFrom(whole, 0) + Tail(fraction)), whole, fraction)
  {
    Ungrouped(whole, fraction);
    TailSpells(whole, fraction);
  }

  lemma PaddedValue(d: string, width: nat)
    requires Digits(d)
    ensures Digits(PadStart(d, width)) && Value(PadStart(d, width)) == Value(d)
  {
    if |d| < width {
      ValueAppend(Zeros(width - |d|), d);
      ValueZeros(width - |d|);
    }
  }

  lemma ScaledAppend(whole: string, fraction: string)
    requires Digits(whole) && Digits(fraction)
    ensures Scaled(whole, fraction, |fraction|) == Value(whole + fraction)
  {
    ValueAppend(whole, fraction);
    assert Pow10(0) == 1;
  }

  lemma ShownIsPadded(d: string, scale: nat)
    ensures WholeOf(d, scale) + FractionOf(d, scale) == PadStart(d, scale + 1)
  {
  }

  lemma ShownValue(d: string, scale: nat)
    requires Digits(d)
    ensures Scaled(WholeOf(d, scale), FractionOf(d, scale), scale) == Value(d)
  {
    PaddedValue(d, scale + 1);
    ShownIsPadded(d, scale);
    ScaledAppend(WholeOf(d, scale), FractionOf(d, scale));
  }

  lemma WholeIsCanonical(d: string, scale: nat)
    requires CanonicalDigits(d)
    ensures CanonicalDigits(WholeOf(d, scale))
  {
    if |d| > scale { assert WholeOf(d, scale) == d[..|d| - scale]; }
  }

  /** What is shown for any number of minor units: its digits in groups, then, unless the scale is zero, a point and
      exactly as many digits as the scale says; in front of it the sign, if there is one. */
  lemma FormatShows(d: string, scale: nat) returns (whole: string, fraction: string)
    requires Digits(d)
    ensures whole != [] && Digits(whole) && Digits(fraction) && |fraction| == scale
    ensures Scaled(whole, fraction, scale) == Value(d) && (CanonicalDigits(d) ==> CanonicalDigits(whole))
    ensures FormatMoney(d, scale) == Grouped(whole) + if scale == 0 then "" else "." + fraction
    ensures FormatMoney("-" + d, scale) == "-" + FormatMoney(d, scale)
  {
    whole, fraction := WholeOf(d, scale), FractionOf(d, scale);
    SignIsKept(d, scale);
    ShownValue(d, scale);
    CommasGroup(whole);
    if CanonicalDigits(d) { WholeIsCanonical(d, scale); }
  }

  lemma SpelledNeedsNoTrim(t: string, whole: string, fraction: string)
    requires Spells(t, whole, fraction)
    ensures Trim(t) == t
  {
    assert t[0] == whole[0] && t[|t| - 1] == if fraction == [] then whole[|whole| - 1] else fraction[|fraction| - 1];
    TrimKeeps(t);
  }

  /** Formatting, dropping the commas and parsing gives the number back, in canonical digits, at any scale;
      so the text itself comes back exactly if it was canonical. */
  lemma RoundTrip(d: string, scale: nat)
    requires Digits(d)
    ensures
      var minor := ToMinorUnits(StripCommas(FormatMoney(d, scale)), scale);
      minor.Some? && Denotes(minor.value, Value(d)) && (minor == Some(d) <==> CanonicalDigits(d))
  {
    var t := StripCommas(FormatMoney(d, scale));
    var whole, fraction := WholeOf(d, scale), FractionOf(d, scale);
    SignIsKept(d, scale);
    UngroupedSpells(whole, fraction);
    SpelledNeedsNoTrim(t, whole, fraction);
    TrimmedParses(t, scale, whole, fraction);
    ShownValue(d, scale);
    PrintDenotes(PrintNat(Value(d)), Value(d));
    PrintDenotes(d, Value(d));
  }

  /** A ledger amount survives the dashboard if and only if it is not negative. */
  lemma AmountsRoundTrip(text: string, n: int, scale: nat)
    requires Denotes(text, n)
    ensures ToMinorUnits(StripCommas(FormatMoney(text, scale)), scale) == if n >= 0 then Some(text) else None
  {
    if n >= 0 {
      RoundTrip(text, scale);
    } else {
      var d := text[1..];
      assert text == "-" + d;
      SignIsKept(d, scale);
      StripAppend("-", FormatUnsigned(d, scale));
      NothingToStrip("-");
      var t := StripCommas(FormatUnsigned(d, scale));
      UngroupedSpells(WholeOf(d, scale), FractionOf(d, scale));
      SignIsRefused(t);
    }
  }

  /** Trimming may cut at the end, but never uncovers a digit at the front. */
  lemma {:induction false} TrimKeepsFront(s: string)
    requires s != [] && !White(s[0])
    ensures Trim(s) != [] && Trim(s)[0] == s[0]
    decreases |s|
  {
    if White(s[|s| - 1]) { TrimKeepsFront(s[..|s| - 1]); }
  }

  lemma SignIsRefused(t: string)
    ensures !DecimalText(Trim("-" + t))
  {
    TrimKeepsFront("-" + t);
    var s := Trim("-" + t);
    var dot := IndexOf(s, '.');
    assert s[..dot][0] == '-';
  }

  lemma CommaIsRefused(t: string)
    requires ',' in t
    ensures !DecimalText(t)
  {
    var dot, k := IndexOf(t, '.'), IndexOf(t, ',');
    CommaFound(t);
    if k < dot { assert t[..dot][k] == ','; } else { assert t[dot + 1..][k - dot - 1] == ','; }
  }

  lemma {:induction false} CommaFound(t: string)
    requires ',' in t
    ensures IndexOf(t, ',') < |t|
  {
    if t[0] != ',' {
      assert t == [t[0]] + t[1..];
      CommaFound(t[1..]);
    }
  }

  /** Without that step the form refuses what the page displays as soon as a comma is shown. */
  lemma GroupedTextIsRefused(d: string, scale: nat)
    requires Digits(d)
    ensures
      var minor := ToMinorUnits(FormatMoney(d, scale), scale);
      if |d| <= scale + 3 then minor.Some? && Denotes(minor.value, Value(d)) else minor.None?
  {
    SignIsKept(d, scale);
    if |d| <= scale + 3 {
      UngroupedTextHasNoComma(WholeOf(d, scale), FractionOf(d, scale));
      NothingToStrip(FormatMoney(d, scale));
      RoundTrip(d, scale);
    } else {
      GroupedTextHasComma(WholeOf(d, scale), FractionOf(d, scale));
      CommaIsRefused(FormatMoney(d, scale));
    }
  }

  lemma UngroupedTextHasNoComma(whole: string, fraction: string)
    requires 0 < |whole| <= 3 && Digits(whole) && Digits(fraction)
    ensures ',' !in GroupFrom(whole, 0) + Tail(fraction)
  {
    ShortStays(whole, 0);
    assert whole[0..] == whole;
  }

  lemma GroupedTextHasComma(whole: string, fraction: string)
    requires |whole| > 3 && Digits(whole) && Digits(fraction)
    ensures ',' in GroupFrom(whole, 0) + Tail(fraction)
    ensures Trim(GroupFrom(whole, 0) + Tail(fraction)) == GroupFrom(whole, 0) + Tail(fraction)
  {
    GroupsOfThree(whole, 0);
    var front, back := GroupFrom(whole[..|whole| - 3], 0), whole[|whole| - 3..];
    var t := GroupFrom(whole, 0) + Tail(fraction);
    assert t[|front|] == ',';
    assert GroupFrom(whole, 0)[0] == whole[0];
    assert t[|t| - 1] == if fraction == [] then back[2] else fraction[|fraction| - 1];
    TrimKeeps(t);
  }
}
