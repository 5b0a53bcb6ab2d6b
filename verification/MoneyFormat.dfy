/** Money strings for display: `fmtMoney`, the stripping that undoes it, and the sign test. */
module MoneyFormat {
  import opened Text

  /** Removes the formatting characters `$` and `,`. */
  function Bare(s: string): string {
    if s == [] then []
    else if s[0] == '$' || s[0] == ',' then Bare(s[1..])
    else [s[0]] + Bare(s[1..])
  }

  predicate InParens(s: string) {
    |s| >= 2 && s[0] == '(' && s[|s| - 1] == ')'
  }

  /** The stripping step: a text in parentheses becomes one with a leading minus. */
  function Strip(raw: string): string {
    var clean := Bare(raw);
    if InParens(clean) then "-" + clean[1..|clean| - 1] else clean
  }

  /** The text before the first point, and the text after it. */
  function Split(s: string): (r: (string, string))
    ensures '.' !in r.0
  {
    if s == [] then ([], [])
    else if s[0] == '.' then ([], s[1..])
    else ([s[0]] + Split(s[1..]).0, Split(s[1..]).1)
  }

  datatype Parts = Parts(negative: bool, whole: string, cents: string)

  /** Always two decimal places: cut or filled with zeros. */
  function TwoPlaces(decimals: string): (r: string)
    ensures |r| == 2
  {
    (decimals + "00")[..2]
  }

  function Read(raw: string): Parts {
    var clean := Strip(raw);
    var negative := clean != [] && clean[0] == '-';
    var (whole, decimals) := Split(if negative then clean[1..] else clean);
    Parts(negative, whole, TwoPlaces(decimals))
  }

  // ---------------------------------------------------------------------
  // Digit grouping

  predicate WordChar(c: char) {
    'a' <= c <= 'z' || 'A' <= c <= 'Z' || IsDigit(c) || c == '_'
  }

  /** What `\w` matches, by character codes. */
  lemma WordCharExactly(c: char)
    ensures var n := c as int;
            WordChar(c) <==> 0x30 <= n <= 0x39 || 0x41 <= n <= 0x5A || n == 0x5F || 0x61 <= n <= 0x7A
  {
  }

  /** Length of the leading run of digits. */
  function Run(s: string): (n: nat)
    ensures n <= |s|
  {
    if s == [] || !IsDigit(s[0]) then 0 else 1 + Run(s[1..])
  }

  /**
   * The replacement of every empty match of `\B(?=(\d{3})+(?!\d))` by a comma: a comma stands
   * inside a word, before a run of digits whose length is a multiple of three.
   */
  function Commas(s: string, afterWord: bool): string {
    if s == [] then []
    else (if afterWord && Run(s) > 0 && Run(s) % 3 == 0 then "," else "") + [s[0]] + Commas(s[1..], WordChar(s[0]))
  }

  /** Groups of three from the right. */
  function Grouped(s: string): string {
    if |s| <= 3 then s else Grouped(s[..|s| - 3]) + "," + s[|s| - 3..]
  }

  // ---------------------------------------------------------------------
  // The printer

  predicate Placeholder(raw: string) {
    raw == "" || raw == "null" || raw == "undefined"
  }

  predicate OnlyZeros(s: string) {
    forall i | 0 <= i < |s| :: s[i] == '0'
  }

  predicate ShownZero(p: Parts) {
    OnlyZeros(p.whole) && p.cents == "00"
  }

  function Wrap(p: Parts, whole: string, dollar: bool): string {
    (if dollar then "$" else "") + (if p.negative then "(" else "") + whole + "." + p.cents + (if p.negative then ")" else "")
  }

  const DASH: string := ['\U{2014}']

  /** `fmtMoney` on the text of the value; a missing value is the empty text. */
  function FmtMoney(raw: string, dollar: bool, dash: bool): string {
    if Placeholder(raw) then (if dash then DASH else if dollar then "$0.00" else "0.00")
    else
      var p := Read(raw);
      if dash && ShownZero(p) then DASH else Wrap(p, Commas(p.whole, false), dollar)
  }

  /** `isMoneyNegative`. */
  predicate IsMoneyNegative(raw: string) {
    var clean := Trim(Bare(raw));
    raw != "" && ((clean != [] && clean[0] == '-') || InParens(clean))
  }

  // ---------------------------------------------------------------------
  // Stripping undoes printing

  function Shown(p: Parts): string {
    (if p.negative then "-" else "") + p.whole + "." + p.cents
  }

  lemma {:induction false} BareAppend(a: string, b: string)
    ensures Bare(a + b) == Bare(a) + Bare(b)
  {
    if a == [] {
      assert a + b == b;
    } else {
      assert (a + b)[1..] == a[1..] + b;
      BareAppend(a[1..], b);
    }
  }

  lemma {:induction false} BareIsBare(s: string)
    ensures forall i | 0 <= i < |Bare(s)| :: Bare(s)[i] != '$' && Bare(s)[i] != ','
  {
    if s == [] {
    } else {
      BareIsBare(s[1..]);
    }
  }

  predicate Plain(s: string) {
    forall i | 0 <= i < |s| :: s[i] != '$' && s[i] != ','
  }

  lemma {:induction false} BareOfPlain(s: string)
    requires Plain(s)
    ensures Bare(s) == s
  {
    if s == [] {
    } else {
      BareOfPlain(s[1..]);
      assert s == [s[0]] + s[1..];
    }
  }

  lemma {:induction false} BareOfCommas(s: string, w: bool)
    requires Plain(s)
    ensures Bare(Commas(s, w)) == s
  {
    if s == [] {
    } else {
      var comma := if w && Run(s) > 0 && Run(s) % 3 == 0 then "," else "";
      var rest := Commas(s[1..], WordChar(s[0]));
      BareOfCommas(s[1..], WordChar(s[0]));
      BareAppend(comma + [s[0]], rest);
      BareAppend(comma, [s[0]]);
      assert Bare(comma) == [];
      BareOfPlain([s[0]]);
      assert s == [s[0]] + s[1..];
    }
  }

  lemma {:induction false} SplitPlain(s: string)
    requires Plain(s)
    ensures Plain(Split(s).0) && Plain(Split(s).1)
  {
    if s == [] || s[0] == '.' {
    } else {
      SplitPlain(s[1..]);
    }
  }

  lemma ReadPlain(raw: string)
    ensures Plain(Read(raw).whole) && Plain(Read(raw).cents)
  {
    BareIsBare(raw);
    var clean, bare := Strip(raw), Bare(raw);
    forall i | 0 <= i < |clean| ensures clean[i] != '$' && clean[i] != ',' {
      if InParens(bare) && i > 0 {
        assert clean[i] == bare[1..|bare| - 1][i - 1] == bare[i];
      }
    }
    assert Plain(clean);
    var rest := if clean != [] && clean[0] == '-' then clean[1..] else clean;
    SplitPlain(rest);
    assert Plain(Split(rest).1 + "00");
  }

  /** Printing put dollar sign, commas and parentheses; these come off again. */
  lemma BareOfWrap(p: Parts, dollar: bool)
    requires Plain(p.whole) && Plain(p.cents)
    ensures Bare(Wrap(p, Commas(p.whole, false), dollar))
         == (if p.negative then "(" else "") + p.whole + "." + p.cents + (if p.negative then ")" else "")
  {
    var d, l, r := if dollar then "$" else "", if p.negative then "(" else "", if p.negative then ")" else "";
    var w := Commas(p.whole, false);
    BareOfCommas(p.whole, false);
    BareAppend(d + l + w + "." + p.cents, r);
    BareAppend(d + l + w + ".", p.cents);
    BareAppend(d + l + w, ".");
    BareAppend(d + l, w);
    BareAppend(d, l);
    assert Bare(d) == [];
    BareOfPlain(l);
    BareOfPlain(r);
    BareOfPlain(".");
    BareOfPlain(p.cents);
  }

  /** Only a text that opens and closes with stray parentheses is read back wrongly. */
  predicate Regular(p: Parts) {
    p.negative || !InParens(Shown(p))
  }

  predicate Printed(raw: string, dash: bool) {
    !Placeholder(raw) && !(dash && ShownZero(Read(raw)))
  }

  /**
   * For every text that is not shown as a dash, stripping the printed form gives back sign, whole
   * part and two decimals, exactly when those do not themselves sit in parentheses.
   */
  lemma StripUndoesFmt(raw: string, dollar: bool, dash: bool)
    requires Printed(raw, dash)
    ensures Strip(FmtMoney(raw, dollar, dash)) == Shown(Read(raw)) <==> Regular(Read(raw))
  {
    var p := Read(raw);
    ReadPlain(raw);
    BareOfWrap(p, dollar);
    var clean := Bare(FmtMoney(raw, dollar, dash));
    if p.negative {
      assert clean[1..|clean| - 1] == p.whole + "." + p.cents;
    } else {
      assert clean == Shown(p);
      if InParens(clean) {
        assert Strip(FmtMoney(raw, dollar, dash))[0] == '-';
        assert Shown(p)[0] == '(';
      }
    }
  }

  // ---------------------------------------------------------------------
  // Printing twice

  lemma {:induction false} SplitJoined(a: string, b: string)
    requires '.' !in a
    ensures Split(a + "." + b) == (a, b)
  {
    if a == [] {
      assert a + "." + b == "." + b;
    } else {
      SplitJoined(a[1..], b);
      var s := a + "." + b;
      assert s[0] == a[0] && s[1..] == a[1..] + "." + b;
      assert a == [a[0]] + a[1..];
    }
  }

  lemma ReadShown(p: Parts, text: string)
    requires Strip(text) == Shown(p)
    requires '.' !in p.whole && |p.cents| == 2
    requires !p.negative ==> p.whole == [] || p.whole[0] != '-'
    ensures Read(text) == p
  {
    var clean := Shown(p);
    var negative := clean != [] && clean[0] == '-';
    if p.negative {
      assert clean[1..] == p.whole + "." + p.cents;
    } else {
      assert clean == p.whole + "." + p.cents;
    }
    SplitJoined(p.whole, p.cents);
    assert (p.cents + "00")[..2] == p.cents;
  }

  lemma ReadShape(raw: string)
    ensures var p := Read(raw);
            && '.' !in p.whole && |p.cents| == 2
            && (!p.negative ==> p.whole == [] || p.whole[0] != '-')
  {
    var clean := Strip(raw);
    if clean != [] && clean[0] != '-' && clean[0] != '.' {
      assert Split(clean).0[0] == clean[0];
    }
  }

  lemma WrapNotPlaceholder(p: Parts, whole: string, dollar: bool)
    ensures !Placeholder(Wrap(p, whole, dollar))
  {
    var pre := (if dollar then "$" else "") + (if p.negative then "(" else "") + whole;
    assert Wrap(p, whole, dollar)[|pre|] == '.';
    assert '.' !in "null" && '.' !in "undefined";
  }

  /** The text between stray parentheses is read as a negative amount with one decimal. */
  lemma ReadIrregular(p: Parts, text: string)
    requires Bare(text) == Shown(p) && !Regular(p)
    requires '.' !in p.whole && |p.cents| == 2
    ensures p.whole != [] && Read(text) == Parts(true, p.whole[1..], TwoPlaces(p.cents[..1]))
  {
    var shown := Shown(p);
    assert shown == p.whole + "." + p.cents;
    assert shown[|shown| - 1] == p.cents[1] == ')';
    assert shown[1..|shown| - 1] == p.whole[1..] + "." + p.cents[..1];
    var clean := Strip(text);
    assert clean[1..] == p.whole[1..] + "." + p.cents[..1];
    SplitJoined(p.whole[1..], p.cents[..1]);
  }

  /** So the second pass prints one character more. */
  lemma IrregularChanges(raw: string, dollar: bool, dash: bool)
    requires Printed(raw, dash) && !Regular(Read(raw))
    ensures FmtMoney(FmtMoney(raw, dollar, dash), dollar, dash) != FmtMoney(raw, dollar, dash)
  {
    var p, once := Read(raw), FmtMoney(raw, dollar, dash);
    ReadPlain(raw);
    ReadShape(raw);
    BareOfWrap(p, dollar);
    ReadIrregular(p, once);
    var q := Read(once);
    ReadPlain(once);
    BareOfWrap(q, dollar);
    WrapNotPlaceholder(p, Commas(p.whole, false), dollar);
    assert |Bare(once)| == |p.whole| + 3;
    assert |Bare(Wrap(q, Commas(q.whole, false), dollar))| == |p.whole| + 4;
    BareOfPlain(DASH);
    assert |Bare(DASH)| == 1;
  }

  /**
   * Formatting a formatted text again changes nothing exactly when the first pass did not give
   * the dash and did not print a text between stray parentheses.
   */
  lemma FmtIdempotent(raw: string, dollar: bool, dash: bool)
    ensures FmtMoney(FmtMoney(raw, dollar, dash), dollar, dash) == FmtMoney(raw, dollar, dash)
       <==> && !(dash && (Placeholder(raw) || ShownZero(Read(raw))))
            && (Placeholder(raw) || Regular(Read(raw)))
  {
    var once := FmtMoney(raw, dollar, dash);
    if dash && (Placeholder(raw) || ShownZero(Read(raw))) {
      DashFormatsBadly(dollar);
    } else if Placeholder(raw) {
      ZeroFormatsToItself(dollar);
    } else if Regular(Read(raw)) {
      StripUndoesFmt(raw, dollar, dash);
      ReadShape(raw);
      ReadShown(Read(raw), once);
      WrapNotPlaceholder(Read(raw), Commas(Read(raw).whole, false), dollar);
    } else {
      IrregularChanges(raw, dollar, dash);
    }
  }

  lemma DashFormatsBadly(dollar: bool)
    ensures FmtMoney(DASH, dollar, true) == (if dollar then "$" else "") + DASH + ".00"
  {
    assert DASH[1..] == [];
    assert Bare(DASH) == DASH;
    assert Strip(DASH) == DASH;
    assert Split(DASH) == (DASH, []);
    assert [] + "00" == "00";
    assert Read(DASH) == Parts(false, DASH, "00");
    assert !ShownZero(Read(DASH)) by {
      assert DASH[0] != '0';
    }
    assert Commas(DASH, false) == DASH;
  }

  lemma ZeroStrips(dollar: bool)
    ensures Strip(if dollar then "$0.00" else "0.00") == "0.00"
  {
    BareOfPlain("0.00");
    assert "$0.00"[1..] == "0.00";
  }

  lemma ZeroFormatsToItself(dollar: bool)
    ensures FmtMoney(if dollar then "$0.00" else "0.00", dollar, false) == if dollar then "$0.00" else "0.00"
  {
    var raw := if dollar then "$0.00" else "0.00";
    ZeroStrips(dollar);
    SplitJoined("0", "00");
    assert "0.00" == "0" + "." + "00" && TwoPlaces("00") == "00";
    assert Read(raw) == Parts(false, "0", "00");
    assert Commas("0", false) == "0" by {
      assert "0"[1..] == "";
    }
  }

  // ---------------------------------------------------------------------
  // Grouping

  lemma {:induction false} RunOfDigits(s: string)
    requires AllDigits(s)
    ensures Run(s) == |s|
  {
    if s == [] {
    } else {
      RunOfDigits(s[1..]);
    }
  }

  /** Commas between groups, when the text goes on from an earlier digit. */
  function Tail(s: string): string {
    if s == [] then [] else (if |s| % 3 == 0 then "," else "") + [s[0]] + Tail(s[1..])
  }

  lemma {:induction false} CommasAreTail(s: string, w: bool)
    requires AllDigits(s)
    ensures Commas(s, w) == if s == [] then [] else if w then Tail(s) else [s[0]] + Tail(s[1..])
  {
    RunOfDigits(s);
    if s == [] {
    } else {
      CommasAreTail(s[1..], true);
    }
  }

  lemma TailOfPair(s: string)
    requires |s| == 2
    ensures Tail(s) == s
  {
    assert s[1..][1..] == [] && Tail(s[1..]) == [s[1]];
    assert s == [s[0]] + [s[1]];
  }

  lemma TailCons(x: char, s: string)
    ensures Tail([x] + s) == (if (|s| + 1) % 3 == 0 then "," else "") + [x] + Tail(s)
  {
    assert ([x] + s)[1..] == s;
  }

  lemma TailOfTriple(g: string)
    requires |g| == 3
    ensures Tail(g) == "," + g
  {
    assert g == [g[0]] + g[1..];
    TailCons(g[0], g[1..]);
    TailOfPair(g[1..]);
  }

  lemma {:induction false} TailOfGroup(front: string, group: string)
    requires |group| == 3
    ensures Tail(front + group) == Tail(front) + "," + group
  {
    if front == [] {
      assert front + group == group;
      TailOfTriple(group);
    } else {
      var d, rest := front[0], front[1..];
      assert front == [d] + rest && front + group == [d] + (rest + group);
      TailCons(d, rest);
      TailCons(d, rest + group);
      TailOfGroup(rest, group);
      Regroup(if |front| % 3 == 0 then "," else "", [d], Tail(rest), group);
    }
  }

  lemma Regroup(c: string, d: string, front: string, group: string)
    ensures c + d + (front + "," + group) == (c + d + front) + "," + group
  {
  }

  lemma {:induction false} HeadedTail(s: string)
    requires s != []
    ensures [s[0]] + Tail(s[1..]) == Grouped(s)
  {
    if |s| <= 3 {
      if |s| == 3 {
        TailOfPair(s[1..]);
        assert s == [s[0]] + s[1..];
      } else if |s| == 2 {
        assert Tail(s[1..]) == [s[1]] by {
          assert s[1..][1..] == [];
        }
      }
    } else {
      var n := |s| - 3;
      assert s[1..] == s[..n][1..] + s[n..];
      TailOfGroup(s[..n][1..], s[n..]);
      HeadedTail(s[..n]);
      assert s[..n][0] == s[0];
    }
  }

  /** On digits the pattern groups by threes from the right, with no comma in front. */
  lemma CommasGroupByThrees(s: string)
    requires AllDigits(s)
    ensures Commas(s, false) == Grouped(s)
  {
    CommasAreTail(s, false);
    if s != [] {
      HeadedTail(s);
    }
  }

  // ---------------------------------------------------------------------
  // Decimal texts

  /** What is left after stripping is an optional minus, digits, and perhaps a point and digits. */
  predicate DecimalText(raw: string) {
    var clean := Strip(raw);
    var (whole, decimals) := Split(if clean != [] && clean[0] == '-' then clean[1..] else clean);
    AllDigits(whole) && AllDigits(decimals)
  }

  /** The digits after the point. */
  function Decimals(raw: string): string {
    var clean := Strip(raw);
    Split(if clean != [] && clean[0] == '-' then clean[1..] else clean).1
  }

  lemma DecimalParts(raw: string)
    requires DecimalText(raw)
    ensures AllDigits(Read(raw).whole) && AllDigits(Read(raw).cents) && Read(raw).cents == TwoPlaces(Decimals(raw))
    ensures Regular(Read(raw))
  {
    var p := Read(raw);
    assert AllDigits(Decimals(raw) + "00");
    if !p.negative {
      assert Shown(p)[|Shown(p)| - 1] == p.cents[1];
      assert IsDigit(p.cents[1]);
    }
  }

  /** The printed form of a decimal text, in full. */
  lemma FmtDecimal(raw: string, dollar: bool, dash: bool)
    requires DecimalText(raw) && Printed(raw, dash)
    ensures FmtMoney(raw, dollar, dash) == Wrap(Read(raw), Grouped(Read(raw).whole), dollar)
    ensures Strip(FmtMoney(raw, dollar, dash)) == Shown(Read(raw))
  {
    DecimalParts(raw);
    CommasGroupByThrees(Read(raw).whole);
    StripUndoesFmt(raw, dollar, dash);
  }

  lemma SmallMultiple(d: int, x: int)
    requires -d < d * x < d
    ensures x == 0
  {
  }

  lemma DivideExactly(n: nat, q: nat, d: nat, r: nat)
    requires r < d && n == q * d + r
    ensures n / d == q
  {
    var k, m := n / d, n % d;
    assert n == d * k + m;
    assert d * (q - k) == m - r;
    SmallMultiple(d, q - k);
  }

  lemma CutHundredths(a: nat, b: nat, p: nat, n: nat)
    requires b < p && n == a * p + b
    ensures n * 100 / (100 * p) == a
  {
    assert n * 100 == a * (100 * p) + b * 100;
    DivideExactly(n * 100, a, 100 * p, b * 100);
  }

  lemma LongDecimalsCut(decimals: string)
    requires AllDigits(decimals) && |decimals| >= 2
    ensures Value(decimals[..2]) == Value(decimals) * 100 / Pow10(|decimals|)
  {
    var m := |decimals|;
    var a, b := decimals[..2], decimals[2..];
    assert decimals == a + b;
    ValueAppend(a, b);
    ValueBound(b);
    assert Pow10(m) == 10 * Pow10(m - 1) && Pow10(m - 1) == 10 * Pow10(m - 2);
    CutHundredths(Value(a), Value(b), Pow10(m - 2), Value(decimals));
  }

  lemma ZeroHasNoValue()
    ensures Value("0") == 0
  {
    assert "0"[..0] == [];
  }

  lemma ZeroAppended(s: string)
    requires AllDigits(s)
    ensures Value(s + "0") == Value(s) * 10
  {
    ZeroHasNoValue();
    ValueAppend(s, "0");
    assert Pow10(1) == 10 * Pow10(0);
  }

  lemma ShortDecimalsFilled(decimals: string)
    requires AllDigits(decimals) && |decimals| < 2
    ensures AllDigits(TwoPlaces(decimals))
    ensures Value(TwoPlaces(decimals)) == Value(decimals) * 100 / Pow10(|decimals|)
  {
    if decimals == [] {
      assert TwoPlaces(decimals) == decimals + "0" + "0";
      ZeroAppended(decimals);
      ZeroAppended(decimals + "0");
    } else {
      assert TwoPlaces(decimals) == decimals + "0";
      ZeroAppended(decimals);
      assert Pow10(1) == 10 * Pow10(0);
    }
  }

  /** Two places are the decimals cut, not rounded: of `m` digits, a hundredth of their value is kept whole. */
  lemma TwoPlacesTruncate(decimals: string)
    requires AllDigits(decimals)
    ensures AllDigits(TwoPlaces(decimals))
    ensures Value(TwoPlaces(decimals)) == Value(decimals) * 100 / Pow10(|decimals|)
  {
    if |decimals| >= 2 {
      assert TwoPlaces(decimals) == decimals[..2];
      LongDecimalsCut(decimals);
    } else {
      ShortDecimalsFilled(decimals);
    }
  }

  // ---------------------------------------------------------------------
  // The sign test

  predicate Visible(s: string) {
    forall i | 0 <= i < |s| :: !IsSpace(s[i])
  }

  lemma TrimVisible(s: string)
    requires Visible(s)
    ensures Trim(s) == s
  {
  }

  lemma {:induction false} SplitRebuilds(s: string)
    ensures s == Split(s).0 || s == Split(s).0 + "." + Split(s).1
  {
    if s == [] || s[0] == '.' {
      assert s != [] ==> s == [] + "." + s[1..];
    } else {
      SplitRebuilds(s[1..]);
      assert s == [s[0]] + s[1..];
    }
  }

  lemma DigitsVisible(s: string)
    requires AllDigits(Split(s).0) && AllDigits(Split(s).1)
    ensures Visible(s)
  {
    SplitRebuilds(s);
    assert Visible(Split(s).0) && Visible(Split(s).1);
  }

  lemma UnstrippedVisible(bare: string)
    requires InParens(bare) && Visible(bare[1..|bare| - 1])
    ensures Visible(bare)
  {
    forall i | 0 <= i < |bare| ensures !IsSpace(bare[i]) {
      if 0 < i < |bare| - 1 {
        assert bare[i] == bare[1..|bare| - 1][i - 1];
      }
    }
  }

  lemma DecimalVisible(raw: string)
    requires DecimalText(raw)
    ensures Visible(Bare(raw))
  {
    var bare, clean := Bare(raw), Strip(raw);
    var rest := if clean != [] && clean[0] == '-' then clean[1..] else clean;
    DigitsVisible(rest);
    if InParens(bare) {
      assert rest == bare[1..|bare| - 1];
      UnstrippedVisible(bare);
    } else if clean != rest {
      assert clean == ['-'] + rest;
    }
  }

  lemma NegativeIsRead(raw: string)
    requires DecimalText(raw)
    ensures IsMoneyNegative(raw) <==> Read(raw).negative
  {
    DecimalVisible(raw);
    TrimVisible(Bare(raw));
  }

  /** The sign test agrees on a decimal text and its printed form, except for a negative zero shown as a dash. */
  lemma SignAgreesExactly(raw: string, dollar: bool, dash: bool)
    requires DecimalText(raw) && !Placeholder(raw)
    ensures IsMoneyNegative(FmtMoney(raw, dollar, dash)) == IsMoneyNegative(raw)
       <==> !(dash && ShownZero(Read(raw)) && Read(raw).negative)
  {
    NegativeIsRead(raw);
    var out := FmtMoney(raw, dollar, dash);
    if dash && ShownZero(Read(raw)) {
      assert Bare(DASH) == DASH by {
        assert DASH[1..] == [];
      }
      assert Visible(DASH);
      TrimVisible(DASH);
    } else {
      FmtDecimal(raw, dollar, dash);
      DecimalParts(raw);
      ReadShape(raw);
      ReadShown(Read(raw), out);
      PrintedIsDecimal(raw, out);
      NegativeIsRead(out);
    }
  }

  lemma PrintedIsDecimal(raw: string, out: string)
    requires DecimalText(raw) && Strip(out) == Shown(Read(raw))
    ensures DecimalText(out)
  {
    var p := Read(raw);
    DecimalParts(raw);
    ReadShape(raw);
    SplitJoined(p.whole, p.cents);
    if p.negative {
      assert Shown(p)[1..] == p.whole + "." + p.cents;
    } else {
      assert Shown(p) == p.whole + "." + p.cents;
      assert Shown(p)[0] != '-' by {
        if p.whole != [] {
          assert Shown(p)[0] == p.whole[0];
        }
      }
    }
  }

  // ---------------------------------------------------------------------
  // The printer on plain texts, spelled out

  /** A missing value is a dash, or zero. */
  lemma FmtMissing(raw: string, dollar: bool, dash: bool)
    requires raw == "" || raw == "null" || raw == "undefined"
    ensures FmtMoney(raw, dollar, dash) == if dash then ['\U{2014}'] else if dollar then "$0.00" else "0.00"
  {
  }

  lemma {:induction false} BareDigits(s: string)
    requires forall c <- s :: c != '$' && c != ','
    ensures Bare(s) == s
  {
    if s == [] {
    } else {
      assert s[0] in s;
      forall c | c in s[1..] ensures c != '$' && c != ',' {
        assert c in s;
      }
      BareDigits(s[1..]);
    }
  }

  lemma {:induction false} SplitAtPoint(whole: string, rest: string)
    requires '.' !in whole
    ensures Split(whole) == (whole, []) && Split(whole + "." + rest) == (whole, rest)
  {
    if whole == [] {
      assert whole + "." + rest == "." + rest;
      assert ("." + rest)[1..] == rest;
    } else {
      assert whole[0] in whole;
      assert (whole + "." + rest)[1..] == whole[1..] + "." + rest;
      SplitAtPoint(whole[1..], rest);
      assert whole == [whole[0]] + whole[1..];
    }
  }

  /** Sign, digits, and perhaps a point and more digits. */
  function PlainText(negative: bool, whole: string, rest: string, point: bool): string {
    (if negative then "-" else "") + whole + if point then "." + rest else ""
  }

  lemma PlainChars(negative: bool, whole: string, rest: string, point: bool)
    requires DecimalDigits(whole) && DecimalDigits(rest) && whole != ""
    ensures forall c <- PlainText(negative, whole, rest, point) :: c == '-' || c == '.' || '0' <= c <= '9'
    ensures var raw := PlainText(negative, whole, rest, point);
            raw != "" && raw[0] != '(' && raw[0] != 'n' && raw[0] != 'u' && (raw[0] == '-' <==> negative)
  {
    assert whole[0] in whole;
  }

  lemma ReadUnstripped(raw: string, negative: bool, size: string)
    requires Bare(raw) == raw && raw == (if negative then "-" + size else size)
    requires size != "" && size[0] != '-' && size[0] != '('
    ensures Read(raw) == Parts(negative, Split(size).0, TwoPlaces(Split(size).1))
  {
    assert !InParens(raw);
    assert negative ==> raw[1..] == size;
  }

  lemma PlainIsBare(negative: bool, whole: string, rest: string, point: bool)
    requires DecimalDigits(whole) && DecimalDigits(rest) && whole != ""
    ensures Bare(PlainText(negative, whole, rest, point)) == PlainText(negative, whole, rest, point)
    ensures !Placeholder(PlainText(negative, whole, rest, point))
  {
    PlainChars(negative, whole, rest, point);
    BareDigits(PlainText(negative, whole, rest, point));
  }

  lemma ReadPlainText(negative: bool, whole: string, rest: string, point: bool)
    requires DecimalDigits(whole) && DecimalDigits(rest) && whole != "" && (rest != "" ==> point)
    ensures Read(PlainText(negative, whole, rest, point)) == Parts(negative, whole, (rest + "00")[..2])
    ensures !Placeholder(PlainText(negative, whole, rest, point))
  {
    var size := if point then whole + "." + rest else whole;
    PlainIsBare(negative, whole, rest, point);
    assert PlainText(negative, whole, rest, point) == if negative then "-" + size else size;
    assert whole[0] in whole && size[0] == whole[0];
    ReadUnstripped(PlainText(negative, whole, rest, point), negative, size);
    NoPoint(whole);
    SplitAtPoint(whole, rest);
  }

  lemma NoPoint(s: string)
    requires DecimalDigits(s)
    ensures '.' !in s
  {
  }

  /**
   * A plain number: a dollar sign, parentheses for a negative one, the whole part grouped by
   * threes, two decimals; and a dash for zero, where wanted.
   */
  lemma FmtPlain(negative: bool, whole: string, rest: string, point: bool, dollar: bool, dash: bool)
    requires DecimalDigits(whole) && DecimalDigits(rest) && whole != "" && (rest != "" ==> point)
    ensures var cents := (rest + "00")[..2];
            FmtMoney(PlainText(negative, whole, rest, point), dollar, dash) ==
            if dash && cents == "00" && forall c <- whole :: c == '0' then ['\U{2014}']
            else (if dollar then "$" else "") + (if negative then "(" else "") + Grouped(whole) + "." + cents
                 + if negative then ")" else ""
  {
    ReadPlainText(negative, whole, rest, point);
    ValueIsDecimal(whole);
    CommasGroupByThrees(whole);
    ZerosExactly(whole);
  }

  lemma ZerosExactly(s: string)
    ensures OnlyZeros(s) <==> forall c <- s :: c == '0'
  {
    if forall c <- s :: c == '0' {
      forall i | 0 <= i < |s| ensures s[i] == '0' {
        assert s[i] in s;
      }
    }
  }

  /** Grouping puts a comma before every third digit from the right, but not in front. */
  lemma {:induction false} GroupedAt(s: string)
    ensures Bare(Grouped(s)) == Bare(s)
    ensures |s| > 3 ==> Grouped(s)[|Grouped(s)| - 4] == ',' && Grouped(s)[|Grouped(s)| - 3..] == s[|s| - 3..]
    ensures |s| > 3 ==> Grouped(s)[..|Grouped(s)| - 4] == Grouped(s[..|s| - 3])
  {
    if |s| > 3 {
      var front, back := s[..|s| - 3], s[|s| - 3..];
      GroupedAt(front);
      assert s == front + back;
      BareAppend(front, back);
      BareAppend(Grouped(front) + ",", back);
      BareAppend(Grouped(front), ",");
      assert Bare(",") == "";
    }
  }

  /** Parentheses around a text read as a minus in front of it. */
  lemma FmtParens(t: string, dollar: bool, dash: bool)
    requires forall c <- t :: c != '$' && c != ','
    ensures FmtMoney("(" + t + ")", dollar, dash) == FmtMoney("-" + t, dollar, dash)
  {
    var a, b := "(" + t + ")", "-" + t;
    BareDigits(a);
    BareDigits(b);
    assert a[1..|a| - 1] == t;
    assert Strip(a) == "-" + t && Strip(b) == b;
    assert a[0] == '(' && b[0] == '-';
  }
}
