/**
 * Tracing the numbers of a response to investigation figures. Amounts are cents: two-place texts
 * and whole cents correspond one to one.
 */
module NumberProvenance {
  import opened Cents
  import opened Wrappers

  datatype Account = Account(
    currentBalance: real,
    priorBalance: real,
    changeAmount: real,
    changePercent: real,
    shareOfChange: real,
    transactions: Option<real>
  )

  datatype Change = Change(amount: real, percent: real)

  datatype Signals = Signals(
    recurring: real,
    nonRecurring: real,
    newAccounts: real,
    eliminatedAccounts: real,
    withTotal: real,
    againstTotal: real,
    related: seq<Change>
  )

  datatype Investigation = Investigation(
    currentTotal: real,
    priorTotal: real,
    changeAmount: real,
    changePercent: real,
    accountsAnalyzed: real,
    accounts: seq<Account>,
    signals: Option<Signals>
  )

  datatype Posting = Posting(debit: real, credit: real)

  datatype Drilldown = Drilldown(
    currentBalance: real,
    priorBalance: real,
    changeAmount: real,
    totalEntries: real,
    totalDebits: real,
    totalCredits: real,
    uniqueEntries: real,
    postings: seq<Posting>
  )

  // ---------------------------------------------------------------------
  // The figures a response may quote

  function AccountList(x: Account): seq<real> {
    [x.currentBalance, x.priorBalance, x.changeAmount, x.changePercent, x.shareOfChange]
    + if x.transactions.Some? then [x.transactions.value] else []
  }

  function AccountFigures(xs: seq<Account>): seq<real> {
    if xs == [] then [] else AccountFigures(xs[..|xs| - 1]) + AccountList(xs[|xs| - 1])
  }

  function PostingFigures(xs: seq<Posting>): seq<real> {
    if xs == [] then [] else PostingFigures(xs[..|xs| - 1]) + [xs[|xs| - 1].debit, xs[|xs| - 1].credit]
  }

  function ChangeFigures(xs: seq<Change>): seq<real> {
    if xs == [] then [] else ChangeFigures(xs[..|xs| - 1]) + [xs[|xs| - 1].amount, xs[|xs| - 1].percent]
  }

  function DrilldownFigures(d: Option<Drilldown>): seq<real> {
    match d
    case None => []
    case Some(x) =>
      [x.currentBalance, x.priorBalance, x.changeAmount, x.totalEntries, x.totalDebits, x.totalCredits, x.uniqueEntries]
      + PostingFigures(x.postings)
  }

  function SignalFigures(s: Option<Signals>): seq<real> {
    match s
    case None => []
    case Some(x) =>
      [x.recurring, x.nonRecurring, x.newAccounts, x.eliminatedAccounts, x.withTotal, x.againstTotal]
      + ChangeFigures(x.related)
  }

  /** The change of the first `n` contributing accounts together. */
  function TopSum(xs: seq<Account>, n: nat): real
    requires n <= |xs|
  {
    if n == 0 then 0.0 else TopSum(xs, n - 1) + xs[n - 1].changeAmount
  }

  /** The sums of the first two, three, up to `n` accounts. */
  function SumFigures(xs: seq<Account>, n: nat): seq<real>
    requires n <= 1 || n <= |xs|
  {
    if n <= 1 then [] else SumFigures(xs, n - 1) + [TopSum(xs, n)]
  }

  function SumLimit(xs: seq<Account>): nat {
    if |xs| < 5 then |xs| else 5
  }

  function HeadFigures(inv: Investigation): seq<real> {
    [inv.currentTotal, inv.priorTotal, inv.changeAmount, inv.changePercent, inv.accountsAnalyzed]
    + AccountFigures(inv.accounts)
  }

  function Figures(inv: Investigation, d: Option<Drilldown>): seq<real> {
    HeadFigures(inv) + DrilldownFigures(d) + SignalFigures(inv.signals) + SumFigures(inv.accounts, SumLimit(inv.accounts))
  }

  // ---------------------------------------------------------------------
  // The lookup set

  function With(s: seq<int>, c: int): seq<int> {
    if c in s then s else s + [c]
  }

  /** The distinct cents of the figures and of their absolute values, in order of first mention. */
  function Canon(figures: seq<real>): seq<int> {
    if figures == [] then []
    else
      var v := figures[|figures| - 1];
      With(With(Canon(figures[..|figures| - 1]), Round2(v)), Round2(AbsReal(v)))
  }

  /** `c` is the rounded figure or its absolute value. */
  predicate Quotes(figure: real, c: int) {
    c == Round2(figure) || c == Abs(Round2(figure))
  }

  ghost predicate Quoted(figures: seq<real>, c: int) {
    exists i | 0 <= i < |figures| :: Quotes(figures[i], c)
  }

  lemma QuotedLast(figures: seq<real>, v: real, c: int)
    ensures Quoted(figures + [v], c) <==> Quoted(figures, c) || Quotes(v, c)
  {
    var all := figures + [v];
    if Quoted(figures, c) {
      var i :| 0 <= i < |figures| && Quotes(figures[i], c);
      assert all[i] == figures[i];
    }
    if Quotes(v, c) {
      assert all[|figures|] == v;
    }
  }

  lemma CanonLast(figures: seq<real>, v: real)
    ensures Canon(figures + [v]) == With(With(Canon(figures), Round2(v)), Abs(Round2(v)))
  {
    assert (figures + [v])[..|figures|] == figures;
    AbsoluteCents(v);
  }

  lemma CanonLastHas(figures: seq<real>, v: real, c: int)
    ensures c in Canon(figures + [v]) <==> c in Canon(figures) || Quotes(v, c)
  {
    CanonLast(figures, v);
    WithHas(Canon(figures), Round2(v), c);
    WithHas(With(Canon(figures), Round2(v)), Abs(Round2(v)), c);
  }

  lemma WithHas(s: seq<int>, c: int, d: int)
    ensures d in With(s, c) <==> d in s || d == c
  {
  }

  /** The set holds the rounded figures and their absolute values, and nothing else. */
  lemma {:induction false} CanonExactly(figures: seq<real>, c: int)
    ensures c in Canon(figures) <==> Quoted(figures, c)
  {
    if figures == [] {
    } else {
      var n := |figures| - 1;
      CanonExactly(figures[..n], c);
      assert figures == figures[..n] + [figures[n]];
      CanonLastHas(figures[..n], figures[n], c);
      QuotedLast(figures[..n], figures[n], c);
    }
  }

  lemma AbsoluteCents(v: real)
    ensures Round2(AbsReal(v)) == Abs(Round2(v))
  {
    Round2Nearest(v);
    if v >= 0.0 {
      assert v * 100.0 + 0.5 >= 0.0;
    } else {
      assert -v * 100.0 + 0.5 >= 0.0;
    }
  }

  /** A JavaScript `Set` of two-place texts, kept in insertion order. */
  class LookupSet {
    var values: seq<int>
    /** Every figure added so far. */
    ghost var figures: seq<real>

    ghost predicate Valid()
      reads this
    {
      values == Canon(figures)
    }

    constructor ()
      ensures Valid() && figures == []
    {
      values, figures := [], [];
    }

    method Insert(c: int)
      modifies this`values
      ensures values == With(old(values), c)
    {
      if c !in values {
        values := values + [c];
      }
    }

    method Add(v: real)
      requires Valid()
      modifies this
      ensures Valid() && figures == old(figures) + [v]
    {
      Insert(Round2(v));
      Insert(Round2(AbsReal(v)));
      figures := figures + [v];
      assert figures[..|figures| - 1] == old(figures);
    }

    method AddAll(vs: seq<real>)
      requires Valid()
      modifies this
      ensures Valid() && figures == old(figures) + vs
    {
      for i := 0 to |vs|
        invariant Valid() && figures == old(figures) + vs[..i]
      {
        Add(vs[i]);
        Regroup(old(figures), vs[..i], [vs[i]]);
        Grow(vs, i);
      }
      assert vs[..|vs|] == vs;
    }

    method AddAccount(x: Account)
      requires Valid()
      modifies this
      ensures Valid() && figures == old(figures) + AccountList(x)
    {
      AddAll([x.currentBalance, x.priorBalance, x.changeAmount, x.changePercent, x.shareOfChange]);
      if x.transactions.Some? {
        Add(x.transactions.value);
      }
    }

    method AddAccounts(xs: seq<Account>)
      requires Valid()
      modifies this
      ensures Valid() && figures == old(figures) + AccountFigures(xs)
    {
      for i := 0 to |xs|
        invariant Valid() && figures == old(figures) + AccountFigures(xs[..i])
      {
        AddAccount(xs[i]);
        AccountsLast(xs, i);
        Regroup(old(figures), AccountFigures(xs[..i]), AccountList(xs[i]));
      }
      assert xs[..|xs|] == xs;
    }

    method AddPostings(xs: seq<Posting>)
      requires Valid()
      modifies this
      ensures Valid() && figures == old(figures) + PostingFigures(xs)
    {
      for i := 0 to |xs|
        invariant Valid() && figures == old(figures) + PostingFigures(xs[..i])
      {
        AddAll([xs[i].debit, xs[i].credit]);
        PostingsLast(xs, i);
        Regroup(old(figures), PostingFigures(xs[..i]), [xs[i].debit, xs[i].credit]);
      }
      assert xs[..|xs|] == xs;
    }

    method AddChanges(xs: seq<Change>)
      requires Valid()
      modifies this
      ensures Valid() && figures == old(figures) + ChangeFigures(xs)
    {
      for i := 0 to |xs|
        invariant Valid() && figures == old(figures) + ChangeFigures(xs[..i])
      {
        AddAll([xs[i].amount, xs[i].percent]);
        ChangesLast(xs, i);
        Regroup(old(figures), ChangeFigures(xs[..i]), [xs[i].amount, xs[i].percent]);
      }
      assert xs[..|xs|] == xs;
    }

    /** For each `n` from 2 the sum is taken afresh. */
    method AddSums(xs: seq<Account>)
      requires Valid()
      modifies this
      ensures Valid() && figures == old(figures) + SumFigures(xs, SumLimit(xs))
    {
      var n := 1;
      while n < SumLimit(xs)
        invariant Valid() && (n <= 1 || n <= SumLimit(xs))
        invariant figures == old(figures) + SumFigures(xs, n)
      {
        n := n + 1;
        var sum := SumFirst(xs, n);
        Add(sum);
        Regroup(old(figures), SumFigures(xs, n - 1), [sum]);
      }
      assert SumFigures(xs, n) == SumFigures(xs, SumLimit(xs));
    }
  }

  method SumFirst(xs: seq<Account>, n: nat) returns (sum: real)
    requires n <= |xs|
    ensures sum == TopSum(xs, n)
  {
    sum := 0.0;
    for i := 0 to n
      invariant sum == TopSum(xs, i)
    {
      sum := sum + xs[i].changeAmount;
    }
  }

  lemma Grow(vs: seq<real>, i: nat)
    requires i < |vs|
    ensures vs[..i + 1] == vs[..i] + [vs[i]]
  {
  }

  lemma Regroup(a: seq<real>, b: seq<real>, c: seq<real>)
    ensures (a + b) + c == a + (b + c)
  {
  }

  lemma AccountsLast(xs: seq<Account>, i: nat)
    requires i < |xs|
    ensures AccountFigures(xs[..i + 1]) == AccountFigures(xs[..i]) + AccountList(xs[i])
  {
    assert xs[..i + 1][..i] == xs[..i];
  }

  lemma PostingsLast(xs: seq<Posting>, i: nat)
    requires i < |xs|
    ensures PostingFigures(xs[..i + 1]) == PostingFigures(xs[..i]) + [xs[i].debit, xs[i].credit]
  {
    assert xs[..i + 1][..i] == xs[..i];
  }

  lemma ChangesLast(xs: seq<Change>, i: nat)
    requires i < |xs|
    ensures ChangeFigures(xs[..i + 1]) == ChangeFigures(xs[..i]) + [xs[i].amount, xs[i].percent]
  {
    assert xs[..i + 1][..i] == xs[..i];
  }

  method BuildLookupSet(inv: Investigation, d: Option<Drilldown>) returns (values: seq<int>)
    ensures values == Canon(Figures(inv, d))
  {
    var lookup := new LookupSet();
    lookup.AddAll([inv.currentTotal, inv.priorTotal, inv.changeAmount, inv.changePercent, inv.accountsAnalyzed]);
    lookup.AddAccounts(inv.accounts);
    assert lookup.figures == HeadFigures(inv);
    AddDrilldown(lookup, d);
    AddSignals(lookup, inv.signals);
    lookup.AddSums(inv.accounts);
    values := lookup.values;
  }

  method AddDrilldown(lookup: LookupSet, d: Option<Drilldown>)
    requires lookup.Valid()
    modifies lookup
    ensures lookup.Valid() && lookup.figures == old(lookup.figures) + DrilldownFigures(d)
  {
    match d
    case None =>
    case Some(x) =>
      var head := [x.currentBalance, x.priorBalance, x.changeAmount, x.totalEntries, x.totalDebits, x.totalCredits, x.uniqueEntries];
      lookup.AddAll(head);
      lookup.AddPostings(x.postings);
      Regroup(old(lookup.figures), head, PostingFigures(x.postings));
  }

  method AddSignals(lookup: LookupSet, s: Option<Signals>)
    requires lookup.Valid()
    modifies lookup
    ensures lookup.Valid() && lookup.figures == old(lookup.figures) + SignalFigures(s)
  {
    match s
    case None =>
    case Some(x) =>
      var head := [x.recurring, x.nonRecurring, x.newAccounts, x.eliminatedAccounts, x.withTotal, x.againstTotal];
      lookup.AddAll(head);
      lookup.AddChanges(x.related);
      Regroup(old(lookup.figures), head, ChangeFigures(x.related));
  }

  // ---------------------------------------------------------------------
  // Matching one token

  /** Less than five percent of a non-zero figure away. */
  predicate Near(t: int, c: int) {
    c != 0 && 20 * Abs(t - c) < Abs(c)
  }

  /** The loop's test on decimal amounts. */
  predicate Tolerated(t: int, c: int) {
    && c != 0
    && var diff := AbsReal(t as real / 100.0 - c as real / 100.0);
    && diff / AbsReal(c as real / 100.0) < 0.05
    && diff > 0.005
  }

  /** For a token that is not in the set the second bound never decides. */
  lemma ToleratedIsNear(t: int, c: int)
    ensures t != c ==> (Tolerated(t, c) <==> Near(t, c))
    ensures Tolerated(t, c) ==> t != c
  {
    if c != 0 {
      var diff := AbsReal(t as real / 100.0 - c as real / 100.0);
      var size := AbsReal(c as real / 100.0);
      assert diff == Abs(t - c) as real / 100.0;
      assert size == Abs(c) as real / 100.0 && size > 0.0;
      QuotientBelow(diff, size);
    }
  }

  lemma QuotientBelow(diff: real, size: real)
    requires size > 0.0
    ensures diff / size < 0.05 <==> diff < 0.05 * size
  {
    var q := diff / size;
    assert q * size == diff;
    if q < 0.05 {
      ScaleStrictly(q, 0.05, size);
    }
    if !(q < 0.05) {
      Scale(0.05, q, size);
    }
  }

  lemma ScaleStrictly(x: real, y: real, k: real)
    requires x < y && k > 0.0
    ensures x * k < y * k
  {
  }

  lemma Scale(x: real, y: real, k: real)
    requires x <= y && k > 0.0
    ensures x * k <= y * k
  {
  }

  predicate Verified(t: int, lookup: seq<int>) {
    t in lookup || exists i | 0 <= i < |lookup| :: Near(t, lookup[i])
  }

  /** The exact member, or else the first near one. */
  ghost predicate SourceOf(t: int, lookup: seq<int>, source: int) {
    if t in lookup then source == t
    else exists k | 0 <= k < |lookup| :: lookup[k] == source && Near(t, source) && forall j | 0 <= j < k :: !Near(t, lookup[j])
  }

  method MatchesWithAbbreviationTolerance(t: int, lookup: seq<int>) returns (matched: bool, source: int)
    ensures matched <==> Verified(t, lookup)
    ensures matched ==> SourceOf(t, lookup, source)
  {
    if t in lookup {
      return true, t;
    }
    for i := 0 to |lookup|
      invariant forall k | 0 <= k < i :: !Near(t, lookup[k])
    {
      ToleratedIsNear(t, lookup[i]);
      assert lookup[i] in lookup;
      if Tolerated(t, lookup[i]) {
        return true, lookup[i];
      }
    }
    matched, source := false, 0;
  }

  // ---------------------------------------------------------------------
  // The whole response

  /** A number-like piece of the text and its value in cents, if it has one. */
  datatype Token = Token(text: string, cents: Option<int>)

  /** Under ten, not between zero and one, and marked neither as money nor as a percentage. */
  predicate Trivial(t: Token)
    requires t.cents.Some?
  {
    var n := Abs(t.cents.value);
    n < 1000 && !(0 < n < 100) && '$' !in t.text && '%' !in t.text
  }

  predicate Checked(t: Token, lookup: seq<int>) {
    t.cents.Some? && (Trivial(t) ==> t.cents.value in lookup)
  }

  predicate Passes(t: Token, lookup: seq<int>) {
    Checked(t, lookup) && Verified(t.cents.value, lookup)
  }

  predicate Fails(t: Token, lookup: seq<int>) {
    Checked(t, lookup) && !Verified(t.cents.value, lookup)
  }

  function Texts(ts: seq<Token>): seq<string> {
    seq(|ts|, i requires 0 <= i < |ts| => ts[i].text)
  }

  function Passing(ts: seq<Token>, lookup: seq<int>): seq<Token> {
    if ts == [] then []
    else Passing(ts[..|ts| - 1], lookup) + if Passes(ts[|ts| - 1], lookup) then [ts[|ts| - 1]] else []
  }

  function Failing(ts: seq<Token>, lookup: seq<int>): seq<Token> {
    if ts == [] then []
    else Failing(ts[..|ts| - 1], lookup) + if Fails(ts[|ts| - 1], lookup) then [ts[|ts| - 1]] else []
  }

  datatype Reference = Reference(value: string, source: int)

  datatype Report = Report(valid: bool, found: seq<Reference>, unverified: seq<string>, total: nat)

  lemma ListsLast(ts: seq<Token>, lookup: seq<int>, n: nat)
    requires n < |ts|
    ensures Passing(ts[..n + 1], lookup) == Passing(ts[..n], lookup) + if Passes(ts[n], lookup) then [ts[n]] else []
    ensures Failing(ts[..n + 1], lookup) == Failing(ts[..n], lookup) + if Fails(ts[n], lookup) then [ts[n]] else []
  {
    assert ts[..n + 1][..n] == ts[..n];
  }

  ghost predicate Reports(found: seq<Reference>, ts: seq<Token>, lookup: seq<int>) {
    && |found| == |ts|
    && forall i | 0 <= i < |found| ::
         found[i].value == ts[i].text && ts[i].cents.Some? && SourceOf(ts[i].cents.value, lookup, found[i].source)
  }

  /** One token: skipped, found with its source, or unverified. */
  method CheckToken(t: Token, lookup: seq<int>) returns (checked: bool, matched: bool, source: int)
    ensures checked && matched <==> Passes(t, lookup)
    ensures checked && !matched <==> Fails(t, lookup)
    ensures matched ==> checked
    ensures checked && matched ==> t.cents.Some? && SourceOf(t.cents.value, lookup, source)
  {
    if t.cents.None? {
      return false, false, 0;
    }
    var size := Abs(t.cents.value);
    if size < 100 && size > 0 {
    } else if size < 1000 && '$' !in t.text && '%' !in t.text {
      if t.cents.value !in lookup {
        return false, false, 0;
      }
    }
    checked := true;
    matched, source := MatchesWithAbbreviationTolerance(t.cents.value, lookup);
  }

  method CheckTokens(ts: seq<Token>, lookup: seq<int>) returns (found: seq<Reference>, unverified: seq<string>)
    ensures Reports(found, Passing(ts, lookup), lookup) && unverified == Texts(Failing(ts, lookup))
  {
    found, unverified := [], [];
    for n := 0 to |ts|
      invariant Reports(found, Passing(ts[..n], lookup), lookup)
      invariant unverified == Texts(Failing(ts[..n], lookup))
    {
      ListsLast(ts, lookup, n);
      var checked, matched, source := CheckToken(ts[n], lookup);
      if !checked {
        continue;
      }
      if matched {
        found := found + [Reference(ts[n].text, source)];
      } else {
        unverified := unverified + [ts[n].text];
      }
    }
    assert ts[..|ts|] == ts;
  }

  method ValidateNumberProvenance(ts: seq<Token>, inv: Investigation, d: Option<Drilldown>) returns (r: Report)
    ensures var lookup := Canon(Figures(inv, d));
            && r.valid == (Failing(ts, lookup) == [])
            && r.unverified == Texts(Failing(ts, lookup))
            && Reports(r.found, Passing(ts, lookup), lookup)
            && r.total == |r.found| + |r.unverified|
  {
    var lookup := BuildLookupSet(inv, d);
    var found, unverified := CheckTokens(ts, lookup);
    r := Report(|unverified| == 0, found, unverified, |found| + |unverified|);
  }

  // ---------------------------------------------------------------------
  // What validity means

  predicate Valid(ts: seq<Token>, inv: Investigation, d: Option<Drilldown>) {
    Failing(ts, Canon(Figures(inv, d))) == []
  }

  /** The number is a figure or its absolute value, to the cent, or within five percent of one. */
  ghost predicate Traceable(t: int, figures: seq<real>) {
    exists c | Quoted(figures, c) :: c == t || Near(t, c)
  }

  lemma VerifiedIsTraceable(t: int, figures: seq<real>)
    ensures Verified(t, Canon(figures)) <==> Traceable(t, figures)
  {
    var lookup := Canon(figures);
    if Verified(t, lookup) {
      var c :| c in lookup && (c == t || Near(t, c));
      CanonExactly(figures, c);
    }
    if Traceable(t, figures) {
      var c :| Quoted(figures, c) && (c == t || Near(t, c));
      CanonExactly(figures, c);
      var k :| 0 <= k < |lookup| && lookup[k] == c;
    }
  }

  lemma {:induction false} FailingExactly(ts: seq<Token>, lookup: seq<int>)
    ensures Failing(ts, lookup) == [] <==> forall t <- ts :: !Fails(t, lookup)
  {
    if ts == [] {
    } else {
      var n := |ts| - 1;
      FailingExactly(ts[..n], lookup);
      assert ts == ts[..n] + [ts[n]];
    }
  }

  /** A response is valid exactly when every number that is checked can be traced to a figure. */
  lemma ValidExactly(ts: seq<Token>, inv: Investigation, d: Option<Drilldown>)
    ensures Valid(ts, inv, d) <==>
            forall t <- ts | Checked(t, Canon(Figures(inv, d))) :: Traceable(t.cents.value, Figures(inv, d))
  {
    FailingExactly(ts, Canon(Figures(inv, d)));
    forall t | t in ts && t.cents.Some?
      ensures Verified(t.cents.value, Canon(Figures(inv, d))) <==> Traceable(t.cents.value, Figures(inv, d))
    {
      VerifiedIsTraceable(t.cents.value, Figures(inv, d));
    }
  }

  /** Each checked token is reported once: as found or as unverified. */
  lemma {:induction false} ListsPartition(ts: seq<Token>, lookup: seq<int>, t: Token)
    ensures multiset(Passing(ts, lookup))[t] == (if Passes(t, lookup) then multiset(ts)[t] else 0)
    ensures multiset(Failing(ts, lookup))[t] == (if Fails(t, lookup) then multiset(ts)[t] else 0)
  {
    if ts == [] {
    } else {
      var n := |ts| - 1;
      ListsPartition(ts[..n], lookup, t);
      assert ts == ts[..n] + [ts[n]];
    }
  }

  /** More figures never unsettle a token that did not fail. */
  lemma FewerFailures(t: Token, few: seq<int>, many: seq<int>)
    requires forall c <- few :: c in many
    ensures Fails(t, many) ==> Fails(t, few)
  {
    if t.cents.Some? && Verified(t.cents.value, few) && t.cents.value !in few {
      var i :| 0 <= i < |few| && Near(t.cents.value, few[i]);
      assert few[i] in many;
      var k :| 0 <= k < |many| && many[k] == few[i];
    }
  }

  lemma QuotedApart(a: seq<real>, b: seq<real>, c: int)
    ensures Quoted(a + b, c) <==> Quoted(a, c) || Quoted(b, c)
  {
    if Quoted(a, c) {
      var i :| 0 <= i < |a| && Quotes(a[i], c);
      assert (a + b)[i] == a[i];
    }
    if Quoted(b, c) {
      var i :| 0 <= i < |b| && Quotes(b[i], c);
      assert (a + b)[|a| + i] == b[i];
    }
  }

  lemma QuotedInParts(inv: Investigation, d: Option<Drilldown>, c: int)
    ensures Quoted(Figures(inv, d), c) <==>
            || Quoted(HeadFigures(inv), c) || Quoted(DrilldownFigures(d), c) || Quoted(SignalFigures(inv.signals), c)
            || Quoted(SumFigures(inv.accounts, SumLimit(inv.accounts)), c)
  {
    var a, b, s, t :=
      HeadFigures(inv), DrilldownFigures(d), SignalFigures(inv.signals), SumFigures(inv.accounts, SumLimit(inv.accounts));
    QuotedApart(a, b, c);
    QuotedApart(a + b, s, c);
    QuotedApart(a + b + s, t, c);
  }

  lemma DrilldownOnlyAdds(inv: Investigation, d: Drilldown, c: int)
    requires c in Canon(Figures(inv, None))
    ensures c in Canon(Figures(inv, Some(d)))
  {
    CanonExactly(Figures(inv, None), c);
    CanonExactly(Figures(inv, Some(d)), c);
    QuotedInParts(inv, None, c);
    QuotedInParts(inv, Some(d), c);
  }

  /** Adding a drilldown never turns a valid response invalid. */
  lemma DrilldownKeepsValid(ts: seq<Token>, inv: Investigation, d: Drilldown)
    requires Valid(ts, inv, None)
    ensures Valid(ts, inv, Some(d))
  {
    var few, many := Canon(Figures(inv, None)), Canon(Figures(inv, Some(d)));
    forall c | c in few ensures c in many {
      DrilldownOnlyAdds(inv, d, c);
    }
    FailingExactly(ts, few);
    FailingExactly(ts, many);
    forall t | t in ts ensures !Fails(t, many) {
      FewerFailures(t, few, many);
    }
  }

  // ---------------------------------------------------------------------
  // The same, figure by figure and in amounts

  function SumOfChanges(xs: seq<Account>): real {
    if xs == [] then 0.0 else xs[0].changeAmount + SumOfChanges(xs[1..])
  }

  ghost predicate AccountFigure(a: Account, v: real) {
    || v == a.currentBalance || v == a.priorBalance || v == a.changeAmount || v == a.changePercent || v == a.shareOfChange
    || a.transactions == Some(v)
  }

  ghost predicate DrilldownFigure(d: Drilldown, v: real) {
    || v == d.currentBalance || v == d.priorBalance || v == d.changeAmount
    || v == d.totalEntries || v == d.totalDebits || v == d.totalCredits || v == d.uniqueEntries
    || exists p <- d.postings :: v == p.debit || v == p.credit
  }

  ghost predicate SignalFigure(s: Signals, v: real) {
    || v == s.recurring || v == s.nonRecurring || v == s.newAccounts || v == s.eliminatedAccounts
    || v == s.withTotal || v == s.againstTotal
    || exists r <- s.related :: v == r.amount || v == r.percent
  }

  /** The change of the first two, three, four or five accounts together. */
  ghost predicate SumFigure(xs: seq<Account>, v: real) {
    exists n | 2 <= n <= 5 && n <= |xs| :: v == SumOfChanges(xs[..n])
  }

  /** The figures of an investigation and a drilldown, one by one. */
  ghost predicate Figure(inv: Investigation, d: Option<Drilldown>, v: real) {
    || v == inv.currentTotal || v == inv.priorTotal || v == inv.changeAmount || v == inv.changePercent || v == inv.accountsAnalyzed
    || (exists a <- inv.accounts :: AccountFigure(a, v))
    || (d.Some? && DrilldownFigure(d.value, v))
    || (inv.signals.Some? && SignalFigure(inv.signals.value, v))
    || SumFigure(inv.accounts, v)
  }

  lemma {:induction false} AccountsHave(xs: seq<Account>, v: real)
    ensures v in AccountFigures(xs) <==> exists a <- xs :: AccountFigure(a, v)
  {
    if xs == [] {
    } else {
      var n := |xs| - 1;
      AccountsHave(xs[..n], v);
      assert xs == xs[..n] + [xs[n]];
      assert v in AccountList(xs[n]) <==> AccountFigure(xs[n], v);
    }
  }

  lemma {:induction false} PostingsHave(xs: seq<Posting>, v: real)
    ensures v in PostingFigures(xs) <==> exists p <- xs :: v == p.debit || v == p.credit
  {
    if xs == [] {
    } else {
      var n := |xs| - 1;
      PostingsHave(xs[..n], v);
      assert xs == xs[..n] + [xs[n]];
    }
  }

  lemma {:induction false} ChangesHave(xs: seq<Change>, v: real)
    ensures v in ChangeFigures(xs) <==> exists r <- xs :: v == r.amount || v == r.percent
  {
    if xs == [] {
    } else {
      var n := |xs| - 1;
      ChangesHave(xs[..n], v);
      assert xs == xs[..n] + [xs[n]];
    }
  }

  lemma {:induction false} SumLast(xs: seq<Account>, x: Account)
    ensures SumOfChanges(xs + [x]) == SumOfChanges(xs) + x.changeAmount
  {
    if xs == [] {
      assert xs + [x] == [x];
    } else {
      assert (xs + [x])[1..] == xs[1..] + [x];
      SumLast(xs[1..], x);
    }
  }

  lemma {:induction false} TopSumIs(xs: seq<Account>, n: nat)
    requires n <= |xs|
    ensures TopSum(xs, n) == SumOfChanges(xs[..n])
  {
    if n > 0 {
      TopSumIs(xs, n - 1);
      assert xs[..n] == xs[..n - 1] + [xs[n - 1]];
      SumLast(xs[..n - 1], xs[n - 1]);
    }
  }

  lemma {:induction false} SumsHave(xs: seq<Account>, n: nat, v: real)
    requires n <= 1 || n <= |xs|
    ensures v in SumFigures(xs, n) <==> exists m | 2 <= m <= n :: v == SumOfChanges(xs[..m])
  {
    if n > 1 {
      SumsHave(xs, n - 1, v);
      TopSumIs(xs, n);
    }
  }

  lemma FiguresExactly(inv: Investigation, d: Option<Drilldown>, v: real)
    ensures v in Figures(inv, d) <==> Figure(inv, d, v)
  {
    AccountsHave(inv.accounts, v);
    SumsHave(inv.accounts, SumLimit(inv.accounts), v);
    DrilldownHas(d, v);
    SignalsHave(inv.signals, v);
  }

  lemma DrilldownHas(d: Option<Drilldown>, v: real)
    ensures v in DrilldownFigures(d) <==> d.Some? && DrilldownFigure(d.value, v)
  {
    if d.Some? {
      PostingsHave(d.value.postings, v);
    }
  }

  lemma SignalsHave(s: Option<Signals>, v: real)
    ensures v in SignalFigures(s) <==> s.Some? && SignalFigure(s.value, v)
  {
    if s.Some? {
      ChangesHave(s.value.related, v);
    }
  }

  /** `c` is the figure `v` in cents, or without its sign. */
  ghost predicate CentsOrSize(v: real, c: int) {
    NearestCents(v, c) || (c >= 0 && NearestCents(v, -c))
  }

  lemma QuotesExactly(v: real, c: int)
    ensures Quotes(v, c) <==> CentsOrSize(v, c)
  {
    RoundedNearest(v);
    if NearestCents(v, c) {
      NearestUnique(v, c, Round2(v));
    }
    if NearestCents(v, -c) {
      NearestUnique(v, -c, Round2(v));
    }
    if Quotes(v, c) && c != Round2(v) {
      assert c == -Round2(v);
    }
    NearestSize(v);
  }

  /** A positive amount has no negative cents, and a negative one no positive. */
  lemma NearestSize(v: real)
    ensures v >= 0.0 ==> Round2(v) >= 0
    ensures v < 0.0 ==> Round2(v) <= 0
  {
    RoundedNearest(v);
    var y := v * 100.0;
    assert v >= 0.0 ==> y >= 0.0;
    assert v < 0.0 ==> y < 0.0;
  }

  /** The number is a figure to the cent, signs aside. */
  ghost predicate ExactFigure(inv: Investigation, d: Option<Drilldown>, n: int) {
    exists v :: Figure(inv, d, v) && CentsOrSize(v, n)
  }

  /** Or less than five percent away from one that is not zero. */
  ghost predicate NearFigure(inv: Investigation, d: Option<Drilldown>, n: int) {
    exists v, c :: Figure(inv, d, v) && CentsOrSize(v, c) && Close(n, c)
  }

  ghost predicate Close(n: int, c: int) {
    c != 0 && 20 * (if n >= c then n - c else c - n) < if c >= 0 then c else -c
  }

  /** A small number in running text: less than ten, but not between zero and one, without `$` and `%`. */
  ghost predicate InProse(t: Token, n: int) {
    -1000 < n < 1000 && (n <= -100 || n == 0 || n >= 100) && '$' !in t.text && '%' !in t.text
  }

  lemma ExactExactly(inv: Investigation, d: Option<Drilldown>, n: int)
    ensures n in Canon(Figures(inv, d)) <==> ExactFigure(inv, d, n)
  {
    var fs := Figures(inv, d);
    CanonExactly(fs, n);
    if Quoted(fs, n) {
      var i :| 0 <= i < |fs| && Quotes(fs[i], n);
      FiguresExactly(inv, d, fs[i]);
      QuotesExactly(fs[i], n);
    }
    if ExactFigure(inv, d, n) {
      var v :| Figure(inv, d, v) && CentsOrSize(v, n);
      FiguresExactly(inv, d, v);
      QuotesExactly(v, n);
      var i :| 0 <= i < |fs| && fs[i] == v;
    }
  }

  lemma VerifiedExactly(inv: Investigation, d: Option<Drilldown>, n: int)
    ensures Verified(n, Canon(Figures(inv, d))) <==> ExactFigure(inv, d, n) || NearFigure(inv, d, n)
  {
    var lookup := Canon(Figures(inv, d));
    ExactExactly(inv, d, n);
    if i :| 0 <= i < |lookup| && Near(n, lookup[i]) {
      ExactExactly(inv, d, lookup[i]);
      var v :| Figure(inv, d, v) && CentsOrSize(v, lookup[i]);
      assert Close(n, lookup[i]);
    }
    if NearFigure(inv, d, n) {
      var v, c :| Figure(inv, d, v) && CentsOrSize(v, c) && Close(n, c);
      ExactExactly(inv, d, c);
      var i :| 0 <= i < |lookup| && lookup[i] == c;
      assert Near(n, lookup[i]);
    }
  }

  /**
   * A response is valid exactly when every number with a value is a figure, signs aside, or near
   * one, or a small number in running text that is no figure.
   */
  lemma ValidSpelled(ts: seq<Token>, inv: Investigation, d: Option<Drilldown>)
    ensures Valid(ts, inv, d) <==>
            forall t <- ts | t.cents.Some? ::
              var n := t.cents.value;
              ExactFigure(inv, d, n) || NearFigure(inv, d, n) || (InProse(t, n) && !ExactFigure(inv, d, n))
  {
    var lookup := Canon(Figures(inv, d));
    FailingExactly(ts, lookup);
    forall t | t in ts && t.cents.Some?
      ensures !Fails(t, lookup) <==>
              || ExactFigure(inv, d, t.cents.value) || NearFigure(inv, d, t.cents.value)
              || (InProse(t, t.cents.value) && !ExactFigure(inv, d, t.cents.value))
    {
      ExactExactly(inv, d, t.cents.value);
      VerifiedExactly(inv, d, t.cents.value);
    }
  }
}
