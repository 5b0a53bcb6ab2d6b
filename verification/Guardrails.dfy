/** The scan of agent output for amounts, against a description by places in the tree. */
module Guardrails {
  import opened Ordering
  import opened Text
  import opened Wrappers

  /** A value as `typeof` sees it. Only the finiteness of a number matters. */
  datatype Tree =
    | Absent
    | Null
    | Bool(b: bool)
    | Number(finite: bool)
    | Str(s: string)
    | Arr(items: seq<Tree>)
    | Obj(members: seq<Member>)

  datatype Member = Member(key: string, val: Tree)

  const AMOUNT_KEYS: set<string> := {
    "debit", "credit", "amount", "debits", "credits", "amounts", "balance", "total",
    "applyamount", "paymentamount", "bankamount", "aramount", "overallmaterialityamount",
    "trivialthreshold", "daysoverdue", "openaramount", "openapamount", "payrollaccrualamount"
  }

  const ALLOWED_KEYS: set<string> := {
    "confidence", "count", "urgency", "type", "title", "description", "suggestion", "rationale", "id",
    "accountcode", "account", "accountname", "basis", "priority", "include", "reason", "reasoning",
    "schemamapping", "classification", "normalized", "lineid", "glentryid", "arinvoicenumber",
    "overallmaterialitypercent", "performancematerialitypercent"
  }

  /**
   * `toLowerCase` as far as the key sets can tell: besides A to Z only the Kelvin sign has an
   * ASCII letter as its lower case, and no other character becomes one.
   */
  function Lower(s: string): (r: string)
    ensures |r| == |s|
  {
    seq(|s|, i requires 0 <= i < |s| => LowerChar(s[i]))
  }

  function LowerChar(c: char): char {
    if 'A' <= c <= 'Z' then (c as int + 32) as char
    else if c as int == 0x212A then 'k'
    else c
  }

  /** The letters with a lower case among the key sets' letters, one by one. */
  lemma LowerExactly(c: char)
    ensures forall i | 0 <= i < 26 && c == "ABCDEFGHIJKLMNOPQRSTUVWXYZ"[i] :: LowerChar(c) == "abcdefghijklmnopqrstuvwxyz"[i]
    ensures c == '\U{212A}' ==> LowerChar(c) == 'k'
    ensures !(0x41 <= c as int <= 0x5A) && c != '\U{212A}' ==> LowerChar(c) == c
  {
  }

  function Strip(s: string): string {
    if s == [] then []
    else if s[0] == '_' || s[0] == '-' then Strip(s[1..])
    else [s[0]] + Strip(s[1..])
  }

  /** `account_code` and `AccountCode` are one key. */
  function Normalize(key: string): string {
    Strip(Lower(key))
  }

  /** The part of a path after its last dot. */
  function LastSegment(path: string): string {
    if path == [] || path[|path| - 1] == '.' then []
    else LastSegment(path[..|path| - 1]) + [path[|path| - 1]]
  }

  // ---------------------------------------------------------------------
  // Numeric strings

  predicate Grouped(s: string) {
    s == [] || (if s[0] == '.' then AllDigits(s[1..]) else (IsDigit(s[0]) || s[0] == ',') && Grouped(s[1..]))
  }

  /** A digit, then digits and commas, then perhaps a point and digits. */
  predicate Numeric(s: string) {
    s != [] && IsDigit(s[0]) && Grouped(s)
  }

  /** The digits before the point. */
  function Whole(s: string): (r: string)
    requires Grouped(s)
    ensures AllDigits(r)
  {
    if s == [] || s[0] == '.' then []
    else if s[0] == ',' then Whole(s[1..])
    else [s[0]] + Whole(s[1..])
  }

  function Fraction(s: string): (r: string)
    requires Grouped(s)
    ensures AllDigits(r)
  {
    if s == [] then [] else if s[0] == '.' then s[1..] else Fraction(s[1..])
  }

  /** `parseFloat` once the commas are gone. */
  function Reading(s: string): real
    requires Numeric(s)
  {
    Value(Whole(s)) as real + Value(Fraction(s)) as real / Pow10(|Fraction(s)|) as real
  }

  predicate NumericString(v: Tree) {
    v.Str? && Numeric(Trim(v.s))
  }

  predicate AtLeastTen(v: Tree)
    requires NumericString(v)
  {
    Reading(Trim(v.s)) >= 10.0
  }

  // ---------------------------------------------------------------------
  // The scan

  predicate HasNumericAmount(v: Tree, path: string)
    decreases v
  {
    match v
    case Number(finite) => finite
    case Str(_) => NumericString(v) && (Lower(LastSegment(path)) in AMOUNT_KEYS || AtLeastTen(v))
    case Arr(xs) => exists i | 0 <= i < |xs| :: HasNumericAmount(xs[i], path + "[" + NatText(i) + "]")
    case Obj(ms) => exists i | 0 <= i < |ms| :: MemberHasAmount(ms[i], path)
    case _ => false
  }

  predicate MemberHasAmount(m: Member, path: string)
    decreases m
  {
    var key := Normalize(m.key);
    || (key in AMOUNT_KEYS && (m.val.Number? || NumericString(m.val)))
    || (key !in ALLOWED_KEYS && m.val.Number? && m.val.finite)
    || (key !in ALLOWED_KEYS && NumericString(m.val) && AtLeastTen(m.val))
    || ((m.val.Arr? || m.val.Obj?) && HasNumericAmount(m.val, path + "." + m.key))
  }

  // ---------------------------------------------------------------------
  // Places in the tree

  /** A value with the key that directly holds it; array items and the root have none. */
  datatype Place = Place(holder: Option<string>, val: Tree)

  function Child(v: Tree, i: nat): Option<Place> {
    match v
    case Arr(xs) => if i < |xs| then Some(Place(None, xs[i])) else None
    case Obj(ms) => if i < |ms| then Some(Place(Some(ms[i].key), ms[i].val)) else None
    case _ => None
  }

  /** The place reached by going to child `p[0]`, then its child `p[1]`, and so on. */
  function At(from: Place, p: seq<nat>): Option<Place>
    decreases |p|
  {
    if p == [] then Some(from)
    else
      var c := Child(from.val, p[0]);
      if c.None? then None else At(c.value, p[1..])
  }

  predicate UnderAllowed(x: Place) {
    x.holder.Some? && Normalize(x.holder.value) in ALLOWED_KEYS
  }

  predicate UnderAmount(x: Place) {
    x.holder.Some? && Normalize(x.holder.value) in AMOUNT_KEYS
  }

  /** What must hold of the value at a place. */
  predicate Fine(x: Place) {
    && (x.val.Number? && x.val.finite ==> UnderAllowed(x))
    && (NumericString(x.val) && AtLeastTen(x.val) ==> UnderAllowed(x))
    && (UnderAmount(x) ==> !x.val.Number? && !NumericString(x.val))
  }

  /** Every value at or below the place is fine. */
  ghost predicate FineBelow(from: Place) {
    forall p: seq<nat> | At(from, p).Some? :: Fine(At(from, p).value)
  }

  lemma KeySetsDisjoint(k: string)
    ensures !(k in AMOUNT_KEYS && k in ALLOWED_KEYS)
  {
  }

  lemma FineBelowUnfold(from: Place)
    ensures FineBelow(from) <==>
            Fine(from) && forall i: nat | Child(from.val, i).Some? :: FineBelow(Child(from.val, i).value)
  {
    if FineBelow(from) {
      assert At(from, []) == Some(from);
      forall i: nat | Child(from.val, i).Some? ensures FineBelow(Child(from.val, i).value) {
        var c := Child(from.val, i).value;
        forall p: seq<nat> | At(c, p).Some? ensures Fine(At(c, p).value) {
          assert ([i] + p)[1..] == p;
          assert At(from, [i] + p) == At(c, p);
        }
      }
    }
    if Fine(from) && forall i: nat | Child(from.val, i).Some? :: FineBelow(Child(from.val, i).value) {
      forall p: seq<nat> | At(from, p).Some? ensures Fine(At(from, p).value) {
        if p != [] {
          assert FineBelow(Child(from.val, p[0]).value);
          assert At(from, p) == At(Child(from.val, p[0]).value, p[1..]);
        }
      }
    }
  }

  lemma AmountKeysEndInLetters(k: string)
    requires k in AMOUNT_KEYS
    ensures k != "" && k[|k| - 1] != ']'
  {
  }

  /** A string is only reached at the root or in an array, where the path ends no amount key. */
  predicate EndsNoKey(path: string) {
    path == "" || path[|path| - 1] == ']'
  }

  lemma PathNeverMatters(path: string)
    requires EndsNoKey(path)
    ensures Lower(LastSegment(path)) !in AMOUNT_KEYS
  {
    var k := Lower(LastSegment(path));
    if path != "" {
      assert k[|k| - 1] == ']';
    }
    if k in AMOUNT_KEYS {
      AmountKeysEndInLetters(k);
    }
  }

  lemma {:induction false} ScanExactly(v: Tree, path: string)
    requires v.Str? ==> EndsNoKey(path)
    ensures !HasNumericAmount(v, path) <==> FineBelow(Place(None, v))
    decreases v
  {
    var from := Place(None, v);
    FineBelowUnfold(from);
    match v
    case Arr(xs) =>
      forall i | 0 <= i < |xs|
        ensures !HasNumericAmount(xs[i], path + "[" + NatText(i) + "]") <==> FineBelow(Place(None, xs[i]))
      {
        ScanExactly(xs[i], path + "[" + NatText(i) + "]");
      }
      assert forall i: nat | i < |xs| :: Child(v, i) == Some(Place(None, xs[i]));
    case Obj(ms) =>
      forall i | 0 <= i < |ms|
        ensures !MemberHasAmount(ms[i], path) <==> FineBelow(Place(Some(ms[i].key), ms[i].val))
      {
        MemberExactly(ms[i], path);
      }
      assert forall i: nat | i < |ms| :: Child(v, i) == Some(Place(Some(ms[i].key), ms[i].val));
    case Str(_) => PathNeverMatters(path);
    case _ =>
  }

  lemma {:induction false} MemberExactly(m: Member, path: string)
    ensures !MemberHasAmount(m, path) <==> FineBelow(Place(Some(m.key), m.val))
    decreases m
  {
    FineBelowUnfold(Place(Some(m.key), m.val));
    FineBelowUnfold(Place(None, m.val));
    KeySetsDisjoint(Normalize(m.key));
    if m.val.Arr? || m.val.Obj? {
      ScanExactly(m.val, path + "." + m.key);
    }
  }

  /**
   * A value is accepted exactly when, at any depth, every number and every numeric string of at
   * least ten is held directly by an allowed key, and no amount key directly holds a number or a
   * numeric string.
   */
  lemma AcceptedExactly(v: Tree)
    ensures !HasNumericAmount(v, "") <==> FineBelow(Place(None, v))
  {
    ScanExactly(v, "");
  }

  /** An array passes exactly when each of its items would pass alone. */
  lemma AcceptedTogether(xs: seq<Tree>)
    ensures !HasNumericAmount(Arr(xs), "") <==> forall i | 0 <= i < |xs| :: !HasNumericAmount(xs[i], "")
  {
    ScanExactly(Arr(xs), "");
    FineBelowUnfold(Place(None, Arr(xs)));
    forall i | 0 <= i < |xs| ensures !HasNumericAmount(xs[i], "") <==> FineBelow(Child(Arr(xs), i).value) {
      ScanExactly(xs[i], "");
    }
  }

  // ---------------------------------------------------------------------
  // The rules for one value, spelled out

  /** A digit, digits and commas, and perhaps a point with digits: `^\d[\d,]*\.?\d*$`. */
  ghost predicate NumberParts(s: string, whole: string, rest: string) {
    && s == whole + rest && whole != "" && '0' <= whole[0] <= '9'
    && (forall c <- whole :: '0' <= c <= '9' || c == ',')
    && (rest == "" || (rest[0] == '.' && DecimalDigits(rest[1..])))
  }

  ghost predicate NumberLike(s: string) {
    exists whole, rest :: NumberParts(s, whole, rest)
  }

  const NOT_COMMA: char -> bool := (c: char) => c != ','

  /** Its whole part, without the commas, is at least ten. */
  ghost predicate TenOrMore(s: string) {
    exists whole, rest :: NumberParts(s, whole, rest) && Decimal(Filter(NOT_COMMA, whole)) >= 10
  }

  lemma {:induction false} GroupedParts(whole: string, rest: string)
    requires forall c <- whole :: '0' <= c <= '9' || c == ','
    requires rest == "" || (rest[0] == '.' && DecimalDigits(rest[1..]))
    ensures Grouped(whole + rest)
    ensures Whole(whole + rest) == Filter(NOT_COMMA, whole)
  {
    if whole == [] {
      assert whole + rest == rest;
      if rest != "" {
        ValueIsDecimal(rest[1..]);
      }
    } else {
      assert (whole + rest)[1..] == whole[1..] + rest;
      assert whole[0] in whole;
      forall c | c in whole[1..] ensures '0' <= c <= '9' || c == ',' {
        assert c in whole;
      }
      GroupedParts(whole[1..], rest);
    }
  }

  lemma {:induction false} GroupedSplits(s: string) returns (whole: string, rest: string)
    requires Grouped(s)
    ensures s == whole + rest && (forall c <- whole :: '0' <= c <= '9' || c == ',')
    ensures rest == "" || (rest[0] == '.' && DecimalDigits(rest[1..]))
  {
    if s == [] || s[0] == '.' {
      whole, rest := [], s;
      if s != [] {
        ValueIsDecimal(s[1..]);
      }
    } else {
      whole, rest := GroupedSplits(s[1..]);
      whole := [s[0]] + whole;
      assert s == whole + rest;
    }
  }

  lemma NumericExactly(s: string)
    ensures Numeric(s) <==> NumberLike(s)
  {
    if Numeric(s) {
      var whole, rest := GroupedSplits(s);
      assert NumberParts(s, whole, rest);
    }
    if NumberLike(s) {
      var whole, rest :| NumberParts(s, whole, rest);
      GroupedParts(whole, rest);
    }
  }

  lemma FractionBelowOne(f: string)
    requires AllDigits(f)
    ensures 0.0 <= Value(f) as real / Pow10(|f|) as real < 1.0
  {
    ValueBound(f);
    BelowOne(Value(f) as real, Pow10(|f|) as real, Value(f) as real / Pow10(|f|) as real);
  }

  lemma BelowOne(v: real, p: real, q: real)
    requires 0.0 <= v < p && q == v / p
    ensures 0.0 <= q < 1.0
  {
    assert q * p == v;
    if q >= 1.0 {
      AtLeast(q, p);
    }
  }

  lemma AtLeast(q: real, p: real)
    requires q >= 1.0 && p > 0.0
    ensures q * p >= p
  {
    assert (q - 1.0) * p >= 0.0;
  }

  lemma TenExactly(s: string)
    requires Numeric(s)
    ensures Reading(s) >= 10.0 <==> TenOrMore(s)
  {
    FractionBelowOne(Fraction(s));
    ValueIsDecimal(Whole(s));
    var whole, rest := GroupedSplits(s);
    GroupedParts(whole, rest);
    assert NumberParts(s, whole, rest);
    if TenOrMore(s) {
      var w, r :| NumberParts(s, w, r) && Decimal(Filter(NOT_COMMA, w)) >= 10;
      GroupedParts(w, r);
    }
  }

  const NOT_MARK: char -> bool := (c: char) => c != '_' && c != '-'

  /** A key in lower case, without underscores and hyphens. */
  lemma {:induction false} NormalizeExactly(key: string)
    ensures Normalize(key) == Filter(NOT_MARK, Lower(key))
  {
    StripExactly(Lower(key));
  }

  lemma {:induction false} StripExactly(s: string)
    ensures Strip(s) == Filter(NOT_MARK, s)
  {
    if s == [] {
    } else {
      StripExactly(s[1..]);
    }
  }

  /** The key that directly holds the value, normalised, is in the set. */
  ghost predicate HeldBy(x: Place, keys: set<string>) {
    x.holder.Some? && Filter(NOT_MARK, Lower(x.holder.value)) in keys
  }

  /** What `Fine` asks: no amount outside allowed keys, no number at all under an amount key. */
  lemma FineExactly(x: Place)
    ensures Fine(x) <==>
            && (x.val == Number(true) ==> HeldBy(x, ALLOWED_KEYS))
            && (x.val.Str? && NumberLike(Trim(x.val.s)) && TenOrMore(Trim(x.val.s)) ==> HeldBy(x, ALLOWED_KEYS))
            && (HeldBy(x, AMOUNT_KEYS) ==> !x.val.Number? && !(x.val.Str? && NumberLike(Trim(x.val.s))))
  {
    if x.holder.Some? {
      NormalizeExactly(x.holder.value);
    }
    if x.val.Str? {
      NumericExactly(Trim(x.val.s));
      if Numeric(Trim(x.val.s)) {
        TenExactly(Trim(x.val.s));
      }
    }
  }
}
