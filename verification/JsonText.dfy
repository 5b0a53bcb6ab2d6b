/** JSON values, what they mean, their compact text, and a parser that inverts the text. */
module JsonText {
  import opened Text

  /**
   * A JavaScript value built from JSON data. A number is given by its printed form;
   * the members of an object are in property order; `Undefined` may stand in a member.
   */
  datatype Json =
    | Undefined
    | Null
    | Bool(b: bool)
    | Num(text: string)
    | Str(s: string)
    | Arr(items: seq<Json>)
    | Obj(members: seq<Member>)

  datatype Member = Member(key: string, val: Json)

  const PROTO := "__proto__"

  function Keys(ms: seq<Member>): (ks: seq<string>)
    ensures |ks| == |ms|
  {
    seq(|ms|, i requires 0 <= i < |ms| => ms[i].key)
  }

  function IndexOf(ms: seq<Member>, k: string): (i: nat)
    requires k in Keys(ms)
    ensures i < |ms| && ms[i].key == k
    ensures forall j | 0 <= j < i :: ms[j].key != k
  {
    if ms[0].key == k then 0
    else
      assert Keys(ms)[1..] == Keys(ms[1..]);
      1 + IndexOf(ms[1..], k)
  }

  ghost predicate DistinctKeys(ms: seq<Member>) {
    forall i, j | 0 <= i < j < |ms| :: ms[i].key != ms[j].key
  }

  /** Compact text needs digits and the like to be recognisable as one number (RFC 8259, section 6). */
  predicate NumberChar(c: char) {
    IsDigit(c) || c == '-' || c == '+' || c == '.' || c == 'e' || c == 'E'
  }

  predicate NumberText(t: string) {
    t != [] && (IsDigit(t[0]) || t[0] == '-') && forall i | 0 <= i < |t| :: NumberChar(t[i])
  }

  /** JSON data: every object has distinct keys, arrays hold no `Undefined`. */
  ghost predicate Valid(v: Json) {
    match v
    case Undefined => false
    case Num(t) => NumberText(t)
    case Arr(xs) => forall i | 0 <= i < |xs| :: Valid(xs[i])
    case Obj(ms) => DistinctKeys(ms) && forall i | 0 <= i < |ms| :: ms[i].val.Undefined? || Valid(ms[i].val)
    case _ => true
  }

  /** A valid value in which no member is `Undefined`: what compact text can show. */
  ghost predicate Plain(v: Json) {
    match v
    case Undefined => false
    case Num(t) => NumberText(t)
    case Arr(xs) => forall i | 0 <= i < |xs| :: Plain(xs[i])
    case Obj(ms) => DistinctKeys(ms) && forall i | 0 <= i < |ms| :: Plain(ms[i].val)
    case _ => true
  }

  /** How much of a value to look at: array order, and members named `__proto__`. */
  datatype View = View(ordered: bool, proto: bool)

  datatype Meaning =
    | MAbsent
    | MNull
    | MBool(b: bool)
    | MNum(text: string)
    | MStr(s: string)
    | MSeq(items: seq<Meaning>)
    | MBag(bag: multiset<Meaning>)
    | MObj(fields: map<string, Meaning>)

  predicate Kept(proto: bool, m: Member) {
    !m.val.Undefined? && (proto || m.key != PROTO)
  }

  ghost function KeptKeys(proto: bool, ms: seq<Member>): set<string> {
    set i | 0 <= i < |ms| && Kept(proto, ms[i]) :: ms[i].key
  }

  lemma KeptKeysAreKeys(proto: bool, ms: seq<Member>, k: string)
    requires k in KeptKeys(proto, ms)
    ensures k in Keys(ms)
  {
    var i :| 0 <= i < |ms| && Kept(proto, ms[i]) && ms[i].key == k;
    assert Keys(ms)[i] == k;
  }

  lemma IndexOfDistinct(ms: seq<Member>, i: nat)
    requires DistinctKeys(ms) && i < |ms|
    ensures ms[i].key in Keys(ms) && IndexOf(ms, ms[i].key) == i
  {
    assert Keys(ms)[i] == ms[i].key;
  }

  /** The value behind the representation: objects as maps, arrays as sequences or bags. */
  ghost function Denote(w: View, v: Json): Meaning {
    match v
    case Undefined => MAbsent
    case Null => MNull
    case Bool(b) => MBool(b)
    case Num(t) => MNum(t)
    case Str(s) => MStr(s)
    case Arr(xs) =>
      var ds := seq(|xs|, i requires 0 <= i < |xs| => Denote(w, xs[i]));
      if w.ordered then MSeq(ds) else MBag(multiset(ds))
    case Obj(ms) =>
      MObj(map k | k in KeptKeys(w.proto, ms) :: KeptKeysAreKeys(w.proto, ms, k); Denote(w, ms[IndexOf(ms, k)].val))
  }

  ghost function DenoteAll(w: View, xs: seq<Json>): seq<Meaning> {
    seq(|xs|, i requires 0 <= i < |xs| => Denote(w, xs[i]))
  }

  lemma DenoteAt(w: View, ms: seq<Member>, k: string)
    ensures k in Denote(w, Obj(ms)).fields <==> k in KeptKeys(w.proto, ms)
    ensures k in KeptKeys(w.proto, ms) ==>
              k in Keys(ms) && Denote(w, Obj(ms)).fields[k] == Denote(w, ms[IndexOf(ms, k)].val)
  {
    if k in KeptKeys(w.proto, ms) {
      KeptKeysAreKeys(w.proto, ms, k);
    }
  }

  lemma DenoteField(w: View, ms: seq<Member>, i: nat)
    requires DistinctKeys(ms) && i < |ms| && Kept(w.proto, ms[i])
    ensures ms[i].key in Denote(w, Obj(ms)).fields
    ensures Denote(w, Obj(ms)).fields[ms[i].key] == Denote(w, ms[i].val)
  {
    IndexOfDistinct(ms, i);
    assert ms[i].key in KeptKeys(w.proto, ms);
  }

  // ---------------------------------------------------------------------
  // Text

  function HexDigit(d: nat): char
    requires d < 16
  {
    if d < 10 then Digit(d) else ('a' as int + d - 10) as char
  }

  /** How `JSON.stringify` writes one character inside a string (RFC 8259, section 7). */
  function EscapeChar(c: char): string {
    if c == '"' then "\\\""
    else if c == '\\' then "\\\\"
    else if c as int == 8 then "\\b"
    else if c == '\t' then "\\t"
    else if c == '\n' then "\\n"
    else if c as int == 12 then "\\f"
    else if c == '\r' then "\\r"
    else if c < ' ' then "\\u00" + [HexDigit(c as int / 16), HexDigit(c as int % 16)]
    else [c]
  }

  function Escape(s: string): string {
    if s == [] then "" else EscapeChar(s[0]) + Escape(s[1..])
  }

  function Quote(s: string): string {
    "\"" + Escape(s) + "\""
  }

  /** `JSON.stringify` without spacing. */
  function Print(v: Json): string {
    match v
    case Undefined => ""
    case Null => "null"
    case Bool(b) => if b then "true" else "false"
    case Num(t) => t
    case Str(s) => Quote(s)
    case Arr(xs) => "[" + PrintItems(xs) + "]"
    case Obj(ms) => "{" + PrintMembers(ms) + "}"
  }

  function PrintItems(xs: seq<Json>): string {
    if xs == [] then ""
    else if |xs| == 1 then Print(xs[0])
    else Print(xs[0]) + "," + PrintItems(xs[1..])
  }

  function PrintMembers(ms: seq<Member>): string {
    if ms == [] then ""
    else if |ms| == 1 then PrintMember(ms[0])
    else PrintMember(ms[0]) + "," + PrintMembers(ms[1..])
  }

  function PrintMember(m: Member): string {
    Quote(m.key) + ":" + Print(m.val)
  }

  // ---------------------------------------------------------------------
  // Parser

  datatype Parsed<T> = Failed | Done(value: T, rest: string)

  function HexValue(c: char): int {
    if IsDigit(c) then DigitValue(c)
    else if 'a' <= c <= 'f' then c as int - 'a' as int + 10
    else if 'A' <= c <= 'F' then c as int - 'A' as int + 10
    else -1
  }

  /** The code of the four characters after `\u`, or -1. */
  function Hex4(s: string): int
    requires |s| == 4
  {
    var a, b, c, d := HexValue(s[0]), HexValue(s[1]), HexValue(s[2]), HexValue(s[3]);
    if a < 0 || b < 0 || c < 0 || d < 0 then -1 else ((a * 16 + b) * 16 + c) * 16 + d
  }

  /** Reads one possibly escaped character of a string body. */
  function ParseChar(s: string): (r: Parsed<char>)
    ensures r.Done? ==> |r.rest| < |s|
  {
    if s == [] || s[0] == '"' || s[0] < ' ' then Failed
    else if s[0] != '\\' then Done(s[0], s[1..])
    else if |s| < 2 then Failed
    else if s[1] == '"' || s[1] == '\\' || s[1] == '/' then Done(s[1], s[2..])
    else if s[1] == 'b' then Done(8 as char, s[2..])
    else if s[1] == 't' then Done('\t', s[2..])
    else if s[1] == 'n' then Done('\n', s[2..])
    else if s[1] == 'f' then Done(12 as char, s[2..])
    else if s[1] == 'r' then Done('\r', s[2..])
    else if s[1] == 'u' && |s| >= 6 && 0 <= Hex4(s[2..6]) < 0xD800 then Done(Hex4(s[2..6]) as char, s[6..])
    else Failed
  }

  /** Reads a string body up to and including the closing quote. */
  function ParseChars(s: string): (r: Parsed<string>)
    ensures r.Done? ==> |r.rest| < |s|
    decreases |s|
  {
    if s == [] then Failed
    else if s[0] == '"' then Done("", s[1..])
    else
      match ParseChar(s)
      case Failed => Failed
      case Done(c, rest) =>
        match ParseChars(rest)
        case Failed => Failed
        case Done(cs, rest') => Done([c] + cs, rest')
  }

  function NumberRun(s: string): (n: nat)
    ensures n <= |s|
  {
    if s == [] || !NumberChar(s[0]) then 0 else 1 + NumberRun(s[1..])
  }

  function ParseWord(s: string, word: string, v: Json): (r: Parsed<Json>)
    requires word != []
    ensures r.Done? ==> |r.rest| < |s|
  {
    if word <= s then Done(v, s[|word|..]) else Failed
  }

  function ParseValue(s: string): (r: Parsed<Json>)
    ensures r.Done? ==> |r.rest| < |s|
    decreases |s|, 0
  {
    if s == [] then Failed
    else if s[0] == 'n' then ParseWord(s, "null", Null)
    else if s[0] == 't' then ParseWord(s, "true", Bool(true))
    else if s[0] == 'f' then ParseWord(s, "false", Bool(false))
    else if s[0] == '"' then
      match ParseChars(s[1..])
      case Failed => Failed
      case Done(cs, rest) => Done(Str(cs), rest)
    else if s[0] == '[' then
      if |s| > 1 && s[1] == ']' then Done(Arr([]), s[2..]) else
      match ParseItems(s[1..])
      case Failed => Failed
      case Done(xs, rest) => Done(Arr(xs), rest)
    else if s[0] == '{' then
      if |s| > 1 && s[1] == '}' then Done(Obj([]), s[2..]) else
      match ParseMembers(s[1..])
      case Failed => Failed
      case Done(ms, rest) => Done(Obj(ms), rest)
    else if IsDigit(s[0]) || s[0] == '-' then Done(Num(s[..NumberRun(s)]), s[NumberRun(s)..])
    else Failed
  }

  /** One or more comma-separated values and the closing bracket. */
  function ParseItems(s: string): (r: Parsed<seq<Json>>)
    ensures r.Done? ==> |r.rest| < |s|
    decreases |s|, 1
  {
    match ParseValue(s)
    case Failed => Failed
    case Done(v, rest) =>
      if rest == [] then Failed
      else if rest[0] == ']' then Done([v], rest[1..])
      else if rest[0] == ',' then
        match ParseItems(rest[1..])
        case Failed => Failed
        case Done(vs, rest') => Done([v] + vs, rest')
      else Failed
  }

  function ParseMember(s: string): (r: Parsed<Member>)
    ensures r.Done? ==> |r.rest| < |s|
    decreases |s|, 1
  {
    if s == [] || s[0] != '"' then Failed
    else
      match ParseChars(s[1..])
      case Failed => Failed
      case Done(k, rest) =>
        if rest == [] || rest[0] != ':' then Failed
        else
          match ParseValue(rest[1..])
          case Failed => Failed
          case Done(v, rest') => Done(Member(k, v), rest')
  }

  function ParseMembers(s: string): (r: Parsed<seq<Member>>)
    ensures r.Done? ==> |r.rest| < |s|
    decreases |s|, 2
  {
    match ParseMember(s)
    case Failed => Failed
    case Done(m, rest) =>
      if rest == [] then Failed
      else if rest[0] == '}' then Done([m], rest[1..])
      else if rest[0] == ',' then
        match ParseMembers(rest[1..])
        case Failed => Failed
        case Done(ms, rest') => Done([m] + ms, rest')
      else Failed
  }

  /** The value of a complete text. */
  function Parse(s: string): Json {
    match ParseValue(s)
    case Failed => Undefined
    case Done(v, rest) => if rest == [] then v else Undefined
  }

  // ---------------------------------------------------------------------
  // The parser inverts the printer

  lemma ParseEscapedChar(c: char, s: string)
    ensures ParseChar(EscapeChar(c) + s) == Done(c, s)
    ensures EscapeChar(c) != [] && EscapeChar(c)[0] != '"'
  {
    var e := EscapeChar(c) + s;
    if c != '"' && c != '\\' && c as int != 8 && c != '\t' && c != '\n' && c as int != 12 && c != '\r' && c < ' ' {
      var hi, lo := c as int / 16, c as int % 16;
      assert e[2..6] == ['0', '0', HexDigit(hi), HexDigit(lo)];
      assert Hex4(e[2..6]) == c as int;
      assert e[6..] == s;
    } else if |EscapeChar(c)| == 2 {
      assert e[2..] == s;
    } else {
      assert e[1..] == s;
    }
  }

  lemma ParseOneMore(c: char, tail: string, cs: string, rest: string)
    requires ParseChars(tail) == Done(cs, rest)
    ensures ParseChars(EscapeChar(c) + tail) == Done([c] + cs, rest)
  {
    ParseEscapedChar(c, tail);
  }

  lemma {:induction false} ParseEscaped(t: string, rest: string)
    ensures ParseChars(Escape(t) + "\"" + rest) == Done(t, rest)
  {
    if t == [] {
      assert (Escape(t) + "\"" + rest)[1..] == rest;
    } else {
      var tail := Escape(t[1..]) + "\"" + rest;
      assert Escape(t) + "\"" + rest == EscapeChar(t[0]) + tail;
      ParseEscaped(t[1..], rest);
      ParseOneMore(t[0], tail, t[1..], rest);
      assert t == [t[0]] + t[1..];
    }
  }

  lemma {:induction false} NumberRunOf(t: string, rest: string)
    requires forall i | 0 <= i < |t| :: NumberChar(t[i])
    requires rest == [] || !NumberChar(rest[0])
    ensures NumberRun(t + rest) == |t|
  {
    if t == [] {
      assert t + rest == rest;
    } else {
      assert (t + rest)[1..] == t[1..] + rest;
      NumberRunOf(t[1..], rest);
    }
  }

  predicate Stops(rest: string) {
    rest == [] || !NumberChar(rest[0])
  }

  lemma PrintStart(v: Json)
    requires Plain(v)
    ensures Print(v) != [] && Print(v)[0] != ']'
  {
  }

  lemma ParseQuoted(t: string, rest: string)
    ensures (Quote(t) + rest)[0] == '"'
    ensures ParseChars((Quote(t) + rest)[1..]) == Done(t, rest)
  {
    assert (Quote(t) + rest)[1..] == Escape(t) + "\"" + rest;
    ParseEscaped(t, rest);
  }

  lemma {:induction false} ParsePrinted(v: Json, rest: string)
    requires Plain(v)
    requires Stops(rest)
    ensures ParseValue(Print(v) + rest) == Done(v, rest)
    decreases v, 0
  {
    match v
    case Null => assert (Print(v) + rest)[4..] == rest;
    case Bool(b) => assert (Print(v) + rest)[if b then 4 else 5..] == rest;
    case Num(t) => ParseNumber(t, rest);
    case Str(t) => ParseQuoted(t, rest);
    case Arr(xs) =>
      if xs != [] {
        ParsePrintedItems(xs, rest);
      }
      ParseBracketed(xs, rest);
    case Obj(ms) =>
      if ms != [] {
        ParsePrintedMembers(ms, rest);
      }
      ParseBraced(ms, rest);
  }

  lemma ParseNumber(t: string, rest: string)
    requires NumberText(t) && Stops(rest)
    ensures ParseValue(t + rest) == Done(Num(t), rest)
  {
    NumberRunOf(t, rest);
    assert (t + rest)[..|t|] == t && (t + rest)[|t|..] == rest;
  }

  lemma ParseArray(text: string, tail: string, xs: seq<Json>, rest: string)
    requires text == "[" + tail && tail != [] && tail[0] != ']'
    requires ParseItems(tail) == Done(xs, rest)
    ensures ParseValue(text) == Done(Arr(xs), rest)
  {
    assert text[1..] == tail;
  }

  lemma ParseEmptyArray(rest: string)
    ensures Print(Arr([])) == "[]" && ParseValue("[]" + rest) == Done(Arr([]), rest)
  {
    assert ("[]" + rest)[2..] == rest;
  }

  lemma ArrayText(xs: seq<Json>, rest: string)
    requires xs != []
    ensures Print(Arr(xs)) + rest == "[" + (PrintItems(xs) + "]" + rest)
  {
    Around("[", PrintItems(xs), "]", rest);
  }

  lemma Around(open: string, body: string, close: string, rest: string)
    ensures open + body + close + rest == open + (body + close + rest)
  {
  }

  lemma ParseBracketed(xs: seq<Json>, rest: string)
    requires forall i | 0 <= i < |xs| :: Plain(xs[i])
    requires xs != [] ==> ParseItems(PrintItems(xs) + "]" + rest) == Done(xs, rest)
    ensures ParseValue(Print(Arr(xs)) + rest) == Done(Arr(xs), rest)
  {
    if xs == [] {
      ParseEmptyArray(rest);
    } else {
      PrintItemsStart(xs);
      ArrayText(xs, rest);
      ParseArray(Print(Arr(xs)) + rest, PrintItems(xs) + "]" + rest, xs, rest);
    }
  }

  lemma ParseObject(text: string, tail: string, ms: seq<Member>, rest: string)
    requires text == "{" + tail && tail != [] && tail[0] != '}'
    requires ParseMembers(tail) == Done(ms, rest)
    ensures ParseValue(text) == Done(Obj(ms), rest)
  {
    assert text[1..] == tail;
  }

  lemma PrintMembersStart(ms: seq<Member>)
    requires ms != []
    ensures PrintMembers(ms) != [] && PrintMembers(ms)[0] == '"'
  {
    assert PrintMember(ms[0])[0] == '"';
  }

  lemma ParseEmptyObject(rest: string)
    ensures Print(Obj([])) == "{}" && ParseValue("{}" + rest) == Done(Obj([]), rest)
  {
    assert ("{}" + rest)[2..] == rest;
  }

  lemma ObjectText(ms: seq<Member>, rest: string)
    requires ms != []
    ensures Print(Obj(ms)) + rest == "{" + (PrintMembers(ms) + "}" + rest)
  {
    Around("{", PrintMembers(ms), "}", rest);
  }

  lemma ParseBraced(ms: seq<Member>, rest: string)
    requires ms != [] ==> ParseMembers(PrintMembers(ms) + "}" + rest) == Done(ms, rest)
    ensures ParseValue(Print(Obj(ms)) + rest) == Done(Obj(ms), rest)
  {
    if ms == [] {
      ParseEmptyObject(rest);
    } else {
      PrintMembersStart(ms);
      ObjectText(ms, rest);
      ParseObject(Print(Obj(ms)) + rest, PrintMembers(ms) + "}" + rest, ms, rest);
    }
  }

  lemma ParseLastItem(text: string, v: Json, rest: string)
    requires ParseValue(text) == Done(v, "]" + rest)
    ensures ParseItems(text) == Done([v], rest)
  {
    assert ("]" + rest)[1..] == rest;
  }

  lemma ParseNextItem(text: string, v: Json, tail: string, vs: seq<Json>, rest: string)
    requires ParseValue(text) == Done(v, "," + tail)
    requires ParseItems(tail) == Done(vs, rest)
    ensures ParseItems(text) == Done([v] + vs, rest)
  {
    assert ("," + tail)[1..] == tail;
  }

  lemma ParseLastMember(text: string, m: Member, rest: string)
    requires ParseMember(text) == Done(m, "}" + rest)
    ensures ParseMembers(text) == Done([m], rest)
  {
    assert ("}" + rest)[1..] == rest;
  }

  lemma ParseNextMember(text: string, m: Member, tail: string, ms: seq<Member>, rest: string)
    requires ParseMember(text) == Done(m, "," + tail)
    requires ParseMembers(tail) == Done(ms, rest)
    ensures ParseMembers(text) == Done([m] + ms, rest)
  {
    assert ("," + tail)[1..] == tail;
  }

  lemma PrintItemsStart(xs: seq<Json>)
    requires xs != [] && forall i | 0 <= i < |xs| :: Plain(xs[i])
    ensures PrintItems(xs) != [] && PrintItems(xs)[0] != ']'
  {
    PrintStart(xs[0]);
  }

  lemma {:induction false} ParsePrintedItems(xs: seq<Json>, rest: string)
    requires xs != [] && forall i | 0 <= i < |xs| :: Plain(xs[i])
    ensures ParseItems(PrintItems(xs) + "]" + rest) == Done(xs, rest)
    decreases xs, 1
  {
    var s := PrintItems(xs) + "]" + rest;
    if |xs| == 1 {
      assert s == Print(xs[0]) + ("]" + rest);
      ParsePrinted(xs[0], "]" + rest);
      ParseLastItem(s, xs[0], rest);
      assert xs == [xs[0]];
    } else {
      var tail := PrintItems(xs[1..]) + "]" + rest;
      assert s == Print(xs[0]) + ("," + tail);
      ParsePrinted(xs[0], "," + tail);
      ParsePrintedItems(xs[1..], rest);
      ParseNextItem(s, xs[0], tail, xs[1..], rest);
      assert xs == [xs[0]] + xs[1..];
    }
  }

  lemma ParseKeyed(text: string, k: string, tail: string, v: Json, rest: string)
    requires text == Quote(k) + (":" + tail)
    requires ParseValue(tail) == Done(v, rest)
    ensures ParseMember(text) == Done(Member(k, v), rest)
  {
    ParseQuoted(k, ":" + tail);
    assert (":" + tail)[1..] == tail;
  }

  lemma {:induction false} ParsePrintedMember(m: Member, rest: string)
    requires Plain(m.val)
    requires Stops(rest)
    ensures ParseMember(PrintMember(m) + rest) == Done(m, rest)
    decreases m, 1
  {
    ParsePrinted(m.val, rest);
    Glue(Quote(m.key), ":", Print(m.val), rest);
    ParseKeyed(PrintMember(m) + rest, m.key, Print(m.val) + rest, m.val, rest);
  }

  lemma {:induction false} ParsePrintedMembers(ms: seq<Member>, rest: string)
    requires ms != [] && forall i | 0 <= i < |ms| :: Plain(ms[i].val)
    ensures ParseMembers(PrintMembers(ms) + "}" + rest) == Done(ms, rest)
    decreases ms, 2
  {
    if |ms| == 1 {
      LastMemberText(ms, rest);
      ParsePrintedMember(ms[0], "}" + rest);
      ParseLastMember(PrintMembers(ms) + "}" + rest, ms[0], rest);
    } else {
      var tail := PrintMembers(ms[1..]) + "}" + rest;
      ParsePrintedMember(ms[0], "," + tail);
      ParsePrintedMembers(ms[1..], rest);
      NextMemberText(ms, rest);
      ParseNextMember(PrintMembers(ms) + "}" + rest, ms[0], tail, ms[1..], rest);
    }
  }

  lemma LastMemberText(ms: seq<Member>, rest: string)
    requires |ms| == 1
    ensures PrintMembers(ms) + "}" + rest == PrintMember(ms[0]) + ("}" + rest)
    ensures [ms[0]] == ms
  {
    assert PrintMembers(ms) == PrintMember(ms[0]);
  }

  lemma NextMemberText(ms: seq<Member>, rest: string)
    requires |ms| > 1
    ensures PrintMembers(ms) + "}" + rest == PrintMember(ms[0]) + ("," + (PrintMembers(ms[1..]) + "}" + rest))
    ensures [ms[0]] + ms[1..] == ms
  {
    GlueComma(PrintMember(ms[0]), PrintMembers(ms[1..]), rest);
  }

  lemma GlueComma(p: string, q: string, rest: string)
    ensures p + "," + q + "}" + rest == p + ("," + (q + "}" + rest))
  {
  }

  lemma Glue(a: string, b: string, c: string, d: string)
    ensures a + b + c + d == a + (b + (c + d))
    ensures a + b + c + d == (a + b) + (c + d)
  {
  }

  /** Parsing the compact text of a value gives the value back. */
  lemma ParseInvertsPrint(v: Json)
    requires Plain(v)
    ensures Parse(Print(v)) == v
  {
    ParsePrinted(v, "");
    assert Print(v) + "" == Print(v);
  }
}
