/** The hash-chained audit log: building it, walking it, and what its last hash commits to. */
module AuditChain {
  import opened Text

  type Digest = string -> string

  datatype Event = Event(id: string, action: string, timestamp: string, payload: string)

  /** An event with the stored hash of its predecessor and its own stored hash. */
  datatype Entry = Entry(event: Event, previous: string, hash: string)

  /** The text `computeEntryHash` digests. */
  function Preimage(e: Event, previous: string): string {
    e.id + "|" + (e.action + "|" + (e.timestamp + "|" + (e.payload + "|" + previous)))
  }

  /** The four fields and the previous hash, with a bar between each two. */
  lemma PreimageSpelled(e: Event, previous: string)
    ensures Preimage(e, previous) == e.id + "|" + e.action + "|" + e.timestamp + "|" + e.payload + "|" + previous
  {
  }

  /** Entry `i` of a chain built from `events`, written out. */
  ghost predicate ChainedAt(h: Digest, events: seq<Event>, chain: seq<Entry>, i: nat) {
    && i < |events| && i < |chain|
    && var e, previous := events[i], if i == 0 then "" else chain[i - 1].hash;
       chain[i] == Entry(e, previous, h(e.id + "|" + e.action + "|" + e.timestamp + "|" + e.payload + "|" + previous))
  }

  function EntryHash(h: Digest, e: Event, previous: string): string {
    h(Preimage(e, previous))
  }

  /** The hash a walk carries into entry `i`. */
  function Carried(chain: seq<Entry>, i: nat): string
    requires i <= |chain|
  {
    if i == 0 then "" else chain[i - 1].hash
  }

  function Head(chain: seq<Entry>): string {
    Carried(chain, |chain|)
  }

  predicate HashMatches(h: Digest, chain: seq<Entry>, i: nat)
    requires i < |chain|
  {
    chain[i].hash == EntryHash(h, chain[i].event, Carried(chain, i))
  }

  predicate LinkValid(chain: seq<Entry>, i: nat)
    requires i < |chain|
  {
    chain[i].previous == Carried(chain, i)
  }

  predicate Verifies(h: Digest, chain: seq<Entry>) {
    forall i | 0 <= i < |chain| :: HashMatches(h, chain, i) && LinkValid(chain, i)
  }

  function Events(chain: seq<Entry>): seq<Event> {
    seq(|chain|, i requires 0 <= i < |chain| => chain[i].event)
  }

  lemma ChainedIsVerified(h: Digest, chain: seq<Entry>)
    ensures Verifies(h, chain) <==> forall i | 0 <= i < |chain| :: ChainedAt(h, Events(chain), chain, i)
  {
    forall i | 0 <= i < |chain|
      ensures HashMatches(h, chain, i) && LinkValid(chain, i) <==> ChainedAt(h, Events(chain), chain, i)
    {
      PreimageSpelled(chain[i].event, Carried(chain, i));
    }
  }

  lemma AppendVerifies(h: Digest, chain: seq<Entry>, e: Event)
    requires Verifies(h, chain)
    ensures Verifies(h, chain + [Entry(e, Head(chain), EntryHash(h, e, Head(chain)))])
  {
    var longer := chain + [Entry(e, Head(chain), EntryHash(h, e, Head(chain)))];
    forall i | 0 <= i < |longer| ensures HashMatches(h, longer, i) && LinkValid(longer, i) {
      assert Carried(longer, i) == Carried(chain, i);
      if i < |chain| {
        assert HashMatches(h, chain, i) && LinkValid(chain, i);
      }
    }
  }

  /** Appends one entry per event, each hashed over the one before; the result verifies. */
  method Build(h: Digest, events: seq<Event>) returns (chain: seq<Entry>)
    ensures Events(chain) == events
    ensures Verifies(h, chain)
    ensures forall i | 0 <= i < |events| :: ChainedAt(h, events, chain, i)
  {
    chain := [];
    var prevHash := "";
    for i := 0 to |events|
      invariant |chain| == i && Events(chain) == events[..i]
      invariant prevHash == Head(chain)
      invariant Verifies(h, chain)
    {
      var entryHash := EntryHash(h, events[i], prevHash);
      AppendVerifies(h, chain, events[i]);
      assert Events(chain + [Entry(events[i], prevHash, entryHash)]) == Events(chain) + [events[i]];
      chain := chain + [Entry(events[i], prevHash, entryHash)];
      prevHash := entryHash;
    }
    ChainedIsVerified(h, chain);
  }

  /** The verification walk: carries the stored hash forward and checks hash and link of each entry. */
  method Verify(h: Digest, chain: seq<Entry>) returns (allHashesValid: bool, allLinksValid: bool)
    ensures allHashesValid <==> forall i | 0 <= i < |chain| :: HashMatches(h, chain, i)
    ensures allLinksValid <==> forall i | 0 <= i < |chain| :: LinkValid(chain, i)
    ensures allHashesValid && allLinksValid <==> forall i | 0 <= i < |chain| :: ChainedAt(h, Events(chain), chain, i)
  {
    ChainedIsVerified(h, chain);
    allHashesValid, allLinksValid := true, true;
    var prevHash := "";
    for i := 0 to |chain|
      invariant prevHash == Carried(chain, i)
      invariant allHashesValid <==> forall j | 0 <= j < i :: HashMatches(h, chain, j)
      invariant allLinksValid <==> forall j | 0 <= j < i :: LinkValid(chain, j)
    {
      var e := chain[i];
      var recomputed := EntryHash(h, e.event, prevHash);
      if recomputed != e.hash {
        allHashesValid := false;
        assert !HashMatches(h, chain, i);
      }
      if e.previous != prevHash {
        allLinksValid := false;
        assert !LinkValid(chain, i);
      }
      prevHash := e.hash;
    }
  }

  /** With payload `payload` in place of its own, entry `i` no longer matches its stored hash. */
  predicate Mismatch(h: Digest, chain: seq<Entry>, i: nat, payload: string)
    requires i < |chain|
  {
    EntryHash(h, chain[i].event.(payload := payload), Carried(chain, i)) != chain[i].hash
  }

  /**
   * The tamper walk: `payloads` replace the stored payloads while the stored hashes are
   * kept, and the walk stops at the first mismatch.
   */
  method TamperWalk(h: Digest, chain: seq<Entry>, payloads: seq<string>) returns (brokenAt: nat)
    requires |payloads| == |chain|
    ensures brokenAt <= |chain|
    ensures forall i | 0 <= i < brokenAt :: !Mismatch(h, chain, i, payloads[i])
    ensures brokenAt < |chain| ==> Mismatch(h, chain, brokenAt, payloads[brokenAt])
  {
    brokenAt := 0;
    var prevHash := "";
    while brokenAt < |chain|
      invariant brokenAt <= |chain| && prevHash == Carried(chain, brokenAt)
      invariant forall i | 0 <= i < brokenAt :: !Mismatch(h, chain, i, payloads[i])
    {
      var e := chain[brokenAt];
      var recomputed := EntryHash(h, e.event.(payload := payloads[brokenAt]), prevHash);
      if recomputed != e.hash {
        return;
      }
      prevHash := e.hash;
      brokenAt := brokenAt + 1;
    }
  }

  /** Where a tamper walk over a verified chain stops: exactly at the first changed payload. */
  lemma TamperFoundExactly(h: Digest, chain: seq<Entry>, payloads: seq<string>, brokenAt: nat)
    requires |payloads| == |chain| && Verifies(h, chain) && brokenAt <= |chain|
    requires forall i | 0 <= i < |chain| :: NoCollision(h, chain[i].event, payloads[i], Carried(chain, i))
    requires forall i | 0 <= i < brokenAt :: !Mismatch(h, chain, i, payloads[i])
    requires brokenAt < |chain| ==> Mismatch(h, chain, brokenAt, payloads[brokenAt])
    ensures forall i | 0 <= i < brokenAt :: payloads[i] == chain[i].event.payload
    ensures brokenAt < |chain| ==> payloads[brokenAt] != chain[brokenAt].event.payload
  {
    forall i | 0 <= i <= brokenAt && i < |chain|
      ensures Mismatch(h, chain, i, payloads[i]) <==> payloads[i] != chain[i].event.payload
    {
      TamperShows(h, chain, i, payloads[i]);
    }
  }

  lemma TamperShows(h: Digest, chain: seq<Entry>, i: nat, payload: string)
    requires i < |chain| && Verifies(h, chain)
    requires NoCollision(h, chain[i].event, payload, Carried(chain, i))
    ensures Mismatch(h, chain, i, payload) <==> payload != chain[i].event.payload
  {
    assert HashMatches(h, chain, i);
    if !Mismatch(h, chain, i, payload) {
      PayloadVisible(chain[i].event, payload, Carried(chain, i));
    }
  }

  /** The digest does not collide on an entry's text and its text with another payload. */
  predicate NoCollision(h: Digest, e: Event, payload: string, previous: string) {
    var f := e.(payload := payload);
    EntryHash(h, e, previous) == EntryHash(h, f, previous) ==> Preimage(e, previous) == Preimage(f, previous)
  }

  lemma SameAround(a: string, b: string, x: string, y: string)
    requires a + x + b == a + y + b
    ensures x == y
  {
    var l, r := a + x + b, a + y + b;
    assert |x| == |y|;
    assert l[|a|..|a| + |x|] == x && r[|a|..|a| + |x|] == y;
  }

  lemma PayloadVisible(e: Event, payload: string, previous: string)
    requires Preimage(e, previous) == Preimage(e.(payload := payload), previous)
    ensures payload == e.payload
  {
    var front, back := e.id + "|" + e.action + "|" + e.timestamp + "|", "|" + previous;
    assert Preimage(e, previous) == front + e.payload + back;
    assert Preimage(e.(payload := payload), previous) == front + payload + back;
    SameAround(front, back, e.payload, payload);
  }

  // ---------------------------------------------------------------------
  // The head determines the history

  const BAR := '|'

  predicate BarFree(e: Event) {
    BAR !in e.id && BAR !in e.action && BAR !in e.timestamp
  }

  /** The fields of an entry can be read off its text, even when the payload contains bars. */
  lemma PreimageInjective(e: Event, f: Event, p: string, q: string)
    requires BarFree(e) && BarFree(f) && BAR !in p && BAR !in q
    requires Preimage(e, p) == Preimage(f, q)
    ensures e == f && p == q
  {
    var e2, f2 := e.payload + "|" + p, f.payload + "|" + q;
    var e1, f1 := e.timestamp + "|" + e2, f.timestamp + "|" + f2;
    CutAtFirst(BAR, e.id, f.id, e.action + "|" + e1, f.action + "|" + f1);
    CutAtFirst(BAR, e.action, f.action, e1, f1);
    CutAtFirst(BAR, e.timestamp, f.timestamp, e2, f2);
    CutAtLast(BAR, e.payload, f.payload, p, q);
  }

  ghost function Texts(chain: seq<Entry>): set<string> {
    set i | 0 <= i < |chain| :: Preimage(chain[i].event, Carried(chain, i))
  }

  ghost predicate CollisionFree(h: Digest, texts: set<string>) {
    forall x, y | x in texts && y in texts && h(x) == h(y) :: x == y
  }

  /** Like a hex digest: never empty, no bar. */
  ghost predicate HexLike(h: Digest) {
    forall x :: h(x) != "" && BAR !in h(x)
  }

  ghost predicate AllBarFree(chain: seq<Entry>) {
    forall i | 0 <= i < |chain| :: BarFree(chain[i].event)
  }

  lemma CarriedBarFree(h: Digest, chain: seq<Entry>, i: nat)
    requires HexLike(h) && Verifies(h, chain) && i <= |chain|
    ensures BAR !in Carried(chain, i)
    ensures i > 0 ==> Carried(chain, i) != ""
  {
    if i > 0 {
      assert HashMatches(h, chain, i - 1);
    }
  }

  lemma InitVerifies(h: Digest, chain: seq<Entry>)
    requires Verifies(h, chain) && chain != []
    ensures Verifies(h, chain[..|chain| - 1])
    ensures Texts(chain[..|chain| - 1]) <= Texts(chain)
  {
    var init := chain[..|chain| - 1];
    forall i | 0 <= i < |init| ensures HashMatches(h, init, i) && LinkValid(init, i) {
      assert HashMatches(h, chain, i) && LinkValid(chain, i);
      assert Carried(init, i) == Carried(chain, i);
    }
    forall x | x in Texts(init) ensures x in Texts(chain) {
      var i :| 0 <= i < |init| && x == Preimage(init[i].event, Carried(init, i));
      assert Carried(init, i) == Carried(chain, i);
    }
  }

  ghost predicate AllNoBars(a: seq<Entry>) {
    forall i | 0 <= i < |a| :: NoBars(a[i].event)
  }

  /**
   * Two verified chains, with a digest that does not collide on their texts: bars occur in payloads
   * only, or the first chain has none and the second is arbitrary.
   */
  ghost predicate Comparable(h: Digest, a: seq<Entry>, b: seq<Entry>) {
    && HexLike(h) && CollisionFree(h, Texts(a) + Texts(b)) && Verifies(h, a) && Verifies(h, b)
    && ((AllBarFree(a) && AllBarFree(b)) || AllNoBars(a))
  }

  lemma DropLast(h: Digest, a: seq<Entry>, b: seq<Entry>)
    requires Comparable(h, a, b) && a != [] && b != []
    ensures Comparable(h, a[..|a| - 1], b[..|b| - 1])
    ensures Head(a[..|a| - 1]) == Carried(a, |a| - 1) && Head(b[..|b| - 1]) == Carried(b, |b| - 1)
  {
    InitVerifies(h, a);
    InitVerifies(h, b);
    InitCollisionFree(h, a, b);
    InitBars(a);
    InitBars(b);
  }

  lemma InitBars(a: seq<Entry>)
    requires a != []
    ensures AllBarFree(a) ==> AllBarFree(a[..|a| - 1])
    ensures AllNoBars(a) ==> AllNoBars(a[..|a| - 1])
  {
  }

  lemma EmptyIffEmpty(h: Digest, a: seq<Entry>, b: seq<Entry>)
    requires Comparable(h, a, b) && Head(a) == Head(b)
    ensures a == [] <==> b == []
  {
    CarriedBarFree(h, a, |a|);
    CarriedBarFree(h, b, |b|);
  }

  /**
   * Main result: two chains that pass the walk and end in the same hash are equal in length
   * and in every entry, unless the digest collides on the texts they digested.
   */
  lemma {:induction false} HeadDeterminesHistory(h: Digest, a: seq<Entry>, b: seq<Entry>)
    requires Comparable(h, a, b) && Head(a) == Head(b)
    ensures a == b
  {
    EmptyIffEmpty(h, a, b);
    if a == [] {
    } else {
      LastEntriesEqual(h, a, b);
      DropLast(h, a, b);
      HeadDeterminesHistory(h, a[..|a| - 1], b[..|b| - 1]);
      SplitLast(a);
      SplitLast(b);
    }
  }

  lemma SplitLast(a: seq<Entry>)
    requires a != []
    ensures a == a[..|a| - 1] + [a[|a| - 1]]
  {
  }

  lemma SubsetCollisionFree(h: Digest, s: set<string>, t: set<string>)
    requires CollisionFree(h, t) && s <= t
    ensures CollisionFree(h, s)
  {
  }

  lemma LastEntriesEqual(h: Digest, a: seq<Entry>, b: seq<Entry>)
    requires Comparable(h, a, b)
    requires a != [] && b != [] && Head(a) == Head(b)
    ensures a[|a| - 1] == b[|b| - 1] && Carried(a, |a| - 1) == Carried(b, |b| - 1)
  {
    var m, n := |a| - 1, |b| - 1;
    assert HashMatches(h, a, m) && HashMatches(h, b, n) && LinkValid(a, m) && LinkValid(b, n);
    var x, y := Preimage(a[m].event, Carried(a, m)), Preimage(b[n].event, Carried(b, n));
    assert x in Texts(a) && y in Texts(b);
    assert x == y;
    CarriedBarFree(h, a, m);
    CarriedBarFree(h, b, n);
    if AllNoBars(a) {
      OnlyReading(a[m].event, b[n].event, Carried(a, m), Carried(b, n));
    } else {
      PreimageInjective(a[m].event, b[n].event, Carried(a, m), Carried(b, n));
    }
  }

  lemma InitCollisionFree(h: Digest, a: seq<Entry>, b: seq<Entry>)
    requires Verifies(h, a) && Verifies(h, b) && a != [] && b != [] && CollisionFree(h, Texts(a) + Texts(b))
    ensures CollisionFree(h, Texts(a[..|a| - 1]) + Texts(b[..|b| - 1]))
  {
    InitVerifies(h, a);
    InitVerifies(h, b);
    SubsetCollisionFree(h, Texts(a[..|a| - 1]) + Texts(b[..|b| - 1]), Texts(a) + Texts(b));
  }

  // ---------------------------------------------------------------------
  // Bars make histories ambiguous

  /** The text with its first bar removed is two parts. */
  lemma CutAtBar(s: string) returns (a: string, b: string)
    requires BAR in s
    ensures s == a + "|" + b && BAR !in a
  {
    var i := 0;
    while s[i] != BAR
      invariant 0 <= i < |s| && BAR !in s[..i] && BAR in s[i..]
      decreases |s| - i
    {
      i := i + 1;
    }
    a, b := s[..i], s[i + 1..];
  }

  lemma ShiftParts(a: string, b: string, c: string, rest: string)
    ensures (a + "|" + b) + "|" + (c + "|" + rest) == a + "|" + ((b + "|" + c) + "|" + rest)
  {
  }

  /** No bar in any of the four fields. */
  predicate NoBars(e: Event) {
    BarFree(e) && BAR !in e.payload
  }

  /** Moving a field boundary to the first bar of a field gives another event with the same text. */
  lemma BoundaryMoves(e: Event, previous: string) returns (f: Event)
    requires !BarFree(e)
    ensures f != e && Preimage(f, previous) == Preimage(e, previous)
  {
    if BAR in e.id {
      var a, b := CutAtBar(e.id);
      f := e.(id := a, action := b + "|" + e.action);
      ShiftParts(a, b, e.action, e.timestamp + "|" + (e.payload + "|" + previous));
    } else if BAR in e.action {
      var a, b := CutAtBar(e.action);
      f := e.(action := a, timestamp := b + "|" + e.timestamp);
      ShiftParts(a, b, e.timestamp, e.payload + "|" + previous);
    } else {
      var a, b := CutAtBar(e.timestamp);
      f := e.(timestamp := a, payload := b + "|" + e.payload);
      ShiftParts(a, b, e.payload, previous);
    }
  }

  /**
   * The converse of the main result: a verified chain with a bar in some id, action or timestamp
   * shares its head, under any digest, with another verified chain.
   */
  lemma BarsAreAmbiguous(h: Digest, a: seq<Entry>) returns (b: seq<Entry>)
    requires Verifies(h, a) && !AllBarFree(a)
    ensures Verifies(h, b) && |b| == |a| && Head(b) == Head(a) && b != a
  {
    var k :| 0 <= k < |a| && !BarFree(a[k].event);
    var f := BoundaryMoves(a[k].event, Carried(a, k));
    b := Reworded(h, a, k, f);
  }

  /** With a bar in the payload alone, the boundary before the payload moves. */
  lemma PayloadBoundaryMoves(e: Event, previous: string) returns (f: Event)
    requires BAR in e.payload
    ensures f != e && Preimage(f, previous) == Preimage(e, previous)
  {
    var a, b := CutAtBar(e.payload);
    f := e.(timestamp := e.timestamp + "|" + a, payload := b);
    ShiftParts(e.timestamp, a, b, previous);
    assert |f.payload| < |e.payload|;
  }

  lemma SameCarried(a: seq<Entry>, k: nat, f: Event, i: nat)
    requires k < |a| && i <= |a|
    ensures Carried(a[k := a[k].(event := f)], i) == Carried(a, i)
  {
  }

  lemma SameTexts(a: seq<Entry>, k: nat, f: Event)
    requires k < |a| && Preimage(f, Carried(a, k)) == Preimage(a[k].event, Carried(a, k))
    ensures Texts(a[k := a[k].(event := f)]) == Texts(a)
  {
    var b := a[k := a[k].(event := f)];
    forall i | 0 <= i < |a| ensures Preimage(b[i].event, Carried(b, i)) == Preimage(a[i].event, Carried(a, i)) {
      SameCarried(a, k, f, i);
    }
  }

  /** The chain with another event of the same text in one place. */
  lemma Reworded(h: Digest, a: seq<Entry>, k: nat, f: Event) returns (b: seq<Entry>)
    requires Verifies(h, a) && k < |a| && f != a[k].event
    requires Preimage(f, Carried(a, k)) == Preimage(a[k].event, Carried(a, k))
    ensures Verifies(h, b) && |b| == |a| && Head(b) == Head(a) && b != a && Texts(b) == Texts(a)
  {
    b := a[k := a[k].(event := f)];
    forall i | 0 <= i < |b| ensures HashMatches(h, b, i) && LinkValid(b, i) {
      assert HashMatches(h, a, i) && LinkValid(a, i);
      SameCarried(a, k, f, i);
    }
    SameCarried(a, k, f, |a|);
    SameTexts(a, k, f);
    assert b[k].event == f;
  }

  function Bars(s: string): nat {
    if s == [] then 0 else (if s[0] == BAR then 1 else 0) + Bars(s[1..])
  }

  lemma {:induction false} BarsAppend(a: string, b: string)
    ensures Bars(a + b) == Bars(a) + Bars(b)
  {
    if a == [] {
      assert a + b == b;
    } else {
      assert (a + b)[1..] == a[1..] + b;
      BarsAppend(a[1..], b);
    }
  }

  lemma {:induction false} NoneCounted(s: string)
    ensures Bars(s) == 0 <==> BAR !in s
  {
    if s == [] {
    } else {
      NoneCounted(s[1..]);
    }
  }

  lemma JoinedBars(a: string, b: string)
    ensures Bars(a + "|" + b) == Bars(a) + 1 + Bars(b)
  {
    BarsAppend(a + "|", b);
    BarsAppend(a, "|");
    assert "|"[1..] == [];
  }

  lemma PreimageBars(e: Event, p: string)
    ensures Bars(Preimage(e, p)) == 4 + Bars(e.id) + Bars(e.action) + Bars(e.timestamp) + Bars(e.payload) + Bars(p)
  {
    var e3 := e.payload + "|" + p;
    var e2 := e.timestamp + "|" + e3;
    var e1 := e.action + "|" + e2;
    JoinedBars(e.payload, p);
    JoinedBars(e.timestamp, e3);
    JoinedBars(e.action, e2);
    JoinedBars(e.id, e1);
  }

  /** A text with four bars in all has only one reading. */
  lemma OnlyReading(e: Event, f: Event, p: string, q: string)
    requires NoBars(e) && BAR !in p && BAR !in q && Preimage(e, p) == Preimage(f, q)
    ensures e == f && p == q
  {
    PreimageBars(e, p);
    PreimageBars(f, q);
    forall s | s in [e.id, e.action, e.timestamp, e.payload, p, q, f.id, f.action, f.timestamp, f.payload]
      ensures Bars(s) == 0 <==> BAR !in s
    {
      NoneCounted(s);
    }
    assert Bars(f.id) == 0 && Bars(f.action) == 0 && Bars(f.timestamp) == 0;
    PreimageInjective(e, f, p, q);
  }

  /** No other verified chain has this head, as long as the digest does not collide on the texts of the two. */
  ghost predicate OnlyHistory(h: Digest, a: seq<Entry>) {
    forall b | Verifies(h, b) && Head(b) == Head(a) && CollisionFree(h, Texts(a) + Texts(b)) :: b == a
  }

  /** The head determines one history among all chains exactly when no field, payload included, holds a bar. */
  lemma OnlyHistoryExactly(h: Digest, a: seq<Entry>)
    requires HexLike(h) && Verifies(h, a) && CollisionFree(h, Texts(a))
    ensures OnlyHistory(h, a) <==> AllNoBars(a)
  {
    if AllNoBars(a) {
      forall b | Verifies(h, b) && Head(b) == Head(a) && CollisionFree(h, Texts(a) + Texts(b)) ensures b == a {
        HeadDeterminesHistory(h, a, b);
      }
    } else {
      var k :| 0 <= k < |a| && !NoBars(a[k].event);
      var f;
      if BarFree(a[k].event) {
        f := PayloadBoundaryMoves(a[k].event, Carried(a, k));
      } else {
        f := BoundaryMoves(a[k].event, Carried(a, k));
      }
      var b := Reworded(h, a, k, f);
      assert Texts(a) + Texts(b) == Texts(a);
    }
  }
}
