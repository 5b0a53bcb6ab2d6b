/** The in-memory vector store: upsert by id, and retrieval of the best-scoring entries. */
module MemoryStore {
  import opened Embedding
  import opened Ordering
  import opened Text
  import opened Wrappers

  datatype Kind = Decision | UserCorrection | Justification

  datatype Entry = Entry(id: string, kind: Kind, text: string, embedding: Vector, payload: string, storedAt: string)

  /** What a caller hands to `upsert`. */
  datatype Input = Input(
    id: Option<string>,
    kind: Kind,
    text: string,
    embedding: Vector,
    payload: string,
    storedAt: Option<string>
  )

  /** The clock (milliseconds and ISO text) and the embedding of the text at the call. */
  datatype Moment = Moment(millis: nat, iso: string, embedded: Vector)

  function GeneratedId(millis: nat, counter: nat): string {
    "mem-" + NatText(millis) + "-" + NatText(counter)
  }

  /** Different counters give different ids, whatever the clock reads. */
  lemma GeneratedIdsDiffer(m1: nat, c1: nat, m2: nat, c2: nat)
    requires GeneratedId(m1, c1) == GeneratedId(m2, c2)
    ensures m1 == m2 && c1 == c2
  {
    var x, y := "mem-" + NatText(m1), "mem-" + NatText(m2);
    assert x + ['-'] + NatText(c1) == GeneratedId(m1, c1);
    assert y + ['-'] + NatText(c2) == GeneratedId(m2, c2);
    CutAtLast('-', x, y, NatText(c1), NatText(c2));
    assert x[4..] == NatText(m1) && y[4..] == NatText(m2);
    assert Value(NatText(m1)) == m1 && Value(NatText(m2)) == m2;
    assert Value(NatText(c1)) == c1 && Value(NatText(c2)) == c2;
  }

  function Record(x: Input, id: string, now: Moment): Entry {
    Entry(id, x.kind, x.text, if x.embedding != [] then x.embedding else now.embedded, x.payload,
          if x.storedAt.Some? then x.storedAt.value else now.iso)
  }

  /** Field by field: the given id or a new one, the given vector or the text's, the given time or now. */
  ghost predicate RecordOf(x: Input, now: Moment, counter: nat, r: Entry) {
    && r.kind == x.kind && r.text == x.text && r.payload == x.payload
    && r.embedding == (if x.embedding == [] then now.embedded else x.embedding)
    && r.storedAt == (match x.storedAt case Some(t) => t case None => now.iso)
    && match x.id case Some(id) => r.id == id case None => r.id == "mem-" + NatText(now.millis) + "-" + NatText(counter)
  }

  // ---------------------------------------------------------------------
  // What the store holds after a history of records

  predicate Has(es: seq<Entry>, id: string) {
    exists i | 0 <= i < |es| :: es[i].id == id
  }

  /** `getById`: the first entry with the id. */
  function Find(es: seq<Entry>, id: string): (r: Option<Entry>)
    ensures r.Some? <==> Has(es, id)
    ensures r.Some? ==> r.value in es && r.value.id == id
  {
    if es == [] then None
    else if es[0].id == id then Some(es[0])
    else
      assert forall i | 0 < i < |es| :: es[i] == es[1..][i - 1];
      Find(es[1..], id)
  }

  /** Replaces the first entry with the record's id, or appends. */
  function Put(es: seq<Entry>, e: Entry): seq<Entry> {
    if es == [] then [e]
    else if es[0].id == e.id then [e] + es[1..]
    else [es[0]] + Put(es[1..], e)
  }

  function Stored(history: seq<Entry>): seq<Entry> {
    if history == [] then [] else Put(Stored(history[..|history| - 1]), history[|history| - 1])
  }

  function Ids(es: seq<Entry>): seq<string> {
    Map((e: Entry) => e.id, es)
  }

  /** The last record of the history with the id. */
  function Latest(history: seq<Entry>, id: string): Option<Entry> {
    if history == [] then None
    else if history[|history| - 1].id == id then Some(history[|history| - 1])
    else Latest(history[..|history| - 1], id)
  }

  /** Ids in the order of their first record. */
  function FirstSeen(history: seq<Entry>): seq<string> {
    if history == [] then []
    else
      var seen := FirstSeen(history[..|history| - 1]);
      if history[|history| - 1].id in seen then seen else seen + [history[|history| - 1].id]
  }

  lemma {:induction false} PutAt(es: seq<Entry>, e: Entry, i: nat)
    requires i <= |es|
    requires forall k | 0 <= k < i :: es[k].id != e.id
    requires i < |es| ==> es[i].id == e.id
    ensures Put(es, e) == if i < |es| then es[i := e] else es + [e]
  {
    if i == 0 {
    } else {
      PutAt(es[1..], e, i - 1);
      assert es == [es[0]] + es[1..];
    }
  }

  lemma {:induction false} PutFinds(es: seq<Entry>, e: Entry, id: string)
    ensures Find(Put(es, e), id) == if id == e.id then Some(e) else Find(es, id)
  {
    if es == [] {
      assert Find([], id) == None;
      assert ([e])[1..] == [];
    } else if es[0].id == e.id {
      assert ([e] + es[1..])[1..] == es[1..];
    } else {
      PutFinds(es[1..], e, id);
      assert ([es[0]] + Put(es[1..], e))[1..] == Put(es[1..], e);
    }
  }

  lemma {:induction false} PutIds(es: seq<Entry>, e: Entry)
    ensures Ids(Put(es, e)) == if e.id in Ids(es) then Ids(es) else Ids(es) + [e.id]
  {
    if es == [] {
    } else if es[0].id == e.id {
      assert Ids(es)[0] == e.id;
      assert Ids([e] + es[1..]) == Ids(es);
    } else {
      PutIds(es[1..], e);
      assert Ids(es) == [es[0].id] + Ids(es[1..]);
      assert Ids([es[0]] + Put(es[1..], e)) == [es[0].id] + Ids(Put(es[1..], e));
    }
  }

  /**
   * After any history the store holds each id once, in order of first appearance, and under
   * each id its latest record.
   */
  lemma {:induction false} StoredExactly(history: seq<Entry>)
    ensures Ids(Stored(history)) == FirstSeen(history)
    ensures Distinct(Ids(Stored(history)))
    ensures forall id :: Find(Stored(history), id) == Latest(history, id)
  {
    if history == [] {
      forall id ensures Find(Stored(history), id) == None {
      }
    } else {
      var n := |history| - 1;
      StoredExactly(history[..n]);
      PutIds(Stored(history[..n]), history[n]);
      forall id ensures Find(Stored(history), id) == Latest(history, id) {
        PutFinds(Stored(history[..n]), history[n], id);
      }
    }
  }

  // ---------------------------------------------------------------------
  // Retrieval

  datatype Hit = Hit(entry: Entry, score: real)

  predicate Above(x: Hit, y: Hit) {
    x.score >= y.score
  }

  /** `slice(0, k)`: a negative `k` counts from the end. */
  function SliceLength(n: nat, k: int): (r: nat)
    ensures r <= n
    ensures k >= 0 ==> r <= k && (r < k ==> r == n)
    ensures k < 0 ==> (n <= -k ==> r == 0) && (n > -k ==> r == n + k)
  {
    if k >= 0 then if k < n then k else n
    else if n + k > 0 then n + k else 0
  }

  predicate Wanted(kinds: seq<Kind>, e: Entry) {
    kinds == [] || e.kind in kinds
  }

  function Scored(es: seq<Entry>, score: Vector -> real): seq<Hit> {
    Map((e: Entry) => Hit(e, score(e.embedding)), es)
  }

  function Eligible(es: seq<Entry>, score: Vector -> real, kinds: seq<Kind>, minScore: real): seq<Hit> {
    Filter((h: Hit) => h.score >= minScore, Scored(Filter((e: Entry) => Wanted(kinds, e), es), score))
  }

  function TopHits(es: seq<Entry>, score: Vector -> real, kinds: seq<Kind>, minScore: real, topK: int): seq<Hit> {
    var hits := Sort(Above, Eligible(es, score, kinds, minScore));
    SortMultiset(Above, Eligible(es, score, kinds, minScore));
    hits[..SliceLength(|hits|, topK)]
  }

  lemma AboveIsPreorder()
    ensures TotalPreorder(Above)
  {
  }

  lemma EligibleExactly(es: seq<Entry>, score: Vector -> real, kinds: seq<Kind>, minScore: real, h: Hit)
    ensures h in Eligible(es, score, kinds, minScore) <==>
            h.entry in es && Wanted(kinds, h.entry) && h.score == score(h.entry.embedding) && h.score >= minScore
  {
    var want := (e: Entry) => Wanted(kinds, e);
    var kept := Filter(want, es);
    var scored := Scored(kept, score);
    InFilter((h: Hit) => h.score >= minScore, scored, h);
    InFilter(want, es, h.entry);
    if h in scored {
      var i :| 0 <= i < |scored| && scored[i] == h;
      assert kept[i] == h.entry;
    }
    if h.entry in kept && h.score == score(h.entry.embedding) {
      var i :| 0 <= i < |kept| && kept[i] == h.entry;
      assert scored[i] == h;
    }
  }

  /**
   * Retrieval: eligible entries with their own scores, best first, at most `topK` of them, and
   * no omitted eligible entry scores above a returned one.
   */
  lemma TopHitsBest(es: seq<Entry>, score: Vector -> real, kinds: seq<Kind>, minScore: real, topK: int)
    ensures var all, r := Eligible(es, score, kinds, minScore), TopHits(es, score, kinds, minScore, topK);
            && |r| == SliceLength(|all|, topK)
            && Sorted(Above, r)
            && (forall h <- r :: h in all)
            && (forall h <- all | h !in r :: forall g <- r :: Above(g, h))
  {
    var all := Eligible(es, score, kinds, minScore);
    var hits := Sort(Above, all);
    var r := TopHits(es, score, kinds, minScore, topK);
    SortMultiset(Above, all);
    AboveIsPreorder();
    SortSorted(Above, all);
    forall h | h in r ensures h in all {
      InSort(Above, all, h);
    }
    assert forall j | 0 <= j < |r| :: hits[j] == r[j] && r[j] in r;
    forall h | h in all && h !in r ensures forall g <- r :: Above(g, h) {
      InSort(Above, all, h);
      var j :| 0 <= j < |hits| && hits[j] == h;
      assert j >= |r|;
      forall g | g in r ensures Above(g, h) {
        var i :| 0 <= i < |r| && r[i] == g;
        assert hits[i] == g;
      }
    }
  }

  /** Among entries of one score the earlier stored come first. */
  lemma TiesKeepStoreOrder(es: seq<Entry>, score: Vector -> real, kinds: seq<Kind>, minScore: real, c: Hit)
    ensures var all := Eligible(es, score, kinds, minScore); var tied := (h: Hit) => h.score == c.score;
            Filter(tied, Sort(Above, all)) == Filter(tied, all)
  {
    var tied := (h: Hit) => h.score == c.score;
    AboveIsPreorder();
    SortStable(Above, tied, c, Eligible(es, score, kinds, minScore));
  }

  // ---------------------------------------------------------------------
  // The store

  class Store {
    var entries: seq<Entry>
    var idCounter: nat
    /** Every record stored since the last clearing. */
    ghost var history: seq<Entry>

    ghost predicate Valid()
      reads this
    {
      entries == Stored(history)
    }

    constructor ()
      ensures Valid() && history == [] && idCounter == 0
    {
      entries, idCounter, history := [], 0, [];
    }

    method NextId(millis: nat) returns (id: string)
      modifies this`idCounter
      ensures idCounter == old(idCounter) + 1 && id == GeneratedId(millis, idCounter)
    {
      idCounter := idCounter + 1;
      id := GeneratedId(millis, idCounter);
    }

    method Upsert(x: Input, now: Moment) returns (r: Entry)
      requires Valid()
      modifies this
      ensures Valid() && history == old(history) + [r]
      ensures r == Record(x, if x.id.Some? then x.id.value else GeneratedId(now.millis, old(idCounter) + 1), now)
      ensures RecordOf(x, now, old(idCounter) + 1, r)
      ensures idCounter == old(idCounter) + if x.id.Some? then 0 else 1
    {
      var id;
      if x.id.Some? {
        id := x.id.value;
      } else {
        id := NextId(now.millis);
      }
      r := Record(x, id, now);
      var i := 0;
      while i < |entries| && entries[i].id != id
        invariant 0 <= i <= |entries|
        invariant forall k | 0 <= k < i :: entries[k].id != id
      {
        i := i + 1;
      }
      PutAt(entries, r, i);
      if i < |entries| {
        entries := entries[i := r];
      } else {
        entries := entries + [r];
      }
      history := history + [r];
      assert history[..|history| - 1] == old(history);
    }

    /** The defaults are ten hits and a score of 0.3; no kinds or an empty list mean all kinds. */
    function Query(score: Vector -> real, kinds: Option<seq<Kind>>, minScore: Option<real>, topK: Option<int>): seq<Hit>
      reads this
    {
      TopHits(entries, score, if kinds.Some? then kinds.value else [],
              if minScore.Some? then minScore.value else 0.3, if topK.Some? then topK.value else 10)
    }

    method ClearStore()
      modifies this
      ensures Valid() && history == [] && idCounter == old(idCounter)
    {
      entries, history := [], [];
    }
  }

  // ---------------------------------------------------------------------
  // A query over the history

  /** The entry is the latest record under its id, of a wanted kind, and reaches the score. */
  ghost predicate Qualifies(history: seq<Entry>, score: Vector -> real, kinds: seq<Kind>, least: real, e: Entry) {
    Latest(history, e.id) == Some(e) && (kinds == [] || e.kind in kinds) && score(e.embedding) >= least
  }

  lemma {:induction false} FilterDistinct<T(!new)>(p: T -> bool, xs: seq<T>)
    requires Distinct(xs)
    ensures Distinct(Filter(p, xs))
  {
    if xs == [] {
    } else {
      FilterDistinct(p, xs[1..]);
      var r := Filter(p, xs[1..]);
      forall j | 0 <= j < |r| ensures r[j] != xs[0] {
        InFilter(p, xs[1..], r[j]);
        var k :| 0 <= k < |xs[1..]| && xs[1..][k] == r[j];
        assert xs[k + 1] == r[j];
      }
      assert Distinct([xs[0]] + r);
    }
  }

  /** Entries with distinct ids give distinct hits. */
  lemma HitsDistinct(es: seq<Entry>, score: Vector -> real, kinds: seq<Kind>, least: real, topK: int)
    requires Distinct(Ids(es))
    ensures Distinct(TopHits(es, score, kinds, least, topK))
  {
    forall i, j | 0 <= i < j < |es| ensures es[i] != es[j] {
      assert Ids(es)[i] != Ids(es)[j];
    }
    FilterDistinct((e: Entry) => Wanted(kinds, e), es);
    FilterDistinct((h: Hit) => h.score >= least, Scored(Filter((e: Entry) => Wanted(kinds, e), es), score));
    var all := Eligible(es, score, kinds, least);
    SortMultiset(Above, all);
    DistinctFromBag(all, Sort(Above, all));
  }

  lemma SameIdSameEntry(es: seq<Entry>, d: Entry, e: Entry)
    requires Distinct(Ids(es)) && d in es && e in es && d.id == e.id
    ensures d == e
  {
    var i :| 0 <= i < |es| && es[i] == d;
    var j :| 0 <= j < |es| && es[j] == e;
    assert Ids(es)[i] == Ids(es)[j];
  }

  lemma QualifiesExactly(history: seq<Entry>, score: Vector -> real, kinds: seq<Kind>, least: real, e: Entry)
    ensures Qualifies(history, score, kinds, least, e) <==>
            Hit(e, score(e.embedding)) in Eligible(Stored(history), score, kinds, least)
  {
    var es := Stored(history);
    StoredExactly(history);
    EligibleExactly(es, score, kinds, least, Hit(e, score(e.embedding)));
    if e in es {
      var i :| 0 <= i < |es| && es[i] == e;
      assert Has(es, e.id);
      SameIdSameEntry(es, Find(es, e.id).value, e);
    }
  }

  /** The answer to a query: qualifying entries, one an id, best first, and the best of all that qualify. */
  ghost predicate Answers(history: seq<Entry>, score: Vector -> real, kinds: seq<Kind>, least: real, topK: int, r: seq<Hit>) {
    && (forall h <- r :: Qualifies(history, score, kinds, least, h.entry) && h.score == score(h.entry.embedding))
    && (forall i, j | 0 <= i < j < |r| :: r[i].entry.id != r[j].entry.id && r[i].score >= r[j].score)
    && (forall e | Qualifies(history, score, kinds, least, e) && Hit(e, score(e.embedding)) !in r ::
          forall h <- r :: h.score >= score(e.embedding))
    && (topK >= 0 ==> |r| <= topK)
    && (0 <= |r| < topK ==> forall e | Qualifies(history, score, kinds, least, e) :: Hit(e, score(e.embedding)) in r)
  }

  lemma TopHitsAnswer(history: seq<Entry>, score: Vector -> real, kinds: seq<Kind>, least: real, topK: int)
    ensures Answers(history, score, kinds, least, topK, TopHits(Stored(history), score, kinds, least, topK))
  {
    var es, r := Stored(history), TopHits(Stored(history), score, kinds, least, topK);
    StoredExactly(history);
    TopHitsBest(es, score, kinds, least, topK);
    HitsDistinct(es, score, kinds, least, topK);
    forall h | h in r
      ensures Qualifies(history, score, kinds, least, h.entry) && h.score == score(h.entry.embedding) && h.entry in es
    {
      EligibleExactly(es, score, kinds, least, h);
      QualifiesExactly(history, score, kinds, least, h.entry);
    }
    forall i, j | 0 <= i < j < |r| ensures r[i].entry.id != r[j].entry.id && r[i].score >= r[j].score {
      assert r[i] in r && r[j] in r && Above(r[i], r[j]);
      if r[i].entry.id == r[j].entry.id {
        SameIdSameEntry(es, r[i].entry, r[j].entry);
      }
    }
    forall e | Qualifies(history, score, kinds, least, e)
      ensures Hit(e, score(e.embedding)) in r || forall h <- r :: h.score >= score(e.embedding)
      ensures 0 <= |r| < topK ==> Hit(e, score(e.embedding)) in r
    {
      QualifiesExactly(history, score, kinds, least, e);
      if 0 <= |r| < topK {
        InSort(Above, Eligible(es, score, kinds, least), Hit(e, score(e.embedding)));
      }
    }
  }

  /** So a query sees the whole history since the last clearing, with the defaults of the code. */
  lemma QueryAnswers(store: Store, score: Vector -> real, kinds: Option<seq<Kind>>, least: Option<real>, topK: Option<int>)
    requires store.Valid()
    ensures Answers(store.history, score, if kinds.Some? then kinds.value else [],
                    if least.Some? then least.value else 0.3, if topK.Some? then topK.value else 10,
                    store.Query(score, kinds, least, topK))
  {
    TopHitsAnswer(store.history, score, if kinds.Some? then kinds.value else [],
                  if least.Some? then least.value else 0.3, if topK.Some? then topK.value else 10);
  }
}
