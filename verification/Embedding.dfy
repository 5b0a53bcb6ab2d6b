/** The local pseudo-embedding and the similarity of two vectors, in exact arithmetic. */
module Embedding {
  import opened Text

  // ---------------------------------------------------------------------
  // String hash

  const WORD := 0x1_0000_0000

  /** A string as its UTF-16 code units. */
  type Units = seq<nat>

  function Pow31(n: nat): nat {
    if n == 0 then 1 else 31 * Pow31(n - 1)
  }

  /** The base-31 polynomial: the first unit has the highest power. */
  function Polynomial(s: Units): nat {
    if s == [] then 0 else s[0] * Pow31(|s| - 1) + Polynomial(s[1..])
  }

  lemma {:induction false} PolynomialAppend(s: Units, c: nat)
    ensures Polynomial(s + [c]) == Polynomial(s) * 31 + c
  {
    if s == [] {
      assert ([c])[1..] == [];
      assert [] + [c] == [c];
    } else {
      assert (s + [c])[1..] == s[1..] + [c];
      PolynomialAppend(s[1..], c);
      assert Pow31(|s|) == 31 * Pow31(|s| - 1);
      assert s[0] * Pow31(|s|) == s[0] * Pow31(|s| - 1) * 31;
    }
  }

  lemma HornerStep(p: nat, c: nat)
    ensures (p % WORD * 31 + c) % WORD == (p * 31 + c) % WORD
  {
    var q := p / WORD;
    assert p * 31 + c == (p % WORD * 31 + c) + q * 31 * WORD;
    ModShift(p % WORD * 31 + c, q * 31);
  }

  lemma ModShift(x: nat, k: nat)
    ensures (x + k * WORD) % WORD == x % WORD
  {
  }

  /** `hashString`: the polynomial, kept to 32 bits by `>>> 0`. */
  method HashString(s: Units) returns (h: nat)
    ensures h == Polynomial(s) % WORD
  {
    h := 0;
    for i := 0 to |s|
      invariant h == Polynomial(s[..i]) % WORD
    {
      assert s[..i + 1] == s[..i] + [s[i]];
      PolynomialAppend(s[..i], s[i]);
      HornerStep(Polynomial(s[..i]), s[i]);
      h := (h * 31 + s[i]) % WORD;
    }
    assert s[..|s|] == s;
  }

  function Hash(s: Units): nat {
    Polynomial(s) % WORD
  }

  // ---------------------------------------------------------------------
  // Buckets, counted in halves

  function WordLength(s: Units): (n: nat)
    ensures n <= |s|
  {
    if s == [] || SpaceUnit(s[0]) then 0 else 1 + WordLength(s[1..])
  }

  /** The maximal runs of non-space units. */
  function Words(s: Units): seq<Units>
    decreases |s|
  {
    if s == [] then []
    else if SpaceUnit(s[0]) then Words(s[1..])
    else [s[..WordLength(s)]] + Words(s[WordLength(s)..])
  }

  function WordBuckets(words: seq<Units>, dim: nat): (r: seq<nat>)
    requires dim >= 1
    ensures |r| == |words| && forall i | 0 <= i < |r| :: r[i] < dim
  {
    seq(|words|, i requires 0 <= i < |words| => Hash(words[i]) % dim)
  }

  /**
   * Buckets of the trigrams: never bucket 0. With dimension 1 the index is NaN and the
   * increment touches no element.
   */
  function TrigramBuckets(s: Units, dim: nat): (r: seq<nat>)
    requires dim >= 1
    ensures |r| == if dim == 1 || |s| < 3 then 0 else |s| - 2
    ensures forall i | 0 <= i < |r| :: r[i] < dim
  {
    if dim == 1 || |s| < 3 then []
    else seq(|s| - 2, i requires 0 <= i < |s| - 2 => Hash(s[i..i + 3]) % (dim - 1) + 1)
  }

  function Bump(v: seq<nat>, i: nat, amount: nat): seq<nat>
    requires i < |v|
  {
    v[i := v[i] + amount]
  }

  /** `v[i] += amount` for each listed index, in order. */
  function BumpAll(v: seq<nat>, at: seq<nat>, amount: nat): (r: seq<nat>)
    requires forall i | 0 <= i < |at| :: at[i] < |v|
    ensures |r| == |v|
  {
    if at == [] then v else Bump(BumpAll(v, at[..|at| - 1], amount), at[|at| - 1], amount)
  }

  function Sum(v: seq<nat>): nat {
    if v == [] then 0 else Sum(v[..|v| - 1]) + v[|v| - 1]
  }

  function Occurrences(at: seq<nat>, i: nat): nat {
    if at == [] then 0 else Occurrences(at[..|at| - 1], i) + if at[|at| - 1] == i then 1 else 0
  }

  lemma {:induction false} BumpSum(v: seq<nat>, i: nat, amount: nat)
    requires i < |v|
    ensures Sum(Bump(v, i, amount)) == Sum(v) + amount
  {
    var n := |v| - 1;
    if i < n {
      BumpSum(v[..n], i, amount);
      assert Bump(v, i, amount)[..n] == Bump(v[..n], i, amount);
    } else {
      assert Bump(v, i, amount)[..n] == v[..n];
    }
  }

  /** Each increment adds its amount to the total. */
  lemma OneMore(amount: nat, n: nat)
    ensures amount * (n + 1) == amount * n + amount
  {
  }

  lemma {:induction false} BumpAllSum(v: seq<nat>, at: seq<nat>, amount: nat)
    requires forall i | 0 <= i < |at| :: at[i] < |v|
    ensures Sum(BumpAll(v, at, amount)) == Sum(v) + amount * |at|
  {
    if at == [] {
    } else {
      var n := |at| - 1;
      BumpAllSum(v, at[..n], amount);
      BumpSum(BumpAll(v, at[..n], amount), at[n], amount);
      OneMore(amount, n);
    }
  }

  /** Each increment lands in its own bucket. */
  lemma {:induction false} BumpAllAt(v: seq<nat>, at: seq<nat>, amount: nat, i: nat)
    requires i < |v| && forall j | 0 <= j < |at| :: at[j] < |v|
    ensures BumpAll(v, at, amount)[i] == v[i] + amount * Occurrences(at, i)
  {
    if at == [] {
    } else {
      var n := |at| - 1;
      BumpAllAt(v, at[..n], amount, i);
      assert amount * (Occurrences(at[..n], i) + 1) == amount * Occurrences(at[..n], i) + amount;
    }
  }

  function Zeros(dim: nat): (r: seq<nat>)
    ensures |r| == dim && forall i | 0 <= i < dim :: r[i] == 0
  {
    seq(dim, i => 0)
  }

  /** The vector before normalising: two halves per word, one per trigram. */
  function Raw(normalized: Units, dim: nat): (r: seq<nat>)
    requires dim >= 1
    ensures |r| == dim
  {
    BumpAll(BumpAll(Zeros(dim), WordBuckets(Words(normalized), dim), 2), TrigramBuckets(normalized, dim), 1)
  }

  method CountWords(vec: array<nat>, words: seq<Units>, dim: nat)
    requires dim >= 1 && vec.Length == dim
    modifies vec
    ensures vec[..] == BumpAll(old(vec[..]), WordBuckets(words, dim), 2)
  {
    ghost var base, buckets := vec[..], WordBuckets(words, dim);
    for i := 0 to |words|
      invariant vec[..] == BumpAll(base, buckets[..i], 2)
    {
      var h := HashString(words[i]);
      BumpNext(base, buckets, i, 2);
      vec[h % dim] := vec[h % dim] + 2;
    }
    assert buckets[..|words|] == buckets;
  }

  method CountTrigrams(vec: array<nat>, s: Units, dim: nat)
    requires dim >= 1 && vec.Length == dim
    modifies vec
    ensures vec[..] == BumpAll(old(vec[..]), TrigramBuckets(s, dim), 1)
  {
    ghost var base, buckets := vec[..], TrigramBuckets(s, dim);
    var i := 0;
    while i < |s| - 2
      invariant 0 <= i && (i == 0 || i <= |s| - 2)
      invariant vec[..] == BumpAll(base, if dim == 1 then [] else buckets[..i], 1)
    {
      var h := HashString(s[i..i + 3]);
      if dim > 1 {
        BumpNext(base, buckets, i, 1);
        var idx := h % (dim - 1) + 1;
        vec[idx] := vec[idx] + 1;
      }
      i := i + 1;
    }
    assert buckets[..|buckets|] == buckets;
  }

  /** `localEmbed` up to normalising, on text already lower-cased and trimmed. */
  method CountBuckets(normalized: Units, dim: nat) returns (vec: array<nat>)
    requires dim >= 1
    ensures fresh(vec) && vec[..] == Raw(normalized, dim)
  {
    vec := new nat[dim](i => 0);
    assert vec[..] == Zeros(dim);
    CountWords(vec, Words(normalized), dim);
    CountTrigrams(vec, normalized, dim);
  }

  lemma BumpNext(v: seq<nat>, at: seq<nat>, i: nat, amount: nat)
    requires i < |at| && forall j | 0 <= j < |at| :: at[j] < |v|
    ensures BumpAll(v, at[..i + 1], amount) == Bump(BumpAll(v, at[..i], amount), at[i], amount)
  {
    assert at[..i + 1][..i] == at[..i];
  }

  lemma {:induction false} ZerosSum(dim: nat)
    ensures Sum(Zeros(dim)) == 0
  {
    if dim > 0 {
      ZerosSum(dim - 1);
      assert Zeros(dim)[..dim - 1] == Zeros(dim - 1);
    }
  }

  /**
   * Mass conservation: in halves, the buckets add up to two per word and, from dimension 2
   * on, one per trigram; every bucket holds just what hashes to it.
   */
  lemma MassConserved(normalized: Units, dim: nat)
    requires dim >= 1
    ensures Sum(Raw(normalized, dim)) ==
            2 * |Words(normalized)| + if dim >= 2 && |normalized| >= 3 then |normalized| - 2 else 0
    ensures forall i | 0 <= i < dim :: Raw(normalized, dim)[i] ==
              2 * Occurrences(WordBuckets(Words(normalized), dim), i) + Occurrences(TrigramBuckets(normalized, dim), i)
  {
    var words, tri := WordBuckets(Words(normalized), dim), TrigramBuckets(normalized, dim);
    ZerosSum(dim);
    BumpAllSum(Zeros(dim), words, 2);
    BumpAllSum(BumpAll(Zeros(dim), words, 2), tri, 1);
    forall i | 0 <= i < dim
      ensures Raw(normalized, dim)[i] == 2 * Occurrences(words, i) + Occurrences(tri, i)
    {
      BumpAllAt(Zeros(dim), words, 2, i);
      BumpAllAt(BumpAll(Zeros(dim), words, 2), tri, 1, i);
    }
  }

  // Words and buckets, spelled out

  ghost predicate SpaceRun(g: Units) {
    forall i | 0 <= i < |g| :: SpaceUnit(g[i])
  }

  ghost predicate WordRun(w: Units) {
    w != [] && forall i | 0 <= i < |w| :: !SpaceUnit(w[i])
  }

  /** Gaps and words in turn, from the first gap to the last. */
  ghost function Woven(gaps: seq<Units>, words: seq<Units>): Units
    requires |gaps| == |words| + 1
  {
    if words == [] then gaps[0] else gaps[0] + words[0] + Woven(gaps[1..], words[1..])
  }

  /** The words of a text: what stands between its gaps, none of which is empty between two words. */
  ghost predicate WordsBetween(s: Units, words: seq<Units>, gaps: seq<Units>) {
    && |gaps| == |words| + 1 && s == Woven(gaps, words)
    && (forall i | 0 <= i < |gaps| :: SpaceRun(gaps[i]))
    && (forall i | 0 < i < |words| :: gaps[i] != [])
    && (forall i | 0 <= i < |words| :: WordRun(words[i]))
  }

  lemma {:induction false} WordLengthIs(s: Units)
    ensures forall k | 0 <= k < WordLength(s) :: !SpaceUnit(s[k])
    ensures WordLength(s) < |s| ==> SpaceUnit(s[WordLength(s)])
  {
    if s == [] || SpaceUnit(s[0]) {
    } else {
      WordLengthIs(s[1..]);
      forall k | 0 <= k < WordLength(s) ensures !SpaceUnit(s[k]) {
        assert k > 0 ==> s[k] == s[1..][k - 1];
      }
    }
  }

  /** `split(/\s+/)` without its empty pieces gives the words of the text. */
  lemma {:induction false} WordsExactly(s: Units) returns (gaps: seq<Units>)
    ensures WordsBetween(s, Words(s), gaps)
    decreases |s|
  {
    if s == [] {
      gaps := [[]];
    } else if SpaceUnit(s[0]) {
      var later := WordsExactly(s[1..]);
      gaps := WiderGap(s[0], s[1..], Words(s[1..]), later);
      assert s == [s[0]] + s[1..];
    } else {
      var n := WordLength(s);
      WordLengthIs(s);
      var later := WordsExactly(s[n..]);
      gaps := [[]] + later;
      WordInFront(s[..n], s[n..], Words(s[n..]), later);
      assert s == s[..n] + s[n..];
    }
  }

  lemma WiderGap(c: nat, s: Units, words: seq<Units>, later: seq<Units>) returns (gaps: seq<Units>)
    requires SpaceUnit(c) && WordsBetween(s, words, later)
    ensures WordsBetween([c] + s, words, gaps)
  {
    gaps := later[0 := [c] + later[0]];
    if words != [] {
      assert gaps[1..] == later[1..];
      assert [c] + (later[0] + words[0] + Woven(later[1..], words[1..])) == gaps[0] + words[0] + Woven(later[1..], words[1..]);
    }
  }

  lemma NoGap(s: Units, words: seq<Units>, gaps: seq<Units>)
    requires WordsBetween(s, words, gaps) && words != [] && gaps[0] == []
    ensures s != [] && !SpaceUnit(s[0])
  {
    assert WordRun(words[0]) && s[0] == words[0][0];
  }

  lemma WordInFront(w: Units, s: Units, words: seq<Units>, later: seq<Units>)
    requires WordRun(w) && (s != [] ==> SpaceUnit(s[0])) && WordsBetween(s, words, later)
    ensures WordsBetween(w + s, [w] + words, [[]] + later)
  {
    var gaps, all := [[]] + later, [w] + words;
    assert gaps[1..] == later && all[1..] == words;
    assert [] + w + s == w + s;
    if words != [] && later[0] == [] {
      NoGap(s, words, later);
    }
    forall i | 0 < i < |all| ensures gaps[i] != [] {
      assert gaps[i] == later[i - 1];
    }
    forall i | 0 <= i < |gaps| ensures SpaceRun(gaps[i]) {
      assert i > 0 ==> gaps[i] == later[i - 1];
    }
    forall i | 0 <= i < |all| ensures WordRun(all[i]) {
      assert i > 0 ==> all[i] == words[i - 1];
    }
  }

  /** The bucket of a word and of a trigram, by the hash as a number. */
  lemma BucketsExactly(s: Units, dim: nat)
    requires dim >= 1
    ensures |WordBuckets(Words(s), dim)| == |Words(s)|
    ensures forall w | 0 <= w < |Words(s)| ::
              WordBuckets(Words(s), dim)[w] == Polynomial(Words(s)[w]) % 4294967296 % dim
    ensures forall i | 0 <= i < |TrigramBuckets(s, dim)| ::
              dim > 1 && TrigramBuckets(s, dim)[i] == Polynomial(s[i..i + 3]) % 4294967296 % (dim - 1) + 1
  {
    forall i | 0 <= i < |TrigramBuckets(s, dim)|
      ensures dim > 1 && TrigramBuckets(s, dim)[i] == Polynomial(s[i..i + 3]) % 4294967296 % (dim - 1) + 1
    {
      TrigramAt(s, dim, i);
    }
  }

  lemma TrigramAt(s: Units, dim: nat, i: nat)
    requires dim >= 1 && i < |TrigramBuckets(s, dim)|
    ensures dim > 1 && TrigramBuckets(s, dim)[i] == Hash(s[i..i + 3]) % (dim - 1) + 1
  {
  }

  // ---------------------------------------------------------------------
  // Cosine similarity

  type Vector = seq<real>

  function Total(v: Vector): real {
    if v == [] then 0.0 else Total(v[..|v| - 1]) + v[|v| - 1]
  }

  function Products(a: Vector, b: Vector): (r: Vector)
    requires |a| == |b|
    ensures |r| == |a|
  {
    seq(|a|, i requires 0 <= i < |a| => a[i] * b[i])
  }

  function Dot(a: Vector, b: Vector): real
    requires |a| == |b|
  {
    Total(Products(a, b))
  }

  lemma DotPrefix(a: Vector, b: Vector, i: nat)
    requires |a| == |b| && i < |a|
    ensures Dot(a[..i + 1], b[..i + 1]) == Dot(a[..i], b[..i]) + a[i] * b[i]
  {
    var p, q := Products(a[..i + 1], b[..i + 1]), Products(a[..i], b[..i]);
    forall j | 0 <= j < i ensures p[j] == q[j] {
      assert a[..i + 1][j] == a[..i][j] && b[..i + 1][j] == b[..i][j];
    }
    assert p[..i] == q;
    assert a[..i + 1][i] == a[i] && b[..i + 1][i] == b[i];
  }

  /** The loop of `cosineSimilarity`; vectors of different length give zero throughout. */
  method CosineSums(a: Vector, b: Vector) returns (dot: real, na: real, nb: real)
    ensures |a| != |b| ==> dot == na == nb == 0.0
    ensures |a| == |b| ==> dot == Dot(a, b) && na == Dot(a, a) && nb == Dot(b, b)
  {
    dot, na, nb := 0.0, 0.0, 0.0;
    if |a| != |b| {
      return;
    }
    for i := 0 to |a|
      invariant dot == Dot(a[..i], b[..i]) && na == Dot(a[..i], a[..i]) && nb == Dot(b[..i], b[..i])
    {
      DotPrefix(a, b, i);
      DotPrefix(a, a, i);
      DotPrefix(b, b, i);
      dot := dot + a[i] * b[i];
      na := na + a[i] * a[i];
      nb := nb + b[i] * b[i];
    }
    assert a[..|a|] == a && b[..|b|] == b;
  }

  /** The value returned, given the square roots of the two norms. */
  function Cosine(a: Vector, b: Vector, ra: real, rb: real): real {
    if |a| != |b| then 0.0 else if ra * rb == 0.0 then 0.0 else Dot(a, b) / (ra * rb)
  }

  predicate Root(r: real, x: real) {
    r >= 0.0 && r * r == x
  }

  lemma RootOfZero(r: real)
    ensures Root(r, 0.0) <==> r == 0.0
  {
    Square(r, r * r);
  }

  // Scalar facts, one product at a time

  lemma Positive(x: real, y: real)
    requires x > 0.0 && y > 0.0
    ensures x * y > 0.0
  {
  }

  lemma NegatedProduct(x: real, y: real)
    ensures (-x) * y == -(x * y)
    ensures x * (-y) == -(x * y)
  {
  }

  lemma PositiveProduct(x: real, y: real, m: real)
    requires x > 0.0 && y > 0.0 && m == x * y
    ensures m > 0.0
  {
  }

  lemma Square(d: real, m: real)
    requires m == d * d
    ensures m >= 0.0
    ensures m > 0.0 <==> d != 0.0
  {
    if d > 0.0 {
      PositiveProduct(d, d, m);
    } else if d < 0.0 {
      var e := 0.0 - d;
      assert m == e * e;
      PositiveProduct(e, e, m);
    } else {
      assert m == d * 0.0;
    }
  }

  lemma SquareGrows(x: real, y: real)
    requires x > y >= 0.0
    ensures x * x > y * y
  {
    Positive(x - y, x + y);
    assert (x - y) * (x + y) == x * x - y * y;
  }

  lemma ExpandSquare(x: real, p: real, y: real, q: real)
    ensures (x * p - y * q) * (x * p - y * q) == (x * x) * (p * p) + (-2.0 * (x * y)) * (p * q) + (y * y) * (q * q)
  {
    assert (x * p) * (x * p) == (x * x) * (p * p);
    assert (y * q) * (y * q) == (y * y) * (q * q);
    assert (x * p) * (y * q) == (x * y) * (p * q);
  }

  lemma Distribute(c: real, u: real, v: real)
    ensures c * (u + v) == c * u + c * v
  {
  }

  // Sums

  predicate Combined(k: real, s: real, l: real, t: real, m: real, u: real, g: real) {
    g == k * s + l * t + m * u
  }

  lemma {:induction false} TotalCombines(k: real, s: Vector, l: real, t: Vector, m: real, u: Vector, g: Vector)
    requires |g| == |s| == |t| == |u|
    requires forall i | 0 <= i < |g| :: Combined(k, s[i], l, t[i], m, u[i], g[i])
    ensures Total(g) == k * Total(s) + l * Total(t) + m * Total(u)
  {
    if g == [] {
    } else {
      var n := |g| - 1;
      TotalCombines(k, s[..n], l, t[..n], m, u[..n], g[..n]);
      Distribute(k, Total(s[..n]), s[n]);
      Distribute(l, Total(t[..n]), t[n]);
      Distribute(m, Total(u[..n]), u[n]);
    }
  }

  ghost predicate AllZero(v: Vector) {
    forall i | 0 <= i < |v| :: v[i] == 0.0
  }

  lemma {:induction false} TotalSign(v: Vector)
    requires forall i | 0 <= i < |v| :: v[i] >= 0.0
    ensures Total(v) >= 0.0
    ensures Total(v) > 0.0 <==> !AllZero(v)
  {
    if v == [] {
    } else {
      var n := |v| - 1;
      TotalSign(v[..n]);
      if AllZero(v[..n]) && v[n] == 0.0 {
        assert forall i | 0 <= i < n :: v[i] == v[..n][i];
        assert AllZero(v);
      } else if !AllZero(v[..n]) {
        var i :| 0 <= i < n && v[..n][i] != 0.0;
        assert v[i] != 0.0;
      }
    }
  }

  /** The squared differences of `x*a` and `y*b`. */
  function Gaps(x: real, a: Vector, y: real, b: Vector): (r: Vector)
    requires |a| == |b|
    ensures |r| == |a|
  {
    seq(|a|, i requires 0 <= i < |a| => (x * a[i] - y * b[i]) * (x * a[i] - y * b[i]))
  }

  ghost predicate Aligned(x: real, a: Vector, y: real, b: Vector)
    requires |a| == |b|
  {
    forall i | 0 <= i < |a| :: x * a[i] == y * b[i]
  }

  /** A number given as `(x*x)*p - 2*(x*y)*d + (y*y)*q`, kept as one atom for the solver. */
  function Quadratic(x: real, y: real, p: real, d: real, q: real): real {
    (x * x) * p + (-2.0 * (x * y)) * d + (y * y) * q
  }

  lemma GapAt(x: real, p: real, y: real, q: real, g: real)
    requires g == (x * p - y * q) * (x * p - y * q)
    ensures Combined(x * x, p * p, -2.0 * (x * y), p * q, y * y, q * q, g)
  {
    ExpandSquare(x, p, y, q);
  }

  lemma GapsCombined(x: real, a: Vector, y: real, b: Vector, i: nat)
    requires i < |a| == |b|
    ensures Combined(x * x, Products(a, a)[i], -2.0 * (x * y), Products(a, b)[i], y * y, Products(b, b)[i], Gaps(x, a, y, b)[i])
  {
    GapAt(x, a[i], y, b[i], Gaps(x, a, y, b)[i]);
  }

  lemma GapsExpand(x: real, a: Vector, y: real, b: Vector)
    requires |a| == |b|
    ensures Total(Gaps(x, a, y, b)) == Quadratic(x, y, Dot(a, a), Dot(a, b), Dot(b, b))
  {
    var g, s, t, u := Gaps(x, a, y, b), Products(a, a), Products(a, b), Products(b, b);
    forall i | 0 <= i < |a| ensures Combined(x * x, s[i], -2.0 * (x * y), t[i], y * y, u[i], g[i]) {
      GapsCombined(x, a, y, b, i);
    }
    TotalCombines(x * x, s, -2.0 * (x * y), t, y * y, u, g);
  }

  lemma GapsSign(x: real, a: Vector, y: real, b: Vector)
    requires |a| == |b|
    ensures Total(Gaps(x, a, y, b)) >= 0.0
    ensures Total(Gaps(x, a, y, b)) > 0.0 <==> !Aligned(x, a, y, b)
  {
    var g := Gaps(x, a, y, b);
    forall i | 0 <= i < |g| ensures g[i] >= 0.0 && (g[i] > 0.0 <==> x * a[i] != y * b[i]) {
      Square(x * a[i] - y * b[i], g[i]);
    }
    TotalSign(g);
    if Aligned(x, a, y, b) {
      forall i | 0 <= i < |g| ensures g[i] == 0.0 {
        assert !(g[i] > 0.0);
      }
      assert AllZero(g);
    } else {
      var i :| 0 <= i < |a| && x * a[i] != y * b[i];
      assert g[i] > 0.0;
    }
  }

  lemma NormNonNegative(a: Vector)
    ensures Dot(a, a) >= 0.0
  {
    var p := Products(a, a);
    forall i | 0 <= i < |p| ensures p[i] >= 0.0 {
      Square(a[i], p[i]);
    }
    TotalSign(p);
  }

  lemma ZeroNorm(a: Vector, b: Vector)
    requires |a| == |b| && !(Dot(b, b) > 0.0)
    ensures Dot(a, b) == 0.0
  {
    var p := Products(b, b);
    forall i | 0 <= i < |p| ensures p[i] >= 0.0 && (b[i] != 0.0 ==> p[i] > 0.0) {
      Square(b[i], p[i]);
    }
    TotalSign(p);
    assert AllZero(p);
    var c := Products(a, b);
    forall i | 0 <= i < |c| ensures c[i] == 0.0 {
      assert !(p[i] > 0.0);
      assert b[i] == 0.0;
      assert c[i] == a[i] * b[i];
    }
    TotalSign(c);
    assert AllZero(c);
  }

  lemma OrderUnderFactor(q: real, u: real, v: real)
    requires q > 0.0 && q * u <= q * v
    ensures u <= v
  {
    var gap := u - v;
    assert q * u == q * v + q * gap;
    if gap > 0.0 {
      Positive(q, gap);
    }
  }

  lemma QuadraticBound(p: real, q: real, d: real)
    requires q > 0.0
    requires Quadratic(q, d, p, d, q) >= 0.0
    ensures d * d <= p * q
  {
    assert (q * q) * p == q * (p * q);
    assert (-2.0 * (q * d)) * d == -2.0 * (q * (d * d));
    assert (d * d) * q == q * (d * d);
    OrderUnderFactor(q, d * d, p * q);
  }

  /** Cauchy-Schwarz for vectors of any length. */
  lemma CauchySchwarz(a: Vector, b: Vector)
    requires |a| == |b|
    ensures Dot(a, b) * Dot(a, b) <= Dot(a, a) * Dot(b, b)
  {
    NormNonNegative(a);
    NormNonNegative(b);
    if Dot(b, b) > 0.0 {
      GapsExpand(Dot(b, b), a, Dot(a, b), b);
      GapsSign(Dot(b, b), a, Dot(a, b), b);
      QuadraticBound(Dot(a, a), Dot(b, b), Dot(a, b));
    } else {
      ZeroNorm(a, b);
    }
  }

  lemma DotSymmetric(a: Vector, b: Vector)
    requires |a| == |b|
    ensures Dot(a, b) == Dot(b, a)
  {
    assert Products(a, b) == Products(b, a);
  }

  lemma AbsBound(d: real, m: real)
    requires m > 0.0 && d * d <= m * m
    ensures -m <= d <= m
  {
    if d > m {
      SquareGrows(d, m);
    }
    if d < -m {
      SquareGrows(-d, m);
      NegatedProduct(d, -d);
      NegatedProduct(d, d);
    }
  }

  lemma RatioBound(d: real, m: real)
    requires m > 0.0 && -m <= d <= m
    ensures -1.0 <= d / m <= 1.0
  {
  }

  lemma RootsProduct(ra: real, rb: real, p: real, q: real, d: real)
    requires Root(ra, p) && Root(rb, q) && ra * rb != 0.0 && d * d <= p * q
    ensures -1.0 <= d / (ra * rb) <= 1.0
  {
    var m := ra * rb;
    assert m > 0.0 by {
      if ra > 0.0 && rb > 0.0 {
        Positive(ra, rb);
      }
    }
    assert m * m == (ra * ra) * (rb * rb);
    AbsBound(d, m);
    RatioBound(d, m);
  }

  /** The similarity lies between -1 and 1 and does not depend on the order of the vectors. */
  lemma CosineBounded(a: Vector, b: Vector, ra: real, rb: real)
    requires |a| == |b| ==> Root(ra, Dot(a, a)) && Root(rb, Dot(b, b))
    ensures -1.0 <= Cosine(a, b, ra, rb) <= 1.0
    ensures Cosine(a, b, ra, rb) == Cosine(b, a, rb, ra)
  {
    if |a| == |b| {
      DotSymmetric(a, b);
      assert ra * rb == rb * ra;
      if ra * rb != 0.0 {
        CauchySchwarz(a, b);
        RootsProduct(ra, rb, Dot(a, a), Dot(b, b), Dot(a, b));
      }
    }
  }

  /** A non-zero vector has similarity 1 with itself. */
  lemma CosineSelf(a: Vector, ra: real)
    requires Root(ra, Dot(a, a)) && Dot(a, a) != 0.0
    ensures Cosine(a, a, ra, ra) == 1.0
  {
    assert ra * ra == Dot(a, a);
    assert Dot(a, a) / Dot(a, a) == 1.0;
  }

  lemma OneExactly(ra: real, rb: real, p: real, q: real, d: real)
    requires ra * rb > 0.0 && ra * ra == p && rb * rb == q
    requires Quadratic(rb, ra, p, d, q) >= 0.0
    ensures Quadratic(rb, ra, p, d, q) > 0.0 <==> d / (ra * rb) != 1.0
  {
    var m := ra * rb;
    assert rb * ra == m;
    assert (rb * rb) * p == m * m;
    assert (ra * ra) * q == m * m;
    assert (-2.0 * (rb * ra)) * d == -2.0 * (m * d);
    assert Quadratic(rb, ra, p, d, q) == 2.0 * (m * m) - 2.0 * (m * d);
    RatioOne(m, d);
  }

  lemma RatioOne(m: real, d: real)
    requires m > 0.0 && m * m - m * d >= 0.0
    ensures m * m - m * d > 0.0 <==> d / m != 1.0
  {
    var gap := m - d;
    assert m * m == m * d + m * gap;
    var r := d / m;
    assert r * m == d;
    if gap > 0.0 {
      Positive(m, gap);
    } else if gap < 0.0 {
      Positive(m, -gap);
      NegatedProduct(m, gap);
    } else {
      assert m * gap == 0.0;
    }
  }

  /** Similarity 1 means pointing the same way: each vector scaled by the other's length agrees. */
  lemma CosineOneExactly(a: Vector, b: Vector, ra: real, rb: real)
    requires |a| == |b| && Root(ra, Dot(a, a)) && Root(rb, Dot(b, b)) && ra > 0.0 && rb > 0.0
    ensures Cosine(a, b, ra, rb) == 1.0 <==> Aligned(rb, a, ra, b)
  {
    GapsExpand(rb, a, ra, b);
    GapsSign(rb, a, ra, b);
    Positive(ra, rb);
    OneExactly(ra, rb, Dot(a, a), Dot(b, b), Dot(a, b));
  }

  // ---------------------------------------------------------------------
  // Normalising

  ghost predicate IsSquareRoot(sqrt: real -> real) {
    forall x: real | x >= 0.0 :: Root(sqrt(x), x)
  }

  /** The buckets count in halves. */
  function Halves(raw: seq<nat>): (r: Vector)
    ensures |r| == |raw|
  {
    seq(|raw|, i requires 0 <= i < |raw| => raw[i] as real / 2.0)
  }

  function Divided(v: Vector, d: real): (r: Vector)
    requires d != 0.0
    ensures |r| == |v|
  {
    seq(|v|, i requires 0 <= i < |v| => v[i] / d)
  }

  /** `Math.sqrt(...) || 1`. */
  function Divisor(v: Vector, sqrt: real -> real): (d: real)
    ensures d != 0.0
  {
    var norm := sqrt(Dot(v, v));
    if norm == 0.0 then 1.0 else norm
  }

  function Embed(normalized: Units, dim: nat, sqrt: real -> real): Vector
    requires dim >= 1
  {
    Unit(Buckets(normalized, dim), sqrt)
  }

  /** `localEmbed` on text already lower-cased and trimmed. */
  method LocalEmbed(normalized: Units, dim: nat, sqrt: real -> real) returns (v: Vector)
    requires dim >= 1
    ensures v == Embed(normalized, dim, sqrt)
  {
    var vec := CountBuckets(normalized, dim);
    var halves := Halves(vec[..]);
    var dot, na, nb := CosineSums(halves, halves);
    var norm := sqrt(na);
    v := Divided(halves, if norm == 0.0 then 1.0 else norm);
  }

  lemma {:induction false} TotalScales(p: Vector, k: real, q: Vector)
    requires |p| == |q| && forall i | 0 <= i < |p| :: q[i] == k * p[i]
    ensures Total(q) == k * Total(p)
  {
    if p == [] {
    } else {
      var n := |p| - 1;
      TotalScales(p[..n], k, q[..n]);
      Distribute(k, Total(p[..n]), p[n]);
    }
  }

  lemma QuotientProduct(a: real, x: real, b: real, y: real)
    requires x != 0.0 && y != 0.0
    ensures x * y != 0.0 && a * b == (x * y) * ((a / x) * (b / y))
  {
    var p, q := a / x, b / y;
    assert a == p * x && b == q * y;
    Regroup4(p, x, q, y);
  }

  lemma Regroup4(p: real, x: real, q: real, y: real)
    ensures (p * x) * (q * y) == (x * y) * (p * q)
  {
    assert (p * x) * (q * y) == p * (x * (q * y));
    assert x * (q * y) == q * (x * y);
    assert p * (q * (x * y)) == (p * q) * (x * y);
  }

  lemma DotDivided(a: Vector, x: real, b: Vector, y: real, m: real)
    requires |a| == |b| && x != 0.0 && y != 0.0 && m == x * y
    ensures m != 0.0 && Dot(a, b) == m * Dot(Divided(a, x), Divided(b, y))
    ensures Dot(a, b) / m == Dot(Divided(a, x), Divided(b, y))
  {
    var p, q := Products(Divided(a, x), Divided(b, y)), Products(a, b);
    forall i | 0 <= i < |a| ensures q[i] == m * p[i] {
      QuotientProduct(a[i], x, b[i], y);
    }
    QuotientProduct(1.0, x, 1.0, y);
    TotalScales(p, m, q);
    QuotientIs(m, Total(q), Total(p));
  }

  lemma DivisorSquared(v: Vector, sqrt: real -> real)
    requires IsSquareRoot(sqrt)
    ensures Dot(v, v) != 0.0 ==> Divisor(v, sqrt) == sqrt(Dot(v, v)) && Root(Divisor(v, sqrt), Dot(v, v))
  {
    NormNonNegative(v);
  }

  function Unit(v: Vector, sqrt: real -> real): (r: Vector)
    ensures |r| == |v|
  {
    Divided(v, Divisor(v, sqrt))
  }

  lemma UnitLength(v: Vector, sqrt: real -> real)
    requires IsSquareRoot(sqrt)
    ensures Dot(Unit(v, sqrt), Unit(v, sqrt)) == if Dot(v, v) == 0.0 then 0.0 else 1.0
  {
    var d := Divisor(v, sqrt);
    var m := d * d;
    DotDivided(v, d, v, d, m);
    DivisorSquared(v, sqrt);
    if Dot(v, v) != 0.0 {
      assert m == Dot(v, v);
      QuotientIs(m, m, 1.0);
    }
  }

  lemma UnitSimilarity(a: Vector, b: Vector, sqrt: real -> real)
    requires |a| == |b| && IsSquareRoot(sqrt) && Dot(a, a) != 0.0 && Dot(b, b) != 0.0
    ensures Dot(Unit(a, sqrt), Unit(b, sqrt)) == Cosine(a, b, sqrt(Dot(a, a)), sqrt(Dot(b, b)))
  {
    var x, y := Divisor(a, sqrt), Divisor(b, sqrt);
    DotDivided(a, x, b, y, x * y);
    DivisorSquared(a, sqrt);
    DivisorSquared(b, sqrt);
  }

  lemma CosineOfUnits(e: Vector, f: Vector, sqrt: real -> real)
    requires |e| == |f| && IsSquareRoot(sqrt) && Dot(e, e) == 1.0 && Dot(f, f) == 1.0
    ensures Cosine(e, f, sqrt(Dot(e, e)), sqrt(Dot(f, f))) == Dot(e, f)
  {
    RootOfOne(sqrt(1.0));
  }

  /** The bucket counts of a text, before normalising. */
  function Buckets(normalized: Units, dim: nat): (r: Vector)
    requires dim >= 1
    ensures |r| == dim
  {
    Halves(Raw(normalized, dim))
  }

  /** An embedding is a unit vector, unless every bucket is empty. */
  lemma EmbedIsUnit(normalized: Units, dim: nat, sqrt: real -> real)
    requires dim >= 1 && IsSquareRoot(sqrt)
    ensures var e, v := Embed(normalized, dim, sqrt), Buckets(normalized, dim);
            |e| == dim && Dot(e, e) == if Dot(v, v) == 0.0 then 0.0 else 1.0
  {
    UnitLength(Buckets(normalized, dim), sqrt);
  }

  /** Normalising does not change similarity: on embeddings it is the plain dot product. */
  lemma EmbeddedSimilarity(s: Units, t: Units, dim: nat, sqrt: real -> real)
    requires dim >= 1 && IsSquareRoot(sqrt)
    requires Dot(Buckets(s, dim), Buckets(s, dim)) != 0.0 && Dot(Buckets(t, dim), Buckets(t, dim)) != 0.0
    ensures var a, b := Buckets(s, dim), Buckets(t, dim);
            var e, f := Embed(s, dim, sqrt), Embed(t, dim, sqrt);
            && Cosine(e, f, sqrt(Dot(e, e)), sqrt(Dot(f, f))) == Dot(e, f)
            && Dot(e, f) == Cosine(a, b, sqrt(Dot(a, a)), sqrt(Dot(b, b)))
  {
    EmbedIsUnit(s, dim, sqrt);
    EmbedIsUnit(t, dim, sqrt);
    UnitSimilarity(Buckets(s, dim), Buckets(t, dim), sqrt);
    CosineOfUnits(Embed(s, dim, sqrt), Embed(t, dim, sqrt), sqrt);
  }

  lemma RootOfOne(r: real)
    requires Root(r, 1.0)
    ensures r == 1.0
  {
    SquareSize(r, r * r);
  }

  lemma SquareSize(r: real, m: real)
    requires r >= 0.0 && m == r * r
    ensures (r < 1.0 ==> m <= r) && (r > 1.0 ==> m > r)
  {
    assert r * (1.0 - r) == r - m;
    if r > 1.0 {
      Positive(r, r - 1.0);
    } else if 0.0 < r < 1.0 {
      Positive(r, 1.0 - r);
    }
  }

  lemma QuotientIs(m: real, x: real, r: real)
    requires m != 0.0 && x == m * r
    ensures x / m == r
  {
  }
}
