/** The tenant pool cache: a map from url to pool, bounded by evicting the least recent url. */
module PoolCache {
  import opened Text
  import opened Wrappers

  const MAX_TENANT_POOLS := 50

  /** Pools are numbered in order of creation; `ended` counts the calls of `end()` on each. */
  datatype Cache = Cache(pools: map<string, nat>, lru: seq<string>, ended: multiset<nat>, next: nat)

  const EMPTY := Cache(map[], [], multiset{}, 0)

  function RemoveFirst(xs: seq<string>, u: string): seq<string> {
    if xs == [] then [] else if xs[0] == u then xs[1..] else [xs[0]] + RemoveFirst(xs[1..], u)
  }

  lemma {:induction false} RemoveFirstAt(xs: seq<string>, i: nat, u: string)
    requires i <= |xs| && (forall k | 0 <= k < i :: xs[k] != u) && (i < |xs| ==> xs[i] == u)
    ensures RemoveFirst(xs, u) == if i < |xs| then xs[..i] + xs[i + 1..] else xs
  {
    if i == 0 {
    } else {
      RemoveFirstAt(xs[1..], i - 1, u);
      assert i < |xs| ==> [xs[0]] + (xs[1..][..i - 1] + xs[1..][i..]) == xs[..i] + xs[i + 1..];
    }
  }

  /** `evictOldestTenantPool`: an empty url leaves the list but not the map. */
  function Evict(c: Cache): Cache {
    if c.lru == [] then c
    else
      var url := c.lru[0];
      if url == "" then c.(lru := c.lru[1..])
      else
        c.(lru := c.lru[1..], pools := c.pools - {url},
           ended := if url in c.pools then c.ended + multiset{c.pools[url]} else c.ended)
  }

  /** `getOrCreateTenantPool`. */
  function Request(cap: nat, c: Cache, url: string): (Cache, nat) {
    if url in c.pools then
      (c.(lru := RemoveFirst(c.lru, url) + [url]), c.pools[url])
    else
      var d := if |c.pools| >= cap then Evict(c) else c;
      (d.(pools := d.pools[url := d.next], lru := d.lru + [url], next := d.next + 1), d.next)
  }

  class PoolStore {
    var tenantPoolsByUrl: map<string, nat>
    var tenantPoolLru: seq<string>
    var nextPool: nat
    ghost var ended: multiset<nat>

    ghost function State(): Cache
      reads this
    {
      Cache(tenantPoolsByUrl, tenantPoolLru, ended, nextPool)
    }

    constructor ()
      ensures State() == EMPTY
    {
      tenantPoolsByUrl, tenantPoolLru, nextPool, ended := map[], [], 0, multiset{};
    }

    method EvictOldest()
      modifies this
      ensures State() == Evict(old(State()))
    {
      if |tenantPoolLru| == 0 {
        return;
      }
      var url := tenantPoolLru[0];
      tenantPoolLru := tenantPoolLru[1..];
      if url != "" {
        if url in tenantPoolsByUrl {
          ended := ended + multiset{tenantPoolsByUrl[url]};
        }
        tenantPoolsByUrl := tenantPoolsByUrl - {url};
      }
    }

    /** `splice` of the first occurrence found by `indexOf`. */
    method Splice(url: string)
      modifies this`tenantPoolLru
      ensures tenantPoolLru == RemoveFirst(old(tenantPoolLru), url)
    {
      var i := 0;
      while i < |tenantPoolLru| && tenantPoolLru[i] != url
        invariant i <= |tenantPoolLru|
        invariant forall k | 0 <= k < i :: tenantPoolLru[k] != url
      {
        i := i + 1;
      }
      RemoveFirstAt(tenantPoolLru, i, url);
      if i < |tenantPoolLru| {
        tenantPoolLru := tenantPoolLru[..i] + tenantPoolLru[i + 1..];
      }
    }

    method GetOrCreate(url: string) returns (pool: nat)
      modifies this
      ensures (State(), pool) == Request(50, old(State()), url)
    {
      if url in tenantPoolsByUrl {
        pool := tenantPoolsByUrl[url];
        Splice(url);
        tenantPoolLru := tenantPoolLru + [url];
        return;
      }
      if |tenantPoolsByUrl| >= MAX_TENANT_POOLS {
        EvictOldest();
      }
      pool := nextPool;
      nextPool := nextPool + 1;
      tenantPoolsByUrl := tenantPoolsByUrl[url := pool];
      tenantPoolLru := tenantPoolLru + [url];
    }
  }

  // ---------------------------------------------------------------------
  // Runs

  function Run(cap: nat, urls: seq<string>): Cache {
    if urls == [] then EMPTY else Request(cap, Run(cap, urls[..|urls| - 1]), urls[|urls| - 1]).0
  }

  /** The pool handed out by the last request of a run. */
  function Answer(cap: nat, urls: seq<string>): nat
    requires urls != []
  {
    Request(cap, Run(cap, urls[..|urls| - 1]), urls[|urls| - 1]).1
  }

  function LastIndex(urls: seq<string>, u: string): nat
    requires u in urls
    ensures LastIndex(urls, u) < |urls| && urls[LastIndex(urls, u)] == u
    ensures forall j | LastIndex(urls, u) < j < |urls| :: urls[j] != u
  {
    if urls[|urls| - 1] == u then |urls| - 1 else LastIndex(urls[..|urls| - 1], u)
  }

  ghost function Urls(urls: seq<string>): set<string> {
    set u | u in urls
  }

  function Min(a: nat, b: nat): nat {
    if a < b then a else b
  }

  /** Requested urls, the least recently requested first. */
  ghost predicate InOrder(urls: seq<string>, xs: seq<string>) {
    && (forall i | 0 <= i < |xs| :: xs[i] in urls)
    && (forall i, j | 0 <= i < j < |xs| :: LastIndex(urls, xs[i]) < LastIndex(urls, xs[j]))
  }

  /**
   * `lru` is the `cap` most recently requested distinct urls, oldest first. These
   * conditions determine the list.
   */
  ghost predicate MostRecent(cap: nat, urls: seq<string>, lru: seq<string>) {
    && InOrder(urls, lru)
    && (forall u, i | u in urls && u !in lru && 0 <= i < |lru| :: LastIndex(urls, u) < LastIndex(urls, lru[i]))
    && |lru| == Min(cap, |Urls(urls)|)
  }

  ghost predicate NoRepeats(xs: seq<string>) {
    forall i, j | 0 <= i < j < |xs| :: xs[i] != xs[j]
  }

  /** Keys and list agree, and every pool made so far is either cached or ended once. */
  ghost predicate Consistent(c: Cache) {
    && NoRepeats(c.lru)
    && c.pools.Keys == Urls(c.lru)
    && (forall u, v | u in c.pools && v in c.pools && c.pools[u] == c.pools[v] :: u == v)
    && (forall n: nat :: c.ended[n] == if n < c.next && n !in c.pools.Values then 1 else 0)
    && (forall n | n in c.pools.Values :: n < c.next)
  }

  lemma {:induction false} RemoveFirstSpec(xs: seq<string>, u: string)
    requires NoRepeats(xs)
    ensures NoRepeats(RemoveFirst(xs, u)) && u !in RemoveFirst(xs, u)
    ensures forall x :: x in RemoveFirst(xs, u) <==> x in xs && x != u
    ensures |RemoveFirst(xs, u)| == if u in xs then |xs| - 1 else |xs|
  {
    if xs == [] {
    } else if xs[0] == u {
    } else {
      RemoveFirstSpec(xs[1..], u);
      var r := RemoveFirst(xs[1..], u);
      forall j | 0 <= j < |r| ensures r[j] != xs[0] {
        assert r[j] in r;
      }
    }
  }

  lemma TailInOrder(urls: seq<string>, xs: seq<string>)
    requires xs != [] && InOrder(urls, xs)
    ensures InOrder(urls, xs[1..])
  {
  }

  lemma ConsInOrder(urls: seq<string>, x: string, xs: seq<string>)
    requires x in urls && InOrder(urls, xs)
    requires forall j | 0 <= j < |xs| :: LastIndex(urls, x) < LastIndex(urls, xs[j])
    ensures InOrder(urls, [x] + xs)
  {
    var ys := [x] + xs;
    forall i | 0 <= i < |ys| ensures ys[i] in urls {
    }
    forall i, j | 0 <= i < j < |ys| ensures LastIndex(urls, ys[i]) < LastIndex(urls, ys[j]) {
      assert ys[j] == xs[j - 1];
      assert i > 0 ==> ys[i] == xs[i - 1];
    }
  }

  lemma {:induction false} RemoveFirstOrder(urls: seq<string>, xs: seq<string>, u: string)
    requires InOrder(urls, xs)
    ensures forall i | 0 <= i < |RemoveFirst(xs, u)| :: RemoveFirst(xs, u)[i] in xs
    ensures InOrder(urls, RemoveFirst(xs, u))
  {
    if xs == [] {
    } else if xs[0] == u {
      TailInOrder(urls, xs);
    } else {
      TailInOrder(urls, xs);
      RemoveFirstOrder(urls, xs[1..], u);
      var r := RemoveFirst(xs[1..], u);
      forall j | 0 <= j < |r| ensures LastIndex(urls, xs[0]) < LastIndex(urls, r[j]) {
        assert r[j] in xs[1..];
        var k :| 0 <= k < |xs[1..]| && xs[1..][k] == r[j];
        assert xs[k + 1] == r[j];
      }
      ConsInOrder(urls, xs[0], r);
    }
  }

  // ---------------------------------------------------------------------
  // The cache stays consistent

  lemma {:induction false} CountDistinct(xs: seq<string>)
    requires NoRepeats(xs)
    ensures |Urls(xs)| == |xs|
  {
    if xs == [] {
      assert Urls(xs) == {};
    } else {
      CountDistinct(xs[1..]);
      assert Urls(xs) == {xs[0]} + Urls(xs[1..]);
    }
  }

  /** What an eviction leaves behind. */
  ghost predicate Evictable(c: Cache) {
    c.lru != [] && c.lru[0] != ""
  }

  lemma EvictConsistent(c: Cache)
    requires Consistent(c) && Evictable(c)
    ensures Consistent(Evict(c)) && Evict(c).next == c.next
    ensures Evict(c).lru == c.lru[1..]
  {
    var u := c.lru[0];
    assert u in c.pools by {
      assert u in Urls(c.lru);
    }
    var d := Evict(c);
    assert Urls(d.lru) == Urls(c.lru) - {u};
    assert d.pools.Keys == c.pools.Keys - {u};
    forall n | n in d.pools.Values ensures n < d.next {
      var v :| v in d.pools && d.pools[v] == n;
      assert c.pools[v] in c.pools.Values;
    }
    forall n: nat ensures d.ended[n] == if n < d.next && n !in d.pools.Values then 1 else 0 {
      assert n in c.pools.Values <==> n in d.pools.Values || n == c.pools[u] by {
        if n in c.pools.Values && n != c.pools[u] {
          var v :| v in c.pools && c.pools[v] == n;
          assert v in d.pools && d.pools[v] == n;
        }
        if n in d.pools.Values {
          var v :| v in d.pools && d.pools[v] == n;
          assert v in c.pools && c.pools[v] == n;
        }
      }
      if n in d.pools.Values {
        var v :| v in d.pools && d.pools[v] == n;
        assert n != c.pools[u];
      }
    }
  }

  lemma InsertConsistent(c: Cache, url: string)
    requires Consistent(c) && url !in c.pools
    ensures Consistent(c.(pools := c.pools[url := c.next], lru := c.lru + [url], next := c.next + 1))
  {
    var d := c.(pools := c.pools[url := c.next], lru := c.lru + [url], next := c.next + 1);
    assert url !in c.lru by {
      assert url in c.lru ==> url in Urls(c.lru);
    }
    assert Urls(d.lru) == Urls(c.lru) + {url};
    forall v | v in c.pools ensures c.pools[v] < c.next {
      assert c.pools[v] in c.pools.Values;
    }
    forall n: nat ensures n in d.pools.Values <==> n in c.pools.Values || n == c.next {
      if n in c.pools.Values {
        var v :| v in c.pools && c.pools[v] == n;
        assert v in d.pools && d.pools[v] == n;
      }
      if n == c.next {
        assert url in d.pools && d.pools[url] == n;
      }
    }
  }

  lemma HitConsistent(c: Cache, url: string)
    requires Consistent(c) && url in c.pools
    ensures Consistent(c.(lru := RemoveFirst(c.lru, url) + [url]))
  {
    RemoveFirstSpec(c.lru, url);
    var lru := RemoveFirst(c.lru, url) + [url];
    assert url in Urls(c.lru);
    assert Urls(lru) == Urls(c.lru);
  }

  lemma RequestConsistent(cap: nat, c: Cache, url: string)
    requires Consistent(c)
    requires url !in c.pools && |c.pools| >= cap ==> Evictable(c)
    ensures Consistent(Request(cap, c, url).0)
  {
    if url in c.pools {
      HitConsistent(c, url);
    } else if |c.pools| >= cap {
      EvictConsistent(c);
      InsertConsistent(Evict(c), url);
    } else {
      InsertConsistent(c, url);
    }
  }

  /** Evicting a remembered empty url is the one way list and map come apart. */
  lemma ConsistentExactly(cap: nat, c: Cache, url: string)
    requires Consistent(c) && cap >= 1
    ensures Consistent(Request(cap, c, url).0) <==> !(url !in c.pools && |c.pools| >= cap && c.lru[0] == "")
  {
    CountDistinct(c.lru);
    if url !in c.pools && |c.pools| >= cap && c.lru[0] == "" {
      var d := Request(cap, c, url).0;
      assert "" in Urls(c.lru) && "" in d.pools;
      assert "" !in c.lru[1..];
      assert "" !in d.lru;
      assert "" !in Urls(d.lru);
    } else {
      RequestConsistent(cap, c, url);
    }
  }

  lemma EmptyUrlStays()
    ensures var c := Run(1, ["", "a"]); c.lru == ["a"] && "" in c.pools && |c.pools| == 2
  {
    assert ["", "a"][..1] == [""] && [""][..0] == [];
    var c := Run(1, [""]);
    assert c == Cache(map["" := 0], [""], multiset{}, 1);
    assert Run(1, ["", "a"]).pools == map["" := 0, "a" := 1];
    assert |map["" := 0, "a" := 1].Keys| == |{"", "a"}|;
  }

  // ---------------------------------------------------------------------
  // Recency

  lemma LastIndexOfPrefix(urls: seq<string>, u: string)
    requires urls != [] && u in urls
    ensures urls[|urls| - 1] == u ==> LastIndex(urls, u) == |urls| - 1
    ensures urls[|urls| - 1] != u ==>
              u in urls[..|urls| - 1] && LastIndex(urls, u) == LastIndex(urls[..|urls| - 1], u)
  {
  }

  lemma PrefixUrls(urls: seq<string>)
    requires urls != []
    ensures Urls(urls) == Urls(urls[..|urls| - 1]) + {urls[|urls| - 1]}
  {
    assert urls == urls[..|urls| - 1] + [urls[|urls| - 1]];
  }

  /** Moving or adding the requested url to the back keeps the list in recency order. */
  lemma PushRecent(urls: seq<string>, xs: seq<string>, u: string)
    requires urls != [] && u == urls[|urls| - 1] && u !in xs
    requires InOrder(urls[..|urls| - 1], xs)
    ensures InOrder(urls, xs + [u])
  {
    var ys := xs + [u];
    forall i | 0 <= i < |ys| ensures ys[i] in urls {
    }
    forall i, j | 0 <= i < j < |ys| ensures LastIndex(urls, ys[i]) < LastIndex(urls, ys[j]) {
      if j < |xs| {
        EarlierIndex(urls, xs, u, i);
        EarlierIndex(urls, xs, u, j);
      } else {
        EarlierIndex(urls, xs, u, i);
        LastIndexOfPrefix(urls, u);
      }
    }
  }

  lemma EarlierIndex(urls: seq<string>, xs: seq<string>, u: string, i: nat)
    requires urls != [] && u == urls[|urls| - 1] && u !in xs && i < |xs| && xs[i] in urls[..|urls| - 1]
    ensures xs[i] in urls && LastIndex(urls, xs[i]) == LastIndex(urls[..|urls| - 1], xs[i]) < |urls| - 1
  {
    assert xs[i] in xs;
    LastIndexOfPrefix(urls, xs[i]);
  }

  lemma RecentIsDistinct(cap: nat, urls: seq<string>, lru: seq<string>)
    requires MostRecent(cap, urls, lru)
    ensures NoRepeats(lru) && Urls(lru) <= Urls(urls) && |Urls(lru)| == |lru|
    ensures |lru| < cap ==> Urls(lru) == Urls(urls)
  {
    CountDistinct(lru);
    forall u | u in Urls(lru) ensures u in Urls(urls) {
      var i :| 0 <= i < |lru| && lru[i] == u;
    }
    if |lru| < cap {
      SameSize(Urls(lru), Urls(urls));
    }
  }

  lemma SameSize(a: set<string>, b: set<string>)
    requires a <= b && |a| >= |b|
    ensures a == b
  {
    assert b == a + (b - a);
    assert |b| == |a| + |b - a|;
  }

  lemma HitRecent(cap: nat, urls: seq<string>, lru: seq<string>)
    requires urls != [] && urls[|urls| - 1] in lru
    requires MostRecent(cap, urls[..|urls| - 1], lru)
    ensures MostRecent(cap, urls, RemoveFirst(lru, urls[|urls| - 1]) + [urls[|urls| - 1]])
  {
    var h, u := urls[..|urls| - 1], urls[|urls| - 1];
    RecentIsDistinct(cap, h, lru);
    RemoveFirstSpec(lru, u);
    RemoveFirstOrder(h, lru, u);
    var xs := RemoveFirst(lru, u);
    PushRecent(urls, xs, u);
    PrefixUrls(urls);
    assert u in Urls(lru);
    assert Urls(urls) == Urls(h);
    var ys := xs + [u];
    forall v, i | v in urls && v !in ys && 0 <= i < |ys| ensures LastIndex(urls, v) < LastIndex(urls, ys[i]) {
      OlderThan(cap, urls, lru, ys, v, i);
    }
  }

  lemma OlderThan(cap: nat, urls: seq<string>, lru: seq<string>, ys: seq<string>, v: string, i: nat)
    requires urls != [] && MostRecent(cap, urls[..|urls| - 1], lru)
    requires v in urls && v != urls[|urls| - 1] && i < |ys| && ys[i] in urls
    requires ys[i] == urls[|urls| - 1] ||
             (ys[i] in lru && (v !in lru || (lru != [] && v == lru[0] && ys[i] in lru[1..])))
    ensures LastIndex(urls, v) < LastIndex(urls, ys[i])
  {
    LastIndexOfPrefix(urls, v);
    LastIndexOfPrefix(urls, ys[i]);
    if ys[i] != urls[|urls| - 1] {
      var k :| 0 <= k < |lru| && lru[k] == ys[i];
      if v in lru {
        var k' :| 0 <= k' < |lru[1..]| && lru[1..][k'] == ys[i];
        assert lru[k' + 1] == ys[i];
      }
    }
  }

  lemma MissCount(cap: nat, urls: seq<string>, lru: seq<string>)
    requires urls != [] && urls[|urls| - 1] !in lru
    requires MostRecent(cap, urls[..|urls| - 1], lru)
    ensures Min(cap, |Urls(urls)|) == if |lru| >= cap then cap else |lru| + 1
  {
    var h, u := urls[..|urls| - 1], urls[|urls| - 1];
    RecentIsDistinct(cap, h, lru);
    PrefixUrls(urls);
    if |lru| < cap {
      assert u !in Urls(h);
      assert |Urls(urls)| == |Urls(h)| + 1;
    } else {
      Subset(Urls(h), Urls(urls));
    }
  }

  lemma MissRecent(cap: nat, urls: seq<string>, lru: seq<string>)
    requires cap >= 1 && urls != [] && urls[|urls| - 1] !in lru
    requires MostRecent(cap, urls[..|urls| - 1], lru)
    ensures MostRecent(cap, urls, (if |lru| >= cap then lru[1..] else lru) + [urls[|urls| - 1]])
  {
    var h, u := urls[..|urls| - 1], urls[|urls| - 1];
    RecentIsDistinct(cap, h, lru);
    PrefixUrls(urls);
    var xs := if |lru| >= cap then lru[1..] else lru;
    if |lru| >= cap {
      TailInOrder(h, lru);
    }
    PushRecent(urls, xs, u);
    MissCount(cap, urls, lru);
    forall v, i | v in urls && v !in xs + [u] && 0 <= i < |xs + [u]|
      ensures LastIndex(urls, v) < LastIndex(urls, (xs + [u])[i])
    {
      MissOlder(cap, urls, lru, xs, v, i);
    }
  }

  lemma MissOlder(cap: nat, urls: seq<string>, lru: seq<string>, xs: seq<string>, v: string, i: nat)
    requires urls != [] && MostRecent(cap, urls[..|urls| - 1], lru)
    requires xs == lru || (lru != [] && xs == lru[1..])
    requires InOrder(urls, xs + [urls[|urls| - 1]])
    requires v in urls && v !in xs + [urls[|urls| - 1]] && i < |xs| + 1
    ensures LastIndex(urls, v) < LastIndex(urls, (xs + [urls[|urls| - 1]])[i])
  {
    var ys := xs + [urls[|urls| - 1]];
    assert ys[|xs|] in ys;
    if i < |xs| {
      assert ys[i] in xs && (v in xs ==> v in ys);
      if v in lru {
        assert v == lru[0];
      }
    }
    OlderThan(cap, urls, lru, ys, v, i);
  }

  /**
   * Main result: after any sequence of requests the cache holds exactly the most recent
   * distinct urls in recency order, and every pool is either cached or ended exactly once.
   */
  lemma {:induction false} RunSpec(cap: nat, urls: seq<string>)
    requires cap >= 1 && "" !in urls
    ensures Consistent(Run(cap, urls))
    ensures MostRecent(cap, urls, Run(cap, urls).lru)
  {
    if urls == [] {
      assert Urls(urls) == {};
    } else {
      var h, u := urls[..|urls| - 1], urls[|urls| - 1];
      RunSpec(cap, h);
      var c := Run(cap, h);
      CountDistinct(c.lru);
      assert c.lru != [] ==> c.lru[0] in h && c.lru[0] != "";
      RequestConsistent(cap, c, u);
      assert u in c.pools <==> u in Urls(c.lru);
      if u in c.pools {
        HitRecent(cap, urls, c.lru);
      } else {
        MissRecent(cap, urls, c.lru);
      }
    }
  }

  /** `getTenantPool`: a tenant whose stored url is missing or blank is served by the control pool. */
  function TenantUrl(stored: Option<string>): Option<string> {
    if stored.None? || Trim(stored.value) == "" then None else stored
  }

  /** Blank is nothing but white space. */
  lemma TenantUrlExactly(stored: Option<string>)
    ensures TenantUrl(stored) == if stored.Some? && !AllSpace(stored.value) then stored else None
  {
    if stored.Some? {
      var front, back := TrimExactly(stored.value);
      var u, r := stored.value, Trim(stored.value);
      assert r == "" ==> u == front + back;
      assert r != "" ==> u[|front|] == r[0];
    }
  }

  /** The requests that reach the cache. */
  function Routed(lookups: seq<Option<string>>): seq<string> {
    if lookups == [] then []
    else
      var last := TenantUrl(lookups[|lookups| - 1]);
      Routed(lookups[..|lookups| - 1]) + if last.Some? then [last.value] else []
  }

  lemma {:induction false} NeverEmpty(lookups: seq<Option<string>>)
    ensures "" !in Routed(lookups)
  {
    if lookups == [] {
    } else {
      NeverEmpty(lookups[..|lookups| - 1]);
      assert Trim("") == "";
    }
  }

  /** So whatever urls the tenants have stored, list, map and pools stay consistent. */
  lemma TenantRunsConsistent(cap: nat, lookups: seq<Option<string>>)
    requires cap >= 1
    ensures Consistent(Run(cap, Routed(lookups))) && MostRecent(cap, Routed(lookups), Run(cap, Routed(lookups)).lru)
  {
    NeverEmpty(lookups);
    RunSpec(cap, Routed(lookups));
  }

  // ---------------------------------------------------------------------
  // When a request returns the earlier pool

  /** The distinct urls requested after the last request for `u`. */
  ghost function Since(urls: seq<string>, u: string): set<string>
    requires u in urls
  {
    Urls(urls[LastIndex(urls, u) + 1..])
  }

  lemma SinceIsLater(urls: seq<string>, u: string, v: string)
    requires u in urls
    ensures v in Since(urls, u) <==> v in urls && LastIndex(urls, u) < LastIndex(urls, v)
  {
    var i := LastIndex(urls, u);
    if v in Since(urls, u) {
      var k :| 0 <= k < |urls[i + 1..]| && urls[i + 1..][k] == v;
      assert urls[i + 1 + k] == v;
    }
    if v in urls && i < LastIndex(urls, v) {
      assert urls[i + 1..][LastIndex(urls, v) - i - 1] == v;
    }
  }

  lemma CachedIffFewSince(cap: nat, urls: seq<string>, lru: seq<string>, u: string)
    requires MostRecent(cap, urls, lru) && u in urls
    ensures u in lru <==> |Since(urls, u)| < cap
  {
    RecentIsDistinct(cap, urls, lru);
    if u in lru {
      var i :| 0 <= i < |lru| && lru[i] == u;
      var tail := lru[i + 1..];
      CountDistinct(tail);
      forall v | v in Since(urls, u) ensures v in Urls(tail) {
        SinceIsLater(urls, u, v);
        assert v in lru;
        var k :| 0 <= k < |lru| && lru[k] == v;
        assert k > i;
        assert tail[k - i - 1] == v;
      }
      Subset(Since(urls, u), Urls(tail));
    } else {
      assert u in Urls(urls) && u !in Urls(lru);
      assert |lru| >= cap;
      forall v | v in Urls(lru) ensures v in Since(urls, u) {
        var k :| 0 <= k < |lru| && lru[k] == v;
        SinceIsLater(urls, u, v);
      }
      Subset(Urls(lru), Since(urls, u));
    }
  }

  lemma Subset(a: set<string>, b: set<string>)
    requires a <= b
    ensures |a| <= |b|
  {
    assert b == a + (b - a);
  }

  /** One more request: the requested url maps to its answer, the others are untouched or gone. */
  lemma RunStep(cap: nat, urls: seq<string>, u: string)
    requires urls != []
    ensures var h, v := urls[..|urls| - 1], urls[|urls| - 1];
            && (u == v ==> u in Run(cap, urls).pools && Run(cap, urls).pools[u] == Answer(cap, urls))
            && (u != v && u in Run(cap, urls).pools ==>
                  u in Run(cap, h).pools && Run(cap, urls).pools[u] == Run(cap, h).pools[u])
            && Run(cap, h).next <= Run(cap, urls).next
  {
  }

  /** A cached url still maps to the pool its last request returned. */
  lemma {:induction false} CachedPoolIsLastAnswer(cap: nat, urls: seq<string>, u: string)
    requires u in Run(cap, urls).pools
    ensures u in urls && Run(cap, urls).pools[u] == Answer(cap, urls[..LastIndex(urls, u) + 1])
  {
    if urls == [] {
      assert false;
    } else {
      RunStep(cap, urls, u);
      if u == urls[|urls| - 1] {
        assert urls[..|urls|] == urls;
      } else {
        var h := urls[..|urls| - 1];
        CachedPoolIsLastAnswer(cap, h, u);
        LastIndexOfPrefix(urls, u);
        assert h[..LastIndex(h, u) + 1] == urls[..LastIndex(urls, u) + 1];
      }
    }
  }

  lemma {:induction false} PoolsGrow(cap: nat, urls: seq<string>, n: nat)
    requires n <= |urls|
    ensures Run(cap, urls[..n]).next <= Run(cap, urls).next
  {
    if n == |urls| {
      assert urls[..n] == urls;
    } else {
      PoolsGrow(cap, urls[..|urls| - 1], n);
      assert urls[..|urls| - 1][..n] == urls[..n];
    }
  }

  /**
   * Main result: asking again for a url returns the pool of its last request exactly when
   * fewer than `cap` distinct other urls were requested in between.
   */
  lemma SamePoolExactly(cap: nat, urls: seq<string>, u: string)
    requires cap >= 1 && "" !in urls && u in urls
    ensures Answer(cap, urls + [u]) == Answer(cap, urls[..LastIndex(urls, u) + 1]) <==> |Since(urls, u)| < cap
  {
    CachedExactly(cap, urls, u);
    assert (urls + [u])[..|urls|] == urls;
    if u in Run(cap, urls).pools {
      CachedPoolIsLastAnswer(cap, urls, u);
    } else {
      var h := urls[..LastIndex(urls, u) + 1];
      EarlierAnswer(cap, h);
      PoolsGrow(cap, urls, |h|);
      assert Answer(cap, urls + [u]) >= Run(cap, urls).next;
    }
  }

  lemma CachedExactly(cap: nat, urls: seq<string>, u: string)
    requires cap >= 1 && "" !in urls && u in urls
    ensures u in Run(cap, urls).pools <==> |Since(urls, u)| < cap
  {
    RunSpec(cap, urls);
    var c := Run(cap, urls);
    CachedIffFewSince(cap, urls, c.lru, u);
    assert u in c.pools <==> u in Urls(c.lru);
  }

  lemma EarlierAnswer(cap: nat, urls: seq<string>)
    requires cap >= 1 && "" !in urls && urls != []
    ensures Answer(cap, urls) < Run(cap, urls).next
  {
    var h, u := urls[..|urls| - 1], urls[|urls| - 1];
    RunSpec(cap, h);
    if u in Run(cap, h).pools {
      assert Run(cap, h).pools[u] in Run(cap, h).pools.Values;
    }
  }
}
