/**
  Filling collection benchmarks from the provider catalog. Two enrichment passes share one
  memoisation scheme: a provider is fetched on first use, and both outcomes are remembered.
*/
module ProviderEnrichment {
  import opened Wrappers

  /** What providers publish about a benchmark, and what collections collect from it. */
  datatype Labels = Labels(domains: set<string>, tasks: set<string>, modalities: set<string>, targets: set<string>)

  const NoLabels := Labels({}, {}, {}, {})

  function Union(a: Labels, b: Labels): Labels {
    Labels(a.domains + b.domains, a.tasks + b.tasks, a.modalities + b.modalities, a.targets + b.targets)
  }

  datatype ProviderBenchmark = ProviderBenchmark(id: string, url: string, labels: Labels)

  type Provider = seq<ProviderBenchmark>

  /** The provider store for the duration of one call; GetProvider fails for other ids. */
  type Store = map<string, Provider>

  datatype Benchmark = Benchmark(provider: string, id: string, url: string)

  datatype Collection = Collection(
    benchmarks: seq<Benchmark>, domains: seq<string>, tasks: seq<string>, modalities: seq<string>, targets: seq<string>)

  /******* Direct lookup *******/

  function FirstMatch(p: Provider, id: string): Option<ProviderBenchmark> {
    if p == [] then None else if p[0].id == id then Some(p[0]) else FirstMatch(p[1..], id)
  }

  /** The first benchmark with that id that has a URL. */
  function FirstWithUrl(p: Provider, id: string): Option<ProviderBenchmark> {
    if p == [] then None else if p[0].id == id && p[0].url != "" then Some(p[0]) else FirstWithUrl(p[1..], id)
  }

  predicate Considered(b: Benchmark) { b.provider != "" && b.id != "" }

  /** The catalog entry of a benchmark, looked up on its own. */
  function Entry(store: Store, b: Benchmark): Option<ProviderBenchmark> {
    if Considered(b) && b.provider in store then FirstMatch(store[b.provider], b.id) else None
  }

  function WithUrl(store: Store, b: Benchmark): Benchmark {
    if !Considered(b) then b
    else b.(url := if Entry(store, b).Some? then Entry(store, b).value.url else "")
  }

  function LabelsFrom(store: Store, b: Benchmark): Labels {
    if Entry(store, b).Some? then Entry(store, b).value.labels else NoLabels
  }

  function AllLabels(store: Store, bs: seq<Benchmark>): Labels {
    if bs == [] then NoLabels else Union(AllLabels(store, bs[..|bs| - 1]), LabelsFrom(store, bs[|bs| - 1]))
  }

  function Enriched(store: Store, bs: seq<Benchmark>): seq<Benchmark> {
    seq(|bs|, i requires 0 <= i < |bs| => WithUrl(store, bs[i]))
  }

  ghost predicate NoDuplicates(s: seq<string>) { forall i, j | 0 <= i < j < |s| :: s[i] != s[j] }

  ghost predicate Lists(s: seq<string>, elements: set<string>) {
    NoDuplicates(s) && forall x :: x in s <==> x in elements
  }

  /** A field that was set is kept; an unset one lists the union, in some order. */
  ghost predicate Filled(before: seq<string>, after: seq<string>, union: set<string>) {
    if before != [] then after == before else Lists(after, union)
  }

  /** What enrichment of one collection means, without any cache. */
  ghost predicate EnrichedFrom(store: Store, c: Collection, e: Collection) {
    var l := AllLabels(store, c.benchmarks);
    && e.benchmarks == Enriched(store, c.benchmarks)
    && Filled(c.domains, e.domains, l.domains)
    && Filled(c.tasks, e.tasks, l.tasks)
    && Filled(c.modalities, e.modalities, l.modalities)
    && Filled(c.targets, e.targets, l.targets)
  }

  /******* Memoised lookup *******/

  datatype Cache = Cache(loaded: map<string, Provider>, failed: set<string>, fetched: seq<string>)

  /** The cache agrees with the store, and remembers each fetch, made once. */
  ghost predicate CacheOk(store: Store, c: Cache) {
    && (forall p | p in c.loaded :: p in store && c.loaded[p] == store[p])
    && (forall p | p in c.failed :: p !in store)
    && (forall p :: p in c.fetched <==> p in c.loaded || p in c.failed)
    && NoDuplicates(c.fetched)
  }

  function Fetched(c: Cache): set<string> { set x | x in c.fetched }

  method GetProvider(store: Store, c: Cache, id: string) returns (p: Option<Provider>, c': Cache)
    requires CacheOk(store, c)
    ensures CacheOk(store, c') && p == if id in store then Some(store[id]) else None
    ensures Fetched(c') == Fetched(c) + {id}
  {
    if id in c.failed {
      return None, c;
    }
    if id in c.loaded {
      return Some(c.loaded[id]), c;
    }
    var fetched := c.fetched + [id];
    if id !in store {
      return None, c.(failed := c.failed + {id}, fetched := fetched);
    }
    return Some(store[id]), c.(loaded := c.loaded[id := store[id]], fetched := fetched);
  }

  method FindBenchmark(p: Provider, id: string) returns (r: Option<ProviderBenchmark>)
    ensures r == FirstMatch(p, id)
  {
    for k := 0 to |p|
      invariant FirstMatch(p, id) == FirstMatch(p[k..], id)
    {
      if p[k].id == id {
        return Some(p[k]);
      }
      assert p[k..][1..] == p[k + 1..];
    }
    return None;
  }

  /** The providers that a list of benchmarks refers to. */
  function Needed(bs: seq<Benchmark>): set<string> { set b | b in bs && Considered(b) :: b.provider }

  lemma NeededSnoc(bs: seq<Benchmark>, n: nat)
    requires n < |bs|
    ensures Needed(bs[..n + 1]) == Needed(bs[..n]) + (if Considered(bs[n]) then {bs[n].provider} else {})
  {
    assert bs[..n + 1] == bs[..n] + [bs[n]];
  }

  method EnrichBenchmark(store: Store, c: Cache, b: Benchmark) returns (b': Benchmark, labels: Labels, c': Cache)
    requires CacheOk(store, c)
    ensures CacheOk(store, c') && b' == WithUrl(store, b) && labels == LabelsFrom(store, b)
    ensures Fetched(c') == Fetched(c) + (if Considered(b) then {b.provider} else {})
  {
    b', labels, c' := b, NoLabels, c;
    if b.provider == "" || b.id == "" {
      return;
    }
    b' := b.(url := "");
    var p;
    p, c' := GetProvider(store, c, b.provider);
    if p.None? {
      return;
    }
    var found := FindBenchmark(p.value, b.id);
    if found.Some? {
      if found.value.url != "" {
        b' := b.(url := found.value.url);
      }
      labels := found.value.labels;
    }
  }

  method EnrichBenchmarks(store: Store, c: Cache, bs: seq<Benchmark>) returns (out: seq<Benchmark>, labels: Labels, c': Cache)
    requires CacheOk(store, c)
    ensures CacheOk(store, c') && out == Enriched(store, bs) && labels == AllLabels(store, bs)
    ensures Fetched(c') == Fetched(c) + Needed(bs)
  {
    out, labels, c' := [], NoLabels, c;
    for j := 0 to |bs|
      invariant CacheOk(store, c')
      invariant out == Enriched(store, bs[..j])
      invariant labels == AllLabels(store, bs[..j])
      invariant Fetched(c') == Fetched(c) + Needed(bs[..j])
    {
      NeededSnoc(bs, j);
      EnrichedSnoc(store, bs, j);
      var b', l;
      b', l, c' := EnrichBenchmark(store, c', bs[j]);
      out := out + [b'];
      labels := Union(labels, l);
    }
    assert bs[..|bs|] == bs;
  }

  lemma EnrichedSnoc(store: Store, bs: seq<Benchmark>, n: nat)
    requires n < |bs|
    ensures Enriched(store, bs[..n + 1]) == Enriched(store, bs[..n]) + [WithUrl(store, bs[n])]
    ensures AllLabels(store, bs[..n + 1]) == Union(AllLabels(store, bs[..n]), LabelsFrom(store, bs[n]))
  {
    assert bs[..n + 1][..n] == bs[..n];
  }

  /** Ranging over a map: every element once, in an unspecified order. */
  method ListElements(s: set<string>) returns (r: seq<string>)
    ensures Lists(r, s)
  {
    r := [];
    var rest := s;
    while rest != {}
      invariant rest <= s && NoDuplicates(r)
      invariant forall x :: x in r <==> x in s && x !in rest
      decreases rest
    {
      var x :| x in rest;
      r := r + [x];
      rest := rest - {x};
    }
  }

  method Fill(before: seq<string>, union: set<string>) returns (after: seq<string>)
    ensures Filled(before, after, union)
  {
    if |before| == 0 {
      after := ListElements(union);
    } else {
      after := before;
    }
  }

  method EnrichCollection(store: Store, c: Cache, coll: Collection) returns (e: Collection, c': Cache)
    requires CacheOk(store, c)
    ensures CacheOk(store, c') && EnrichedFrom(store, coll, e)
    ensures Fetched(c') == Fetched(c) + Needed(coll.benchmarks)
  {
    var bs, labels;
    bs, labels, c' := EnrichBenchmarks(store, c, coll.benchmarks);
    var domains := Fill(coll.domains, labels.domains);
    var tasks := Fill(coll.tasks, labels.tasks);
    var modalities := Fill(coll.modalities, labels.modalities);
    var targets := Fill(coll.targets, labels.targets);
    e := Collection(bs, domains, tasks, modalities, targets);
  }

  function NeededByAny(cs: seq<Option<Collection>>): set<string> {
    set i, x | 0 <= i < |cs| && cs[i].Some? && x in Needed(cs[i].value.benchmarks) :: x
  }

  lemma NeededByAnySnoc(cs: seq<Option<Collection>>, n: nat)
    requires n < |cs|
    ensures NeededByAny(cs[..n + 1]) == NeededByAny(cs[..n]) + (if cs[n].Some? then Needed(cs[n].value.benchmarks) else {})
  {
    var before, now := cs[..n], cs[..n + 1];
    forall x | x in NeededByAny(before) ensures x in NeededByAny(now) {
      var i :| 0 <= i < n && before[i].Some? && x in Needed(before[i].value.benchmarks);
      assert now[i] == before[i];
    }
    forall x | x in NeededByAny(now) && !(cs[n].Some? && x in Needed(cs[n].value.benchmarks)) ensures x in NeededByAny(before) {
      var i :| 0 <= i <= n && now[i].Some? && x in Needed(now[i].value.benchmarks);
      assert before[i] == now[i];
    }
    assert now[n] == cs[n];
  }

  /**
    The memoised pass equals direct lookup, and asks the store for each needed provider exactly
    once, whether or not the store knows it.
  */
  method EnrichCollectionFromProviders(store: Store, cs: seq<Option<Collection>>) returns (out: seq<Option<Collection>>, fetched: seq<string>)
    ensures |out| == |cs|
    ensures forall i | 0 <= i < |cs| :: if cs[i].None? then out[i].None? else out[i].Some? && EnrichedFrom(store, cs[i].value, out[i].value)
    ensures Lists(fetched, NeededByAny(cs))
  {
    var cache := Cache(map[], {}, []);
    out := [];
    for i := 0 to |cs|
      invariant CacheOk(store, cache)
      invariant |out| == i
      invariant forall h | 0 <= h < i :: if cs[h].None? then out[h].None? else out[h].Some? && EnrichedFrom(store, cs[h].value, out[h].value)
      invariant Fetched(cache) == NeededByAny(cs[..i])
    {
      NeededByAnySnoc(cs, i);
      if cs[i].None? {
        out := out + [None];
      } else {
        var e;
        e, cache := EnrichCollection(store, cache, cs[i].value);
        out := out + [Some(e)];
      }
    }
    fetched := cache.fetched;
    assert cs[..|cs|] == cs;
    assert forall x :: x in fetched <==> x in Fetched(cache);
  }

  /******* Idempotence *******/

  lemma {:induction false} EnrichedLabels(store: Store, bs: seq<Benchmark>)
    ensures AllLabels(store, Enriched(store, bs)) == AllLabels(store, bs)
    ensures Enriched(store, Enriched(store, bs)) == Enriched(store, bs)
  {
    if bs != [] {
      var n := |bs| - 1;
      EnrichedLabels(store, bs[..n]);
      assert Enriched(store, bs)[..n] == Enriched(store, bs[..n]);
    }
  }

  /** Enriching what was already enriched changes nothing, whatever order the first pass chose. */
  lemma EnrichmentIdempotent(store: Store, c: Collection, e: Collection, e': Collection)
    requires EnrichedFrom(store, c, e) && EnrichedFrom(store, e, e')
    ensures e' == e
  {
    EnrichedLabels(store, c.benchmarks);
    var l := AllLabels(store, c.benchmarks);
    FilledTwice(c.domains, e.domains, e'.domains, l.domains);
    FilledTwice(c.tasks, e.tasks, e'.tasks, l.tasks);
    FilledTwice(c.modalities, e.modalities, e'.modalities, l.modalities);
    FilledTwice(c.targets, e.targets, e'.targets, l.targets);
  }

  lemma HasMember(s: seq<string>)
    ensures s != [] ==> exists x :: x in s
  {
    if s != [] { assert s[0] in s; }
  }

  lemma FilledTwice(a: seq<string>, b: seq<string>, c: seq<string>, union: set<string>)
    requires Filled(a, b, union) && Filled(b, c, union)
    ensures c == b
  {
    HasMember(c);
  }

  /******* The URL-only pass *******/

  /** The benchmark as EnrichBenchmarkURLsFromProviders leaves it. */
  function WithAnyUrl(store: Store, b: Benchmark): Benchmark {
    if !Considered(b) then b
    else if b.provider in store && FirstWithUrl(store[b.provider], b.id).Some? then
      b.(url := FirstWithUrl(store[b.provider], b.id).value.url)
    else b.(url := "")
  }

  /** What the URL pass makes of one collection, without any cache. */
  function WithAnyUrls(store: Store, c: Collection): Collection {
    c.(benchmarks := seq(|c.benchmarks|, j requires 0 <= j < |c.benchmarks| => WithAnyUrl(store, c.benchmarks[j])))
  }

  method EnrichBenchmarkUrl(store: Store, c: Cache, b: Benchmark) returns (b': Benchmark, c': Cache)
    requires CacheOk(store, c)
    ensures CacheOk(store, c') && b' == WithAnyUrl(store, b)
    ensures Fetched(c') == Fetched(c) + (if Considered(b) then {b.provider} else {})
  {
    b', c' := b, c;
    if b.provider == "" || b.id == "" {
      return;
    }
    b' := b.(url := "");
    var p;
    p, c' := GetProvider(store, c, b.provider);
    if p.Some? {
      var url := FindUrl(p.value, b.id);
      b' := b.(url := url);
    }
  }

  method EnrichBenchmarkUrls(store: Store, c: Cache, bs: seq<Benchmark>) returns (out: seq<Benchmark>, c': Cache)
    requires CacheOk(store, c)
    ensures CacheOk(store, c')
    ensures |out| == |bs| && forall j | 0 <= j < |bs| :: out[j] == WithAnyUrl(store, bs[j])
    ensures Fetched(c') == Fetched(c) + Needed(bs)
  {
    out, c' := [], c;
    for j := 0 to |bs|
      invariant CacheOk(store, c')
      invariant |out| == j && forall h | 0 <= h < j :: out[h] == WithAnyUrl(store, bs[h])
      invariant Fetched(c') == Fetched(c) + Needed(bs[..j])
    {
      NeededSnoc(bs, j);
      var b';
      b', c' := EnrichBenchmarkUrl(store, c', bs[j]);
      out := out + [b'];
    }
    assert bs[..|bs|] == bs;
  }

  /** The URL pass over a list of collections, with the same memoisation and the same fetches. */
  method EnrichBenchmarkUrlsFromProviders(store: Store, cs: seq<Option<Collection>>) returns (out: seq<Option<Collection>>, fetched: seq<string>)
    ensures |out| == |cs|
    ensures forall i | 0 <= i < |cs| :: out[i] == if cs[i].None? then None else Some(WithAnyUrls(store, cs[i].value))
    ensures Lists(fetched, NeededByAny(cs))
  {
    var cache := Cache(map[], {}, []);
    out := [];
    for i := 0 to |cs|
      invariant CacheOk(store, cache)
      invariant |out| == i
      invariant forall h | 0 <= h < i :: out[h] == if cs[h].None? then None else Some(WithAnyUrls(store, cs[h].value))
      invariant Fetched(cache) == NeededByAny(cs[..i])
    {
      NeededByAnySnoc(cs, i);
      if cs[i].None? {
        out := out + [None];
      } else {
        var bs;
        bs, cache := EnrichBenchmarkUrls(store, cache, cs[i].value.benchmarks);
        assert bs == WithAnyUrls(store, cs[i].value).benchmarks;
        out := out + [Some(cs[i].value.(benchmarks := bs))];
      }
    }
    fetched := cache.fetched;
    assert cs[..|cs|] == cs;
    assert forall x :: x in fetched <==> x in Fetched(cache);
  }

  method FindUrl(p: Provider, id: string) returns (url: string)
    ensures url == if FirstWithUrl(p, id).Some? then FirstWithUrl(p, id).value.url else ""
  {
    for k := 0 to |p|
      invariant FirstWithUrl(p, id) == FirstWithUrl(p[k..], id)
    {
      if p[k].id == id && p[k].url != "" {
        return p[k].url;
      }
      assert p[k..][1..] == p[k + 1..];
    }
    return "";
  }

  /** The provider's first benchmark with that id has no URL, but a later one has. */
  predicate Shadowed(p: Provider, id: string) {
    FirstMatch(p, id).Some? && FirstMatch(p, id).value.url == "" && FirstWithUrl(p, id).Some?
  }

  lemma {:induction false} MatchesAgree(p: Provider, id: string)
    ensures FirstWithUrl(p, id).Some? ==> FirstWithUrl(p, id).value.url != "" && FirstMatch(p, id).Some?
    ensures FirstMatch(p, id).Some? && FirstMatch(p, id).value.url != "" ==> FirstWithUrl(p, id) == FirstMatch(p, id)
  {
    if p != [] { MatchesAgree(p[1..], id); }
  }

  /** The two passes agree on a benchmark's URL exactly when no URL-less duplicate shadows it. */
  lemma PassesAgreeExactly(store: Store, b: Benchmark)
    ensures WithUrl(store, b) == WithAnyUrl(store, b) <==>
            !(Considered(b) && b.provider in store && Shadowed(store[b.provider], b.id))
  {
    if Considered(b) && b.provider in store { MatchesAgree(store[b.provider], b.id); }
  }

  /** A provider that lists a benchmark twice, first without its URL: the passes give different URLs. */
  lemma ShadowedUrl(store: Store, url: string, labels: Labels)
    requires store == map["p" := [ProviderBenchmark("b", "", labels), ProviderBenchmark("b", url, labels)]] && url != ""
    ensures
      var b := Benchmark("p", "b", "");
      WithUrl(store, b).url == "" && WithAnyUrl(store, b).url == url
  {
    var p := store["p"];
    assert p[1..] == [ProviderBenchmark("b", url, labels)];
    assert FirstWithUrl(p[1..], "b") == Some(p[1]);
    assert FirstWithUrl(p, "b") == Some(p[1]);
  }

  lemma {:induction false} UniqueIdsNeverShadow(p: Provider, id: string)
    requires forall i, j | 0 <= i < j < |p| :: p[i].id != p[j].id
    ensures !Shadowed(p, id)
  {
    if p != [] {
      UniqueIdsNeverShadow(p[1..], id);
      if p[0].id == id && FirstWithUrl(p[1..], id).Some? {
        WithUrlIsInside(p[1..], id);
      }
    }
  }

  lemma {:induction false} WithUrlIsInside(p: Provider, id: string)
    requires FirstWithUrl(p, id).Some?
    ensures exists i :: 0 <= i < |p| && p[i].id == id
  {
    if !(p[0].id == id && p[0].url != "") {
      WithUrlIsInside(p[1..], id);
      var i :| 0 <= i < |p[1..]| && p[1..][i].id == id;
      assert p[i + 1].id == id;
    } else {
      assert p[0].id == id;
    }
  }

  /******* Lookups and unions in plain terms *******/

  lemma {:induction false} FirstMatchAt(p: Provider, id: string, i: nat)
    requires i < |p| && p[i].id == id && forall h | 0 <= h < i :: p[h].id != id
    ensures FirstMatch(p, id) == Some(p[i])
    decreases |p|
  {
    if i > 0 {
      assert forall h | 0 <= h < i :: p[1..][h] == p[h + 1];
      FirstMatchAt(p[1..], id, i - 1);
    }
  }

  /** The position of the first entry with the id that has a URL. */
  ghost predicate FirstUrlAt(p: Provider, id: string, i: int) {
    0 <= i < |p| && p[i].id == id && p[i].url != "" && forall h | 0 <= h < i :: p[h].id != id || p[h].url == ""
  }

  lemma {:induction false} FirstWithUrlAt(p: Provider, id: string, i: nat)
    requires FirstUrlAt(p, id, i)
    ensures FirstWithUrl(p, id) == Some(p[i])
    decreases |p|
  {
    if i > 0 {
      assert FirstUrlAt(p[1..], id, i - 1) by { assert forall h | 0 <= h < i :: p[1..][h] == p[h + 1]; }
      assert !(p[0].id == id && p[0].url != "");
      FirstWithUrlAt(p[1..], id, i - 1);
      assert p[1..][i - 1] == p[i];
    }
  }

  /** What the URL pass does to a benchmark's URL, and that it does nothing else. */
  lemma UrlPass(store: Store, b: Benchmark)
    ensures WithAnyUrl(store, b).provider == b.provider && WithAnyUrl(store, b).id == b.id
    ensures b.provider == "" || b.id == "" ==> WithAnyUrl(store, b) == b
    ensures b.provider != "" && b.id != "" && b.provider !in store ==> WithAnyUrl(store, b).url == ""
    ensures b.provider != "" && b.id != "" && b.provider in store ==>
      var p, url := store[b.provider], WithAnyUrl(store, b).url;
      && (forall i | FirstUrlAt(p, b.id, i) :: url == p[i].url)
      && ((forall i :: !FirstUrlAt(p, b.id, i)) ==> url == "")
  {
    if Considered(b) && b.provider in store {
      var p := store[b.provider];
      forall i | FirstUrlAt(p, b.id, i) ensures WithAnyUrl(store, b).url == p[i].url { FirstWithUrlAt(p, b.id, i); }
      if FirstWithUrl(p, b.id).Some? { FirstWithUrlHas(p, b.id); }
    }
  }

  lemma {:induction false} FirstWithUrlHas(p: Provider, id: string)
    requires FirstWithUrl(p, id).Some?
    ensures exists i :: FirstUrlAt(p, id, i)
    decreases |p|
  {
    if p[0].id == id && p[0].url != "" {
      assert FirstUrlAt(p, id, 0);
    } else {
      FirstWithUrlHas(p[1..], id);
      var i :| FirstUrlAt(p[1..], id, i);
      assert forall h | 0 < h <= i + 1 :: p[h] == p[1..][h - 1];
      assert FirstUrlAt(p, id, i + 1);
    }
  }

  /** Benchmark `b` has the catalog entry `e`: the first of that id at its provider. */
  ghost predicate EntryOf(store: Store, b: Benchmark, e: ProviderBenchmark) {
    && b.provider != "" && b.id != "" && b.provider in store
    && exists i :: 0 <= i < |store[b.provider]| && store[b.provider][i] == e && e.id == b.id &&
                   forall h | 0 <= h < i :: store[b.provider][h].id != b.id
  }

  lemma {:induction false} FirstMatchHas(p: Provider, id: string)
    requires FirstMatch(p, id).Some?
    ensures exists i :: 0 <= i < |p| && p[i] == FirstMatch(p, id).value && p[i].id == id && forall h | 0 <= h < i :: p[h].id != id
    decreases |p|
  {
    if p[0].id == id {
      assert p[0] == FirstMatch(p, id).value;
    } else {
      FirstMatchHas(p[1..], id);
      var i :| 0 <= i < |p[1..]| && p[1..][i] == FirstMatch(p, id).value && p[1..][i].id == id && forall h | 0 <= h < i :: p[1..][h].id != id;
      assert p[i + 1] == p[1..][i];
      assert forall h | 0 < h < i + 1 :: p[h] == p[1..][h - 1];
    }
  }

  lemma EntryIsFirst(store: Store, b: Benchmark, e: ProviderBenchmark)
    ensures Entry(store, b) == Some(e) <==> EntryOf(store, b, e)
  {
    if Considered(b) && b.provider in store {
      var p := store[b.provider];
      if i :| 0 <= i < |p| && p[i] == e && e.id == b.id && forall h | 0 <= h < i :: p[h].id != b.id {
        FirstMatchAt(p, b.id, i);
      }
      if FirstMatch(store[b.provider], b.id).Some? { FirstMatchHas(store[b.provider], b.id); }
    }
  }

  /** What enrichment does to a benchmark's URL, and that it does nothing else. */
  lemma EnrichedUrl(store: Store, b: Benchmark)
    ensures WithUrl(store, b).provider == b.provider && WithUrl(store, b).id == b.id
    ensures b.provider == "" || b.id == "" ==> WithUrl(store, b) == b
    ensures forall e | EntryOf(store, b, e) :: WithUrl(store, b).url == e.url
    ensures b.provider != "" && b.id != "" && (forall e :: !EntryOf(store, b, e)) ==> WithUrl(store, b).url == ""
  {
    forall e ensures Entry(store, b) == Some(e) <==> EntryOf(store, b, e) { EntryIsFirst(store, b, e); }
  }

  /** Some benchmark of the list has the catalog entry `e`. */
  ghost predicate EntryOfSome(store: Store, bs: seq<Benchmark>, e: ProviderBenchmark) {
    exists i :: 0 <= i < |bs| && EntryOf(store, bs[i], e)
  }

  lemma EntryOfSomeSnoc(store: Store, bs: seq<Benchmark>, e: ProviderBenchmark)
    requires bs != []
    ensures EntryOfSome(store, bs, e) <==> EntryOfSome(store, bs[..|bs| - 1], e) || EntryOf(store, bs[|bs| - 1], e)
  {
    var n := |bs| - 1;
    if i :| 0 <= i < n && EntryOf(store, bs[..n][i], e) { assert EntryOf(store, bs[i], e); }
    if i :| 0 <= i < |bs| && EntryOf(store, bs[i], e) && i < n { assert EntryOf(store, bs[..n][i], e); }
  }

  /** Each label of the union is a label, in the same field, of the entry of one of the benchmarks, and conversely. */
  lemma {:induction false} UnionOfLabels(store: Store, bs: seq<Benchmark>, x: string)
    ensures x in AllLabels(store, bs).domains <==> exists e :: EntryOfSome(store, bs, e) && x in e.labels.domains
    ensures x in AllLabels(store, bs).tasks <==> exists e :: EntryOfSome(store, bs, e) && x in e.labels.tasks
    ensures x in AllLabels(store, bs).modalities <==> exists e :: EntryOfSome(store, bs, e) && x in e.labels.modalities
    ensures x in AllLabels(store, bs).targets <==> exists e :: EntryOfSome(store, bs, e) && x in e.labels.targets
  {
    if bs != [] {
      var b := bs[|bs| - 1];
      UnionOfLabels(store, bs[..|bs| - 1], x);
      forall e ensures EntryOfSome(store, bs, e) <==> EntryOfSome(store, bs[..|bs| - 1], e) || Entry(store, b) == Some(e) {
        EntryOfSomeSnoc(store, bs, e);
        EntryIsFirst(store, b, e);
      }
    }
  }

  /** What an enriched collection's domains, tasks, modalities and targets are, field by field. */
  lemma FilledFields(store: Store, c: Collection, e: Collection, x: string)
    requires EnrichedFrom(store, c, e)
    ensures c.domains != [] ==> e.domains == c.domains
    ensures c.tasks != [] ==> e.tasks == c.tasks
    ensures c.modalities != [] ==> e.modalities == c.modalities
    ensures c.targets != [] ==> e.targets == c.targets
    ensures c.domains == [] ==> (x in e.domains <==> exists p :: EntryOfSome(store, c.benchmarks, p) && x in p.labels.domains)
    ensures c.tasks == [] ==> (x in e.tasks <==> exists p :: EntryOfSome(store, c.benchmarks, p) && x in p.labels.tasks)
    ensures c.modalities == [] ==> (x in e.modalities <==> exists p :: EntryOfSome(store, c.benchmarks, p) && x in p.labels.modalities)
    ensures c.targets == [] ==> (x in e.targets <==> exists p :: EntryOfSome(store, c.benchmarks, p) && x in p.labels.targets)
  {
    UnionOfLabels(store, c.benchmarks, x);
  }
}
