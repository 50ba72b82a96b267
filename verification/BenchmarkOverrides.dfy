/**
  Effective benchmarks of a job that references a collection: the collection's benchmarks with
  the job's overrides merged in. Overrides of a pair (provider, benchmark id) apply positionally
  when the pair is repeated and the counts match, and are broadcast otherwise; overrides with an
  empty id are provider-level hardware defaults.
*/
module BenchmarkOverrides {
  import opened Wrappers
  import opened Text

  /** A parameter value: nil, a string, or anything else. */
  datatype Value = Nil | Text(s: string) | Other(payload: int)

  type Params = map<string, Value>

  datatype TestData = TestData(source: string, resolvedSha: string)

  datatype Hardware = Hardware(profile: string)

  datatype Criteria = Criteria(weight: real, primaryScore: Option<string>, threshold: Option<real>)

  datatype CollectionBenchmark = CollectionBenchmark(
    provider: string, id: string, criteria: Criteria, testData: Option<TestData>, parameters: Params)

  datatype Benchmark = Benchmark(
    provider: string, id: string, criteria: Criteria, hardware: Option<Hardware>, testData: Option<TestData>, parameters: Params)

  datatype Key = Key(provider: string, id: string)

  function CKey(b: CollectionBenchmark): Key { Key(b.provider, b.id) }

  function OKey(o: Benchmark): Key { Key(o.provider, o.id) }

  predicate IsEmpty(v: Value) { v.Nil? || v == Text("") }

  /******* Parameters: later mentions win, empty values delete *******/

  function Apply(base: Params, source: Params): Params {
    map k | k in base.Keys + source.Keys && (k in source ==> !IsEmpty(source[k])) ::
      if k in source then source[k] else base[k]
  }

  /** The map iteration order is arbitrary; the outcome is not. */
  method ApplyParameters(base: Params, source: Params) returns (parameters: Params)
    ensures parameters == Apply(base, source)
  {
    parameters := base;
    var pending := source.Keys;
    while pending != {}
      invariant pending <= source.Keys
      invariant parameters == Apply(base, source - pending)
      decreases pending
    {
      ghost var done := source - pending;
      var key :| key in pending;
      if IsEmpty(source[key]) {
        parameters := parameters - {key};
      } else {
        parameters := parameters[key := source[key]];
      }
      pending := pending - {key};
      assert source - pending == done[key := source[key]];
    }
    assert source - pending == source;
  }

  function ApplyAll(base: Params, sources: seq<Params>): Params {
    if sources == [] then base
    else Apply(ApplyAll(base, sources[..|sources| - 1]), sources[|sources| - 1])
  }

  lemma ApplyAllSnoc(sources: seq<Params>, p: Params)
    ensures ApplyAll(map[], sources + [p]) == Apply(ApplyAll(map[], sources), p)
  {
    assert (sources + [p])[..|sources|] == sources;
  }

  /** The value given to `k` by the last map that mentions it. */
  function LastMention(sources: seq<Params>, k: string): Option<Value> {
    if sources == [] then None
    else
      var last := sources[|sources| - 1];
      if k in last then Some(last[k]) else LastMention(sources[..|sources| - 1], k)
  }

  lemma {:induction false} AppliedIsLastMention(sources: seq<Params>, k: string)
    ensures
      var m := LastMention(sources, k);
      && (k in ApplyAll(map[], sources) <==> m.Some? && !IsEmpty(m.value))
      && (k in ApplyAll(map[], sources) ==> m == Some(ApplyAll(map[], sources)[k]))
  {
    if sources != [] {
      AppliedIsLastMention(sources[..|sources| - 1], k);
    }
  }

  /******* Which overrides concern which benchmark *******/

  function Own(os: seq<Benchmark>, key: Key): seq<Benchmark> {
    if os == [] then []
    else
      var o := os[|os| - 1];
      Own(os[..|os| - 1], key) + (if o.id != "" && OKey(o) == key then [o] else [])
  }

  function ProviderLevel(os: seq<Benchmark>): seq<Benchmark> {
    if os == [] then []
    else
      var o := os[|os| - 1];
      ProviderLevel(os[..|os| - 1]) + (if o.id == "" then [o] else [])
  }

  /** The provider-level overrides of one provider, in order. */
  function ProviderView(os: seq<Benchmark>, provider: string): seq<Benchmark> {
    if os == [] then []
    else
      var o := os[|os| - 1];
      ProviderView(os[..|os| - 1], provider) + (if o.id == "" && o.provider == provider then [o] else [])
  }

  function Occurrences(c: seq<CollectionBenchmark>, key: Key): nat {
    if c == [] then 0
    else Occurrences(c[..|c| - 1], key) + (if CKey(c[|c| - 1]) == key then 1 else 0)
  }

  lemma {:induction false} OccurrencesMonotone(c: seq<CollectionBenchmark>, i: nat, key: Key)
    requires i <= |c|
    ensures Occurrences(c[..i], key) <= Occurrences(c, key)
    ensures i < |c| && CKey(c[i]) == key ==> Occurrences(c[..i], key) < Occurrences(c, key)
  {
    if i < |c| {
      OccurrencesMonotone(c[..|c| - 1], i, key);
      assert c[..|c| - 1][..i] == c[..i];
    } else {
      assert c[..i] == c;
    }
  }

  /******* Merging one benchmark *******/

  function FirstExact(os: seq<Benchmark>, key: Key): Option<Benchmark> {
    if os == [] then None
    else if OKey(os[0]) == key then Some(os[0])
    else FirstExact(os[1..], key)
  }

  function FirstProviderHardware(os: seq<Benchmark>, provider: string): Option<Hardware> {
    if os == [] then None
    else if os[0].provider == provider && os[0].id == "" && os[0].hardware.Some? then os[0].hardware
    else FirstProviderHardware(os[1..], provider)
  }

  function OrElse<T>(a: Option<T>, b: Option<T>): Option<T> { if a.Some? then a else b }

  function ParamsOf(os: seq<Benchmark>): seq<Params> {
    seq(|os|, i requires 0 <= i < |os| => os[i].parameters)
  }

  function Merge(b: CollectionBenchmark, os: seq<Benchmark>): Benchmark {
    Benchmark(
      b.provider, b.id, b.criteria,
      OrElse(ExactHardware(b, os), FirstProviderHardware(os, b.provider)),
      ExactTestData(b, os),
      ApplyAll(map[], [b.parameters] + ParamsOf(Own(os, CKey(b)))))
  }

  /** The first loop: the collection's parameters, then every exact override's. */
  lemma OwnParamsSnoc(os: seq<Benchmark>, key: Key, i: nat)
    requires i < |os|
    ensures
      if os[i].id != "" && OKey(os[i]) == key then
        ParamsOf(Own(os[..i + 1], key)) == ParamsOf(Own(os[..i], key)) + [os[i].parameters]
      else Own(os[..i + 1], key) == Own(os[..i], key)
  {
    assert os[..i + 1][..i] == os[..i];
    var own := Own(os[..i], key);
    assert (own + [os[i]])[..|own|] == own;
  }

  method MergeParameters(b: CollectionBenchmark, os: seq<Benchmark>) returns (parameters: Params)
    ensures parameters == ApplyAll(map[], [b.parameters] + ParamsOf(Own(os, CKey(b))))
  {
    parameters := ApplyParameters(map[], b.parameters);
    ghost var sources := [b.parameters];
    assert sources[..0] == [];
    var i := 0;
    while i < |os|
      invariant 0 <= i <= |os|
      invariant sources == [b.parameters] + ParamsOf(Own(os[..i], CKey(b)))
      invariant parameters == ApplyAll(map[], sources)
    {
      OwnParamsSnoc(os, CKey(b), i);
      if os[i].provider == b.provider && os[i].id == b.id && os[i].id != "" {
        parameters := ApplyParameters(parameters, os[i].parameters);
        ApplyAllSnoc(sources, os[i].parameters);
        AppendAssoc([b.parameters], ParamsOf(Own(os[..i], CKey(b))), [os[i].parameters]);
        sources := sources + [os[i].parameters];
      }
      i := i + 1;
    }
    assert os[..i] == os;
  }

  function ExactTestData(b: CollectionBenchmark, os: seq<Benchmark>): Option<TestData> {
    var exact := FirstExact(os, CKey(b));
    OrElse(if exact.Some? then exact.value.testData else None, b.testData)
  }

  function ExactHardware(b: CollectionBenchmark, os: seq<Benchmark>): Option<Hardware> {
    var exact := FirstExact(os, CKey(b));
    if exact.Some? then exact.value.hardware else None
  }

  /** The second loop stops at the first exact match, whatever that match provides. */
  method PickExact(b: CollectionBenchmark, os: seq<Benchmark>) returns (testData: Option<TestData>, hardware: Option<Hardware>)
    ensures testData == ExactTestData(b, os) && hardware == ExactHardware(b, os)
  {
    testData, hardware := b.testData, None;
    var i := 0;
    while i < |os|
      invariant 0 <= i <= |os|
      invariant FirstExact(os, CKey(b)) == FirstExact(os[i..], CKey(b))
      invariant testData == b.testData && hardware == None
    {
      if os[i].id == b.id && os[i].provider == b.provider {
        if os[i].testData.Some? { testData := os[i].testData; }
        if os[i].hardware.Some? { hardware := os[i].hardware; }
        return;
      }
      assert os[i..][1..] == os[i + 1..];
      i := i + 1;
    }
  }

  method PickProviderHardware(b: CollectionBenchmark, os: seq<Benchmark>) returns (hardware: Option<Hardware>)
    ensures hardware == FirstProviderHardware(os, b.provider)
  {
    var j := 0;
    while j < |os|
      invariant 0 <= j <= |os|
      invariant FirstProviderHardware(os, b.provider) == FirstProviderHardware(os[j..], b.provider)
    {
      if os[j].provider == b.provider && os[j].id == "" && os[j].hardware.Some? {
        return os[j].hardware;
      }
      assert os[j..][1..] == os[j + 1..];
      j := j + 1;
    }
    hardware := None;
  }

  method MergeBenchmarkParameters(b: CollectionBenchmark, os: seq<Benchmark>) returns (r: Benchmark)
    ensures r == Merge(b, os)
  {
    var parameters := MergeParameters(b, os);
    var testData, hardware := PickExact(b, os);
    if hardware == None {
      hardware := PickProviderHardware(b, os);
    }
    r := Benchmark(b.provider, b.id, b.criteria, hardware, testData, parameters);
  }

  /******* Resolving a whole collection *******/

  predicate Positional(c: seq<CollectionBenchmark>, os: seq<Benchmark>, key: Key) {
    Occurrences(c, key) > 1 && |Own(os, key)| == Occurrences(c, key)
  }

  /** The override list that benchmark `i` is merged with. */
  function Applicable(c: seq<CollectionBenchmark>, os: seq<Benchmark>, i: nat): seq<Benchmark>
    requires i < |c|
  {
    var key := CKey(c[i]);
    if Positional(c, os, key) then
      OccurrencesMonotone(c, i, key);
      [Own(os, key)[Occurrences(c[..i], key)]] + ProviderLevel(os)
    else
      os
  }

  function Resolve(c: seq<CollectionBenchmark>, os: seq<Benchmark>): seq<Benchmark> {
    seq(|c|, i requires 0 <= i < |c| => Merge(c[i], Applicable(c, os, i)))
  }

  datatype Job = Job(collectionId: string, overrides: seq<Benchmark>, benchmarks: seq<Benchmark>)

  datatype Resolution =
    | Resolved(benchmarks: seq<Benchmark>)
    | CollectionMissing
    | CollectionEmpty
    | JobEmpty

  datatype Group = Group(count: nat, next: nat, overrides: seq<Benchmark>)

  method CountGroups(c: seq<CollectionBenchmark>) returns (groups: map<Key, Group>)
    ensures forall key :: key in groups <==> Occurrences(c, key) > 0
    ensures forall key | key in groups :: groups[key] == Group(Occurrences(c, key), 0, [])
  {
    groups := map[];
    for i := 0 to |c|
      invariant forall key :: key in groups <==> Occurrences(c[..i], key) > 0
      invariant forall key | key in groups :: groups[key] == Group(Occurrences(c[..i], key), 0, [])
    {
      assert c[..i + 1][..i] == c[..i];
      var key := CKey(c[i]);
      if key !in groups {
        groups := groups[key := Group(0, 0, [])];
      }
      groups := groups[key := groups[key].(count := groups[key].count + 1)];
    }
    assert c[..|c|] == c;
  }

  method CollectOverrides(groups0: map<Key, Group>, os: seq<Benchmark>) returns (groups: map<Key, Group>, providerOverrides: seq<Benchmark>)
    requires forall key | key in groups0 :: groups0[key].overrides == []
    ensures groups.Keys == groups0.Keys
    ensures forall key | key in groups :: groups[key] == groups0[key].(overrides := Own(os, key))
    ensures providerOverrides == ProviderLevel(os)
  {
    groups, providerOverrides := groups0, [];
    for i := 0 to |os|
      invariant groups.Keys == groups0.Keys
      invariant forall key | key in groups :: groups[key] == groups0[key].(overrides := Own(os[..i], key))
      invariant providerOverrides == ProviderLevel(os[..i])
    {
      assert os[..i + 1][..i] == os[..i];
      var o := os[i];
      if o.id == "" {
        providerOverrides := providerOverrides + [o];
      } else if OKey(o) in groups {
        groups := groups[OKey(o) := groups[OKey(o)].(overrides := groups[OKey(o)].overrides + [o])];
      }
    }
    assert os[..|os|] == os;
  }

  /** How far a pair's cursor has moved once the first `i` benchmarks are merged. */
  function Cursor(c: seq<CollectionBenchmark>, os: seq<Benchmark>, i: nat, key: Key): nat
    requires i <= |c|
  {
    if Positional(c, os, key) then Occurrences(c[..i], key) else 0
  }

  ghost predicate GroupsAt(groups: map<Key, Group>, c: seq<CollectionBenchmark>, os: seq<Benchmark>, i: nat)
    requires i <= |c|
  {
    && (forall b | b in c :: CKey(b) in groups)
    && (forall key | key in groups :: groups[key] == Group(Occurrences(c, key), Cursor(c, os, i, key), Own(os, key)))
  }

  lemma CursorStep(c: seq<CollectionBenchmark>, os: seq<Benchmark>, i: nat, key: Key)
    requires i < |c|
    ensures Cursor(c, os, i + 1, key) ==
            Cursor(c, os, i, key) + if key == CKey(c[i]) && Positional(c, os, key) then 1 else 0
    ensures Positional(c, os, CKey(c[i])) ==> Cursor(c, os, i, CKey(c[i])) < |Own(os, CKey(c[i]))|
  {
    assert c[..i + 1][..i] == c[..i];
    OccurrencesMonotone(c, i, CKey(c[i]));
  }

  lemma {:induction false} OccursInside(c: seq<CollectionBenchmark>, i: nat)
    requires i < |c|
    ensures Occurrences(c, CKey(c[i])) > 0
  {
    OccurrencesMonotone(c, i, CKey(c[i]));
  }

  /** One turn of the merging loop: pick the overrides, advance the pair's cursor, merge. */
  method MergeNext(groups0: map<Key, Group>, providerOverrides: seq<Benchmark>, c: seq<CollectionBenchmark>, os: seq<Benchmark>, i: nat)
    returns (m: Benchmark, groups: map<Key, Group>)
    requires i < |c| && GroupsAt(groups0, c, os, i) && providerOverrides == ProviderLevel(os)
    ensures m == Resolve(c, os)[i]
    ensures GroupsAt(groups, c, os, i + 1)
  {
    var key := CKey(c[i]);
    forall k { CursorStep(c, os, i, k); }
    var group := groups0[key];
    var overrides := os;
    groups := groups0;
    if group.count > 1 && |group.overrides| == group.count {
      overrides := [group.overrides[group.next]] + providerOverrides;
      groups := groups[key := group.(next := group.next + 1)];
    }
    assert overrides == Applicable(c, os, i);
    m := MergeBenchmarkParameters(c[i], overrides);
  }

  lemma GroupsAtStart(groups: map<Key, Group>, c: seq<CollectionBenchmark>, os: seq<Benchmark>)
    requires forall key :: key in groups <==> Occurrences(c, key) > 0
    requires forall key | key in groups :: groups[key] == Group(Occurrences(c, key), 0, Own(os, key))
    ensures GroupsAt(groups, c, os, 0)
  {
    forall b | b in c ensures CKey(b) in groups {
      var i :| 0 <= i < |c| && c[i] == b;
      OccursInside(c, i);
    }
    assert c[..0] == [];
  }

  method BuildGroups(c: seq<CollectionBenchmark>, os: seq<Benchmark>) returns (groups: map<Key, Group>, providerOverrides: seq<Benchmark>)
    ensures GroupsAt(groups, c, os, 0) && providerOverrides == ProviderLevel(os)
  {
    var counted := CountGroups(c);
    groups, providerOverrides := CollectOverrides(counted, os);
    GroupsAtStart(groups, c, os);
  }

  lemma PrefixSnoc(s: seq<Benchmark>, i: nat)
    requires i < |s|
    ensures s[..i + 1] == s[..i] + [s[i]]
  {
  }

  method ResolveCollection(c: seq<CollectionBenchmark>, os: seq<Benchmark>) returns (merged: seq<Benchmark>)
    ensures merged == Resolve(c, os)
  {
    var groups, providerOverrides := BuildGroups(c, os);
    merged := [];
    for i := 0 to |c|
      invariant merged == Resolve(c, os)[..i]
      invariant GroupsAt(groups, c, os, i)
    {
      var m;
      m, groups := MergeNext(groups, providerOverrides, c, os, i);
      PrefixSnoc(Resolve(c, os), i);
      merged := merged + [m];
    }
    assert Resolve(c, os)[..|c|] == Resolve(c, os);
  }

  /** Every per-group index stays in range on every input, including counts that do not match. */
  method GetJobBenchmarks(job: Job, collection: Option<seq<CollectionBenchmark>>) returns (r: Resolution)
    ensures job.collectionId != "" && collection.None? ==> r == CollectionMissing
    ensures job.collectionId != "" && collection == Some([]) ==> r == CollectionEmpty
    ensures job.collectionId != "" && collection.Some? && collection.value != [] ==>
              r == Resolved(Resolve(collection.value, job.overrides))
    ensures job.collectionId == "" ==> r == if job.benchmarks == [] then JobEmpty else Resolved(job.benchmarks)
  {
    if job.collectionId != "" {
      if collection.None? {
        return CollectionMissing;
      }
      if |collection.value| == 0 {
        return CollectionEmpty;
      }
      var merged := ResolveCollection(collection.value, job.overrides);
      return Resolved(merged);
    }
    if |job.benchmarks| == 0 {
      return JobEmpty;
    }
    return Resolved(job.benchmarks);
  }

  /******* What a benchmark's result depends on *******/

  /** Merging from the pair's own overrides and the provider's provider-level overrides alone. */
  function MergeView(b: CollectionBenchmark, own: seq<Benchmark>, provider: seq<Benchmark>): Benchmark {
    var exact := if b.id != "" then own else provider;
    Benchmark(
      b.provider, b.id, b.criteria,
      OrElse(if exact != [] then exact[0].hardware else None, FirstHardware(provider)),
      OrElse(if exact != [] then exact[0].testData else None, b.testData),
      ApplyAll(map[], [b.parameters] + ParamsOf(own)))
  }

  function FirstHardware(os: seq<Benchmark>): Option<Hardware> {
    if os == [] then None else OrElse(os[0].hardware, FirstHardware(os[1..]))
  }

  lemma {:induction false} OwnSplit(a: seq<Benchmark>, b: seq<Benchmark>, key: Key)
    ensures Own(a + b, key) == Own(a, key) + Own(b, key)
    ensures ProviderView(a + b, key.provider) == ProviderView(a, key.provider) + ProviderView(b, key.provider)
    decreases |b|
  {
    if b == [] {
      assert a + b == a;
    } else {
      var n := |b| - 1;
      assert (a + b)[..|a + b| - 1] == a + b[..n];
      OwnSplit(a, b[..n], key);
    }
  }

  lemma OwnSingle(o: Benchmark, key: Key)
    ensures Own([o], key) == if o.id != "" && OKey(o) == key then [o] else []
    ensures ProviderView([o], key.provider) == if o.id == "" && o.provider == key.provider then [o] else []
  {
    assert [o][..0] == [];
  }

  lemma {:induction false} FirstExactView(os: seq<Benchmark>, key: Key)
    ensures
      var view := if key.id != "" then Own(os, key) else ProviderView(os, key.provider);
      FirstExact(os, key) == if view == [] then None else Some(view[0])
    decreases |os|
  {
    if os != [] {
      FirstExactView(os[1..], key);
      ViewsCons(os, key);
    }
  }

  /** The views of a list, from those of its first element and its rest. */
  lemma ViewsCons(os: seq<Benchmark>, key: Key)
    requires os != []
    ensures Own(os, key) == (if os[0].id != "" && OKey(os[0]) == key then [os[0]] else []) + Own(os[1..], key)
    ensures ProviderView(os, key.provider) ==
            (if os[0].id == "" && os[0].provider == key.provider then [os[0]] else []) + ProviderView(os[1..], key.provider)
  {
    assert os == [os[0]] + os[1..];
    OwnSplit([os[0]], os[1..], key);
    OwnSingle(os[0], key);
  }

  lemma {:induction false} FirstHardwareView(os: seq<Benchmark>, key: Key)
    ensures FirstProviderHardware(os, key.provider) == FirstHardware(ProviderView(os, key.provider))
    decreases |os|
  {
    if os != [] {
      FirstHardwareView(os[1..], key);
      ViewsCons(os, key);
      var rest := ProviderView(os[1..], key.provider);
      assert ([os[0]] + rest)[1..] == rest && [] + rest == rest;
    }
  }

  lemma MergeDependsOnView(b: CollectionBenchmark, os: seq<Benchmark>)
    ensures Merge(b, os) == MergeView(b, Own(os, CKey(b)), ProviderView(os, b.provider))
  {
    FirstExactView(os, CKey(b));
    FirstHardwareView(os, CKey(b));
  }

  lemma {:induction false} ProviderLevelViews(os: seq<Benchmark>, key: Key)
    ensures Own(ProviderLevel(os), key) == []
    ensures ProviderView(ProviderLevel(os), key.provider) == ProviderView(os, key.provider)
    decreases |os|
  {
    if os != [] {
      var n := |os| - 1;
      ProviderLevelViews(os[..n], key);
      if os[n].id == "" {
        OwnSplit(ProviderLevel(os[..n]), [os[n]], key);
        OwnSingle(os[n], key);
      } else {
        assert ProviderLevel(os) == ProviderLevel(os[..n]);
      }
    }
  }

  /** The own overrides that benchmark `i` ends up with: its positional one, or all of them. */
  function OwnFor(c: seq<CollectionBenchmark>, os: seq<Benchmark>, i: nat): seq<Benchmark>
    requires i < |c|
  {
    var key := CKey(c[i]);
    if Positional(c, os, key) then
      OccurrencesMonotone(c, i, key);
      [Own(os, key)[Occurrences(c[..i], key)]]
    else
      Own(os, key)
  }

  lemma {:induction false} OwnMembers(os: seq<Benchmark>, key: Key, k: nat)
    requires k < |Own(os, key)|
    ensures OKey(Own(os, key)[k]) == key && key.id != ""
    decreases |os|
  {
    if k < |Own(os[..|os| - 1], key)| {
      OwnMembers(os[..|os| - 1], key, k);
    }
  }

  lemma PositionalViews(os: seq<Benchmark>, key: Key, k: nat)
    requires k < |Own(os, key)|
    ensures Own([Own(os, key)[k]] + ProviderLevel(os), key) == [Own(os, key)[k]]
    ensures ProviderView([Own(os, key)[k]] + ProviderLevel(os), key.provider) == ProviderView(os, key.provider)
  {
    var o := Own(os, key)[k];
    OwnMembers(os, key, k);
    OwnSplit([o], ProviderLevel(os), key);
    OwnSingle(o, key);
    ProviderLevelViews(os, key);
  }

  /**
    Element by element: length and order of the collection are kept, and benchmark `i` is a
    function of its own overrides and its provider's provider-level ones.
  */
  lemma ResolveAt(c: seq<CollectionBenchmark>, os: seq<Benchmark>, i: nat)
    requires i < |c|
    ensures |Resolve(c, os)| == |c|
    ensures Resolve(c, os)[i] == MergeView(c[i], OwnFor(c, os, i), ProviderView(os, c[i].provider))
  {
    var key := CKey(c[i]);
    MergeDependsOnView(c[i], Applicable(c, os, i));
    if Positional(c, os, key) {
      OccurrencesMonotone(c, i, key);
      PositionalViews(os, key, Occurrences(c[..i], key));
    }
  }

  /** Reordering the overrides without reordering any pair's or any provider's own ones is invisible. */
  lemma ReorderingInvisible(c: seq<CollectionBenchmark>, os: seq<Benchmark>, ps: seq<Benchmark>)
    requires forall key :: Own(os, key) == Own(ps, key)
    requires forall provider :: ProviderView(os, provider) == ProviderView(ps, provider)
    ensures Resolve(c, os) == Resolve(c, ps)
  {
    forall i | 0 <= i < |c| ensures Resolve(c, os)[i] == Resolve(c, ps)[i] {
      ResolveAt(c, os, i);
      ResolveAt(c, ps, i);
    }
  }

  /** What a benchmark with exactly one override of its own resolves to, field by field. */
  lemma SingleOverrideEffect(c: seq<CollectionBenchmark>, os: seq<Benchmark>, i: nat, o: Benchmark, k: string)
    requires i < |c| && OwnFor(c, os, i) == [o]
    ensures
      var r := Resolve(c, os)[i];
      var m := LastMention([c[i].parameters, o.parameters], k);
      && (r.provider, r.id, r.criteria) == (c[i].provider, c[i].id, c[i].criteria)
      && r.testData == OrElse(o.testData, c[i].testData)
      && r.hardware == OrElse(o.hardware, FirstHardware(ProviderView(os, c[i].provider)))
      && (k in r.parameters <==> m.Some? && !IsEmpty(m.value))
      && (k in r.parameters ==> m == Some(r.parameters[k]))
  {
    ResolveAt(c, os, i);
    OwnForMembers(c, os, i);
    assert [c[i].parameters] + ParamsOf([o]) == [c[i].parameters, o.parameters];
    AppliedIsLastMention([c[i].parameters, o.parameters], k);
  }

  lemma OwnForMembers(c: seq<CollectionBenchmark>, os: seq<Benchmark>, i: nat)
    requires i < |c|
    ensures OwnFor(c, os, i) != [] ==> c[i].id != ""
    ensures forall o | o in OwnFor(c, os, i) :: OKey(o) == CKey(c[i])
  {
    var key := CKey(c[i]);
    forall k: nat | k < |Own(os, key)| ensures OKey(Own(os, key)[k]) == key && key.id != "" {
      OwnMembers(os, key, k);
    }
    OccurrencesMonotone(c, i, key);
    if Own(os, key) != [] {
      OwnMembers(os, key, 0);
    }
  }

  /******* Validation of new requests *******/

  datatype Verdict =
    | Accepted
    | UnknownProvider(provider: string)
    | UnknownBenchmark(id: string)
    | WrongCount(provider: string, id: string)

  predicate Known(o: Benchmark, c: seq<CollectionBenchmark>) {
    && (exists b :: b in c && b.provider == o.provider)
    && (o.id != "" ==> Occurrences(c, OKey(o)) > 0)
  }

  predicate CountOk(os: seq<Benchmark>, c: seq<CollectionBenchmark>, key: Key) {
    Occurrences(c, key) > 1 ==> |Own(os, key)| in {0, 1, Occurrences(c, key)}
  }

  predicate Accepts(os: seq<Benchmark>, c: seq<CollectionBenchmark>) {
    (forall o | o in os :: Known(o, c)) && (forall b | b in c :: CountOk(os, c, CKey(b)))
  }

  /** The first unknown override, if any, decides the error. */
  ghost predicate FirstUnknown(os: seq<Benchmark>, c: seq<CollectionBenchmark>, j: nat, v: Verdict) {
    && j < |os| && (forall h | 0 <= h < j :: Known(os[h], c)) && !Known(os[j], c)
    && v == if exists b :: b in c && b.provider == os[j].provider then UnknownBenchmark(os[j].id) else UnknownProvider(os[j].provider)
  }

  method ValidateCollectionOverrides(os: seq<Benchmark>, c: seq<CollectionBenchmark>) returns (v: Verdict)
    ensures v.Accepted? <==> Accepts(os, c)
    ensures v.UnknownProvider? || v.UnknownBenchmark? ==> exists j :: FirstUnknown(os, c, j, v)
    ensures v.WrongCount? ==> (forall o | o in os :: Known(o, c)) && !CountOk(os, c, Key(v.provider, v.id))
  {
    if |os| == 0 {
      NoOverridesAccepted(os, c);
      return Accepted;
    }
    var providers, pairs := CountPairs(c);
    var counts;
    v, counts := CountOverrides(os, c, providers, pairs);
    if v.Accepted? {
      v := CheckCounts(os, c, pairs, counts);
    }
  }

  function Get(counts: map<Key, nat>, key: Key): nat { if key in counts then counts[key] else 0 }

  method CountOverrides(os: seq<Benchmark>, c: seq<CollectionBenchmark>, providers: set<string>, pairs: map<Key, nat>)
    returns (v: Verdict, counts: map<Key, nat>)
    requires forall p :: p in providers <==> exists b :: b in c && b.provider == p
    requires forall key :: Get(pairs, key) == Occurrences(c, key)
    ensures v.Accepted? ==> (forall o | o in os :: Known(o, c)) && OwnCounts(counts, os)
    ensures !v.Accepted? ==> exists j :: FirstUnknown(os, c, j, v)
  {
    counts := map[];
    for i := 0 to |os|
      invariant forall h | 0 <= h < i :: Known(os[h], c)
      invariant OwnCounts(counts, os[..i])
    {
      v := CheckOverride(os[i], c, providers, pairs);
      if !v.Accepted? {
        assert FirstUnknown(os, c, i, v);
        return;
      }
      OwnCountsSnoc(counts, os, i);
      if os[i].id != "" {
        counts := counts[OKey(os[i]) := Get(counts, OKey(os[i])) + 1];
      }
    }
    assert os[..|os|] == os;
    v := Accepted;
  }

  method CheckOverride(o: Benchmark, c: seq<CollectionBenchmark>, providers: set<string>, pairs: map<Key, nat>) returns (v: Verdict)
    requires forall p :: p in providers <==> exists b :: b in c && b.provider == p
    requires forall key :: Get(pairs, key) == Occurrences(c, key)
    ensures v.Accepted? <==> Known(o, c)
    ensures !v.Accepted? ==>
      v == if exists b :: b in c && b.provider == o.provider then UnknownBenchmark(o.id) else UnknownProvider(o.provider)
  {
    if o.provider !in providers {
      return UnknownProvider(o.provider);
    }
    if o.id != "" && Get(pairs, OKey(o)) == 0 {
      return UnknownBenchmark(o.id);
    }
    return Accepted;
  }

  /** The number of each pair's own overrides. */
  ghost predicate OwnCounts(counts: map<Key, nat>, os: seq<Benchmark>) {
    forall key :: Get(counts, key) == |Own(os, key)|
  }

  lemma OwnCountsSnoc(counts: map<Key, nat>, os: seq<Benchmark>, i: nat)
    requires i < |os| && OwnCounts(counts, os[..i])
    ensures OwnCounts(if os[i].id != "" then counts[OKey(os[i]) := Get(counts, OKey(os[i])) + 1] else counts, os[..i + 1])
  {
    assert os[..i + 1][..i] == os[..i];
    var counts' := if os[i].id != "" then counts[OKey(os[i]) := Get(counts, OKey(os[i])) + 1] else counts;
    forall key ensures Get(counts', key) == |Own(os[..i + 1], key)| {
      assert Get(counts, key) == |Own(os[..i], key)|;
    }
  }

  method CheckCounts(os: seq<Benchmark>, c: seq<CollectionBenchmark>, pairs: map<Key, nat>, counts: map<Key, nat>)
    returns (v: Verdict)
    requires forall key :: Get(pairs, key) == Occurrences(c, key)
    requires OwnCounts(counts, os)
    ensures v.Accepted? || v.WrongCount?
    ensures v.Accepted? <==> forall b | b in c :: CountOk(os, c, CKey(b))
    ensures v.WrongCount? ==> !CountOk(os, c, Key(v.provider, v.id))
  {
    for i := 0 to |c|
      invariant forall h | 0 <= h < i :: CountOk(os, c, CKey(c[h]))
    {
      var key := CKey(c[i]);
      var count, overrides := Get(pairs, key), Get(counts, key);
      if count > 1 && overrides > 1 && overrides != count {
        return WrongCount(key.provider, key.id);
      }
    }
    v := Accepted;
  }

  method CountPairs(c: seq<CollectionBenchmark>) returns (providers: set<string>, pairs: map<Key, nat>)
    ensures forall p :: p in providers <==> exists b :: b in c && b.provider == p
    ensures forall key :: Get(pairs, key) == Occurrences(c, key)
  {
    providers, pairs := {}, map[];
    for i := 0 to |c|
      invariant forall p :: p in providers <==> exists b :: b in c[..i] && b.provider == p
      invariant forall key :: Get(pairs, key) == Occurrences(c[..i], key)
    {
      assert c[..i + 1] == c[..i] + [c[i]];
      var key := CKey(c[i]);
      providers := providers + {c[i].provider};
      pairs := pairs[key := Get(pairs, key) + 1];
    }
    assert c[..|c|] == c;
  }

  lemma NoOverridesAccepted(os: seq<Benchmark>, c: seq<CollectionBenchmark>)
    requires os == []
    ensures Accepts(os, c)
  {
  }

  /**
    With accepted overrides, the k-th occurrence of a repeated pair gets exactly the k-th of the
    pair's overrides, or the single one they all share, or none.
  */
  lemma AcceptedOverridesAreExact(c: seq<CollectionBenchmark>, os: seq<Benchmark>, i: nat)
    requires Accepts(os, c) && i < |c| && Occurrences(c, CKey(c[i])) > 1
    ensures
      var own := Own(os, CKey(c[i]));
      var k := Occurrences(c[..i], CKey(c[i]));
      && |own| in {0, 1, Occurrences(c, CKey(c[i]))}
      && (|own| == 0 ==> OwnFor(c, os, i) == [])
      && (|own| == 1 ==> OwnFor(c, os, i) == [own[0]])
      && (|own| == Occurrences(c, CKey(c[i])) ==> k < |own| && OwnFor(c, os, i) == [own[k]])
  {
    assert CountOk(os, c, CKey(c[i]));
    OccurrencesMonotone(c, i, CKey(c[i]));
  }

  /******* Resolving a list that was already resolved *******/

  predicate Aligned(c: seq<CollectionBenchmark>, r: seq<Benchmark>) {
    |r| == |c| && forall i | 0 <= i < |c| :: c[i].id != "" && OKey(r[i]) == CKey(c[i])
  }

  lemma {:induction false} AlignedCount(c: seq<CollectionBenchmark>, r: seq<Benchmark>, key: Key)
    requires Aligned(c, r)
    ensures |Own(r, key)| == Occurrences(c, key) && ProviderView(r, key.provider) == []
  {
    if c != [] {
      AlignedCount(c[..|c| - 1], r[..|c| - 1], key);
    }
  }

  lemma {:induction false} AlignedOwn(c: seq<CollectionBenchmark>, r: seq<Benchmark>, i: nat)
    requires Aligned(c, r) && i < |c|
    ensures Occurrences(c[..i], CKey(c[i])) < |Own(r, CKey(c[i]))|
    ensures Own(r, CKey(c[i]))[Occurrences(c[..i], CKey(c[i]))] == r[i]
  {
    var n := |c| - 1;
    var key := CKey(c[i]);
    if i < n {
      AlignedOwn(c[..n], r[..n], i);
      assert c[..n][..i] == c[..i];
    } else {
      AlignedCount(c[..n], r[..n], key);
    }
  }

  /** No own override of benchmark `i` has the last word on a collection default by deleting it. */
  predicate KeepsDefaults(c: seq<CollectionBenchmark>, os: seq<Benchmark>, i: nat)
    requires i < |c|
  {
    forall k | k in c[i].parameters && !IsEmpty(c[i].parameters[k]) ::
      var m := LastMention(ParamsOf(OwnFor(c, os, i)), k);
      m.Some? ==> !IsEmpty(m.value)
  }

  lemma ReresolveAt(c: seq<CollectionBenchmark>, r: seq<Benchmark>, i: nat)
    requires Aligned(c, r) && i < |c|
    ensures Resolve(c, r)[i] == MergeView(c[i], [r[i]], [])
  {
    AlignedCount(c, r, CKey(c[i]));
    AlignedOwnFor(c, r, i);
    ResolveAt(c, r, i);
  }

  /** Each benchmark finds exactly its own element of an aligned list. */
  lemma AlignedOwnFor(c: seq<CollectionBenchmark>, r: seq<Benchmark>, i: nat)
    requires Aligned(c, r) && i < |c|
    ensures OwnFor(c, r, i) == [r[i]]
  {
    var key := CKey(c[i]);
    AlignedCount(c, r, key);
    AlignedOwn(c, r, i);
    OccurrencesMonotone(c, i, key);
    if !Positional(c, r, key) {
      assert |Own(r, key)| == 1;
      assert Own(r, key) == [r[i]];
    }
  }

  lemma ResolveAligned(c: seq<CollectionBenchmark>, os: seq<Benchmark>)
    requires forall b | b in c :: b.id != ""
    ensures Aligned(c, Resolve(c, os))
  {
    forall i | 0 <= i < |c| ensures OKey(Resolve(c, os)[i]) == CKey(c[i]) {
      ResolveAt(c, os, i);
    }
  }

  lemma LastMentionSingle(p: Params, k: string)
    ensures LastMention([p], k) == if k in p then Some(p[k]) else None
  {
    assert [p][..0] == [];
  }

  lemma {:induction false} LastMentionCons(first: Params, rest: seq<Params>, k: string)
    ensures LastMention([first] + rest, k) ==
            if LastMention(rest, k).Some? then LastMention(rest, k) else LastMention([first], k)
  {
    if rest == [] {
      assert [first] + rest == [first];
    } else {
      var n := |rest| - 1;
      assert ([first] + rest)[..|rest|] == [first] + rest[..n];
      LastMentionCons(first, rest[..n], k);
    }
  }

  /**
    When a resolved SHA is recorded, storage replaces the job's overrides by the resolved list, and
    every later read resolves that list again. Identity, criteria, test data (with the SHA in it)
    and hardware survive; the whole benchmark survives exactly when no override had deleted a
    collection default.
  */
  lemma ReresolutionExact(c: seq<CollectionBenchmark>, os: seq<Benchmark>, i: nat)
    requires (forall b | b in c :: b.id != "") && i < |c|
    ensures
      var r := Resolve(c, os);
      var again := Resolve(c, r)[i];
      && again == r[i].(parameters := again.parameters)
      && (again == r[i] <==> KeepsDefaults(c, os, i))
  {
    ResolvedTwice(c, os, i);
    ViewTwice(c[i], OwnFor(c, os, i), ProviderView(os, c[i].provider));
  }

  lemma ResolvedTwice(c: seq<CollectionBenchmark>, os: seq<Benchmark>, i: nat)
    requires (forall b | b in c :: b.id != "") && i < |c|
    ensures
      var once := MergeView(c[i], OwnFor(c, os, i), ProviderView(os, c[i].provider));
      Resolve(c, os)[i] == once && Resolve(c, Resolve(c, os))[i] == MergeView(c[i], [once], [])
  {
    ResolveAligned(c, os);
    ReresolveAt(c, Resolve(c, os), i);
    ResolveAt(c, os, i);
  }

  lemma ViewTwice(b: CollectionBenchmark, own: seq<Benchmark>, provider: seq<Benchmark>)
    requires b.id != ""
    ensures
      var r := MergeView(b, own, provider);
      var again := MergeView(b, [r], []);
      && again == r.(parameters := again.parameters)
      && (again.parameters == r.parameters <==>
          forall k | k in b.parameters && !IsEmpty(b.parameters[k]) ::
            var m := LastMention(ParamsOf(own), k);
            m.Some? ==> !IsEmpty(m.value))
  {
    var r := MergeView(b, own, provider);
    ReresolvedParameters(b.parameters, ParamsOf(own));
    assert [b.parameters] + ParamsOf([r]) == [b.parameters, r.parameters];
  }

  lemma ReresolvedParameters(base: Params, own: seq<Params>)
    ensures
      var p := ApplyAll(map[], [base] + own);
      ApplyAll(map[], [base, p]) == p <==>
      forall k | k in base && !IsEmpty(base[k]) :: var m := LastMention(own, k); m.Some? ==> !IsEmpty(m.value)
  {
    var p := ApplyAll(map[], [base] + own);
    var q := ApplyAll(map[], [base, p]);
    forall k
      ensures k in p ==> k in q && q[k] == p[k]
      ensures k in q && k !in p <==> k in base && !IsEmpty(base[k]) && var m := LastMention(own, k); m.Some? && IsEmpty(m.value)
    {
      AppliedIsLastMention([base] + own, k);
      AppliedIsLastMention([base, p], k);
      LastMentionCons(base, own, k);
      LastMentionCons(base, [p], k);
      assert [base] + [p] == [base, p];
      LastMentionSingle(base, k);
      LastMentionSingle(p, k);
    }
    if q != p {
      assert exists k :: k in q && k !in p;
    }
  }

  /** A concrete deletion that the second resolution brings back. */
  lemma DeletedDefaultReturns(crit: Criteria)
    ensures
      var c := [CollectionBenchmark("p", "b", crit, None, map["shots" := Other(5)])];
      var os := [Benchmark("p", "b", crit, None, None, map["shots" := Nil])];
      Resolve(c, Resolve(c, os)) != Resolve(c, os)
  {
    var c := [CollectionBenchmark("p", "b", crit, None, map["shots" := Other(5)])];
    var os := [Benchmark("p", "b", crit, None, None, map["shots" := Nil])];
    OwnSingle(os[0], CKey(c[0]));
    assert c[..0] == [];
    assert Occurrences(c, CKey(c[0])) == 1;
    assert OwnFor(c, os, 0) == [os[0]];
    LastMentionSingle(os[0].parameters, "shots");
    assert ParamsOf([os[0]]) == [os[0].parameters];
    assert !KeepsDefaults(c, os, 0);
    ReresolutionExact(c, os, 0);
  }

  /******* The same in plain terms *******/

  /** A pair's own overrides all name it. */
  lemma {:induction false} OwnOnly(os: seq<Benchmark>, provider: string, id: string, o: Benchmark)
    requires o in Own(os, Key(provider, id))
    ensures o in os && o.id != "" && o.provider == provider && o.id == id
  {
    var n := |os| - 1;
    if o in Own(os[..n], Key(provider, id)) { OwnOnly(os[..n], provider, id, o); }
  }

  /** Every override that names a pair is one of its own, after those that come before it. */
  lemma {:induction false} OwnInOrder(os: seq<Benchmark>, provider: string, id: string, j: nat)
    requires j < |os| && os[j].id != "" && os[j].provider == provider && os[j].id == id
    ensures
      var own, k := Own(os, Key(provider, id)), |Own(os[..j], Key(provider, id))|;
      k < |own| && own[k] == os[j]
  {
    var n := |os| - 1;
    if j < n {
      OwnInOrder(os[..n], provider, id, j);
      assert os[..n][..j] == os[..j];
    }
  }

  lemma {:induction false} ProviderViewOnly(os: seq<Benchmark>, provider: string, o: Benchmark)
    requires o in ProviderView(os, provider)
    ensures o in os && o.id == "" && o.provider == provider
  {
    var n := |os| - 1;
    if o in ProviderView(os[..n], provider) { ProviderViewOnly(os[..n], provider, o); }
  }

  lemma {:induction false} ProviderViewInOrder(os: seq<Benchmark>, provider: string, j: nat)
    requires j < |os| && os[j].id == "" && os[j].provider == provider
    ensures
      var view, k := ProviderView(os, provider), |ProviderView(os[..j], provider)|;
      k < |view| && view[k] == os[j]
  {
    var n := |os| - 1;
    if j < n {
      ProviderViewInOrder(os[..n], provider, j);
      assert os[..n][..j] == os[..j];
    }
  }

  /** The positions at which a collection lists a pair. */
  function Positions(c: seq<CollectionBenchmark>, provider: string, id: string): set<nat> {
    set h: nat | h < |c| && c[h].provider == provider && c[h].id == id
  }

  lemma PositionsSnoc(c: seq<CollectionBenchmark>, provider: string, id: string)
    requires c != []
    ensures
      var n := |c| - 1;
      var rest := Positions(c[..n], provider, id);
      n !in rest && Positions(c, provider, id) == if c[n].provider == provider && c[n].id == id then rest + {n} else rest
  {
  }

  lemma {:induction false} OccurrencesArePositions(c: seq<CollectionBenchmark>, provider: string, id: string)
    ensures Occurrences(c, Key(provider, id)) == |Positions(c, provider, id)|
  {
    if c != [] {
      var n := |c| - 1;
      OccurrencesArePositions(c[..n], provider, id);
      PositionsSnoc(c, provider, id);
    } else {
      assert Positions(c, provider, id) == {};
    }
  }

  /**
    Which overrides a benchmark gets: all that name it, unless its pair is repeated as often as it
    is overridden; then the one whose place among the overrides is its place among the repetitions.
  */
  lemma OverridesOfBenchmark(c: seq<CollectionBenchmark>, os: seq<Benchmark>, i: nat)
    requires i < |c|
    ensures
      var p, id := c[i].provider, c[i].id;
      var own, n := Own(os, Key(p, id)), |Positions(c, p, id)|;
      var k := |Positions(c[..i], p, id)|;
      if n > 1 && |own| == n then k < |own| && OwnFor(c, os, i) == [own[k]] else OwnFor(c, os, i) == own
  {
    var p, id := c[i].provider, c[i].id;
    OccurrencesArePositions(c, p, id);
    OccurrencesArePositions(c[..i], p, id);
    OccurrencesMonotone(c, i, CKey(c[i]));
  }

  /** Source `j` is the last to mention `k`. */
  ghost predicate LastAt(sources: seq<Params>, k: string, j: int) {
    0 <= j < |sources| && k in sources[j] && forall h | j < h < |sources| :: k !in sources[h]
  }

  lemma {:induction false} LastMentionIsLast(sources: seq<Params>, k: string)
    ensures forall j | LastAt(sources, k, j) :: LastMention(sources, k) == Some(sources[j][k])
    ensures (forall j | 0 <= j < |sources| :: k !in sources[j]) ==> LastMention(sources, k).None?
  {
    if sources != [] {
      var n := |sources| - 1;
      LastMentionIsLast(sources[..n], k);
      forall j | LastAt(sources, k, j) ensures LastMention(sources, k) == Some(sources[j][k]) {
        if j < n { assert LastAt(sources[..n], k, j); }
      }
    }
  }

  /** What a benchmark's parameters are taken from: the collection's, then each of its overrides'. */
  function Sources(c: seq<CollectionBenchmark>, os: seq<Benchmark>, i: nat): seq<Params>
    requires i < |c|
  {
    [c[i].parameters] + ParamsOf(OwnFor(c, os, i))
  }

  lemma SourcesAt(c: seq<CollectionBenchmark>, os: seq<Benchmark>, i: nat, j: nat)
    requires i < |c|
    ensures |Sources(c, os, i)| == |OwnFor(c, os, i)| + 1 && Sources(c, os, i)[0] == c[i].parameters
    ensures j < |OwnFor(c, os, i)| ==> Sources(c, os, i)[j + 1] == OwnFor(c, os, i)[j].parameters
  {
  }

  /** Applying sources in turn, key by key and without naming what counts as empty. */
  lemma AppliedParameters(sources: seq<Params>, k: string)
    ensures
      var p := ApplyAll(map[], sources);
      && (k in p ==> p[k] != Value.Nil && p[k] != Value.Text(""))
      && (forall j | LastAt(sources, k, j) ::
            if sources[j][k] == Value.Nil || sources[j][k] == Value.Text("") then k !in p else k in p && p[k] == sources[j][k])
      && ((forall j | 0 <= j < |sources| :: k !in sources[j]) ==> k !in p)
  {
    AppliedIsLastMention(sources, k);
    LastMentionIsLast(sources, k);
  }

  /**
    The merged parameters, key by key: neither nil nor the empty string is ever among them; the
    last mention decides, by its value, or by deleting the key when it is one of those two.
  */
  lemma ResolvedParameters(c: seq<CollectionBenchmark>, os: seq<Benchmark>, i: nat, k: string)
    requires i < |c|
    ensures
      var p, sources := Resolve(c, os)[i].parameters, Sources(c, os, i);
      && (k in p ==> p[k] != Value.Nil && p[k] != Value.Text(""))
      && (forall j | LastAt(sources, k, j) ::
            if sources[j][k] == Value.Nil || sources[j][k] == Value.Text("") then k !in p else k in p && p[k] == sources[j][k])
      && ((forall j | 0 <= j < |sources| :: k !in sources[j]) ==> k !in p)
  {
    ParametersFromSources(c, os, i);
    AppliedParameters(Sources(c, os, i), k);
  }

  lemma ParametersFromSources(c: seq<CollectionBenchmark>, os: seq<Benchmark>, i: nat)
    requires i < |c|
    ensures Resolve(c, os)[i].parameters == ApplyAll(map[], Sources(c, os, i))
  {
    ResolveAt(c, os, i);
  }

  lemma {:induction false} FirstHardwareIsFirst(os: seq<Benchmark>)
    ensures forall j | 0 <= j < |os| && os[j].hardware.Some? && (forall h | 0 <= h < j :: os[h].hardware.None?) ::
              FirstHardware(os) == os[j].hardware
    ensures (forall h | 0 <= h < |os| :: os[h].hardware.None?) ==> FirstHardware(os).None?
    decreases |os|
  {
    if os != [] {
      FirstHardwareIsFirst(os[1..]);
      forall j | 0 <= j < |os| && os[j].hardware.Some? && (forall h | 0 <= h < j :: os[h].hardware.None?)
        ensures FirstHardware(os) == os[j].hardware
      {
        if j > 0 {
          assert os[1..][j - 1] == os[j];
          assert forall h | 0 <= h < j - 1 :: os[1..][h] == os[h + 1];
        }
      }
      assert forall h | 0 <= h < |os| - 1 :: os[1..][h] == os[h + 1];
    }
  }

  /**
    The rest of a resolved benchmark: identity and criteria are the collection's; test data and
    hardware are the first override's, if it has them; otherwise test data is the collection's and
    hardware that of the first override of the provider that has any.
  */
  lemma ResolvedFields(c: seq<CollectionBenchmark>, os: seq<Benchmark>, i: nat)
    requires i < |c| && c[i].id != ""
    ensures
      var r, own, general := Resolve(c, os)[i], OwnFor(c, os, i), ProviderView(os, c[i].provider);
      && r.provider == c[i].provider && r.id == c[i].id && r.criteria == c[i].criteria
      && (own != [] && own[0].testData.Some? ==> r.testData == own[0].testData)
      && (own == [] || own[0].testData.None? ==> r.testData == c[i].testData)
      && (own != [] && own[0].hardware.Some? ==> r.hardware == own[0].hardware)
      && (own == [] || own[0].hardware.None? ==>
            && (forall j | 0 <= j < |general| && general[j].hardware.Some? && (forall h | 0 <= h < j :: general[h].hardware.None?) ::
                  r.hardware == general[j].hardware)
            && ((forall h | 0 <= h < |general| :: general[h].hardware.None?) ==> r.hardware.None?))
  {
    ResolveAt(c, os, i);
    FirstHardwareIsFirst(ProviderView(os, c[i].provider));
  }

  /** The positions of the overrides that name a pair. */
  function OverridePositions(os: seq<Benchmark>, provider: string, id: string): set<nat> {
    set h: nat | h < |os| && os[h].id != "" && os[h].provider == provider && os[h].id == id
  }

  lemma {:induction false} OwnArePositions(os: seq<Benchmark>, provider: string, id: string)
    ensures |Own(os, Key(provider, id))| == |OverridePositions(os, provider, id)|
  {
    if os != [] {
      var n := |os| - 1;
      OwnArePositions(os[..n], provider, id);
      var rest := OverridePositions(os[..n], provider, id);
      assert n !in rest;
      if os[n].id != "" && os[n].provider == provider && os[n].id == id {
        assert OverridePositions(os, provider, id) == rest + {n};
      } else {
        assert OverridePositions(os, provider, id) == rest;
      }
    } else {
      assert OverridePositions(os, provider, id) == {};
    }
  }

  /**
    Which overrides validation accepts: every one names a provider of the collection and, if it
    names a benchmark, one that the provider has there; and a pair that the collection repeats is
    overridden not at all, once, or once for each repetition.
  */
  lemma AcceptsExactly(os: seq<Benchmark>, c: seq<CollectionBenchmark>)
    ensures Accepts(os, c) <==>
      && (forall o | o in os ::
            && (exists b :: b in c && b.provider == o.provider)
            && (o.id != "" ==> exists b :: b in c && b.provider == o.provider && b.id == o.id))
      && (forall b | b in c ::
            var n, m := |Positions(c, b.provider, b.id)|, |OverridePositions(os, b.provider, b.id)|;
            n > 1 ==> m == 0 || m == 1 || m == n)
  {
    forall o | o in os ensures Known(o, c) <==> KnownPlainly(o, c) { KnownIsPlain(o, c); }
    forall b | b in c ensures CountOk(os, c, CKey(b)) <==> CountPlainly(os, c, b.provider, b.id) {
      OccurrencesArePositions(c, b.provider, b.id);
      OwnArePositions(os, b.provider, b.id);
    }
  }

  ghost predicate CountPlainly(os: seq<Benchmark>, c: seq<CollectionBenchmark>, provider: string, id: string) {
    var n, m := |Positions(c, provider, id)|, |OverridePositions(os, provider, id)|;
    n > 1 ==> m == 0 || m == 1 || m == n
  }

  ghost predicate KnownPlainly(o: Benchmark, c: seq<CollectionBenchmark>) {
    && (exists b :: b in c && b.provider == o.provider)
    && (o.id != "" ==> exists b :: b in c && b.provider == o.provider && b.id == o.id)
  }

  lemma KnownIsPlain(o: Benchmark, c: seq<CollectionBenchmark>)
    ensures Known(o, c) <==> KnownPlainly(o, c)
  {
    OccurrencesArePositions(c, o.provider, o.id);
    var positions := Positions(c, o.provider, o.id);
    if |positions| > 0 {
      var h :| h in positions;
      assert c[h] in c;
    }
    if b :| b in c && b.provider == o.provider && b.id == o.id {
      var h: nat :| h < |c| && c[h] == b;
      assert h in positions;
    }
  }
}
