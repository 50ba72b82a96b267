/**
  The nullable-type rewrite that the MCP server runs over every tool schema:
  a node whose `type` is a two-element array holding "null" becomes an `anyOf`
  of the null schema and the node with the other type.

  `Fix` is the rewrite as a function on documents; NullableSchemaHeap proves the
  in-place walk against it. The meaning of a schema is the predicate `Valid`,
  written from JSON Schema 2020-12 (Validation section 6.1.1, Core sections
  10.2.1 and 10.3); everything the walk does not enter is left to a `Dialect`.
*/
module NullableSchema {
  import opened Wrappers
  import opened Json

  /******* The rewrite *******/

  predicate MapKeyword(k: string) { k in {"properties", "$defs"} }

  predicate SchemaKeyword(k: string) { k in {"items", "additionalProperties"} }

  predicate ListKeyword(k: string) { k in {"anyOf", "allOf", "oneOf", "prefixItems"} }

  /** `type` is a pair of strings, one of them "null" and the other neither "null" nor empty. */
  predicate Nullable(m: map<string, Json>) {
    "type" in m && m["type"].Arr? &&
    var a := m["type"].a;
    |a| == 2 && a[0].Str? && a[1].Str? &&
    ((a[0].s == "null" && a[1].s != "null" && a[1].s != "") ||
     (a[1].s == "null" && a[0].s != "null" && a[0].s != ""))
  }

  function OtherType(m: map<string, Json>): string
    requires Nullable(m)
  {
    var a := m["type"].a;
    if a[0].s == "null" then a[1].s else a[0].s
  }

  const NullSchema := Obj(map["type" := Str("null")])

  function Fix(j: Json): Json
    decreases j, 0
  {
    match j
    case Obj(m) =>
      var f := map k | k in m :: FixKeyword(k, m[k]);
      if Nullable(m) then
        Obj(map["anyOf" := Arr([NullSchema, Obj(f["type" := Str(OtherType(m))])])])
      else
        Obj(f)
    case _ => j
  }

  /** What the walk does to the value `j` of keyword `k`. */
  function FixKeyword(k: string, j: Json): Json
    decreases j, 1
  {
    if MapKeyword(k) && j.Obj? then
      Obj(map p | p in j.m :: Fix(j.m[p]))
    else if SchemaKeyword(k) then
      Fix(j)
    else if ListKeyword(k) && j.Arr? then
      Arr(seq(|j.a|, i requires 0 <= i < |j.a| => Fix(j.a[i])))
    else
      j
  }

  function FixFields(m: map<string, Json>): map<string, Json> {
    map k | k in m :: FixKeyword(k, m[k])
  }

  /******* Properties of every node the walk visits *******/

  ghost predicate Everywhere(p: map<string, Json> -> bool, j: Json)
    decreases j, 0
  {
    match j
    case Obj(m) => p(m) && forall k | k in m :: EverywhereUnder(p, k, m[k])
    case _ => true
  }

  ghost predicate EverywhereUnder(p: map<string, Json> -> bool, k: string, j: Json)
    decreases j, 1
  {
    if MapKeyword(k) && j.Obj? then
      forall q | q in j.m :: Everywhere(p, j.m[q])
    else if SchemaKeyword(k) then
      Everywhere(p, j)
    else if ListKeyword(k) && j.Arr? then
      forall i | 0 <= i < |j.a| :: Everywhere(p, j.a[i])
    else
      true
  }

  ghost predicate Children(p: map<string, Json> -> bool, m: map<string, Json>) {
    forall k | k in m :: EverywhereUnder(p, k, m[k])
  }

  ghost predicate NoNullablePair(j: Json) {
    Everywhere(m => !Nullable(m), j)
  }

  /** The rewrite leaves no two-element null type array at any visited position. */
  lemma {:induction false} FixRemovesPairs(j: Json)
    ensures NoNullablePair(Fix(j))
    decreases j, 0
  {
    match j
    case Obj(m) =>
      var f := FixFields(m);
      forall k | k in m
        ensures EverywhereUnder(m => !Nullable(m), k, f[k])
      {
        FixKeywordRemovesPairs(k, m[k]);
      }
      if Nullable(m) {
        FixNullable(m);
        BranchHasNoPair(f, OtherType(m));
        PairHasNoPair(NullSchema, Obj(f["type" := Str(OtherType(m))]));
      } else {
        assert !Nullable(f) by { assert "type" in f ==> f["type"] == m["type"]; }
      }
    case _ =>
  }

  lemma BranchHasNoPair(f: map<string, Json>, t: string)
    requires Children(m => !Nullable(m), f)
    ensures NoNullablePair(Obj(f["type" := Str(t)])) && NoNullablePair(NullSchema)
  {
    var branch := f["type" := Str(t)];
    assert forall k | k in branch :: EverywhereUnder(m => !Nullable(m), k, branch[k]);
  }

  lemma PairHasNoPair(x: Json, y: Json)
    requires NoNullablePair(x) && NoNullablePair(y)
    ensures NoNullablePair(Obj(map["anyOf" := Arr([x, y])]))
  {
    var m := map["anyOf" := Arr([x, y])];
    assert EverywhereUnder(m => !Nullable(m), "anyOf", m["anyOf"]);
  }

  lemma {:induction false} FixKeywordRemovesPairs(k: string, j: Json)
    ensures EverywhereUnder(m => !Nullable(m), k, FixKeyword(k, j))
    decreases j, 1
  {
    if MapKeyword(k) && j.Obj? {
      forall q | q in j.m { FixRemovesPairs(j.m[q]); }
    } else if SchemaKeyword(k) {
      FixRemovesPairs(j);
    } else if ListKeyword(k) && j.Arr? {
      forall i | 0 <= i < |j.a| { FixRemovesPairs(j.a[i]); }
    }
  }

  lemma {:induction false} FixStable(j: Json)
    requires NoNullablePair(j)
    ensures Fix(j) == j
    decreases j, 0
  {
    match j
    case Obj(m) =>
      forall k | k in m
        ensures FixKeyword(k, m[k]) == m[k]
      {
        FixKeywordStable(k, m[k]);
      }
      assert FixFields(m) == m;
    case _ =>
  }

  lemma {:induction false} FixKeywordStable(k: string, j: Json)
    requires EverywhereUnder(m => !Nullable(m), k, j)
    ensures FixKeyword(k, j) == j
    decreases j, 1
  {
    if MapKeyword(k) && j.Obj? {
      forall q | q in j.m ensures Fix(j.m[q]) == j.m[q] { FixStable(j.m[q]); }
      assert FixKeyword(k, j).m == j.m;
    } else if SchemaKeyword(k) {
      FixStable(j);
    } else if ListKeyword(k) && j.Arr? {
      forall i | 0 <= i < |j.a| ensures Fix(j.a[i]) == j.a[i] { FixStable(j.a[i]); }
      assert FixKeyword(k, j).a == j.a;
    }
  }

  /** The rewrite is idempotent, and its fixed points are exactly the schemas with no nullable pair. */
  lemma FixIdempotent(j: Json)
    ensures Fix(Fix(j)) == Fix(j)
    ensures Fix(j) == j <==> NoNullablePair(j)
  {
    FixRemovesPairs(j);
    FixStable(Fix(j));
    if NoNullablePair(j) { FixStable(j); }
  }

  /******* Positions, keyword by keyword *******/

  /** From a schema to one of the schemas it holds. */
  datatype Hop =
    | Property(name: string)
    | Definition(name: string)
    | Items
    | AdditionalProperties
    | AnyOf(i: nat)
    | AllOf(i: nat)
    | OneOf(i: nat)
    | PrefixItem(i: nat)

  function Value(m: map<string, Json>, k: string): Option<Json> {
    if k in m then Some(m[k]) else None
  }

  function Member(m: map<string, Json>, k: string, name: string): Option<Json> {
    if k in m && m[k].Obj? && name in m[k].m then Some(m[k].m[name]) else None
  }

  function Element(m: map<string, Json>, k: string, i: nat): Option<Json> {
    if k in m && m[k].Arr? && i < |m[k].a| then Some(m[k].a[i]) else None
  }

  function Child(m: map<string, Json>, h: Hop): Option<Json> {
    match h
    case Property(name) => Member(m, "properties", name)
    case Definition(name) => Member(m, "$defs", name)
    case Items => Value(m, "items")
    case AdditionalProperties => Value(m, "additionalProperties")
    case AnyOf(i) => Element(m, "anyOf", i)
    case AllOf(i) => Element(m, "allOf", i)
    case OneOf(i) => Element(m, "oneOf", i)
    case PrefixItem(i) => Element(m, "prefixItems", i)
  }

  function NodeAt(j: Json, path: seq<Hop>): Option<Json>
    decreases |path|
  {
    if path == [] then Some(j)
    else if !j.Obj? || Child(j.m, path[0]).None? then None
    else NodeAt(Child(j.m, path[0]).value, path[1..])
  }

  /** `type` is `["null", t]` or `[t, "null"]` for another type `t`. */
  ghost predicate PairOf(m: map<string, Json>, t: string) {
    && t != "null" && t != "" && "type" in m
    && (m["type"] == Arr([Str("null"), Str(t)]) || m["type"] == Arr([Str(t), Str("null")]))
  }

  ghost predicate PairFreeAt(j: Json, path: seq<Hop>) {
    NodeAt(j, path).Some? && NodeAt(j, path).value.Obj? ==> forall t :: !PairOf(NodeAt(j, path).value.m, t)
  }

  /** No schema that can be reached from `j` has a null type pair. */
  ghost predicate PairFree(j: Json) { forall path :: PairFreeAt(j, path) }

  lemma NullableIsPair(m: map<string, Json>)
    ensures Nullable(m) <==> exists t :: PairOf(m, t)
    ensures Nullable(m) ==> PairOf(m, OtherType(m))
    ensures forall t | PairOf(m, t) :: Nullable(m) && OtherType(m) == t
  {
    if Nullable(m) {
      var a := m["type"].a;
      assert a == [a[0], a[1]];
      assert PairOf(m, OtherType(m));
    }
  }

  lemma NoPairBelow(m: map<string, Json>, h: Hop)
    requires NoNullablePair(Obj(m)) && Child(m, h).Some?
    ensures NoNullablePair(Child(m, h).value)
  {
    match h
    case Property(_) => assert EverywhereUnder(m => !Nullable(m), "properties", m["properties"]);
    case Definition(_) => assert EverywhereUnder(m => !Nullable(m), "$defs", m["$defs"]);
    case Items => assert EverywhereUnder(m => !Nullable(m), "items", m["items"]);
    case AdditionalProperties => assert EverywhereUnder(m => !Nullable(m), "additionalProperties", m["additionalProperties"]);
    case AnyOf(_) => assert EverywhereUnder(m => !Nullable(m), "anyOf", m["anyOf"]);
    case AllOf(_) => assert EverywhereUnder(m => !Nullable(m), "allOf", m["allOf"]);
    case OneOf(_) => assert EverywhereUnder(m => !Nullable(m), "oneOf", m["oneOf"]);
    case PrefixItem(_) => assert EverywhereUnder(m => !Nullable(m), "prefixItems", m["prefixItems"]);
  }

  lemma {:induction false} NoPairAt(j: Json, path: seq<Hop>)
    requires NoNullablePair(j)
    ensures PairFreeAt(j, path)
    decreases |path|
  {
    if path == [] {
      if j.Obj? { NullableIsPair(j.m); }
    } else if j.Obj? && Child(j.m, path[0]).Some? {
      NoPairBelow(j.m, path[0]);
      NoPairAt(Child(j.m, path[0]).value, path[1..]);
    }
  }

  /** No null type pair is left anywhere, whichever way through the eight keywords one takes. */
  lemma FixIsPairFree(j: Json)
    ensures PairFree(Fix(j))
  {
    FixRemovesPairs(j);
    forall path ensures PairFreeAt(Fix(j), path) { NoPairAt(Fix(j), path); }
  }

  function FixedChild(c: Option<Json>): Option<Json> { if c.Some? then Some(Fix(c.value)) else None }

  /** The walk enters each of the eight keywords. */
  lemma FixFieldsChild(m: map<string, Json>, h: Hop)
    ensures Child(FixFields(m), h) == FixedChild(Child(m, h))
  {
    match h
    case Property(_) => assert "properties" in m ==> FixFields(m)["properties"] == FixKeyword("properties", m["properties"]);
    case Definition(_) => assert "$defs" in m ==> FixFields(m)["$defs"] == FixKeyword("$defs", m["$defs"]);
    case Items => assert "items" in m ==> FixFields(m)["items"] == FixKeyword("items", m["items"]);
    case AdditionalProperties =>
      assert "additionalProperties" in m ==> FixFields(m)["additionalProperties"] == FixKeyword("additionalProperties", m["additionalProperties"]);
    case AnyOf(_) => assert "anyOf" in m ==> FixFields(m)["anyOf"] == FixKeyword("anyOf", m["anyOf"]);
    case AllOf(_) => assert "allOf" in m ==> FixFields(m)["allOf"] == FixKeyword("allOf", m["allOf"]);
    case OneOf(_) => assert "oneOf" in m ==> FixFields(m)["oneOf"] == FixKeyword("oneOf", m["oneOf"]);
    case PrefixItem(_) => assert "prefixItems" in m ==> FixFields(m)["prefixItems"] == FixKeyword("prefixItems", m["prefixItems"]);
  }

  /** `f` is the node `m` with every schema it holds rewritten and everything else as it was. */
  ghost predicate Walked(m: map<string, Json>, f: map<string, Json>) {
    && f.Keys == m.Keys
    && (forall h :: Child(f, h) == FixedChild(Child(m, h)))
    && (forall k | k in m && k !in {"properties", "$defs", "items", "additionalProperties", "anyOf", "allOf", "oneOf", "prefixItems"} ::
          f[k] == m[k])
  }

  lemma FixFieldsWalked(m: map<string, Json>)
    ensures Walked(m, FixFields(m))
  {
    forall h ensures Child(FixFields(m), h) == FixedChild(Child(m, h)) { FixFieldsChild(m, h); }
  }

  /**
    The rewrite of one node, in full: a node with the pair of "null" and `t` becomes the choice
    between the null schema and the walked node with type `t`; any other node is walked.
  */
  lemma FixNode(m: map<string, Json>)
    ensures forall t | PairOf(m, t) ::
              exists f :: Walked(m, f) &&
                Fix(Obj(m)) == Obj(map["anyOf" := Arr([Obj(map["type" := Str("null")]), Obj(f["type" := Str(t)])])])
    ensures (forall t :: !PairOf(m, t)) ==> Fix(Obj(m)).Obj? && Walked(m, Fix(Obj(m)).m)
  {
    NullableIsPair(m);
    FixFieldsWalked(m);
    if Nullable(m) { FixNullable(m); } else { PlainNode(m); }
  }

  /******* Meaning *******/

  /**
    The part of a schema language that the walk never enters: `others` decides all
    keywords outside the visited ones from their values alone (enum, const, required,
    minimum, pattern, not, if/then/else, ...), and `matches` is regular-expression
    matching, which `additionalProperties` needs for its patternProperties siblings.
  */
  datatype Dialect = Dialect(others: (map<string, Json>, Json) -> bool, matches: (string, string) -> bool)

  const Visited := {"type", "properties", "$defs", "items", "additionalProperties",
                    "anyOf", "allOf", "oneOf", "prefixItems"}

  function Others(m: map<string, Json>): map<string, Json> { m - Visited }

  predicate OthersOk(d: Dialect, o: map<string, Json>, v: Json) { o == map[] || d.others(o, v) }

  predicate HasType(t: string, v: Json) {
    match v
    case Null => t == "null"
    case Bool(_) => t == "boolean"
    case Num(n) => t == "number" || (t == "integer" && n == n.Floor as real)
    case Str(_) => t == "string"
    case Arr(_) => t == "array"
    case Obj(_) => t == "object"
  }

  ghost predicate TypeOk(m: map<string, Json>, v: Json) {
    "type" in m ==>
      match m["type"]
      case Str(t) => HasType(t, v)
      case Arr(a) => exists i | 0 <= i < |a| :: a[i].Str? && HasType(a[i].s, v)
      case _ => true
  }

  ghost predicate Valid(d: Dialect, s: Json, v: Json)
    decreases s, 0
  {
    match s
    case Bool(b) => b
    case Obj(m) =>
      && TypeOk(m, v)
      && (forall k | k in m :: KeywordOk(d, k, m[k], m, v))
      && OthersOk(d, Others(m), v)
    case _ => true
  }

  /** Keyword `k` with value `j`, inside the node `ctx`, accepts `v`. */
  ghost predicate KeywordOk(d: Dialect, k: string, j: Json, ctx: map<string, Json>, v: Json)
    decreases j, 1
  {
    match k
    case "properties" =>
      j.Obj? && v.Obj? ==> forall p | p in j.m && p in v.m :: Valid(d, j.m[p], v.m[p])
    case "additionalProperties" =>
      v.Obj? ==> forall p | p in v.m && !Evaluated(d, ctx, p) :: Valid(d, j, v.m[p])
    case "prefixItems" =>
      j.Arr? && v.Arr? ==> forall i | 0 <= i < |j.a| && i < |v.a| :: Valid(d, j.a[i], v.a[i])
    case "items" =>
      v.Arr? ==> forall i | PrefixLength(ctx) <= i < |v.a| :: Valid(d, j, v.a[i])
    case "anyOf" =>
      j.Arr? ==> exists i | 0 <= i < |j.a| :: Valid(d, j.a[i], v)
    case "allOf" =>
      j.Arr? ==> forall i | 0 <= i < |j.a| :: Valid(d, j.a[i], v)
    case "oneOf" =>
      j.Arr? ==> exists i | 0 <= i < |j.a| ::
                   Valid(d, j.a[i], v) && forall h | 0 <= h < |j.a| && Valid(d, j.a[h], v) :: h == i
    case _ => true
  }

  /** Property `p` is one that `properties` or `patternProperties` of the same node already covers. */
  ghost predicate Evaluated(d: Dialect, ctx: map<string, Json>, p: string) {
    || ("properties" in ctx && ctx["properties"].Obj? && p in ctx["properties"].m)
    || ("patternProperties" in ctx && ctx["patternProperties"].Obj? &&
        exists r :: r in ctx["patternProperties"].m && d.matches(r, p))
  }

  function PrefixLength(ctx: map<string, Json>): nat {
    if "prefixItems" in ctx && ctx["prefixItems"].Arr? then |ctx["prefixItems"].a| else 0
  }

  /** Every keyword of the node other than `type` accepts `v`. */
  ghost predicate Siblings(d: Dialect, m: map<string, Json>, v: Json) {
    (forall k | k in m :: KeywordOk(d, k, m[k], m, v)) && OthersOk(d, Others(m), v)
  }

  ghost predicate NullFriendly(d: Dialect, m: map<string, Json>) {
    Nullable(m) ==> Siblings(d, m, Null)
  }

  ghost predicate NullFriendlySchema(d: Dialect, s: Json) {
    Everywhere(m => NullFriendly(d, m), s)
  }

  /******* Meaning is preserved *******/

  /** Two nodes that agree on what a keyword reads from its context. */
  ghost predicate SameContext(m: map<string, Json>, f: map<string, Json>) {
    && PrefixLength(m) == PrefixLength(f)
    && (forall d, p :: Evaluated(d, m, p) <==> Evaluated(d, f, p))
  }

  lemma FixFieldsContext(m: map<string, Json>)
    ensures SameContext(m, FixFields(m))
    ensures Others(FixFields(m)) == Others(m)
  {
    var f := FixFields(m);
    forall k | k in Others(m) ensures f[k] == m[k] {}
    assert "prefixItems" in m ==> f["prefixItems"] == FixKeyword("prefixItems", m["prefixItems"]);
    forall d, p
      ensures Evaluated(d, m, p) <==> Evaluated(d, f, p)
    {
      assert "properties" in m ==> f["properties"] == FixKeyword("properties", m["properties"]);
      assert "patternProperties" in m ==> f["patternProperties"] == m["patternProperties"];
    }
  }

  /** Schemas that accept the same values. */
  ghost predicate SameMeaning(d: Dialect, s: Json, t: Json) {
    forall v :: Valid(d, s, v) <==> Valid(d, t, v)
  }

  ghost predicate SameMeanings(d: Dialect, a: seq<Json>, b: seq<Json>) {
    |a| == |b| && forall i | 0 <= i < |a| :: SameMeaning(d, a[i], b[i])
  }

  lemma CombinatorCongruence(d: Dialect, a: seq<Json>, b: seq<Json>, m: map<string, Json>, f: map<string, Json>, v: Json)
    requires SameMeanings(d, a, b)
    ensures KeywordOk(d, "anyOf", Arr(b), f, v) <==> KeywordOk(d, "anyOf", Arr(a), m, v)
    ensures KeywordOk(d, "allOf", Arr(b), f, v) <==> KeywordOk(d, "allOf", Arr(a), m, v)
  {
    assert forall i | 0 <= i < |a| :: Valid(d, a[i], v) <==> Valid(d, b[i], v);
    assert Arr(a).a == a && Arr(b).a == b;
  }

  lemma OneOfCongruence(d: Dialect, a: seq<Json>, b: seq<Json>, m: map<string, Json>, f: map<string, Json>, v: Json)
    requires SameMeanings(d, a, b)
    requires KeywordOk(d, "oneOf", Arr(a), m, v)
    ensures KeywordOk(d, "oneOf", Arr(b), f, v)
  {
    assert Arr(a).a == a && Arr(b).a == b;
    var i :| 0 <= i < |a| && Valid(d, a[i], v) && forall h | 0 <= h < |a| && Valid(d, a[h], v) :: h == i;
    assert Valid(d, b[i], v);
    forall h | 0 <= h < |b| && Valid(d, b[h], v) ensures h == i { assert Valid(d, a[h], v); }
  }

  lemma PrefixCongruence(d: Dialect, a: seq<Json>, b: seq<Json>, m: map<string, Json>, f: map<string, Json>, v: Json)
    requires SameMeanings(d, a, b)
    ensures KeywordOk(d, "prefixItems", Arr(b), f, v) <==> KeywordOk(d, "prefixItems", Arr(a), m, v)
  {
    if v.Arr? {
      assert forall i | 0 <= i < |a| && i < |v.a| :: Valid(d, a[i], v.a[i]) <==> Valid(d, b[i], v.a[i]);
    }
  }

  lemma ListKeywordCongruence(d: Dialect, k: string, a: seq<Json>, b: seq<Json>, m: map<string, Json>, f: map<string, Json>, v: Json)
    requires ListKeyword(k) && SameMeanings(d, a, b)
    ensures KeywordOk(d, k, Arr(b), f, v) <==> KeywordOk(d, k, Arr(a), m, v)
  {
    if k == "oneOf" {
      if KeywordOk(d, k, Arr(a), m, v) { OneOfCongruence(d, a, b, m, f, v); }
      if KeywordOk(d, k, Arr(b), f, v) { OneOfCongruence(d, b, a, f, m, v); }
    } else if k == "prefixItems" {
      PrefixCongruence(d, a, b, m, f, v);
    } else {
      CombinatorCongruence(d, a, b, m, f, v);
    }
  }

  lemma MapKeywordCongruence(d: Dialect, k: string, a: map<string, Json>, b: map<string, Json>, m: map<string, Json>, f: map<string, Json>, v: Json)
    requires MapKeyword(k) && a.Keys == b.Keys
    requires forall p | p in a :: SameMeaning(d, a[p], b[p])
    ensures KeywordOk(d, k, Obj(b), f, v) <==> KeywordOk(d, k, Obj(a), m, v)
  {
    if k == "properties" && v.Obj? {
      assert forall p | p in a && p in v.m :: Valid(d, a[p], v.m[p]) <==> Valid(d, b[p], v.m[p]);
    }
  }

  lemma SchemaKeywordCongruence(d: Dialect, k: string, a: Json, b: Json, m: map<string, Json>, f: map<string, Json>, v: Json)
    requires SchemaKeyword(k) && SameContext(m, f) && SameMeaning(d, a, b)
    ensures KeywordOk(d, k, b, f, v) <==> KeywordOk(d, k, a, m, v)
  {
    if k == "items" {
    } else {
      assert k == "additionalProperties";
    }
  }

  lemma {:induction false} FixKeywordPreserves(d: Dialect, k: string, j: Json, m: map<string, Json>, f: map<string, Json>, v: Json)
    requires EverywhereUnder(m => NullFriendly(d, m), k, j)
    requires SameContext(m, f)
    ensures KeywordOk(d, k, FixKeyword(k, j), f, v) <==> KeywordOk(d, k, j, m, v)
    decreases j, 1, 0
  {
    var j' := FixKeyword(k, j);
    if MapKeyword(k) && j.Obj? {
      forall p | p in j.m ensures SameMeaning(d, j.m[p], j'.m[p]) { FixSameMeaning(d, j.m[p]); }
      MapKeywordCongruence(d, k, j.m, j'.m, m, f, v);
    } else if SchemaKeyword(k) {
      FixSameMeaning(d, j);
      SchemaKeywordCongruence(d, k, j, j', m, f, v);
    } else if ListKeyword(k) && j.Arr? {
      forall i | 0 <= i < |j.a| ensures SameMeaning(d, j.a[i], j'.a[i]) { FixSameMeaning(d, j.a[i]); }
      ListKeywordCongruence(d, k, j.a, j'.a, m, f, v);
    }
  }

  lemma {:induction false} FixFieldsPreserves(d: Dialect, m: map<string, Json>, v: Json)
    requires Children(m => NullFriendly(d, m), m)
    ensures Siblings(d, FixFields(m), v) <==> Siblings(d, m, v)
    decreases Obj(m), 0, 0
  {
    FixFieldsContext(m);
    var f := FixFields(m);
    forall k | k in m
      ensures KeywordOk(d, k, f[k], f, v) <==> KeywordOk(d, k, m[k], m, v)
    {
      FixKeywordPreserves(d, k, m[k], m, f, v);
    }
  }

  lemma BranchSiblings(d: Dialect, f: map<string, Json>, t: Json, v: Json)
    ensures Siblings(d, f["type" := t], v) <==> Siblings(d, f, v)
  {
    var branch := f["type" := t];
    assert Others(branch) == Others(f);
    assert SameContext(f, branch) by {
      forall d, p ensures Evaluated(d, f, p) <==> Evaluated(d, branch, p) {}
    }
    forall k | k in f && k != "type"
      ensures KeywordOk(d, k, branch[k], branch, v) <==> KeywordOk(d, k, f[k], f, v)
    {
      assert branch[k] == f[k];
      KeywordContext(d, k, f[k], f, branch, v);
    }
  }

  lemma KeywordContext(d: Dialect, k: string, j: Json, m: map<string, Json>, f: map<string, Json>, v: Json)
    requires SameContext(m, f)
    ensures KeywordOk(d, k, j, m, v) <==> KeywordOk(d, k, j, f, v)
  {
    if SchemaKeyword(k) {
      SchemaKeywordCongruence(d, k, j, j, m, f, v);
    }
  }

  /**
    What the rewrite of a nullable node means, whatever its siblings are: the node's
    own meaning with `null` added.
  */
  lemma {:induction false} NullableNodeMeaning(d: Dialect, m: map<string, Json>, v: Json)
    requires Nullable(m) && Children(m => NullFriendly(d, m), m)
    ensures Valid(d, Fix(Obj(m)), v) <==> v.Null? || Valid(d, Obj(m), v)
    decreases Obj(m), 0, 1
  {
    var f := FixFields(m);
    FixNullable(m);
    AnyOfNull(d, Obj(f["type" := Str(OtherType(m))]), v);
    BranchValid(d, f, OtherType(m), v);
    ValidNode(d, m, v);
    NullableType(m, v);
    FixFieldsPreserves(d, m, v);
  }

  lemma BranchValid(d: Dialect, f: map<string, Json>, t: string, v: Json)
    ensures Valid(d, Obj(f["type" := Str(t)]), v) <==> HasType(t, v) && Siblings(d, f, v)
  {
    ValidNode(d, f["type" := Str(t)], v);
    BranchSiblings(d, f, Str(t), v);
  }

  lemma ValidNode(d: Dialect, m: map<string, Json>, v: Json)
    ensures Valid(d, Obj(m), v) <==> TypeOk(m, v) && Siblings(d, m, v)
  {
  }

  lemma FixNullable(m: map<string, Json>)
    requires Nullable(m)
    ensures Fix(Obj(m)) == Obj(map["anyOf" := Arr([NullSchema, Obj(FixFields(m)["type" := Str(OtherType(m))])])])
  {
  }

  lemma AnyOfNull(d: Dialect, s: Json, v: Json)
    ensures Valid(d, Obj(map["anyOf" := Arr([NullSchema, s])]), v) <==> v.Null? || Valid(d, s, v)
  {
    NullSchemaValid(d, v);
    AnyOfPair(d, NullSchema, s, v);
  }

  lemma NullSchemaValid(d: Dialect, v: Json)
    ensures Valid(d, NullSchema, v) <==> v.Null?
  {
    var m := NullSchema.m;
    assert m == map["type" := Str("null")];
    assert Others(m) == map[];
    assert KeywordOk(d, "type", m["type"], m, v);
    ValidNode(d, m, v);
  }

  lemma AnyOfPair(d: Dialect, x: Json, y: Json, v: Json)
    ensures Valid(d, Obj(map["anyOf" := Arr([x, y])]), v) <==> Valid(d, x, v) || Valid(d, y, v)
  {
    var a := [x, y];
    var m := map["anyOf" := Arr(a)];
    assert Others(m) == map[];
    assert KeywordOk(d, "anyOf", m["anyOf"], m, v) <==> Valid(d, a[0], v) || Valid(d, a[1], v);
    ValidNode(d, m, v);
  }

  lemma NullableType(m: map<string, Json>, v: Json)
    requires Nullable(m)
    ensures TypeOk(m, v) <==> v.Null? || HasType(OtherType(m), v)
  {
  }

  lemma {:induction false} FixSameMeaning(d: Dialect, s: Json)
    requires NullFriendlySchema(d, s)
    ensures SameMeaning(d, s, Fix(s))
    decreases s, 0, 3
  {
    forall v ensures Valid(d, s, v) <==> Valid(d, Fix(s), v) {
      if s.Obj? { FixSameValid(d, s.m, v); }
    }
  }

  lemma {:induction false} FixSameValid(d: Dialect, m: map<string, Json>, v: Json)
    requires NullFriendly(d, m) && Children(m => NullFriendly(d, m), m)
    ensures Valid(d, Obj(m), v) <==> Valid(d, Fix(Obj(m)), v)
    decreases Obj(m), 0, 2
  {
    ValidNode(d, m, v);
    if Nullable(m) {
      NullableNodeMeaning(d, m, v);
      NullableType(m, v);
    } else {
      FixFieldsPreserves(d, m, v);
      ValidNode(d, FixFields(m), v);
      PlainNode(m);
      SameType(m, v);
    }
  }

  lemma PlainNode(m: map<string, Json>)
    requires !Nullable(m)
    ensures Fix(Obj(m)) == Obj(FixFields(m))
  {
  }

  lemma SameType(m: map<string, Json>, v: Json)
    ensures TypeOk(FixFields(m), v) <==> TypeOk(m, v)
  {
    assert "type" in m ==> FixFields(m)["type"] == m["type"];
  }

  /**
    Exactly when the rewrite of one nullable node keeps its meaning: the node's
    other keywords must themselves accept `null`.
  */
  lemma NullableNodeExact(d: Dialect, m: map<string, Json>)
    requires Nullable(m) && Children(m => NullFriendly(d, m), m)
    ensures SameMeaning(d, Obj(m), Fix(Obj(m))) <==> Siblings(d, m, Null)
  {
    forall v { NullableNodeMeaning(d, m, v); }
    NullableType(m, Null);
  }

  /**
    Which keywords can break it: object and array keywords always accept `null`, so
    only the combinators and the keywords the walk never enters can refuse it.
  */
  lemma NullRefusals(d: Dialect, m: map<string, Json>)
    ensures Siblings(d, m, Null) <==>
            && (forall k | k in m && k in {"anyOf", "allOf", "oneOf"} :: KeywordOk(d, k, m[k], m, Null))
            && OthersOk(d, Others(m), Null)
  {
    forall k | k in m && k !in {"anyOf", "allOf", "oneOf"}
      ensures KeywordOk(d, k, m[k], m, Null)
    {
    }
  }

  const EnumDialect := Dialect((o: map<string, Json>, v: Json) => "enum" in o && o["enum"].Arr? ==> v in o["enum"].a,
                               (r: string, p: string) => false)

  const EnumNode := map["type" := Arr([Str("null"), Str("string")]), "enum" := Arr([Str("a")])]

  /** An enum that leaves `null` out is the failing family's smallest member. */
  lemma EnumBreaksMeaning()
    ensures Nullable(EnumNode)
    ensures !Valid(EnumDialect, Obj(EnumNode), Null)
    ensures Valid(EnumDialect, Fix(Obj(EnumNode)), Null)
  {
    var m := EnumNode;
    var o := map["enum" := Arr([Str("a")])];
    assert Others(m) == o;
    assert !OthersOk(EnumDialect, o, Null) by { assert "enum" in o && Null !in o["enum"].a; }
    forall k | k in m ensures EverywhereUnder(m => NullFriendly(EnumDialect, m), k, m[k]) {}
    NullableNodeMeaning(EnumDialect, m, Null);
  }
}
