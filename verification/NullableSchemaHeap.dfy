/**
  The nullable-type rewrite as the server runs it: a walk over a decoded document whose
  objects are mutable map nodes, rewriting them where they stand. Nodes are addressed
  explicitly, so that aliasing is visible: decoding builds a tree of separate nodes, and the
  walk leaves a tree of separate nodes that spells out `NullableSchema.Fix` of the document
  and touches no other node.
*/
module NullableSchemaHeap {
  import opened Json
  import opened NullableSchema

  type Address = nat

  /** A decoded value as Go holds it in an `any`: objects are references, the rest are values. */
  datatype Slot = Leaf(j: Json) | List(items: seq<Slot>) | Ref(node: Address)

  type Cells = map<Address, map<string, Slot>>

  /******* The document that a heap holds *******/

  /** Which node stands at each position of a document. */
  datatype Tree = Scalar(j: Json) | Array(items: seq<Tree>) | Map(node: Address, kids: map<string, Tree>)

  ghost function Foot(t: Tree): set<Address> {
    match t
    case Scalar(_) => {}
    case Array(ts) => set i, n | 0 <= i < |ts| && n in Foot(ts[i]) :: n
    case Map(node, kids) => {node} + set k, n | k in kids && n in Foot(kids[k]) :: n
  }

  ghost function Below(t: Tree): set<Address>
    requires t.Map?
  {
    set k, n | k in t.kids && n in Foot(t.kids[k]) :: n
  }

  /** No node stands at two positions. */
  ghost predicate Separate(t: Tree) {
    match t
    case Scalar(j) => !j.Obj? && !j.Arr?
    case Array(ts) =>
      && (forall i | 0 <= i < |ts| :: Separate(ts[i]))
      && (forall i, h | 0 <= i < |ts| && 0 <= h < |ts| && i != h :: Foot(ts[i]) !! Foot(ts[h]))
    case Map(node, kids) =>
      && (forall k | k in kids :: Separate(kids[k]) && node !in Foot(kids[k]))
      && (forall k, h | k in kids && h in kids && k != h :: Foot(kids[k]) !! Foot(kids[h]))
  }

  ghost function SlotOf(t: Tree): Slot {
    match t
    case Scalar(j) => Leaf(j)
    case Array(ts) => List(seq(|ts|, i requires 0 <= i < |ts| => SlotOf(ts[i])))
    case Map(node, _) => Ref(node)
  }

  ghost function Doc(t: Tree): Json {
    match t
    case Scalar(j) => j
    case Array(ts) => Arr(seq(|ts|, i requires 0 <= i < |ts| => Doc(ts[i])))
    case Map(_, kids) => Obj(map k | k in kids :: Doc(kids[k]))
  }

  /** The heap links the nodes of `t` the way `t` says. */
  ghost predicate Holds(c: Cells, t: Tree) {
    match t
    case Scalar(_) => true
    case Array(ts) => forall i | 0 <= i < |ts| :: Holds(c, ts[i])
    case Map(node, kids) =>
      && node in c && c[node].Keys == kids.Keys
      && (forall k | k in kids :: c[node][k] == SlotOf(kids[k]) && Holds(c, kids[k]))
  }

  /** A value in the heap has one tree only, so talking about trees is talking about the heap. */
  lemma {:induction false} TreeUnique(c: Cells, t: Tree, u: Tree)
    requires Holds(c, t) && Holds(c, u) && SlotOf(t) == SlotOf(u)
    ensures t == u
    decreases t
  {
    match t
    case Scalar(_) =>
    case Array(ts) =>
      assert |ts| == |SlotOf(t).items| == |SlotOf(u).items| == |u.items|;
      forall i | 0 <= i < |ts| ensures ts[i] == u.items[i] {
        assert SlotOf(ts[i]) == SlotOf(t).items[i] == SlotOf(u).items[i];
        TreeUnique(c, ts[i], u.items[i]);
      }
    case Map(node, kids) =>
      forall k | k in kids ensures kids[k] == u.kids[k] { TreeUnique(c, kids[k], u.kids[k]); }
      assert kids == u.kids;
  }

  /******* Rewriting one position *******/

  /** No cell is lost, and only cells in `own` change. */
  ghost predicate Frame(c: Cells, c': Cells, own: set<Address>) {
    c.Keys <= c'.Keys && forall a | a in c && a !in own :: c'[a] == c[a]
  }

  /**
    The value that stood as `t` now stands as `t'`, in the same slot: built from `t`'s nodes
    and new ones, every other cell as before.
  */
  ghost predicate Rewritten(c: Cells, t: Tree, c': Cells, t': Tree) {
    && SlotOf(t') == SlotOf(t)
    && Separate(t') && Holds(c', t')
    && Frame(c, c', Foot(t))
    && Foot(t') !! c.Keys - Foot(t)
  }

  lemma {:induction false} HoldsFrame(c: Cells, c': Cells, own: set<Address>, t: Tree)
    requires Holds(c, t) && Frame(c, c', own) && Foot(t) !! own
    ensures Holds(c', t)
    decreases t
  {
    match t
    case Scalar(_) =>
    case Array(ts) =>
      forall i | 0 <= i < |ts| ensures Holds(c', ts[i]) {
        assert Foot(ts[i]) <= Foot(t);
        HoldsFrame(c, c', own, ts[i]);
      }
    case Map(node, kids) =>
      assert node in Foot(t);
      forall k | k in kids ensures Holds(c', kids[k]) {
        assert Foot(kids[k]) <= Foot(t);
        HoldsFrame(c, c', own, kids[k]);
      }
  }

  lemma {:induction false} FootInHeap(c: Cells, t: Tree)
    requires Holds(c, t)
    ensures Foot(t) <= c.Keys
    decreases t
  {
    match t
    case Scalar(_) =>
    case Array(ts) => forall i | 0 <= i < |ts| { FootInHeap(c, ts[i]); }
    case Map(node, kids) => forall k | k in kids { FootInHeap(c, kids[k]); }
  }

  lemma RewrittenTwice(c: Cells, t: Tree, c1: Cells, t1: Tree, c2: Cells, t2: Tree)
    requires Rewritten(c, t, c1, t1) && Rewritten(c1, t1, c2, t2)
    ensures Rewritten(c, t, c2, t2)
  {
  }

  /** Rewriting one element of an array rewrites the array. */
  lemma RewriteItem(c: Cells, ts: seq<Tree>, i: nat, c': Cells, t': Tree)
    requires i < |ts| && Separate(Array(ts)) && Holds(c, Array(ts))
    requires Rewritten(c, ts[i], c', t')
    ensures Rewritten(c, Array(ts), c', Array(ts[i := t']))
  {
    FootInHeap(c, Array(ts));
    SeparateItem(ts, i, t');
    HoldsItem(c, ts, i, c', t');
    SlotOfItem(ts, i, t');
  }

  lemma SeparateItem(ts: seq<Tree>, i: nat, t': Tree)
    requires i < |ts| && Separate(Array(ts)) && Separate(t') && Foot(t') !! Foot(Array(ts)) - Foot(ts[i])
    ensures Separate(Array(ts[i := t']))
    ensures Foot(Array(ts[i := t'])) <= Foot(Array(ts)) + Foot(t')
    ensures Foot(ts[i]) <= Foot(Array(ts))
  {
    forall h | 0 <= h < |ts| && h != i ensures Foot(ts[h]) !! Foot(t') {
      assert Foot(ts[h]) <= Foot(Array(ts)) - Foot(ts[i]);
    }
  }

  lemma HoldsItem(c: Cells, ts: seq<Tree>, i: nat, c': Cells, t': Tree)
    requires i < |ts| && Separate(Array(ts)) && Holds(c, Array(ts))
    requires Frame(c, c', Foot(ts[i])) && Holds(c', t')
    ensures Holds(c', Array(ts[i := t']))
  {
    forall h | 0 <= h < |ts| && h != i ensures Holds(c', ts[h]) {
      HoldsFrame(c, c', Foot(ts[i]), ts[h]);
    }
  }

  lemma SlotOfItem(ts: seq<Tree>, i: nat, t': Tree)
    requires i < |ts| && SlotOf(t') == SlotOf(ts[i])
    ensures SlotOf(Array(ts[i := t'])) == SlotOf(Array(ts))
  {
    assert SlotOf(Array(ts[i := t'])).items == SlotOf(Array(ts)).items;
  }

  lemma SeparateKid(t: Tree, k: string, t': Tree)
    requires t.Map? && k in t.kids && Separate(t) && Separate(t')
    requires Foot(t') !! Foot(t) - Foot(t.kids[k])
    ensures Separate(Map(t.node, t.kids[k := t']))
    ensures Foot(Map(t.node, t.kids[k := t'])) <= Foot(t) + Foot(t')
    ensures Foot(t.kids[k]) <= Foot(t)
  {
    assert t.node in Foot(t) - Foot(t.kids[k]);
    forall h | h in t.kids && h != k
      ensures Foot(t.kids[h]) !! Foot(t')
    {
      assert Foot(t.kids[h]) <= Foot(t) - Foot(t.kids[k]);
    }
  }

  lemma HoldsKid(c: Cells, t: Tree, k: string, c': Cells, t': Tree)
    requires t.Map? && k in t.kids && Separate(t) && Holds(c, t)
    requires Frame(c, c', Foot(t.kids[k])) && Holds(c', t') && SlotOf(t') == SlotOf(t.kids[k])
    ensures Holds(c', Map(t.node, t.kids[k := t']))
  {
    forall h | h in t.kids && h != k ensures Holds(c', t.kids[h]) {
      HoldsFrame(c, c', Foot(t.kids[k]), t.kids[h]);
    }
  }

  /** Rewriting one member of a map node rewrites the node. */
  lemma RewriteKid(c: Cells, t: Tree, k: string, c': Cells, t': Tree)
    requires t.Map? && k in t.kids && Separate(t) && Holds(c, t)
    requires Rewritten(c, t.kids[k], c', t')
    ensures Rewritten(c, t, c', Map(t.node, t.kids[k := t']))
  {
    FootInHeap(c, t);
    SeparateKid(t, k, t');
    HoldsKid(c, t, k, c', t');
  }

  type Edit = (string, Json) -> Json

  /** `f` has been applied to the members `done`, and no others yet. */
  ghost predicate EditedAt(f: Edit, t0: Tree, done: set<string>, t: Tree) {
    && t0.Map? && t.Map? && t.kids.Keys == t0.kids.Keys
    && (forall k | k in t0.kids :: if k in done then Doc(t.kids[k]) == f(k, Doc(t0.kids[k])) else t.kids[k] == t0.kids[k])
  }

  ghost predicate Underway(f: Edit, c0: Cells, t0: Tree, done: set<string>, c: Cells, t: Tree) {
    EditedAt(f, t0, done, t) && Rewritten(c0, t0, c, t)
  }

  lemma EditNext(f: Edit, t0: Tree, done: set<string>, t: Tree, k: string, t': Tree)
    requires EditedAt(f, t0, done, t) && k in t.kids && k !in done && Doc(t') == f(k, Doc(t.kids[k]))
    ensures EditedAt(f, t0, done + {k}, Map(t.node, t.kids[k := t']))
  {
  }

  lemma RewriteNext(c0: Cells, t0: Tree, c: Cells, t: Tree, k: string, c': Cells, t': Tree)
    requires t.Map? && k in t.kids && Rewritten(c0, t0, c, t) && Rewritten(c, t.kids[k], c', t')
    ensures Rewritten(c0, t0, c', Map(t.node, t.kids[k := t']))
  {
    RewriteKid(c, t, k, c', t');
    RewrittenTwice(c0, t0, c, t, c', Map(t.node, t.kids[k := t']));
  }

  lemma Advance(f: Edit, c0: Cells, t0: Tree, done: set<string>, c: Cells, t: Tree, k: string, c': Cells, t': Tree)
    requires Underway(f, c0, t0, done, c, t)
    requires k in t.kids && k !in done && Rewritten(c, t.kids[k], c', t') && Doc(t') == f(k, Doc(t.kids[k]))
    ensures Underway(f, c0, t0, done + {k}, c', Map(t.node, t.kids[k := t']))
  {
    EditNext(f, t0, done, t, k, t');
    RewriteNext(c0, t0, c, t, k, c', t');
  }

  ghost function Edited(f: Edit, m: map<string, Json>): map<string, Json> { map k | k in m :: f(k, m[k]) }

  lemma Start(f: Edit, c: Cells, t: Tree)
    requires t.Map? && Separate(t) && Holds(c, t)
    ensures Underway(f, c, t, {}, c, t)
  {
  }

  lemma AllButAll(keys: set<string>)
    ensures keys - keys == {}
  {
  }

  lemma OneMore(keys: set<string>, rest: set<string>, k: string)
    requires k in rest && rest <= keys
    ensures (keys - rest) + {k} == keys - (rest - {k})
  {
  }

  lemma Finish(f: Edit, c0: Cells, t0: Tree, done: set<string>, c: Cells, t: Tree)
    requires Underway(f, c0, t0, done, c, t) && t0.kids.Keys <= done
    ensures Doc(t) == Obj(Edited(f, Doc(t0).m))
  {
    assert Doc(t).m == Edited(f, Doc(t0).m);
  }

  /** What the code finds at a member it has not come to yet. */
  lemma Untouched(f: Edit, c0: Cells, t0: Tree, done: set<string>, c: Cells, t: Tree, k: string)
    requires Underway(f, c0, t0, done, c, t) && Separate(t0) && k in t0.kids && k !in done
    ensures t.node == t0.node && t.node in c && k in c[t.node] && c[t.node][k] == SlotOf(t0.kids[k])
    ensures t.kids[k] == t0.kids[k] && Separate(t0.kids[k]) && Holds(c, t0.kids[k])
    ensures Foot(t0.kids[k]) <= Below(t0) <= Foot(t0)
  {
    assert t.node == SlotOf(t).node == SlotOf(t0).node;
  }

  /******* The walk *******/

  /** The keywords the walk enters, in its order. */
  const Entered := ["properties", "items", "anyOf", "allOf", "oneOf", "prefixItems", "additionalProperties", "$defs"]

  ghost function FixedItems(ts: seq<Tree>): seq<Json> { seq(|ts|, i requires 0 <= i < |ts| => Fix(Doc(ts[i]))) }

  lemma EnteredOnce(i: nat, h: nat)
    requires i < h < |Entered|
    ensures Entered[i] != Entered[h]
  {
  }

  /** The first `i` keywords. */
  ghost function EnteredBefore(i: nat): set<string>
    requires i <= |Entered|
  {
    set h | 0 <= h < i :: Entered[h]
  }

  lemma EnteredNext(i: nat)
    requires i < |Entered|
    ensures Entered[i] !in EnteredBefore(i)
    ensures EnteredBefore(i + 1) == EnteredBefore(i) + {Entered[i]}
  {
    forall h | 0 <= h < i ensures Entered[h] != Entered[i] { EnteredOnce(h, i); }
  }

  lemma OthersKept(k: string, j: Json)
    requires k !in Entered
    ensures FixKeyword(k, j) == j
  {
    assert Entered[0] == "properties" && Entered[1] == "items" && Entered[2] == "anyOf" && Entered[3] == "allOf";
    assert Entered[4] == "oneOf" && Entered[5] == "prefixItems" && Entered[6] == "additionalProperties" && Entered[7] == "$defs";
  }

  /** Once every entered keyword is done, the node holds what `Fix` makes of a node that is not nullable. */
  lemma AllEntered(c0: Cells, t0: Tree, c: Cells, t: Tree)
    requires Underway(FixKeyword, c0, t0, EnteredBefore(|Entered|), c, t)
    requires !Nullable(Doc(t0).m)
    ensures Doc(t) == Fix(Doc(t0))
  {
    forall k | k in t0.kids ensures Doc(t.kids[k]) == FixKeyword(k, Doc(t0.kids[k])) {
      if k !in EnteredBefore(|Entered|) { OthersKept(k, Doc(t0.kids[k])); }
    }
    assert Doc(t).m == FixFields(Doc(t0).m);
  }

  /******* Decoding *******/

  /** `t` stands in `c'`, made of nodes that `c` did not have, and `c` is still there. */
  ghost predicate Built(c: Cells, c': Cells, t: Tree) {
    Separate(t) && Holds(c', t) && Frame(c, c', {}) && Foot(t) !! c.Keys
  }

  lemma BuildItem(c0: Cells, c: Cells, ts: seq<Tree>, c': Cells, t: Tree)
    requires Built(c0, c, Array(ts)) && Built(c, c', t)
    ensures Built(c0, c', Array(ts + [t]))
  {
    var us := ts + [t];
    FootInHeap(c, Array(ts));
    forall i | 0 <= i < |ts| ensures Foot(us[i]) <= Foot(Array(ts)) && Holds(c', us[i]) {
      assert Foot(ts[i]) <= Foot(Array(ts));
      HoldsFrame(c, c', {}, ts[i]);
    }
    assert Foot(Array(us)) <= Foot(Array(ts)) + Foot(t);
  }

  lemma BuildEmpty(c: Cells, node: Address)
    requires node !in c
    ensures Built(c, c[node := map[]], Map(node, map[]))
  {
  }

  /** The members of `m` outside `rest` have been decoded into `t`. */
  ghost predicate Decoded(m: map<string, Json>, rest: set<string>, t: Tree) {
    && t.Map? && rest <= m.Keys && t.kids.Keys == m.Keys - rest
    && forall k | k in t.kids :: Doc(t.kids[k]) == m[k]
  }

  lemma DecodedAll(m: map<string, Json>, t: Tree)
    requires Decoded(m, {}, t)
    ensures Doc(t) == Obj(m)
  {
    assert Doc(t).m == m;
  }

  lemma SeparateNewKid(t: Tree, k: string, kid: Tree)
    requires t.Map? && k !in t.kids && Separate(t) && Separate(kid) && Foot(t) !! Foot(kid)
    ensures Separate(Map(t.node, t.kids[k := kid]))
    ensures Foot(Map(t.node, t.kids[k := kid])) <= Foot(t) + Foot(kid)
  {
    assert t.node in Foot(t);
    forall h | h in t.kids ensures Foot(t.kids[h]) <= Foot(t) {}
  }

  lemma BuildKid(c0: Cells, c: Cells, t: Tree, k: string, c': Cells, kid: Tree)
    requires t.Map? && k !in t.kids && Built(c0, c, t) && Built(c, c', kid)
    ensures t.node in c' && Built(c0, c'[t.node := c'[t.node][k := SlotOf(kid)]], Map(t.node, t.kids[k := kid]))
  {
    FootInHeap(c, t);
    assert t.node in Foot(t);
    HoldsFrame(c, c', {}, t);
    var c2 := c'[t.node := c'[t.node][k := SlotOf(kid)]];
    HoldsFrame(c', c2, {t.node}, kid);
    forall h | h in t.kids ensures Holds(c2, t.kids[h]) { HoldsFrame(c', c2, {t.node}, t.kids[h]); }
    SeparateNewKid(t, k, kid);
  }

  /******* Converting one node *******/

  ghost predicate FieldsOf(fields: map<string, Slot>, kids: map<string, Tree>) {
    fields.Keys == kids.Keys && forall k | k in kids :: fields[k] == SlotOf(kids[k])
  }

  /** A copy of the node at `b`, with a scalar in place of member `k`. */
  ghost function CopyWith(t: Tree, k: string, j: Json, b: Address): Tree
    requires t.Map?
  {
    Map(b, t.kids[k := Scalar(j)])
  }

  /** The copy shares the nodes below the original, if the replaced member had none. */
  lemma CopyBelow(t: Tree, k: string, j: Json, b: Address)
    requires t.Map? && k in t.kids && Foot(t.kids[k]) == {}
    ensures Below(CopyWith(t, k, j, b)) == Below(t)
  {
    forall n | n in Below(t) ensures n in Below(CopyWith(t, k, j, b)) {
      var h :| h in t.kids && n in Foot(t.kids[h]);
      assert CopyWith(t, k, j, b).kids[h] == t.kids[h];
    }
  }

  lemma CopyStands(c: Cells, t: Tree, k: string, j: Json, b: Address, c': Cells)
    requires t.Map? && Separate(t) && Holds(c, t) && b !in c
    requires k in t.kids && Foot(t.kids[k]) == {} && !j.Obj? && !j.Arr?
    requires Frame(c, c', {t.node}) && b in c' && FieldsOf(c'[b], CopyWith(t, k, j, b).kids)
    ensures Separate(CopyWith(t, k, j, b)) && Holds(c', CopyWith(t, k, j, b))
  {
    FootInHeap(c, t);
    forall h | h in t.kids ensures Foot(t.kids[h]) <= Foot(t) && Holds(c', t.kids[h]) {
      HoldsFrame(c, c', {t.node}, t.kids[h]);
    }
  }

  /** A node whose one member is an array of two objects. */
  ghost function PairTree(a: Address, k: string, x: Tree, y: Tree): Tree { Map(a, map[k := Array([x, y])]) }

  lemma PairFoot(a: Address, k: string, x: Tree, y: Tree)
    ensures Foot(PairTree(a, k, x, y)) == {a} + Foot(x) + Foot(y)
  {
    var pair := [x, y];
    var t := PairTree(a, k, x, y);
    assert Foot(Array(pair)) == Foot(x) + Foot(y) by { assert pair[0] == x && pair[1] == y; }
    assert t.kids[k] == Array(pair);
  }

  lemma PairStands(c: Cells, a: Address, k: string, x: Tree, y: Tree)
    requires Separate(x) && Separate(y) && Foot(x) !! Foot(y) && a !in Foot(x) + Foot(y)
    requires Holds(c, x) && Holds(c, y) && a in c && c[a] == map[k := List([SlotOf(x), SlotOf(y)])]
    ensures Separate(PairTree(a, k, x, y)) && Holds(c, PairTree(a, k, x, y))
  {
    var t := PairTree(a, k, x, y);
    PairItems(c, x, y);
    assert t.kids.Keys == {k} && t.kids[k] == Array([x, y]);
  }

  lemma PairItems(c: Cells, x: Tree, y: Tree)
    requires Separate(x) && Separate(y) && Foot(x) !! Foot(y) && Holds(c, x) && Holds(c, y)
    ensures Separate(Array([x, y])) && Holds(c, Array([x, y])) && Foot(Array([x, y])) == Foot(x) + Foot(y)
    ensures SlotOf(Array([x, y])) == List([SlotOf(x), SlotOf(y)])
  {
    var pair := [x, y];
    assert pair[0] == x && pair[1] == y;
    assert SlotOf(Array(pair)).items == [SlotOf(x), SlotOf(y)];
  }

  /** Rewriting the second of the two rewrites the node. */
  lemma PairRewritten(c: Cells, a: Address, k: string, x: Tree, y: Tree, c': Cells, y': Tree)
    requires Separate(PairTree(a, k, x, y)) && Holds(c, PairTree(a, k, x, y))
    requires Rewritten(c, y, c', y')
    ensures Rewritten(c, PairTree(a, k, x, y), c', PairTree(a, k, x, y'))
  {
    var t := PairTree(a, k, x, y);
    assert t.kids[k] == Array([x, y]);
    SecondRewritten(c, x, y, c', y');
    OnlyKidRewritten(c, t, k, c', Array([x, y']));
  }

  lemma SecondRewritten(c: Cells, x: Tree, y: Tree, c': Cells, y': Tree)
    requires Separate(Array([x, y])) && Holds(c, Array([x, y])) && Rewritten(c, y, c', y')
    ensures Rewritten(c, Array([x, y]), c', Array([x, y']))
  {
    RewriteItem(c, [x, y], 1, c', y');
    assert [x, y][1 := y'] == [x, y'];
  }

  lemma OnlyKidRewritten(c: Cells, t: Tree, k: string, c': Cells, t': Tree)
    requires t.Map? && t.kids.Keys == {k} && Separate(t) && Holds(c, t) && Rewritten(c, t.kids[k], c', t')
    ensures Rewritten(c, t, c', Map(t.node, map[k := t']))
  {
    RewriteKid(c, t, k, c', t');
    OnlyKid(t.kids, k, t');
  }

  lemma OnlyKid(kids: map<string, Tree>, k: string, t: Tree)
    requires kids.Keys == {k}
    ensures kids[k := t] == map[k := t]
  {
  }

  lemma PairDoc(a: Address, k: string, x: Tree, y: Tree)
    ensures Doc(PairTree(a, k, x, y)) == Obj(map[k := Arr([Doc(x), Doc(y)])])
  {
    assert Doc(Array([x, y])).a == [Doc(x), Doc(y)];
    assert Doc(PairTree(a, k, x, y)).m == map[k := Arr([Doc(x), Doc(y)])];
  }

  /** Unlinking a node's members into a copy and wrapping the copy leaves a tree in the node's place. */
  lemma WrapStands(c: Cells, t: Tree, k: string, j: Json, b: Address, w: string, x: Tree, c': Cells)
    requires t.Map? && Separate(t) && Holds(c, t) && k in t.kids && Foot(t.kids[k]) == {} && !j.Obj? && !j.Arr?
    requires b !in c && Foot(x) !! c.Keys + {b} && Separate(x) && Holds(c', x)
    requires Frame(c, c', {t.node}) && b in c' && FieldsOf(c'[b], CopyWith(t, k, j, b).kids)
    requires t.node in c' && c'[t.node] == map[w := List([SlotOf(x), Ref(b)])]
    ensures Rewritten(c, t, c', PairTree(t.node, w, x, CopyWith(t, k, j, b)))
  {
    var y := CopyWith(t, k, j, b);
    CopyStands(c, t, k, j, b, c');
    CopyBelow(t, k, j, b);
    assert Foot(y) == Below(t) + {b};
    FootInHeap(c, t);
    assert Below(t) <= Foot(t) && t.node in Foot(t) && t.node !in Below(t);
    PairStands(c', t.node, w, x, y);
    PairFoot(t.node, w, x, y);
  }

  /** A tree is a string exactly when its slot is. */
  lemma StringSlot(t: Tree)
    requires Separate(t)
    ensures Doc(t).Str? <==> SlotOf(t).Leaf? && SlotOf(t).j.Str?
    ensures Doc(t).Str? ==> Foot(t) == {} && SlotOf(t).j == Doc(t)
  {
  }

  lemma TypePairHasNoNode(t: Tree)
    requires t.Map? && Separate(t) && Nullable(Doc(t).m)
    ensures Foot(t.kids["type"]) == {}
  {
    var pair := t.kids["type"];
    assert Doc(pair) == Doc(t).m["type"];
    assert pair.Array? && |pair.items| == 2;
    forall i | 0 <= i < 2 ensures Foot(pair.items[i]) == {} {
      assert Doc(pair.items[i]) == Doc(pair).a[i];
      StringSlot(pair.items[i]);
    }
  }

  /** What `Fix` makes of the non-null branch on its own. */
  lemma FixBranch(m: map<string, Json>)
    requires Nullable(m)
    ensures var m' := m["type" := Str(OtherType(m))];
      !Nullable(m') && Fix(Obj(m')) == Obj(FixFields(m)["type" := Str(OtherType(m))])
  {
    var m' := m["type" := Str(OtherType(m))];
    assert FixFields(m') == FixFields(m)["type" := Str(OtherType(m))];
  }

  ghost function NullTree(z: Address): Tree { Map(z, map["type" := Scalar(Str("null"))]) }

  lemma NullTreeStands(c: Cells, z: Address)
    requires z in c && c[z] == map["type" := Leaf(Str("null"))]
    ensures Separate(NullTree(z)) && Holds(c, NullTree(z)) && Foot(NullTree(z)) == {z} && Doc(NullTree(z)) == NullSchema
  {
    assert Doc(NullTree(z)).m == map["type" := Str("null")];
  }

  ghost function BranchOf(t: Tree, b: Address): Tree
    requires t.Map? && Nullable(Doc(t).m)
  {
    CopyWith(t, "type", Str(OtherType(Doc(t).m)), b)
  }

  lemma BranchDoc(t: Tree, b: Address)
    requires t.Map? && Nullable(Doc(t).m)
    ensures Doc(BranchOf(t, b)) == Obj(Doc(t).m["type" := Str(OtherType(Doc(t).m))])
  {
    assert Doc(BranchOf(t, b)).m == Doc(t).m["type" := Str(OtherType(Doc(t).m))];
  }

  /** The rewritten branch beside the null schema is what `Fix` makes of the node. */
  lemma ConvertedDoc(t: Tree, b: Address, x: Tree, y: Tree)
    requires t.Map? && Nullable(Doc(t).m) && Doc(x) == NullSchema && Doc(y) == Fix(Doc(BranchOf(t, b)))
    ensures Doc(PairTree(t.node, "anyOf", x, y)) == Fix(Doc(t))
  {
    BranchDoc(t, b);
    FixBranch(Doc(t).m);
    FixNullable(Doc(t).m);
    PairDoc(t.node, "anyOf", x, y);
  }

  /** No keyword is of two kinds. */
  lemma KeywordKinds(k: string)
    ensures MapKeyword(k) ==> !SchemaKeyword(k) && !ListKeyword(k)
    ensures SchemaKeyword(k) ==> !ListKeyword(k)
  {
  }

  lemma FixMapKeyword(k: string, t: Tree)
    requires MapKeyword(k) && Separate(t)
    ensures FixKeyword(k, Doc(t)) == if t.Map? then Obj(Edited(EachMember, Doc(t).m)) else Doc(t)
  {
    KeywordKinds(k);
    if t.Map? { assert FixKeyword(k, Doc(t)).m == Edited(EachMember, Doc(t).m); }
  }

  lemma FixListKeyword(k: string, t: Tree)
    requires ListKeyword(k) && Separate(t)
    ensures FixKeyword(k, Doc(t)) == if t.Array? then Arr(FixedItems(t.items)) else Doc(t)
  {
    KeywordKinds(k);
    if t.Array? { assert FixKeyword(k, Doc(t)).a == FixedItems(t.items); }
  }

  const EachMember: Edit := (k, j) => Fix(j)

  class Heap {
    var cells: Cells
    var next: Address

    ghost predicate Valid() reads this { forall a | a in cells :: a < next }

    constructor ()
      ensures Valid() && cells == map[]
    {
      cells, next := map[], 0;
    }

    method Allocate(fields: map<string, Slot>) returns (a: Address)
      requires Valid()
      modifies this
      ensures Valid() && a !in old(cells) && cells == old(cells)[a := fields]
    {
      a := next;
      cells, next := cells[a := fields], next + 1;
    }

    method Decode(j: Json) returns (value: Slot, ghost t: Tree)
      requires Valid()
      modifies this
      ensures Valid() && Built(old(cells), cells, t) && SlotOf(t) == value && Doc(t) == j
      decreases j, 2
    {
      match j
      case Obj(m) =>
        var node;
        node, t := DecodeMap(m, j);
        value := Ref(node);
      case Arr(a) =>
        var items: seq<Slot> := [];
        ghost var ts: seq<Tree> := [];
        for i := 0 to |a|
          invariant Valid() && |items| == |ts| == i && Built(old(cells), cells, Array(ts))
          invariant forall h | 0 <= h < i :: items[h] == SlotOf(ts[h]) && Doc(ts[h]) == a[h]
        {
          ghost var before := cells;
          var item;
          ghost var u;
          item, u := Decode(a[i]);
          BuildItem(old(cells), before, ts, cells, u);
          items, ts := items + [item], ts + [u];
        }
        value, t := List(items), Array(ts);
        assert SlotOf(t).items == items && Doc(t).a == a;
      case _ =>
        value, t := Leaf(j), Scalar(j);
    }

    method DecodeMap(m: map<string, Json>, ghost j: Json) returns (node: Address, ghost t: Tree)
      requires Valid() && j == Obj(m)
      modifies this
      ensures Valid() && Built(old(cells), cells, t) && t.Map? && t.node == node && Doc(t) == j
      decreases j, 1
    {
      node := Allocate(map[]);
      t := Map(node, map[]);
      BuildEmpty(old(cells), node);
      var rest := m.Keys;
      while rest != {}
        invariant Valid() && Built(old(cells), cells, t) && Decoded(m, rest, t) && t.node == node
        decreases rest
      {
        var k :| k in rest;
        t := DecodeMember(node, k, m, rest, j, old(cells), t);
        rest := rest - {k};
      }
      DecodedAll(m, t);
    }

    method DecodeMember(node: Address, k: string, m: map<string, Json>, ghost rest: set<string>, ghost j: Json, ghost c0: Cells, ghost t: Tree)
      returns (ghost t': Tree)
      requires Valid() && j == Obj(m) && Decoded(m, rest, t) && k in rest && t.node == node && Built(c0, cells, t)
      modifies this
      ensures Valid() && Built(c0, cells, t') && Decoded(m, rest - {k}, t') && t'.node == node
      decreases j, 0
    {
      var value;
      ghost var kid;
      value, kid := Decode(m[k]);
      BuildKid(c0, old(cells), t, k, cells, kid);
      ghost var before := cells;
      cells := cells[node := cells[node][k := value]];
      assert cells.Keys == before.Keys;
      t' := Map(node, t.kids[k := kid]);
    }

    /** A tool schema from its serialised form: decoded, then rewritten where it stands. */
    method McpToolSchema(schema: map<string, Json>) returns (node: Address, ghost t: Tree)
      requires Valid()
      modifies this
      ensures Valid() && Built(old(cells), cells, t) && t.Map? && t.node == node
      ensures Doc(t) == Fix(Obj(schema)) && PairFree(Doc(t))
    {
      FixIsPairFree(Obj(schema));
      node, t := DecodeMap(schema, Obj(schema));
      t := FixNullableTypeArrays(node, t);
    }

    method FixIfMap(value: Slot, ghost t: Tree) returns (ghost t': Tree)
      requires Valid() && Separate(t) && Holds(cells, t) && SlotOf(t) == value
      modifies this
      ensures Valid() && Rewritten(old(cells), t, cells, t')
      ensures Doc(t') == Fix(Doc(t))
      decreases Foot(t), 0
    {
      t' := t;
      if value.Ref? {
        assert t.node in Foot(t) && t.node !in Below(t);
        t' := FixNullableTypeArrays(value.node, t);
      }
    }

    method FixItems(items: seq<Slot>, ghost ts: seq<Tree>) returns (ghost ts': seq<Tree>)
      requires Valid() && Separate(Array(ts)) && Holds(cells, Array(ts)) && SlotOf(Array(ts)) == List(items)
      modifies this
      ensures Valid() && Rewritten(old(cells), Array(ts), cells, Array(ts'))
      ensures Doc(Array(ts')) == Arr(FixedItems(ts))
      decreases Foot(Array(ts)), 1
    {
      ts' := ts;
      for i := 0 to |items|
        invariant Valid() && |ts'| == |ts| == |items|
        invariant Rewritten(old(cells), Array(ts), cells, Array(ts'))
        invariant forall h | 0 <= h < i :: Doc(ts'[h]) == Fix(Doc(ts[h]))
        invariant forall h | i <= h < |ts| :: ts'[h] == ts[h]
      {
        assert SlotOf(Array(ts)).items[i] == SlotOf(ts[i]) == items[i];
        assert Foot(ts[i]) <= Foot(Array(ts));
        ghost var before := cells;
        ghost var t' := FixIfMap(items[i], ts[i]);
        RewriteItem(before, ts', i, cells, t');
        RewrittenTwice(old(cells), Array(ts), before, Array(ts'), cells, Array(ts'[i := t']));
        ts' := ts'[i := t'];
      }
      assert Doc(Array(ts')).a == FixedItems(ts);
    }

    method FixMember(node: Address, k: string, ghost c0: Cells, ghost t0: Tree, ghost done: set<string>, ghost t: Tree) returns (ghost t': Tree)
      requires Valid() && Underway(EachMember, c0, t0, done, cells, t)
      requires t0.node == node && Separate(t0) && k in t0.kids && k !in done
      modifies this
      ensures Valid() && Underway(EachMember, c0, t0, done + {k}, cells, t')
      decreases Foot(t0), 0
    {
      Untouched(EachMember, c0, t0, done, cells, t, k);
      ghost var before := cells;
      ghost var kid := FixIfMap(cells[node][k], t.kids[k]);
      Advance(EachMember, c0, t0, done, before, t, k, cells, kid);
      t' := Map(node, t.kids[k := kid]);
    }

    method FixMembers(node: Address, ghost t: Tree) returns (ghost t': Tree)
      requires Valid() && t.Map? && t.node == node && Separate(t) && Holds(cells, t)
      modifies this
      ensures Valid() && Rewritten(old(cells), t, cells, t')
      ensures Doc(t') == Obj(Edited(EachMember, Doc(t).m))
      decreases Foot(t), 1
    {
      t' := t;
      Start(EachMember, cells, t);
      var rest := cells[node].Keys;
      AllButAll(t.kids.Keys);
      while rest != {}
        invariant Valid() && rest <= t.kids.Keys
        invariant Underway(EachMember, old(cells), t, t.kids.Keys - rest, cells, t')
        decreases rest
      {
        var k :| k in rest;
        t' := FixMember(node, k, old(cells), t, t.kids.Keys - rest, t');
        OneMore(t.kids.Keys, rest, k);
        rest := rest - {k};
      }
      Finish(EachMember, old(cells), t, t.kids.Keys - rest, cells, t');
    }

    /** The value of one keyword, entered as that keyword is entered. */
    method FixValue(key: string, value: Slot, ghost t: Tree) returns (ghost t': Tree)
      requires Valid() && Separate(t) && Holds(cells, t) && SlotOf(t) == value
      modifies this
      ensures Valid() && Rewritten(old(cells), t, cells, t')
      ensures Doc(t') == FixKeyword(key, Doc(t))
      decreases Foot(t), 2
    {
      t' := t;
      KeywordKinds(key);
      if MapKeyword(key) {
        if value.Ref? {
          t' := FixMembers(value.node, t);
        }
        FixMapKeyword(key, t);
      } else if SchemaKeyword(key) {
        t' := FixIfMap(value, t);
      } else if ListKeyword(key) {
        if value.List? {
          ghost var ts := FixItems(value.items, t.items);
          t' := Array(ts);
        }
        FixListKeyword(key, t);
      }
    }

    method FixNullableTypeArrays(node: Address, ghost t: Tree) returns (ghost t': Tree)
      requires Valid() && t.Map? && t.node == node && Separate(t) && Holds(cells, t)
      modifies this
      ensures Valid() && Rewritten(old(cells), t, cells, t')
      ensures Doc(t') == Fix(Doc(t))
      decreases Below(t), if Nullable(Doc(t).m) then 8 else 5
    {
      var converted;
      converted, t' := ConvertTypeArray(node, t);
      if !converted {
        t' := FixKeywords(node, t);
      }
    }

    /** The value of each keyword in turn; a keyword that is not there is skipped. */
    method FixKeywords(node: Address, ghost t: Tree) returns (ghost t': Tree)
      requires Valid() && t.Map? && t.node == node && Separate(t) && Holds(cells, t)
      requires !Nullable(Doc(t).m)
      modifies this
      ensures Valid() && Rewritten(old(cells), t, cells, t')
      ensures Doc(t') == Fix(Doc(t))
      decreases Below(t), 4
    {
      t' := t;
      Start(FixKeyword, cells, t);
      for i := 0 to |Entered|
        invariant Valid() && Underway(FixKeyword, old(cells), t, EnteredBefore(i), cells, t')
      {
        EnteredNext(i);
        t' := FixKeywordAt(node, Entered[i], old(cells), t, EnteredBefore(i), t');
      }
      AllEntered(old(cells), t, cells, t');
    }

    method FixKeywordAt(node: Address, k: string, ghost c0: Cells, ghost t0: Tree, ghost done: set<string>, ghost t: Tree) returns (ghost t': Tree)
      requires Valid() && Underway(FixKeyword, c0, t0, done, cells, t)
      requires t0.node == node && Separate(t0) && k !in done
      modifies this
      ensures Valid() && Underway(FixKeyword, c0, t0, done + {k}, cells, t')
      decreases Below(t0), 3
    {
      t' := t;
      assert t.node == SlotOf(t).node == SlotOf(t0).node;
      if k in cells[node] {
        Untouched(FixKeyword, c0, t0, done, cells, t, k);
        ghost var before := cells;
        ghost var kid := FixValue(k, cells[node][k], t.kids[k]);
        Advance(FixKeyword, c0, t0, done, before, t, k, cells, kid);
        t' := Map(node, t.kids[k := kid]);
      }
    }

    method ConvertTypeArray(node: Address, ghost t: Tree) returns (converted: bool, ghost t': Tree)
      requires Valid() && t.Map? && t.node == node && Separate(t) && Holds(cells, t)
      modifies this
      ensures Valid() && converted == Nullable(Doc(t).m)
      ensures if converted then Rewritten(old(cells), t, cells, t') && Doc(t') == Fix(Doc(t)) else cells == old(cells)
      decreases Below(t), if Nullable(Doc(t).m) then 7 else 4
    {
      t' := t;
      var other;
      converted, other := NullablePair(cells[node], t);
      if !converted {
        return;
      }
      var branch, nullNode := Restructure(node, other);
      t' := FinishConversion(node, branch, nullNode, old(cells), t);
    }

    /** Moves the node's fields to a new branch, with the other type, and leaves the node with `anyOf` alone. */
    method Restructure(node: Address, other: string) returns (branch: Address, nullNode: Address)
      requires Valid() && node in cells
      modifies this
      ensures Valid() && branch !in old(cells) && nullNode !in old(cells) && branch != nullNode
      ensures cells.Keys == old(cells).Keys + {branch, nullNode} && Frame(old(cells), cells, {node})
      ensures cells[branch] == old(cells)[node]["type" := Leaf(Str(other))]
      ensures cells[nullNode] == map["type" := Leaf(Str("null"))]
      ensures cells[node] == map["anyOf" := List([Ref(nullNode), Ref(branch)])]
    {
      branch := Allocate(cells[node]["type" := Leaf(Str(other))]);
      nullNode := Allocate(map["type" := Leaf(Str("null"))]);
      ghost var before := cells;
      cells := cells[node := map["anyOf" := List([Ref(nullNode), Ref(branch)])]];
      assert cells.Keys == before.Keys;
    }

    /** The recursion into the branch of a node that was just converted. */
    method FinishConversion(node: Address, branch: Address, nullNode: Address, ghost c: Cells, ghost t: Tree) returns (ghost t': Tree)
      requires Valid() && t.Map? && t.node == node && Separate(t) && Holds(c, t) && Nullable(Doc(t).m)
      requires branch !in c && nullNode !in c && branch != nullNode && Frame(c, cells, {node})
      requires branch in cells && FieldsOf(cells[branch], BranchOf(t, branch).kids)
      requires nullNode in cells && cells[nullNode] == map["type" := Leaf(Str("null"))]
      requires node in cells && cells[node] == map["anyOf" := List([Ref(nullNode), Ref(branch)])]
      modifies this
      ensures Valid() && Rewritten(c, t, cells, t') && Doc(t') == Fix(Doc(t))
      decreases Below(t), 6
    {
      ghost var x, y := NullTree(nullNode), BranchOf(t, branch);
      ghost var j := Str(OtherType(Doc(t).m));
      TypePairHasNoNode(t);
      NullTreeStands(cells, nullNode);
      WrapStands(c, t, "type", j, branch, "anyOf", x, cells);
      CopyBelow(t, "type", j, branch);
      BranchDoc(t, branch);
      FixBranch(Doc(t).m);
      ghost var before := cells;
      CopyStands(c, t, "type", j, branch, cells);
      ghost var y' := FixNullableTypeArrays(branch, y);
      PairRewritten(before, node, "anyOf", x, y, cells, y');
      t' := PairTree(node, "anyOf", x, y');
      RewrittenTwice(c, t, before, PairTree(node, "anyOf", x, y), cells, t');
      ConvertedDoc(t, branch, x, y');
    }

    /** Whether `type` is a pair of "null" and another type, and that other type. */
    method NullablePair(fields: map<string, Slot>, ghost t: Tree) returns (found: bool, other: string)
      requires t.Map? && Separate(t) && FieldsOf(fields, t.kids)
      ensures found == Nullable(Doc(t).m)
      ensures found ==> other == OtherType(Doc(t).m)
    {
      other := "";
      if "type" !in fields {
        return false, other;
      }
      var pair := fields["type"];
      if !pair.List? || |pair.items| != 2 {
        return false, other;
      }
      ghost var a := Doc(t.kids["type"]).a;
      assert Doc(t).m["type"] == Arr(a);
      var nullSeen := false;
      for i := 0 to 2
        invariant |a| == |pair.items| && forall h | 0 <= h < i :: a[h].Str?
        invariant nullSeen == ((i > 0 && a[0].s == "null") || (i > 1 && a[1].s == "null"))
        invariant other == if i > 1 && a[1].s != "null" then a[1].s else if i > 0 && a[0].s != "null" then a[0].s else ""
      {
        var v := pair.items[i];
        assert v == SlotOf(t.kids["type"].items[i]) && a[i] == Doc(t.kids["type"].items[i]);
        StringSlot(t.kids["type"].items[i]);
        if !v.Leaf? || !v.j.Str? {
          return false, other;
        }
        if v.j.s == "null" {
          nullSeen := true;
        } else {
          other := v.j.s;
        }
      }
      found := nullSeen && other != "";
    }
  }
}
