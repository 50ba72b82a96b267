/**
  PATCH requests on collections and providers: an allowlist check on the text of each JSON Patch
  operation, and what the accepted operations can do to the document when they are applied.

  Pointers follow RFC 6901 (sections 3 and 4), operations RFC 6902 (sections 4.1 to 4.3).
*/
module JsonPatch {
  import opened Wrappers
  import opened Json
  import opened Text

  /******* JSON pointers *******/

  /** "~1" stands for "/" and "~0" for "~"; any other tilde is left as it is. */
  function Unescape(s: string): string {
    if |s| < 2 then s
    else if s[0] == '~' && s[1] == '1' then "/" + Unescape(s[2..])
    else if s[0] == '~' && s[1] == '0' then "~" + Unescape(s[2..])
    else s[..1] + Unescape(s[1..])
  }

  function UnescapeAll(parts: seq<string>): seq<string> {
    seq(|parts|, i requires 0 <= i < |parts| => Unescape(parts[i]))
  }

  function Tokens(path: string): Option<seq<string>> {
    if path == "" then Some([])
    else if path[0] != '/' then None
    else Some(UnescapeAll(Split(path[1..])))
  }

  /******* Applying operations *******/

  datatype Op = Add | Remove | Replace

  datatype Operation = Operation(op: Op, path: string, value: Json)

  function Digits(s: string): Option<nat> {
    if s == "" then None
    else if !('0' <= s[|s| - 1] <= '9') then None
    else
      var d := (s[|s| - 1] as int) - ('0' as int);
      if |s| == 1 then Some(d)
      else
        match Digits(s[..|s| - 1])
        case None => None
        case Some(n) => Some(10 * n + d)
  }

  /** An array index is a decimal number without leading zeros. */
  function ArrayIndex(s: string): Option<nat> {
    if |s| > 1 && s[0] == '0' then None else Digits(s)
  }

  /** The operation on the container that holds the target. */
  function AtContainer(op: Op, c: Json, key: string, value: Json): Option<Json> {
    match c
    case Obj(m) =>
      if op.Add? || (op.Replace? && key in m) then Some(Obj(m[key := value]))
      else if op.Remove? && key in m then Some(Obj(m - {key}))
      else None
    case Arr(a) =>
      if op.Add? && key == "-" then Some(Arr(a + [value]))
      else
        (match ArrayIndex(key)
         case None => None
         case Some(i) =>
           if op.Add? && i <= |a| then Some(Arr(a[..i] + [value] + a[i..]))
           else if op.Replace? && i < |a| then Some(Arr(a[i := value]))
           else if op.Remove? && i < |a| then Some(Arr(a[..i] + a[i + 1..]))
           else None)
    case _ => None
  }

  function ApplyAt(op: Op, doc: Json, tokens: seq<string>, value: Json): Option<Json>
    decreases |tokens|
  {
    if tokens == [] then (if op.Remove? then None else Some(value))
    else if |tokens| == 1 then AtContainer(op, doc, tokens[0], value)
    else
      match doc
      case Obj(m) =>
        if tokens[0] !in m then None
        else
          (match ApplyAt(op, m[tokens[0]], tokens[1..], value)
           case None => None
           case Some(inner) => Some(Obj(m[tokens[0] := inner])))
      case Arr(a) =>
        (match ArrayIndex(tokens[0])
         case None => None
         case Some(i) =>
           if i >= |a| then None
           else
             (match ApplyAt(op, a[i], tokens[1..], value)
              case None => None
              case Some(inner) => Some(Arr(a[i := inner]))))
      case _ => None
  }

  function ApplyOp(doc: Json, o: Operation): Option<Json> {
    match Tokens(o.path)
    case None => None
    case Some(tokens) => ApplyAt(o.op, doc, tokens, o.value)
  }

  /** A patch list is applied in order, or not at all. */
  function ApplyAll(doc: Json, ops: seq<Operation>): Option<Json>
    decreases |ops|
  {
    if ops == [] then Some(doc)
    else
      match ApplyOp(doc, ops[0])
      case None => None
      case Some(doc') => ApplyAll(doc', ops[1..])
  }

  /******* What the operations do, by lookup *******/

  /** RFC 6901 evaluation: the value that a pointer's tokens lead to. */
  function Get(doc: Json, tokens: seq<string>): Option<Json>
    decreases |tokens|
  {
    if tokens == [] then Some(doc)
    else if doc.Obj? && tokens[0] in doc.m then Get(doc.m[tokens[0]], tokens[1..])
    else if doc.Arr? && ArrayIndex(tokens[0]).Some? && ArrayIndex(tokens[0]).value < |doc.a| then
      Get(doc.a[ArrayIndex(tokens[0]).value], tokens[1..])
    else None
  }

  /** An operation acts on the container that its last token is looked up in. */
  lemma {:induction false} ActsOnContainer(op: Op, doc: Json, parent: seq<string>, key: string, value: Json)
    ensures
      var r := ApplyAt(op, doc, parent + [key], value);
      && (r.Some? <==> Get(doc, parent).Some? && AtContainer(op, Get(doc, parent).value, key, value).Some?)
      && (r.Some? ==> Get(r.value, parent) == AtContainer(op, Get(doc, parent).value, key, value))
    decreases |parent|
  {
    if parent != [] {
      assert (parent + [key])[1..] == parent[1..] + [key];
      if doc.Obj? && parent[0] in doc.m {
        ActsOnContainer(op, doc.m[parent[0]], parent[1..], key, value);
      } else if doc.Arr? && ArrayIndex(parent[0]).Some? && ArrayIndex(parent[0]).value < |doc.a| {
        ActsOnContainer(op, doc.a[ArrayIndex(parent[0]).value], parent[1..], key, value);
      }
    }
  }

  /** On an object: add and replace set the member, remove takes it away, and no other member changes. */
  lemma ObjectEffect(op: Op, m: map<string, Json>, key: string, value: Json)
    ensures
      var r := AtContainer(op, Obj(m), key, value);
      && (r.Some? <==> op == Add || key in m)
      && (r.Some? ==>
            && r.value.Obj?
            && (forall k | k != key :: (k in r.value.m <==> k in m) && (k in m ==> r.value.m[k] == m[k]))
            && (op == Remove ==> key !in r.value.m)
            && (op != Remove ==> key in r.value.m && r.value.m[key] == value))
  {
  }

  /** Where an array operation acts: at an index inside the array, or, to add, also at its end. */
  ghost predicate Position(op: Op, a: seq<Json>, key: string, i: int) {
    if op == Add && key == "-" then i == |a|
    else ArrayIndex(key).Some? && ArrayIndex(key).value == i && (i < |a| || (op == Add && i == |a|))
  }

  /** `b` is `a` with room made for `value` at `i`, or the gap at `i` closed, or `value` at `i`. */
  ghost predicate ElementsMoved(op: Op, a: seq<Json>, i: int, value: Json, b: seq<Json>) {
    && 0 <= i <= |a|
    && |b| == (if op == Add then |a| + 1 else if op == Remove then |a| - 1 else |a|)
    && (op != Remove ==> i < |b| && b[i] == value)
    && (forall j | 0 <= j < i && j < |b| :: b[j] == a[j])
    && (op == Add ==> forall j | i <= j < |a| :: b[j + 1] == a[j])
    && (op == Remove ==> forall j | i < j < |a| :: b[j - 1] == a[j])
    && (op == Replace ==> forall j | i < j < |a| :: b[j] == a[j])
  }

  function Changed(op: Op, a: seq<Json>, i: nat, value: Json): seq<Json>
    requires i < |a| || (op == Add && i == |a|)
  {
    match op
    case Add => a[..i] + [value] + a[i..]
    case Remove => a[..i] + a[i + 1..]
    case Replace => a[i := value]
  }

  lemma ChangedElements(op: Op, a: seq<Json>, i: nat, value: Json)
    requires i < |a| || (op == Add && i == |a|)
    ensures ElementsMoved(op, a, i, value, Changed(op, a, i, value))
  {
  }

  /** On an array: add makes room, remove closes the gap, replace changes one element. */
  lemma ArrayEffect(op: Op, a: seq<Json>, key: string, value: Json)
    ensures AtContainer(op, Arr(a), key, value).Some? <==> exists i :: Position(op, a, key, i)
    ensures forall i | Position(op, a, key, i) ::
      var r := AtContainer(op, Arr(a), key, value);
      r.Some? && r.value.Arr? && ElementsMoved(op, a, i, value, r.value.a)
  {
    forall i | Position(op, a, key, i) ensures AtContainer(op, Arr(a), key, value) == Some(Arr(Changed(op, a, i, value))) {
      if op == Add && i == |a| { assert a[..i] + [value] + a[i..] == a + [value]; }
    }
    forall i | Position(op, a, key, i) ensures ElementsMoved(op, a, i, value, Changed(op, a, i, value)) {
      ChangedElements(op, a, i, value);
    }
    if AtContainer(op, Arr(a), key, value).Some? {
      if op == Add && key == "-" {
        assert Position(op, a, key, |a|);
      } else {
        assert Position(op, a, key, ArrayIndex(key).value);
      }
    }
  }

  /** A replacement, wherever it is, can be read back where it was made. */
  lemma ReplacementIsRead(doc: Json, parent: seq<string>, key: string, value: Json)
    requires ApplyAt(Replace, doc, parent + [key], value).Some?
    ensures Get(ApplyAt(Replace, doc, parent + [key], value).value, parent + [key]) == Some(value)
    ensures Get(doc, parent + [key]).Some?
  {
    var doc' := ApplyAt(Replace, doc, parent + [key], value).value;
    ActsOnContainer(Replace, doc, parent, key, value);
    GetLast(doc, parent, key);
    GetLast(doc', parent, key);
  }

  lemma {:induction false} GetLast(doc: Json, parent: seq<string>, key: string)
    ensures Get(doc, parent + [key]) == if Get(doc, parent).Some? then Get(Get(doc, parent).value, [key]) else None
    decreases |parent|
  {
    if parent != [] {
      assert (parent + [key])[1..] == parent[1..] + [key];
      if doc.Obj? && parent[0] in doc.m {
        GetLast(doc.m[parent[0]], parent[1..], key);
      } else if doc.Arr? && ArrayIndex(parent[0]).Some? && ArrayIndex(parent[0]).value < |doc.a| {
        GetLast(doc.a[ArrayIndex(parent[0]).value], parent[1..], key);
      }
    } else {
      assert parent + [key] == [key];
    }
  }

  /** The two tokens lead to different places in `doc`. */
  predicate Apart(doc: Json, x: string, y: string) {
    if doc.Arr? then ArrayIndex(x) != ArrayIndex(y) else x != y
  }

  /** What lies off the way to the container is as it was. */
  lemma {:induction false} ElsewhereKept(op: Op, doc: Json, tokens: seq<string>, value: Json, way: seq<string>, x: string, rest: seq<string>)
    requires |way| < |tokens| - 1 && tokens[..|way|] == way && ApplyAt(op, doc, tokens, value).Some?
    requires Get(doc, way).Some? && Apart(Get(doc, way).value, tokens[|way|], x)
    ensures Get(ApplyAt(op, doc, tokens, value).value, way + [x] + rest) == Get(doc, way + [x] + rest)
    decreases |way|
  {
    var path := way + [x] + rest;
    if way == [] {
      assert path[0] == x && path[1..] == rest;
    } else {
      assert tokens[0] == way[0] && path[0] == way[0];
      assert path[1..] == way[1..] + [x] + rest && tokens[1..][..|way| - 1] == way[1..];
      if doc.Obj? {
        ElsewhereKept(op, doc.m[way[0]], tokens[1..], value, way[1..], x, rest);
      } else {
        ElsewhereKept(op, doc.a[ArrayIndex(way[0]).value], tokens[1..], value, way[1..], x, rest);
      }
    }
  }

  /******* Pointers and their text *******/

  /** RFC 6901, section 4, read backwards: "~" is written "~0" and "/" is written "~1". */
  function EscapeToken(s: string): string {
    if s == "" then ""
    else (if s[0] == '~' then "~0" else if s[0] == '/' then "~1" else [s[0]]) + EscapeToken(s[1..])
  }

  lemma {:induction false} TokenRoundTrip(s: string)
    ensures Unescape(EscapeToken(s)) == s && '/' !in EscapeToken(s)
  {
    if s != "" {
      TokenRoundTrip(s[1..]);
      var rest := EscapeToken(s[1..]);
      if s[0] == '~' {
        assert ("~0" + rest)[2..] == rest;
      } else if s[0] == '/' {
        assert ("~1" + rest)[2..] == rest;
      } else {
        assert ([s[0]] + rest)[1..] == rest && ([s[0]] + rest)[..1] == [s[0]];
        UnescapePlainHead(s[0], rest);
      }
    }
  }

  lemma UnescapePlainHead(c: char, rest: string)
    requires c != '~'
    ensures Unescape([c] + rest) == [c] + Unescape(rest)
  {
    var s := [c] + rest;
    assert s[..1] == [c] && s[1..] == rest;
    if rest == "" { assert s == [c]; }
  }

  /** The text of a pointer after its first slash. */
  function PointerText(tokens: seq<string>): string
    requires tokens != []
  {
    if |tokens| == 1 then EscapeToken(tokens[0]) else EscapeToken(tokens[0]) + "/" + PointerText(tokens[1..])
  }

  lemma {:induction false} PointerTextSplits(tokens: seq<string>)
    requires tokens != []
    ensures |Split(PointerText(tokens))| == |tokens|
    ensures forall i | 0 <= i < |tokens| :: Split(PointerText(tokens))[i] == EscapeToken(tokens[i])
  {
    TokenRoundTrip(tokens[0]);
    if |tokens| == 1 {
      SplitPlain(EscapeToken(tokens[0]));
    } else {
      PointerTextSplits(tokens[1..]);
      SplitCons(EscapeToken(tokens[0]), PointerText(tokens[1..]));
    }
  }

  /** Every list of tokens has a pointer, and reading it gives the tokens back. */
  lemma PointerRoundTrip(tokens: seq<string>)
    requires tokens != []
    ensures Tokens("/" + PointerText(tokens)) == Some(tokens)
  {
    var text := PointerText(tokens);
    assert ("/" + text)[1..] == text;
    PointerTextSplits(tokens);
    forall i | 0 <= i < |tokens| ensures UnescapeAll(Split(text))[i] == tokens[i] { TokenRoundTrip(tokens[i]); }
    assert UnescapeAll(Split(text)) == tokens;
  }

  /** The decimal numeral of an index. */
  function Decimal(n: nat): string {
    var last := ['0' + (n % 10) as char];
    if n < 10 then last else Decimal(n / 10) + last
  }

  lemma {:induction false} DecimalIsIndex(n: nat)
    ensures |Decimal(n)| > 0 && Digits(Decimal(n)) == Some(n) && (n > 0 ==> Decimal(n)[0] != '0')
    ensures ArrayIndex(Decimal(n)) == Some(n)
  {
    if n >= 10 {
      DecimalIsIndex(n / 10);
      var s := Decimal(n);
      assert s[..|s| - 1] == Decimal(n / 10);
      assert s[0] == Decimal(n / 10)[0];
    }
  }

  lemma {:induction false} DigitsAreDecimal(s: string)
    requires Digits(s).Some? && (|s| == 1 || s[0] != '0')
    ensures s == Decimal(Digits(s).value)
  {
    var n := |s| - 1;
    var d := (s[n] as int) - ('0' as int);
    if |s| > 1 {
      DigitsAreDecimal(s[..n]);
      var k := Digits(s[..n]).value;
      assert k > 0 by { assert s[..n][0] == s[0]; }
      assert Digits(s).value == 10 * k + d && (10 * k + d) / 10 == k && (10 * k + d) % 10 == d;
      assert s == s[..n] + [s[n]];
    } else {
      assert s == [s[0]];
    }
  }

  /** The array indices are exactly the decimal numerals without leading zeros. */
  lemma IndexExactly(s: string, n: nat)
    ensures ArrayIndex(s) == Some(n) <==> s == Decimal(n)
  {
    DecimalIsIndex(n);
    if ArrayIndex(s) == Some(n) { DigitsAreDecimal(s); }
  }

  /** A pointer without tokens is the whole document: it can be replaced and not removed. */
  lemma WholeDocument(doc: Json, value: Json)
    ensures ApplyAt(Add, doc, [], value) == Some(value) && ApplyAt(Replace, doc, [], value) == Some(value)
    ensures ApplyAt(Remove, doc, [], value).None? && Get(doc, []) == Some(doc)
  {
  }

  /******* The allowlist check *******/

  datatype Entry = Entry(path: string, op: Op, prefix: bool)

  predicate Covers(e: Entry, op: Op, path: string) {
    e.op == op && (e.path == path || (e.prefix && HasPrefix(path, e.path + "/")))
  }

  predicate Allowed(entries: seq<Entry>, op: Op, path: string) {
    exists i :: 0 <= i < |entries| && Covers(entries[i], op, path)
  }

  method IsAllowedPatch(entries: seq<Entry>, op: Op, path: string) returns (ok: bool)
    ensures ok == Allowed(entries, op, path)
  {
    for i := 0 to |entries|
      invariant forall j | 0 <= j < i :: !(entries[j].path == path && entries[j].op == op)
    {
      if entries[i].path == path && entries[i].op == op {
        assert Covers(entries[i], op, path);
        return true;
      }
    }
    for i := 0 to |entries|
      invariant forall j | 0 <= j < i :: !Covers(entries[j], op, path)
    {
      if entries[i].prefix && entries[i].op == op && HasPrefix(path, entries[i].path + "/") {
        assert Covers(entries[i], op, path);
        return true;
      }
    }
    return false;
  }

  /** An operation as it arrives: `op` is still text. */
  datatype RawOperation = RawOperation(op: string, path: string, value: Json)

  function ParseOp(op: string): Option<Op> {
    if op == "add" then Some(Add) else if op == "remove" then Some(Remove) else if op == "replace" then Some(Replace) else None
  }

  predicate Acceptable(entries: seq<Entry>, r: RawOperation) {
    && r.path != ""
    && ((r.op == "add" && Allowed(entries, Add, r.path)) || (r.op == "remove" && Allowed(entries, Remove, r.path)) ||
        (r.op == "replace" && Allowed(entries, Replace, r.path)))
  }

  predicate Parses(r: RawOperation, o: Operation) {
    && ((r.op == "add" && o.op.Add?) || (r.op == "remove" && o.op.Remove?) || (r.op == "replace" && o.op.Replace?))
    && r.path == o.path && r.value == o.value
  }

  datatype Verdict = Verified(ops: seq<Operation>) | InvalidOperation(i: nat) | EmptyPath(i: nat) | Unallowed(i: nat)

  method VerifyPatches(patches: seq<RawOperation>, entries: seq<Entry>) returns (v: Verdict)
    ensures v.Verified? <==> forall i | 0 <= i < |patches| :: Acceptable(entries, patches[i])
    ensures v.Verified? ==> |v.ops| == |patches| && forall i | 0 <= i < |patches| :: Parses(patches[i], v.ops[i])
    ensures v.Verified? ==> AllAllowed(entries, v.ops)
    ensures !v.Verified? ==> v.i < |patches| && !Acceptable(entries, patches[v.i]) && forall j | 0 <= j < v.i :: Acceptable(entries, patches[j])
  {
    var ops: seq<Operation> := [];
    for i := 0 to |patches|
      invariant forall j | 0 <= j < i :: Acceptable(entries, patches[j])
      invariant |ops| == i && forall j | 0 <= j < i :: Parses(patches[j], ops[j])
    {
      var op := ParseOp(patches[i].op);
      if op == None {
        return InvalidOperation(i);
      }
      if patches[i].path == "" {
        return EmptyPath(i);
      }
      var ok := IsAllowedPatch(entries, op.value, patches[i].path);
      if !ok {
        return Unallowed(i);
      }
      ops := ops + [Operation(op.value, patches[i].path, patches[i].value)];
    }
    return Verified(ops);
  }

  /******* Text check and tree position are the same thing *******/

  /** No slash and no escape: the name reads the same as text and as a pointer token. */
  predicate Plain(s: string) { '/' !in s && '~' !in s }

  /** An entry names one top-level member. */
  predicate NamesMember(e: Entry) { |e.path| > 0 && e.path[0] == '/' && Plain(e.path[1..]) }

  function Root(e: Entry): string
    requires NamesMember(e)
  {
    e.path[1..]
  }

  lemma {:induction false} UnescapePlain(s: string)
    ensures Plain(s) ==> Unescape(s) == s
    ensures Plain(Unescape(s)) ==> Unescape(s) == s
    decreases |s|
  {
    if |s| >= 2 {
      if s[0] == '~' && (s[1] == '1' || s[1] == '0') {
        assert Unescape(s)[0] == '/' || Unescape(s)[0] == '~';
      } else {
        UnescapePlain(s[1..]);
        var t := Unescape(s[1..]);
        assert Plain(s[..1] + t) ==> Plain(t) by {
          forall c | c in t ensures c in s[..1] + t {}
        }
        assert s == s[..1] + s[1..];
      }
    }
  }

  lemma SplitHead(s: string)
    ensures Split(s)[0] == s[..IndexOf(s, '/')]
    ensures |Split(s)| == 1 <==> IndexOf(s, '/') == |s|
  {
    assert s[..|s|] == s;
  }

  /** The member that a non-empty pointer starts from, if that member's name is plain. */
  lemma HeadToken(path: string, root: string)
    requires path != "" && path[0] == '/' && Plain(root)
    ensures
      var rest := path[1..];
      var i := IndexOf(rest, '/');
      && Tokens(path).Some? && |Tokens(path).value| >= 1
      && (Tokens(path).value[0] == root <==> rest[..i] == root)
      && (|Tokens(path).value| == 1 <==> i == |rest|)
  {
    var rest := path[1..];
    SplitHead(rest);
    UnescapePlain(rest[..IndexOf(rest, '/')]);
    UnescapePlain(root);
  }

  /** Exact text, or text plus a slash, in terms of the first slash of the rest. */
  lemma TextShape(root: string, rest: string)
    requires Plain(root)
    ensures
      var i := IndexOf(rest, '/');
      && (rest == root <==> rest[..i] == root && i == |rest|)
      && (HasPrefix(rest, root + "/") <==> rest[..i] == root && i < |rest|)
  {
    ExactShape(root, rest);
    PrefixShape(root, rest);
  }

  lemma ExactShape(root: string, rest: string)
    requires Plain(root)
    ensures
      var i := IndexOf(rest, '/');
      rest == root <==> rest[..i] == root && i == |rest|
  {
    assert rest[..|rest|] == rest;
    if rest == root { PathIsRoot(root, rest); }
  }

  lemma PrefixShape(root: string, rest: string)
    requires Plain(root)
    ensures
      var i := IndexOf(rest, '/');
      HasPrefix(rest, root + "/") <==> rest[..i] == root && i < |rest|
  {
    var i := IndexOf(rest, '/');
    if HasPrefix(rest, root + "/") { PrefixIsRoot(root, rest); }
    if rest[..i] == root && i < |rest| { RootThenSlash(root, rest, i); }
  }

  lemma RootThenSlash(root: string, rest: string, i: nat)
    requires i < |rest| && rest[i] == '/' && rest[..i] == root
    ensures HasPrefix(rest, root + "/")
  {
    assert rest[..i + 1] == rest[..i] + [rest[i]];
  }

  lemma PrefixCons(c: char, s: string, p: string)
    ensures HasPrefix([c] + s, [c] + p) <==> HasPrefix(s, p)
  {
    if |p| <= |s| {
      assert ([c] + s)[..|p| + 1] == [c] + s[..|p|];
      assert ([c] + s[..|p|])[1..] == s[..|p|] && ([c] + p)[1..] == p;
    }
  }

  /**
    For entries that name one member, the textual exact-or-prefix test decides exactly whether the
    pointer leads to that member, or (for a prefix entry) to somewhere inside it.
  */
  lemma CoversIsPosition(e: Entry, op: Op, path: string)
    requires NamesMember(e)
    ensures Covers(e, op, path) <==>
            e.op == op && path != "" && Tokens(path).Some? &&
            var t := Tokens(path).value;
            t[0] == Root(e) && (|t| == 1 || e.prefix)
  {
    var root := Root(e);
    assert e.path == ['/'] + root;
    if path != "" && path[0] == '/' {
      var rest := path[1..];
      assert path == ['/'] + rest;
      HeadToken(path, root);
      TextShape(root, rest);
      assert e.path == path <==> root == rest;
      assert e.path + "/" == ['/'] + (root + "/");
      PrefixCons('/', rest, root + "/");
    }
  }

  lemma PathIsRoot(root: string, rest: string)
    requires Plain(root) && rest == root
    ensures IndexOf(rest, '/') == |rest| && rest[..|rest|] == root
  {
    var i := IndexOf(rest, '/');
  }

  lemma PrefixIsRoot(root: string, rest: string)
    requires Plain(root) && |root| < |rest| && rest[..|root| + 1] == root + "/"
    ensures IndexOf(rest, '/') == |root| && rest[..|root|] == root
  {
    var i := IndexOf(rest, '/');
    assert rest[..|root| + 1][|root|] == '/';
    assert rest[..|root|] == rest[..|root| + 1][..|root|];
    assert forall j | 0 <= j < |root| :: rest[..|root|][j] == rest[j] && root[j] in root;
  }

  /******* What accepted patches can touch *******/

  ghost predicate WellFormed(entries: seq<Entry>) { forall e | e in entries :: NamesMember(e) }

  /** Some entry allows `op` at or inside member `k`. */
  ghost predicate Grants(entries: seq<Entry>, op: Op, k: string)
    requires WellFormed(entries)
  {
    exists e :: e in entries && e.op == op && Root(e) == k
  }

  ghost predicate Listed(entries: seq<Entry>, k: string)
    requires WellFormed(entries)
  {
    Grants(entries, Add, k) || Grants(entries, Remove, k) || Grants(entries, Replace, k)
  }

  ghost predicate AllAllowed(entries: seq<Entry>, ops: seq<Operation>) {
    forall i | 0 <= i < |ops| :: Allowed(entries, ops[i].op, ops[i].path)
  }

  /** What one allowed operation can do to the members of an object. */
  lemma OpConfined(entries: seq<Entry>, m: map<string, Json>, o: Operation, k: string)
    requires WellFormed(entries) && Allowed(entries, o.op, o.path) && ApplyOp(Obj(m), o).Some?
    ensures ApplyOp(Obj(m), o).value.Obj?
    ensures
      var m' := ApplyOp(Obj(m), o).value.m;
      && (!Listed(entries, k) ==> (k in m' <==> k in m) && (k in m ==> m'[k] == m[k]))
      && (!Grants(entries, Remove, k) && k in m ==> k in m')
      && (!Grants(entries, Add, k) && k !in m ==> k !in m')
  {
    var i :| 0 <= i < |entries| && Covers(entries[i], o.op, o.path);
    CoversIsPosition(entries[i], o.op, o.path);
    assert entries[i] in entries;
    assert Grants(entries, o.op, Tokens(o.path).value[0]);
  }

  /**
    Confinement over a whole accepted patch list: members outside the allowlist keep their values,
    a member without a remove entry is never removed, one without an add entry never appears.
  */
  lemma {:induction false} PatchConfined(entries: seq<Entry>, m: map<string, Json>, ops: seq<Operation>, k: string)
    requires WellFormed(entries) && AllAllowed(entries, ops) && ApplyAll(Obj(m), ops).Some?
    ensures ApplyAll(Obj(m), ops).value.Obj?
    ensures
      var m' := ApplyAll(Obj(m), ops).value.m;
      && (!Listed(entries, k) ==> (k in m' <==> k in m) && (k in m ==> m'[k] == m[k]))
      && (!Grants(entries, Remove, k) && k in m ==> k in m')
      && (!Grants(entries, Add, k) && k !in m ==> k !in m')
    decreases |ops|
  {
    if ops != [] {
      OpConfined(entries, m, ops[0], k);
      PatchConfined(entries, ApplyOp(Obj(m), ops[0]).value.m, ops[1..], k);
    }
  }

  /** Replacing something inside an array never changes how many elements the array has. */
  lemma ReplaceInsideKeepsLength(m: map<string, Json>, tokens: seq<string>, value: Json)
    requires |tokens| >= 2 && tokens[0] in m && m[tokens[0]].Arr?
    requires ApplyAt(Replace, Obj(m), tokens, value).Some?
    ensures
      var r := ApplyAt(Replace, Obj(m), tokens, value).value;
      r.Obj? && r.m.Keys == m.Keys && r.m[tokens[0]].Arr? && |r.m[tokens[0]].a| == |m[tokens[0]].a|
  {
    var inner := ApplyAt(Replace, m[tokens[0]], tokens[1..], value);
    assert inner.Some?;
  }

  /******* The two allowlists *******/

  type PlainName = s: string | '/' !in s && '~' !in s witness ""

  /** The entries of one member: at most one per operation, in the order add, remove, replace. */
  datatype Rule = Rule(name: PlainName, ops: set<Op>, prefix: bool)

  function EntryIf(r: Rule, op: Op): seq<Entry> {
    if op in r.ops then [Entry("/" + r.name, op, r.prefix)] else []
  }

  function RuleEntries(r: Rule): seq<Entry> { EntryIf(r, Add) + EntryIf(r, Remove) + EntryIf(r, Replace) }

  function Entries(rules: seq<Rule>): seq<Entry> {
    if rules == [] then [] else RuleEntries(rules[0]) + Entries(rules[1..])
  }

  const CollectionText := [
    Rule("name", {Replace}, false),
    Rule("description", {Add, Remove, Replace}, false),
    Rule("tags", {Add, Remove, Replace}, true),
    Rule("custom", {Add, Remove, Replace}, true)]

  const CollectionContent := [
    Rule("category", {Replace}, false),
    Rule("benchmarks", {Replace}, true),
    Rule("pass_criteria", {Add, Remove, Replace}, false),
    Rule("domains", {Add, Remove, Replace}, true),
    Rule("tasks", {Add, Remove, Replace}, true)]

  const CollectionLabels := [
    Rule("modalities", {Add, Remove, Replace}, true),
    Rule("industries", {Add, Remove, Replace}, true),
    Rule("evaluation_targets", {Add, Remove, Replace}, true),
    Rule("pinned_order", {Add, Replace}, false)]

  const CollectionRules := CollectionText + CollectionContent + CollectionLabels

  const ProviderText := [
    Rule("name", {Replace}, false),
    Rule("title", {Add, Remove, Replace}, false),
    Rule("description", {Add, Remove, Replace}, false),
    Rule("tags", {Add, Remove, Replace}, true)]

  const ProviderContent := [
    Rule("custom", {Add, Remove, Replace}, true),
    Rule("runtime", {Replace}, true),
    Rule("benchmarks", {Replace}, true),
    Rule("agent", {Add, Remove, Replace}, true)]

  const ProviderRules := ProviderText + ProviderContent

  predicate RuleGrants(rules: seq<Rule>, op: Op, k: string) {
    exists r :: r in rules && r.name == k && op in r.ops
  }

  lemma RuleEntryFacts(r: Rule, e: Entry)
    ensures e in RuleEntries(r) <==> e.path == "/" + r.name && e.op in r.ops && e.prefix == r.prefix
    ensures e in RuleEntries(r) ==> NamesMember(e) && Root(e) == r.name
  {
    assert ("/" + r.name)[1..] == r.name;
    forall op ensures e in EntryIf(r, op) <==> op in r.ops && e == Entry("/" + r.name, op, r.prefix) {}
    assert e in RuleEntries(r) <==> e in EntryIf(r, Add) || e in EntryIf(r, Remove) || e in EntryIf(r, Replace);
    assert e.op == Add || e.op == Remove || e.op == Replace;
    assert e.path == "/" + r.name && e.prefix == r.prefix <==> e == Entry("/" + r.name, e.op, r.prefix);
  }

  lemma {:induction false} EntryOrigin(rules: seq<Rule>, e: Entry)
    ensures e in Entries(rules) <==> exists r :: r in rules && e in RuleEntries(r)
  {
    if rules != [] {
      EntryOrigin(rules[1..], e);
      assert forall r :: r in rules <==> r == rules[0] || r in rules[1..];
    }
  }

  /** The entries that a table of rules produces grant exactly what the table says. */
  lemma EntriesGrant(rules: seq<Rule>, op: Op, k: string)
    ensures WellFormed(Entries(rules))
    ensures Grants(Entries(rules), op, k) <==> RuleGrants(rules, op, k)
  {
    forall e | e in Entries(rules)
      ensures NamesMember(e) && exists r :: r in rules && r.name == Root(e) && e.op in r.ops
    {
      EntryOrigin(rules, e);
      var r :| r in rules && e in RuleEntries(r);
      RuleEntryFacts(r, e);
    }
    if RuleGrants(rules, op, k) {
      var r :| r in rules && r.name == k && op in r.ops;
      var e := Entry("/" + k, op, r.prefix);
      RuleEntryFacts(r, e);
      EntryOrigin(rules, e);
      assert e in Entries(rules) && e.op == op && Root(e) == k;
    }
  }

  /** Confinement in terms of a table of rules. */
  lemma RulesConfine(rules: seq<Rule>, m: map<string, Json>, ops: seq<Operation>, k: string)
    requires AllAllowed(Entries(rules), ops) && ApplyAll(Obj(m), ops).Some?
    ensures ApplyAll(Obj(m), ops).value.Obj?
    ensures
      var m' := ApplyAll(Obj(m), ops).value.m;
      && (Unlisted(rules, k) ==> (k in m' <==> k in m) && (k in m ==> m'[k] == m[k]))
      && (ReplaceOnly(rules, k) ==> (k in m' <==> k in m))
      && (Irremovable(rules, k) && k in m ==> k in m')
  {
    EntriesGrant(rules, Add, k);
    EntriesGrant(rules, Remove, k);
    EntriesGrant(rules, Replace, k);
    PatchConfined(Entries(rules), m, ops, k);
  }

  /** `k` is not listed, or listed with replace only, or listed without remove. */
  predicate Unlisted(rules: seq<Rule>, k: string) { forall r | r in rules :: r.name != k }

  predicate ReplaceOnly(rules: seq<Rule>, k: string) { forall r | r in rules && r.name == k :: r.ops == {Replace} }

  predicate Irremovable(rules: seq<Rule>, k: string) { forall r | r in rules && r.name == k :: Remove !in r.ops }

  lemma CollectionTextTable(rules: seq<Rule>)
    requires rules == CollectionText
    ensures Unlisted(rules, "curation_order") && Unlisted(rules, "pinned_order")
    ensures ReplaceOnly(rules, "name") && Unlisted(rules, "category") && Unlisted(rules, "benchmarks")
  {
  }

  lemma CollectionContentTable(rules: seq<Rule>)
    requires rules == CollectionContent
    ensures Unlisted(rules, "curation_order") && Unlisted(rules, "pinned_order")
    ensures Unlisted(rules, "name") && ReplaceOnly(rules, "category") && ReplaceOnly(rules, "benchmarks")
  {
  }

  lemma CollectionLabelsTable(rules: seq<Rule>)
    requires rules == CollectionLabels
    ensures Unlisted(rules, "curation_order") && Irremovable(rules, "pinned_order")
    ensures Unlisted(rules, "name") && Unlisted(rules, "category") && Unlisted(rules, "benchmarks")
  {
  }

  lemma CollectionTable(rules: seq<Rule>)
    requires rules == CollectionRules
    ensures Unlisted(rules, "curation_order") && Irremovable(rules, "pinned_order")
    ensures ReplaceOnly(rules, "name") && ReplaceOnly(rules, "category") && ReplaceOnly(rules, "benchmarks")
  {
    CollectionTextTable(CollectionText);
    CollectionContentTable(CollectionContent);
    CollectionLabelsTable(CollectionLabels);
    assert forall r | r in rules :: r in CollectionText || r in CollectionContent || r in CollectionLabels;
  }

  lemma ProviderTextTable(rules: seq<Rule>)
    requires rules == ProviderText
    ensures ReplaceOnly(rules, "name") && Unlisted(rules, "runtime") && Unlisted(rules, "benchmarks")
  {
  }

  lemma ProviderContentTable(rules: seq<Rule>)
    requires rules == ProviderContent
    ensures Unlisted(rules, "name") && ReplaceOnly(rules, "runtime") && ReplaceOnly(rules, "benchmarks")
  {
  }

  lemma ProviderTable(rules: seq<Rule>)
    requires rules == ProviderRules
    ensures ReplaceOnly(rules, "name") && ReplaceOnly(rules, "runtime") && ReplaceOnly(rules, "benchmarks")
  {
    ProviderTextTable(ProviderText);
    ProviderContentTable(ProviderContent);
    assert forall r | r in rules :: r in ProviderText || r in ProviderContent;
  }

  /**
    A collection patch never touches curation_order, never removes and never introduces the name,
    the category or the benchmarks, and never removes pinned_order.
  */
  lemma CollectionPatchSafe(rules: seq<Rule>, m: map<string, Json>, ops: seq<Operation>, k: string)
    requires rules == CollectionRules && AllAllowed(Entries(rules), ops) && ApplyAll(Obj(m), ops).Some?
    ensures ApplyAll(Obj(m), ops).value.Obj?
    ensures
      var m' := ApplyAll(Obj(m), ops).value.m;
      && (k == "curation_order" ==> (k in m' <==> k in m) && (k in m ==> m'[k] == m[k]))
      && (k in {"name", "category", "benchmarks"} ==> (k in m' <==> k in m))
      && (k == "pinned_order" && k in m ==> k in m')
  {
    CollectionTable(rules);
    RulesConfine(rules, m, ops, k);
  }

  /** A provider patch never removes and never introduces the name, the runtime or the benchmarks. */
  lemma ProviderPatchSafe(rules: seq<Rule>, m: map<string, Json>, ops: seq<Operation>, k: string)
    requires rules == ProviderRules && AllAllowed(Entries(rules), ops) && ApplyAll(Obj(m), ops).Some?
    requires k in {"name", "runtime", "benchmarks"}
    ensures ApplyAll(Obj(m), ops).value.Obj?
    ensures k in ApplyAll(Obj(m), ops).value.m <==> k in m
  {
    ProviderTable(rules);
    RulesConfine(rules, m, ops, k);
  }

  /******* The tables in full *******/

  predicate RuleCovers(rules: seq<Rule>, k: string) { exists r :: r in rules && r.name == k && r.prefix }

  lemma CollectionTextGrants(rules: seq<Rule>, k: string)
    requires rules == CollectionText
    ensures RuleGrants(rules, Replace, k) <==> k in {"name", "description", "tags", "custom"}
    ensures RuleGrants(rules, Add, k) <==> k in {"description", "tags", "custom"}
    ensures RuleGrants(rules, Remove, k) <==> k in {"description", "tags", "custom"}
    ensures RuleCovers(rules, k) <==> k in {"tags", "custom"}
  {
    assert rules[0] in rules && rules[1] in rules && rules[2] in rules && rules[3] in rules;
  }

  lemma CollectionContentGrants(rules: seq<Rule>, k: string)
    requires rules == CollectionContent
    ensures RuleGrants(rules, Replace, k) <==> k in {"category", "benchmarks", "pass_criteria", "domains", "tasks"}
    ensures RuleGrants(rules, Add, k) <==> k in {"pass_criteria", "domains", "tasks"}
    ensures RuleGrants(rules, Remove, k) <==> k in {"pass_criteria", "domains", "tasks"}
    ensures RuleCovers(rules, k) <==> k in {"benchmarks", "domains", "tasks"}
  {
    assert rules[0] in rules && rules[1] in rules && rules[2] in rules && rules[3] in rules && rules[4] in rules;
  }

  lemma CollectionLabelsGrants(rules: seq<Rule>, k: string)
    requires rules == CollectionLabels
    ensures RuleGrants(rules, Replace, k) <==> k in {"modalities", "industries", "evaluation_targets", "pinned_order"}
    ensures RuleGrants(rules, Add, k) <==> k in {"modalities", "industries", "evaluation_targets", "pinned_order"}
    ensures RuleGrants(rules, Remove, k) <==> k in {"modalities", "industries", "evaluation_targets"}
    ensures RuleCovers(rules, k) <==> k in {"modalities", "industries", "evaluation_targets"}
  {
    assert rules[0] in rules && rules[1] in rules && rules[2] in rules && rules[3] in rules;
  }

  lemma ProviderTextGrants(rules: seq<Rule>, k: string)
    requires rules == ProviderText
    ensures RuleGrants(rules, Replace, k) <==> k in {"name", "title", "description", "tags"}
    ensures RuleGrants(rules, Add, k) <==> k in {"title", "description", "tags"}
    ensures RuleGrants(rules, Remove, k) <==> k in {"title", "description", "tags"}
    ensures RuleCovers(rules, k) <==> k in {"tags"}
  {
    assert rules[0] in rules && rules[1] in rules && rules[2] in rules && rules[3] in rules;
  }

  lemma ProviderContentGrants(rules: seq<Rule>, k: string)
    requires rules == ProviderContent
    ensures RuleGrants(rules, Replace, k) <==> k in {"custom", "runtime", "benchmarks", "agent"}
    ensures RuleGrants(rules, Add, k) <==> k in {"custom", "agent"}
    ensures RuleGrants(rules, Remove, k) <==> k in {"custom", "agent"}
    ensures RuleCovers(rules, k) <==> k in {"custom", "runtime", "benchmarks", "agent"}
  {
    assert rules[0] in rules && rules[1] in rules && rules[2] in rules && rules[3] in rules;
  }

  /** A concatenated table grants what its parts grant. */
  lemma TablesCombine(a: seq<Rule>, b: seq<Rule>, op: Op, k: string)
    ensures RuleGrants(a + b, op, k) <==> RuleGrants(a, op, k) || RuleGrants(b, op, k)
    ensures RuleCovers(a + b, k) <==> RuleCovers(a, k) || RuleCovers(b, k)
  {
  }
}
