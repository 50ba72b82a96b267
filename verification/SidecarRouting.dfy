/**
  Two copies of one routing rule, and the message rewriter built on one of them.

  The sidecar routes each request by its URI to eval-hub, MLflow, the OCI registry or the model;
  the server, when it persists a status message, replaces the sidecar's address by the address the
  sidecar would have routed that URL to. Paths are parsed and escaped as Go's net/url does it;
  parsing and rendering of whole URLs is a parameter.
*/
module SidecarRouting {
  import opened Wrappers
  import opened Text

  datatype Class = EvalHub | MLflow | Oci | Model

  const EvalHubPrefix := "/api/v1/evaluations/"

  /******* Path segments *******/

  function NonEmpty(parts: seq<string>): seq<string> {
    if parts == [] then []
    else
      var last := parts[|parts| - 1];
      NonEmpty(parts[..|parts| - 1]) + (if last != "" then [last] else [])
  }

  function Segments(p: string): seq<string> {
    var t := Trim(p, {'/'});
    if t == "" then [] else NonEmpty(Split(t))
  }

  lemma {:induction false} NonEmptyConcat(a: seq<string>, b: seq<string>)
    ensures NonEmpty(a + b) == NonEmpty(a) + NonEmpty(b)
    decreases |b|
  {
    if b == [] {
      assert a + b == a;
    } else {
      assert (a + b)[..|a + b| - 1] == a + b[..|b| - 1];
      NonEmptyConcat(a, b[..|b| - 1]);
    }
  }

  lemma {:induction false} SplitSnoc(s: string)
    ensures Split(s + "/") == Split(s) + [""]
    decreases |s|
  {
    if '/' !in s {
      SplitSnocPlain(s);
    } else {
      var pre, rest := FirstSlash(s);
      SplitSnoc(rest);
      SplitSnocCons(pre, rest);
    }
  }

  lemma SplitSnocPlain(s: string)
    requires '/' !in s
    ensures Split(s + "/") == Split(s) + [""]
  {
    assert s + "/" == s + "/" + "";
    SplitCons(s, "");
    SplitPlain(s);
    SplitPlain("");
  }

  lemma SplitSnocCons(pre: string, rest: string)
    requires '/' !in pre && Split(rest + "/") == Split(rest) + [""]
    ensures Split(pre + "/" + rest + "/") == Split(pre + "/" + rest) + [""]
  {
    AppendAssoc(pre + "/", rest, "/");
    SplitCons(pre, rest);
    SplitCons(pre, rest + "/");
    AppendAssoc([pre], Split(rest), [""]);
  }

  lemma NothingIsEmpty()
    ensures NonEmpty([""]) == []
  {
    assert [""][..0] == [];
  }

  lemma LeadingSlash(s: string)
    ensures NonEmpty(Split("/" + s)) == NonEmpty(Split(s))
  {
    SplitCons("", s);
    assert "" + "/" + s == "/" + s;
    NothingIsEmpty();
    NonEmptyConcat([""], Split(s));
  }

  lemma TrailingSlash(s: string)
    ensures NonEmpty(Split(s + "/")) == NonEmpty(Split(s))
  {
    SplitSnoc(s);
    NothingIsEmpty();
    NonEmptyConcat(Split(s), [""]);
  }

  lemma {:induction false} TrimLeftSegments(s: string)
    ensures NonEmpty(Split(TrimLeft(s, {'/'}))) == NonEmpty(Split(s))
    decreases |s|
  {
    if s != "" && s[0] == '/' {
      TrimLeftSegments(s[1..]);
      LeadingSlash(s[1..]);
      assert "/" + s[1..] == s;
    }
  }

  lemma {:induction false} TrimRightSegments(s: string)
    ensures NonEmpty(Split(TrimRight(s, {'/'}))) == NonEmpty(Split(s))
    decreases |s|
  {
    if s != "" && s[|s| - 1] == '/' {
      TrimRightSegments(s[..|s| - 1]);
      TrailingSlash(s[..|s| - 1]);
      assert s[..|s| - 1] + "/" == s;
    }
  }

  /** Trimming makes no difference: the segments are the non-empty pieces between slashes. */
  lemma SegmentsAreNonEmptyPieces(p: string)
    ensures Segments(p) == NonEmpty(Split(p))
  {
    TrimLeftSegments(p);
    TrimRightSegments(TrimLeft(p, {'/'}));
    SplitPlain("");
    NothingIsEmpty();
  }

  /** The sidecar filters its slice in place: the kept prefix overwrites what was already read. */
  method CompactInPlace(parts: array<string>) returns (n: nat)
    modifies parts
    ensures n <= parts.Length && parts[..n] == NonEmpty(old(parts[..]))
  {
    n := 0;
    for i := 0 to parts.Length
      invariant n <= i
      invariant parts[..n] == NonEmpty(old(parts[..])[..i])
      invariant parts[i..] == old(parts[..])[i..]
    {
      ghost var all := old(parts[..]);
      assert all[..i + 1][..i] == all[..i];
      var s := parts[i];
      assert s == parts[i..][0] == all[i];
      assert parts[i + 1..] == parts[i..][1..];
      if s != "" {
        parts[n] := s;
        n := n + 1;
      }
    }
    assert old(parts[..])[..parts.Length] == old(parts[..]);
  }

  method SidecarSplitPathSegments(p: string) returns (out: seq<string>)
    ensures out == Segments(p)
  {
    var t := Trim(p, {'/'});
    if t == "" {
      return [];
    }
    var split := Split(t);
    var parts := new string[|split|](i requires 0 <= i < |split| => split[i]);
    assert parts[..] == split;
    var n := CompactInPlace(parts);
    return parts[..n];
  }

  /** The server appends to a fresh slice. */
  method ServerSplitPathSegments(p: string) returns (out: seq<string>)
    ensures out == Segments(p)
  {
    var t := Trim(p, {'/'});
    if t == "" {
      return [];
    }
    var parts := Split(t);
    out := [];
    for i := 0 to |parts|
      invariant out == NonEmpty(parts[..i])
    {
      assert parts[..i + 1][..i] == parts[..i];
      if parts[i] != "" {
        out := out + [parts[i]];
      }
    }
    assert parts[..|parts|] == parts;
  }

  /** The repository stands in the path, at its start or right after a "v2" segment. */
  predicate RepositoryAt(path: seq<string>, repo: seq<string>, i: int) {
    0 <= i && i + |repo| <= |path| && path[i..i + |repo|] == repo && (i == 0 || path[i - 1] == "v2")
  }

  ghost predicate OciPath(path: string, repository: string) {
    Segments(repository) != [] && exists i :: RepositoryAt(Segments(path), Segments(repository), i)
  }

  method PathSegmentsEqual(a: seq<string>, b: seq<string>) returns (eq: bool)
    ensures eq == (a == b)
  {
    if |a| != |b| {
      return false;
    }
    for i := 0 to |a|
      invariant forall j | 0 <= j < i :: a[j] == b[j]
    {
      if a[i] != b[i] {
        return false;
      }
    }
    return true;
  }

  method FindRepository(path: seq<string>, repo: seq<string>) returns (found: bool)
    ensures found <==> repo != [] && exists i :: RepositoryAt(path, repo, i)
  {
    if |repo| == 0 || |path| < |repo| {
      return false;
    }
    var i := 0;
    while i + |repo| <= |path|
      invariant 0 <= i
      invariant forall j | 0 <= j < i :: !RepositoryAt(path, repo, j)
      decreases |path| - i
    {
      var same := PathSegmentsEqual(path[i..i + |repo|], repo);
      if same && (i == 0 || path[i - 1] == "v2") {
        assert RepositoryAt(path, repo, i);
        return true;
      }
      i := i + 1;
    }
    return false;
  }

  method ServerOciPathMatchesRepository(path: string, repository: string) returns (ok: bool)
    ensures ok == OciPath(path, repository)
  {
    var repo := ServerSplitPathSegments(repository);
    var segments := ServerSplitPathSegments(path);
    ok := FindRepository(segments, repo);
  }

  /******* Routing *******/

  function CutQuery(uri: string): string { uri[..IndexAny(uri, {'?', '#'})] }

  /** Letters, digits, and the punctuation that may stand in a path as it is. */
  predicate Plain(c: char) {
    'a' <= c <= 'z' || 'A' <= c <= 'Z' || '0' <= c <= '9' || c in {'-', '_', '.', '~', '$', '&', '+', ',', '/', ':', ';', '=', '@'}
  }

  /** What a path that was written down may hold besides. */
  predicate Written(c: char) { Plain(c) || c in {'!', '\'', '(', ')', '*', '[', ']', '%'} }

  predicate WellWritten(p: string) { forall i | 0 <= i < |p| :: Written(p[i]) }

  function UpperHex(n: int): char {
    if 0 <= n < 10 then '0' + n as char else if 10 <= n < 16 then 'A' + (n - 10) as char else '0'
  }

  function Escape(s: string): string {
    if s == "" then ""
    else (if Plain(s[0]) then [s[0]] else ['%', UpperHex(s[0] as int / 16), UpperHex(s[0] as int % 16)]) + Escape(s[1..])
  }

  /** EscapedPath: the path as it was written if it was well written, otherwise escaped anew. */
  function EscapedPath(p: string): Option<string> {
    match Unescape(p)
    case None => None
    case Some(path) => Some(if WellWritten(p) then p else Escape(path))
  }

  predicate Control(c: char) { c < ' ' || c == 127 as char }

  /** The path that url.Parse finds in a request target without query and fragment. */
  function ParsePath(p: string): Option<string> {
    if exists i :: 0 <= i < |p| && Control(p[i]) then None else EscapedPath(p)
  }

  /** requestPathForRouting, for targets that begin with a single slash. */
  function RequestPath(uri: string): string {
    match ParsePath(CutQuery(uri))
    case None => CutQuery(uri)
    case Some(path) => path
  }

  method SidecarOciRouteMatch(uri: string, repository: string) returns (ok: bool)
    ensures ok == OciPath(RequestPath(uri), repository)
  {
    if repository == "" {
      EmptyHasNoSegments();
      return false;
    }
    var repo := SidecarSplitPathSegments(repository);
    var segments := SidecarSplitPathSegments(RequestPath(uri));
    ok := FindRepository(segments, repo);
  }

  lemma EmptyHasNoSegments()
    ensures Segments("") == []
  {
  }

  predicate MatchesRoot(path: string, root: string) { path == root || HasPrefix(path, root + "/") }

  predicate MlflowPath(path: string) {
    MatchesRoot(path, "/api/2.0/mlflow") || MatchesRoot(path, "/api/3.0/mlflow") || MatchesRoot(path, "/api/2.0/mlflow-artifacts")
  }

  ghost function ServerClass(path: string, repository: string): Class {
    if HasPrefix(path, EvalHubPrefix) then EvalHub
    else if MlflowPath(path) then MLflow
    else if OciPath(path, repository) then Oci
    else Model
  }

  /** parseProxyCall: the first test reads the raw request URI, the others its path. */
  ghost function SidecarClass(uri: string, repository: string): Class {
    if HasPrefix(uri, EvalHubPrefix) then EvalHub
    else if MlflowPath(RequestPath(uri)) then MLflow
    else if OciPath(RequestPath(uri), repository) then Oci
    else Model
  }

  /** A prefix without '?' and '#' is not affected by cutting the query and the fragment. */
  lemma CutKeepsPrefix(uri: string, p: string)
    requires '?' !in p && '#' !in p
    ensures HasPrefix(uri, p) <==> HasPrefix(CutQuery(uri), p)
  {
    var i := IndexAny(uri, {'?', '#'});
    if HasPrefix(uri, p) {
      assert forall j | 0 <= j < |p| :: uri[j] == p[j] && p[j] in p;
      assert CutQuery(uri)[..|p|] == uri[..|p|];
    }
    if HasPrefix(CutQuery(uri), p) {
      assert CutQuery(uri)[..|p|] == uri[..|p|];
    }
  }

  ghost predicate AllPlain(p: string) { forall i | 0 <= i < |p| :: Plain(p[i]) }

  /** Escaping neither makes nor hides a plain prefix. */
  lemma {:induction false} EscapePrefix(s: string, p: string)
    requires AllPlain(p)
    ensures HasPrefix(Escape(s), p) <==> HasPrefix(s, p)
    decreases |p|
  {
    if s != "" && p != "" {
      assert Plain(p[0]);
      EscapePrefix(s[1..], p[1..]);
      HeadAndTail(s, p);
      if Plain(s[0]) {
        assert Escape(s)[1..] == Escape(s[1..]);
      }
      HeadAndTail(Escape(s), p);
    }
  }

  lemma HexRoundTrip(n: int)
    requires 0 <= n < 16
    ensures HexDigit(UpperHex(n)) == Some(n)
  {
  }

  /** Escaping can be undone, for bytes. */
  lemma {:induction false} EscapeRoundTrip(s: string)
    requires forall i | 0 <= i < |s| :: s[i] < 256 as char
    ensures Unescape(Escape(s)) == Some(s)
  {
    if s != "" {
      EscapeRoundTrip(s[1..]);
      var rest := Escape(s[1..]);
      var n := s[0] as int;
      assert [s[0]] + s[1..] == s;
      if Plain(s[0]) {
        assert ([s[0]] + rest)[1..] == rest;
      } else {
        HexRoundTrip(n / 16);
        HexRoundTrip(n % 16);
        var t := ['%', UpperHex(n / 16), UpperHex(n % 16)] + rest;
        assert t[3..] == rest;
      }
    }
  }

  lemma HeadAndTail(s: string, p: string)
    requires s != "" && p != ""
    ensures HasPrefix(s, p) <==> s[0] == p[0] && HasPrefix(s[1..], p[1..])
  {
    if |p| <= |s| {
      assert s[..|p|] == [s[0]] + s[1..][..|p| - 1];
      assert p == [p[0]] + p[1..];
    }
  }

  /** Unescaping keeps a plain prefix. */
  lemma {:induction false} UnescapePrefix(s: string, p: string)
    requires AllPlain(p) && HasPrefix(s, p) && Unescape(s).Some?
    ensures HasPrefix(Unescape(s).value, p)
    decreases |p|
  {
    if p != "" {
      assert s[0] == s[..|p|][0] == p[0] && Plain(p[0]);
      HeadAndTail(s, p);
      UnescapePrefix(s[1..], p[1..]);
      HeadAndTail(Unescape(s).value, p);
      assert Unescape(s).value[1..] == Unescape(s[1..]).value;
    }
  }

  lemma PrefixIsPlain()
    ensures AllPlain(EvalHubPrefix) && '?' !in EvalHubPrefix && '#' !in EvalHubPrefix
  {
  }

  /** The eval-hub prefix shows only once the path is unescaped, and the path has to be escaped anew. */
  predicate Masked(uri: string) {
    var p := CutQuery(uri);
    !HasPrefix(p, EvalHubPrefix) && !WellWritten(p) && Unescape(p).Some? && HasPrefix(Unescape(p).value, EvalHubPrefix)
  }

  /** Parsing changes whether the path has the eval-hub prefix exactly for masked targets. */
  lemma MaskedExactly(p: string)
    requires EscapedPath(p).Some? && '?' !in p && '#' !in p
    ensures HasPrefix(p, EvalHubPrefix) ==> HasPrefix(EscapedPath(p).value, EvalHubPrefix)
    ensures (HasPrefix(EscapedPath(p).value, EvalHubPrefix) && !HasPrefix(p, EvalHubPrefix)) <==> Masked(p)
  {
    PrefixIsPlain();
    CutNothing(p);
    EscapePrefix(Unescape(p).value, EvalHubPrefix);
    if HasPrefix(p, EvalHubPrefix) { UnescapePrefix(p, EvalHubPrefix); }
  }

  lemma CutNothing(p: string)
    requires '?' !in p && '#' !in p
    ensures CutQuery(p) == p
  {
    assert forall i | 0 <= i < |p| :: p[i] in p && p[i] !in {'?', '#'};
  }

  lemma CutIsClean(uri: string)
    ensures '?' !in CutQuery(uri) && '#' !in CutQuery(uri)
  {
  }

  /** Which upstream each path belongs to, by its text and its segments. */
  lemma ClassExactly(path: string, repository: string)
    ensures
      var c := ServerClass(path, repository);
      var evalHub := HasPrefix(path, "/api/v1/evaluations/");
      var mlflow := StartsWith(Split(path), ["", "api", "2.0", "mlflow"]) || StartsWith(Split(path), ["", "api", "3.0", "mlflow"]) ||
                    StartsWith(Split(path), ["", "api", "2.0", "mlflow-artifacts"]);
      && (c.EvalHub? <==> evalHub)
      && (c.MLflow? <==> !evalHub && mlflow)
      && (c.Oci? <==> !evalHub && !mlflow && NonEmpty(Split(repository)) != [] &&
                      exists i :: RepositoryAt(NonEmpty(Split(path)), NonEmpty(Split(repository)), i))
  {
    MlflowBySegments(path);
    SegmentsAreNonEmptyPieces(path);
    SegmentsAreNonEmptyPieces(repository);
  }

  lemma NotEvalHub(path: string, repository: string)
    ensures ServerClass(path, repository).EvalHub? <==> HasPrefix(path, EvalHubPrefix)
  {
  }

  /******* Rewriting a status message *******/

  datatype Url = Url(scheme: string, user: Option<string>, host: string, path: string, query: string, fragment: string)

  /** url.Parse and (*URL).String. */
  datatype UrlCodec = UrlCodec(parse: string -> Option<Url>, render: Url -> string)

  /** The upstream base URL of each class; empty when it is not known. */
  datatype Targets = Targets(evalHub: string, mlflow: string, oci: string, repository: string, model: string)

  function TargetFor(t: Targets, c: Class): string {
    match c
    case EvalHub => t.evalHub
    case MLflow => t.mlflow
    case Oci => t.oci
    case Model => t.model
  }

  ghost function TargetOf(t: Targets, path: string): string { TargetFor(t, ServerClass(path, t.repository)) }

  method ResolveTarget(path: string, t: Targets) returns (target: string)
    ensures target == TargetOf(t, path)
  {
    if HasPrefix(path, EvalHubPrefix) {
      return t.evalHub;
    }
    if MlflowPath(path) {
      return t.mlflow;
    }
    var oci := ServerOciPathMatchesRepository(path, t.repository);
    return if oci then t.oci else t.model;
  }

  function StripHost(u: Url): string {
    var out := u.path + (if u.query != "" then "?" + u.query else "") + (if u.fragment != "" then "#" + u.fragment else "");
    if out == "" then "/" else out
  }

  /** What becomes of one URL that starts with the sidecar's base URL. */
  ghost function RewrittenUrl(k: UrlCodec, url: string, host: string, t: Targets): string {
    match k.parse(url)
    case None => url
    case Some(u) =>
      if u.host == "" || u.host != host then url else Retargeted(k, u, TargetOf(t, u.path))
  }

  /** The URL at the target's address, or without any when the target is not known. */
  function Retargeted(k: UrlCodec, u: Url, target: string): string {
    if target == "" || k.parse(target).None? || k.parse(target).value.host == "" then StripHost(u)
    else k.render(u.(scheme := k.parse(target).value.scheme, host := k.parse(target).value.host, user := None))
  }

  method RewriteUrl(k: UrlCodec, url: string, host: string, t: Targets) returns (out: string)
    ensures out == RewrittenUrl(k, url, host, t)
  {
    var u := k.parse(url);
    if u.None? || u.value.host == "" || u.value.host != host {
      return url;
    }
    var target := ResolveTarget(u.value.path, t);
    if target == "" {
      return StripHost(u.value);
    }
    var tu := k.parse(target);
    if tu.None? || tu.value.host == "" {
      return StripHost(u.value);
    }
    return k.render(u.value.(scheme := tu.value.scheme, host := tu.value.host, user := None));
  }

  /******* The rewriter follows the router *******/

  /** A request target as the sidecar's ServeMux hands it on; one with two leading slashes is redirected. */
  predicate OriginForm(uri: string) { uri != "" && uri[0] == '/' && (|uri| > 1 ==> uri[1] != '/') }

  /** The base is an address with no path: whatever target follows it is the path, query and fragment. */
  ghost predicate Joins(k: UrlCodec, base: string) {
    && k.parse(base).Some? && k.parse(base).value.host != ""
    && forall uri | OriginForm(uri) && k.parse(base + uri).Some? ::
         k.parse(base + uri).value.host == k.parse(base).value.host &&
         ParsePath(CutQuery(uri)) == Some(k.parse(base + uri).value.path)
  }

  /**
    The class that the rewriter finds in the URL of a request is the class that the router gives
    the request, unless the request target masks the eval-hub prefix, and then it is not.
  */
  lemma RoutesAgreeExactly(k: UrlCodec, base: string, uri: string, repository: string)
    requires Joins(k, base) && OriginForm(uri) && k.parse(base + uri).Some?
    ensures
      var rewriter := ServerClass(k.parse(base + uri).value.path, repository);
      var router := SidecarClass(uri, repository);
      && (rewriter == router <==> !Masked(uri))
      && (Masked(uri) ==> rewriter.EvalHub? && !router.EvalHub?)
  {
    var p := CutQuery(uri);
    var path := k.parse(base + uri).value.path;
    assert ParsePath(p) == Some(path);
    assert RequestPath(uri) == path;
    PrefixIsPlain();
    CutKeepsPrefix(uri, EvalHubPrefix);
    CutIsClean(uri);
    CutNothing(p);
    MaskedExactly(p);
    NotEvalHub(path, repository);
  }

  /**
    The promise of the rewriter: a URL of the sidecar is given the address of the upstream to which
    the sidecar routes that request; a masked one is given eval-hub's, where it was not routed.
  */
  lemma RewriteFollowsRouter(k: UrlCodec, base: string, uri: string, t: Targets)
    requires Joins(k, base) && OriginForm(uri) && k.parse(base + uri).Some?
    ensures
      var router, u := SidecarClass(uri, t.repository), k.parse(base + uri).value;
      var out := RewrittenUrl(k, base + uri, k.parse(base).value.host, t);
      && (router.EvalHub? || Masked(uri) ==> out == Retargeted(k, u, t.evalHub))
      && (router.MLflow? && !Masked(uri) ==> out == Retargeted(k, u, t.mlflow))
      && (router.Oci? && !Masked(uri) ==> out == Retargeted(k, u, t.oci))
      && (router.Model? && !Masked(uri) ==> out == Retargeted(k, u, t.model))
  {
    assert k.parse(base + uri).value.host == k.parse(base).value.host;
    RoutesAgreeExactly(k, base, uri, t.repository);
  }

  /** Rendering a URL and parsing it again gives the URL. */
  ghost predicate Renders(k: UrlCodec) { forall u :: k.parse(k.render(u)) == Some(u) }

  /**
    What retargeting means: the URL is at the target's scheme and host, without credentials, and
    its path, query and fragment are kept; with no target known, those are all that is left.
  */
  lemma RetargetedMeans(k: UrlCodec, u: Url, target: string)
    requires Renders(k)
    ensures target != "" && k.parse(target).Some? && k.parse(target).value.host != "" ==>
      && k.parse(Retargeted(k, u, target)).Some?
      && var v, at := k.parse(Retargeted(k, u, target)).value, k.parse(target).value;
      && v.scheme == at.scheme && v.host == at.host && v.user.None?
      && v.path == u.path && v.query == u.query && v.fragment == u.fragment
    ensures target == "" || k.parse(target).None? || k.parse(target).value.host == "" ==>
      var tail := (if u.query == "" then "" else "?" + u.query) + (if u.fragment == "" then "" else "#" + u.fragment);
      Retargeted(k, u, target) == if u.path == "" && tail == "" then "/" else u.path + tail
  {
    AppendAssoc(u.path, if u.query == "" then "" else "?" + u.query, if u.fragment == "" then "" else "#" + u.fragment);
  }

  /******* The prefix tests by segments *******/

  predicate StartsWith(path: seq<string>, root: seq<string>) { |root| <= |path| && path[..|root|] == root }

  lemma SplitOfParts(a: string, rest: string)
    requires '/' !in a
    ensures Split(a + "/" + rest)[0] == a && Split(a + "/" + rest)[1..] == Split(rest)
  {
    SplitCons(a, rest);
  }

  /** A path matches a root exactly when its segments begin with the root's: a longer last segment does not. */
  lemma {:induction false} RootBySegments(path: string, root: string)
    ensures MatchesRoot(path, root) <==> StartsWith(Split(path), Split(root))
    decreases |root|
  {
    if '/' in root {
      var a, rest := FirstSlash(root);
      SplitCons(a, rest);
      if '/' in path {
        var b, tail := FirstSlash(path);
        SplitCons(b, tail);
        RootBySegments(tail, rest);
        RootCons(a, rest, b, tail);
        StartsCons(a, Split(rest), b, Split(tail));
      } else {
        SplitPlain(path);
        NoSlashNoRoot(path, root);
        assert |Split(root)| >= 2;
      }
    } else {
      SplitPlain(root);
      if '/' in path {
        var b, tail := FirstSlash(path);
        SplitCons(b, tail);
        PlainRoot(root, b, tail);
        assert Split(path)[..1] == [b];
      } else {
        SplitPlain(path);
        NoSlashNoPrefix(path, root);
        assert [path][..1] == [path];
      }
    }
  }

  lemma StartsCons(a: string, root: seq<string>, b: string, path: seq<string>)
    ensures StartsWith([b] + path, [a] + root) <==> a == b && StartsWith(path, root)
  {
    if |root| <= |path| {
      assert ([b] + path)[..|root| + 1] == [b] + path[..|root|];
      assert ([b] + path[..|root|])[1..] == path[..|root|] && ([a] + root)[1..] == root;
    }
  }

  lemma NoSlashNoPrefix(path: string, root: string)
    requires '/' !in path
    ensures !HasPrefix(path, root + "/")
  {
    if |root| < |path| { assert path[|root|] in path; }
    assert |root| < |path| ==> path[..|root| + 1][|root|] == path[|root|];
  }

  lemma NoSlashNoRoot(path: string, root: string)
    requires '/' !in path && '/' in root
    ensures !MatchesRoot(path, root)
  {
    NoSlashNoPrefix(path, root);
  }

  /** Up to the first slash, a text and its prefix are the same. */
  lemma HeadsAgree(a: string, rest: string, b: string, tail: string)
    requires '/' !in a && '/' !in b && HasPrefix(b + "/" + tail, a + "/" + rest)
    ensures a == b
  {
    var s, p := b + "/" + tail, a + "/" + rest;
    assert forall i | 0 <= i < |p| :: s[..|p|][i] == s[i] == p[i];
    assert p[|a|] == '/' && s[|b|] == '/';
    assert forall i | 0 <= i < |a| :: p[i] == a[i] && a[i] in a;
    assert forall i | 0 <= i < |b| :: s[i] == b[i] && b[i] in b;
    IndexOfUnique(s, '/', |a|);
    IndexOfUnique(s, '/', |b|);
    assert forall i | 0 <= i < |a| :: a[i] == b[i];
  }

  lemma TailsAgree(a: string, rest: string, tail: string)
    ensures HasPrefix(a + "/" + tail, a + "/" + rest) <==> HasPrefix(tail, rest)
  {
    var s, p := a + "/" + tail, a + "/" + rest;
    assert forall i | 0 <= i < |tail| :: s[|a| + 1 + i] == tail[i];
    assert forall i | 0 <= i < |rest| :: p[|a| + 1 + i] == rest[i];
    if HasPrefix(s, p) {
      assert forall i | 0 <= i < |p| :: s[..|p|][i] == s[i] == p[i];
      assert forall i | 0 <= i < |rest| :: tail[i] == rest[i];
    }
    if HasPrefix(tail, rest) {
      assert forall i | 0 <= i < |rest| :: tail[..|rest|][i] == tail[i] == rest[i];
      assert forall i | 0 <= i < |p| :: s[i] == p[i];
    }
  }

  lemma RootCons(a: string, rest: string, b: string, tail: string)
    requires '/' !in a && '/' !in b
    ensures MatchesRoot(b + "/" + tail, a + "/" + rest) <==> a == b && MatchesRoot(tail, rest)
  {
    var s, p := b + "/" + tail, a + "/" + rest;
    assert p + "/" == a + "/" + (rest + "/");
    TailsAgree(a, rest + "/", tail);
    TailsAgree(a, rest, tail);
    TailsAgree(a, tail, rest);
    if HasPrefix(s, p + "/") { HeadsAgree(a, rest + "/", b, tail); }
    if s == p {
      assert HasPrefix(s, p);
      HeadsAgree(a, rest, b, tail);
      assert tail == s[|a| + 1..] == p[|a| + 1..] == rest;
    }
  }

  lemma PlainRoot(root: string, b: string, tail: string)
    requires '/' !in root && '/' !in b
    ensures MatchesRoot(b + "/" + tail, root) <==> b == root
  {
    var s := b + "/" + tail;
    assert '/' in s by { assert s[|b|] == '/'; }
    if HasPrefix(s, root + "/") {
      assert root + "/" == root + "/" + "";
      HeadsAgree(root, "", b, tail);
    }
    if b == root { assert s[..|b| + 1] == b + "/"; }
  }

  function ThreePart(a: string, b: string, c: string): string { "" + "/" + (a + "/" + (b + "/" + c)) }

  lemma ThreePartSplit(a: string, b: string, c: string)
    requires '/' !in a && '/' !in b && '/' !in c
    ensures Split(ThreePart(a, b, c)) == ["", a, b, c]
  {
    TwoPartSplit(b, c);
    SplitCons(a, b + "/" + c);
    SplitCons("", a + "/" + (b + "/" + c));
    FourPieces("", a, b, c);
  }

  lemma TwoPartSplit(b: string, c: string)
    requires '/' !in b && '/' !in c
    ensures Split(b + "/" + c) == [b] + [c]
  {
    SplitPlain(c);
    SplitCons(b, c);
  }

  lemma FourPieces(a: string, b: string, c: string, d: string)
    ensures [a] + ([b] + ([c] + [d])) == [a, b, c, d]
  {
  }

  lemma ThreePartSegments(path: string, a: string, b: string, c: string)
    requires '/' !in a && '/' !in b && '/' !in c
    ensures MatchesRoot(path, ThreePart(a, b, c)) <==> StartsWith(Split(path), ["", a, b, c])
  {
    ThreePartSplit(a, b, c);
    RootBySegments(path, ThreePart(a, b, c));
  }

  lemma MlflowRoots()
    ensures ThreePart("api", "2.0", "mlflow") == "/api/2.0/mlflow"
    ensures ThreePart("api", "3.0", "mlflow") == "/api/3.0/mlflow"
    ensures ThreePart("api", "2.0", "mlflow-artifacts") == "/api/2.0/mlflow-artifacts"
  {
  }

  /** The MLflow roots, segment by segment. */
  lemma MlflowBySegments(path: string)
    ensures MlflowPath(path) <==>
      || StartsWith(Split(path), ["", "api", "2.0", "mlflow"])
      || StartsWith(Split(path), ["", "api", "3.0", "mlflow"])
      || StartsWith(Split(path), ["", "api", "2.0", "mlflow-artifacts"])
  {
    MlflowRoots();
    ThreePartSegments(path, "api", "2.0", "mlflow");
    ThreePartSegments(path, "api", "3.0", "mlflow");
    ThreePartSegments(path, "api", "2.0", "mlflow-artifacts");
  }

  /** Well-written targets are never masked. */
  lemma WellWrittenAgree(k: UrlCodec, base: string, uri: string, repository: string)
    requires Joins(k, base) && OriginForm(uri) && k.parse(base + uri).Some? && WellWritten(CutQuery(uri))
    ensures ServerClass(k.parse(base + uri).value.path, repository) == SidecarClass(uri, repository)
  {
    RoutesAgreeExactly(k, base, uri, repository);
  }

  lemma OneLetterEscaped(rest: string)
    requires '%' !in rest
    ensures Unescape("/%61" + rest) == Some("/a" + rest)
  {
    var s := "/%61" + rest;
    assert s[1..] == ['%', '6', '1'] + rest;
    UnescapeFirst('6', '1', rest);
    assert ['/'] + (['a'] + rest) == "/a" + rest;
  }

  /**
    One letter of the prefix escaped, and a character such as '"' that should have been: the
    sidecar does not route it to eval-hub, and the rewriter says that it did.
  */
  lemma MaskedTarget(tail: string, c: char)
    requires EvalHubPrefix == "/a" + tail && !Written(c) && c !in {'?', '#'}
    ensures
      var uri := "/%61" + (tail + [c]);
      OriginForm(uri) && Masked(uri)
  {
    var rest := tail + [c];
    var uri := "/%61" + rest;
    PrefixIsPlain();
    TailIsPlain(tail);
    assert rest[|tail|] == c;
    assert forall i | 0 <= i < |rest| :: rest[i] == if i < |tail| then tail[i] else c;
    assert uri[|uri| - 1] == c;
    CutNothing(uri);
    OneLetterEscaped(rest);
    assert "/a" + rest == EvalHubPrefix + [c];
    assert uri[1] == '%' && EvalHubPrefix[1] == 'a';
    assert uri[..|EvalHubPrefix|][1] == '%';
  }

  lemma TailIsPlain(tail: string)
    requires EvalHubPrefix == "/a" + tail
    ensures AllPlain(tail)
  {
    PrefixIsPlain();
    assert forall i | 0 <= i < |tail| :: tail[i] == EvalHubPrefix[i + 2];
  }

  const Space := {' ', '\t', '\n', '\r'}

  /** A message is cut into copied text and URL spans; `out` is what a span was replaced by. */
  datatype Piece = Copied(text: string) | Span(text: string, out: string)

  function Source(ps: seq<Piece>): string {
    if ps == [] then "" else Source(ps[..|ps| - 1]) + ps[|ps| - 1].text
  }

  function Result(ps: seq<Piece>): string {
    if ps == [] then ""
    else
      var last := ps[|ps| - 1];
      Result(ps[..|ps| - 1]) + (if last.Span? then last.out else last.text)
  }

  /**
    Piece `p` at `offset` of the message. No base URL starts anywhere inside copied text; a span
    starts where a base URL does, holds no white space, and ends at white space or at the end.
  */
  ghost predicate GoodPiece(k: UrlCodec, message: string, base: string, host: string, t: Targets, p: Piece, offset: nat) {
    var end := offset + |p.text|;
    && end <= |message| && message[offset..end] == p.text
    && (match p
        case Copied(_) => forall x | offset <= x < end :: !Occurs(message, base, x)
        case Span(text, out) =>
          && Occurs(message, base, offset)
          && (forall i | 0 <= i < |text| :: text[i] !in {' ', '\t', '\n', '\r'})
          && (end < |message| ==> message[end] in {' ', '\t', '\n', '\r'})
          && out == RewrittenUrl(k, text, host, t))
  }

  ghost predicate GoodPieces(k: UrlCodec, message: string, base: string, host: string, t: Targets, ps: seq<Piece>) {
    ps == [] ||
    var init := ps[..|ps| - 1];
    GoodPieces(k, message, base, host, t, init) && GoodPiece(k, message, base, host, t, ps[|ps| - 1], |Source(init)|)
  }

  lemma AddPiece(k: UrlCodec, message: string, base: string, host: string, t: Targets, ps: seq<Piece>, p: Piece)
    requires GoodPieces(k, message, base, host, t, ps) && GoodPiece(k, message, base, host, t, p, |Source(ps)|)
    ensures GoodPieces(k, message, base, host, t, ps + [p])
    ensures Source(ps + [p]) == Source(ps) + p.text
    ensures Result(ps + [p]) == Result(ps) + (if p.Span? then p.out else p.text)
  {
    assert (ps + [p])[..|ps|] == ps;
  }

  lemma CopyPiece(k: UrlCodec, message: string, base: string, host: string, t: Targets, ps: seq<Piece>, from: nat, to: nat)
    requires GoodPieces(k, message, base, host, t, ps) && from <= to <= |message| && Source(ps) == message[..from]
    requires forall x | from <= x < to :: !Occurs(message, base, x)
    ensures
      var all := ps + [Copied(message[from..to])];
      GoodPieces(k, message, base, host, t, all) && Source(all) == message[..to] && Result(all) == Result(ps) + message[from..to]
  {
    AddPiece(k, message, base, host, t, ps, Copied(message[from..to]));
  }

  /** The text from `from` to `to` is a run without white space that cannot be extended. */
  ghost predicate IsUrlEnd(message: string, from: nat, to: nat) {
    && from <= to <= |message|
    && (forall i | from <= i < to :: message[i] !in Space)
    && (to < |message| ==> message[to] in Space)
  }

  lemma SpanPiece(k: UrlCodec, message: string, base: string, host: string, t: Targets, ps: seq<Piece>, from: nat, to: nat, out: string)
    requires GoodPieces(k, message, base, host, t, ps) && from <= to <= |message| && Source(ps) == message[..from]
    requires Occurs(message, base, from) && IsUrlEnd(message, from, to)
    requires out == RewrittenUrl(k, message[from..to], host, t)
    ensures
      var all := ps + [Span(message[from..to], out)];
      GoodPieces(k, message, base, host, t, all) && Source(all) == message[..to] && Result(all) == Result(ps) + out
  {
    AddPiece(k, message, base, host, t, ps, Span(message[from..to], out));
  }

  lemma CopyThenSpan(k: UrlCodec, message: string, base: string, host: string, t: Targets, ps: seq<Piece>, at: nat, from: nat, to: nat, out: string)
    requires GoodPieces(k, message, base, host, t, ps) && at <= from <= to <= |message| && Source(ps) == message[..at]
    requires (forall x | at <= x < from :: !Occurs(message, base, x)) && Occurs(message, base, from) && IsUrlEnd(message, from, to)
    requires out == RewrittenUrl(k, message[from..to], host, t)
    ensures
      var all := ps + [Copied(message[at..from])] + [Span(message[from..to], out)];
      GoodPieces(k, message, base, host, t, all) && Source(all) == message[..to] && Result(all) == Result(ps) + (message[at..from] + out)
  {
    CopyPiece(k, message, base, host, t, ps, at, from);
    SpanPiece(k, message, base, host, t, ps + [Copied(message[at..from])], from, to, out);
    AppendAssoc(Result(ps), message[at..from], out);
  }

  lemma OccursFrom(s: string, p: string, at: nat, j: int)
    requires at <= |s| && 0 <= j
    ensures Occurs(s[at..], p, j) <==> Occurs(s, p, at + j)
  {
    if at + j + |p| <= |s| {
      assert s[at..][j..j + |p|] == s[at + j..at + j + |p|];
    }
  }

  /** strings.TrimSpace, on Latin-1 text. */
  const WhiteSpace := Space + {'\U{0B}', '\U{0C}', '\U{85}', '\U{A0}'}

  /** The base URL as the rewriter uses it. */
  function BaseUrl(sidecarBaseUrl: string): string { TrimRight(Trim(sidecarBaseUrl, WhiteSpace), {'/'}) }

  /** `base` is `s[i..j]`: before it white space only, after it slashes up to `k` and then white space. */
  ghost predicate Between(s: string, i: int, j: int, k: int, base: string) {
    && 0 <= i <= j <= k <= |s| && s[i..j] == base
    && (forall x | 0 <= x < i :: s[x] in WhiteSpace)
    && (forall x | j <= x < k :: s[x] == '/')
    && (forall x | k <= x < |s| :: s[x] in WhiteSpace)
  }

  /** The base URL is the configured one without surrounding white space and without slashes at its end. */
  lemma BaseUrlShape(sidecarBaseUrl: string)
    ensures BaseUrl(sidecarBaseUrl) == "" || BaseUrl(sidecarBaseUrl)[|BaseUrl(sidecarBaseUrl)| - 1] != '/'
    ensures exists i, j, k :: Between(sidecarBaseUrl, i, j, k, BaseUrl(sidecarBaseUrl))
  {
    var left := TrimLeft(sidecarBaseUrl, WhiteSpace);
    var both := TrimRight(left, WhiteSpace);
    TrimLeftCuts(sidecarBaseUrl, WhiteSpace);
    TrimRightCuts(left, WhiteSpace);
    TrimRightCuts(both, {'/'});
    CutsNest(sidecarBaseUrl, |sidecarBaseUrl| - |left|, left, both, BaseUrl(sidecarBaseUrl));
  }

  lemma CutsNest(s: string, i: nat, left: string, both: string, base: string)
    requires i <= |s| && s[i..] == left && forall x | 0 <= x < i :: s[x] in WhiteSpace
    requires |both| <= |left| && left[..|both|] == both && forall x | |both| <= x < |left| :: left[x] in WhiteSpace
    requires |base| <= |both| && both[..|base|] == base && forall x | |base| <= x < |both| :: both[x] in {'/'}
    ensures Between(s, i, i + |base|, i + |both|, base)
  {
    assert forall x | i <= x < |s| :: s[x] == left[x - i];
    assert forall x | 0 <= x < |both| :: both[x] == left[x];
    assert forall x | 0 <= x < |base| :: base[x] == both[x];
  }

  lemma TrimLeftStart(s: string, cs: set<char>)
    ensures TrimLeft(s, cs) == "" || TrimLeft(s, cs)[0] !in cs
  {
  }

  lemma TrimRightStart(s: string, cs: set<char>)
    ensures TrimRight(s, cs) == "" || (s != "" && TrimRight(s, cs)[0] == s[0])
  {
  }

  lemma BaseStartsOutsideSpace(sidecarBaseUrl: string)
    ensures BaseUrl(sidecarBaseUrl) == "" || BaseUrl(sidecarBaseUrl)[0] !in Space
  {
    var left := TrimLeft(sidecarBaseUrl, WhiteSpace);
    TrimLeftStart(sidecarBaseUrl, WhiteSpace);
    TrimRightStart(left, WhiteSpace);
    TrimRightStart(TrimRight(left, WhiteSpace), {'/'});
  }

  /** The next base URL from `at` on (-1: none), and where its URL ends. */
  method FindNext(message: string, base: string, at: nat) returns (start: int, end: nat)
    requires at <= |message| && base != "" && base[0] !in Space
    ensures start < 0 ==> forall x | at <= x < |message| :: !Occurs(message, base, x)
    ensures start >= 0 ==>
              && at <= start < end <= |message| && Occurs(message, base, start) && IsUrlEnd(message, start, end)
              && (forall x | at <= x < start :: !Occurs(message, base, x))
  {
    var i := Index(message[at..], base);
    forall x | at <= x ensures Occurs(message[at..], base, x - at) <==> Occurs(message, base, x) {
      OccursFrom(message, base, at, x - at);
    }
    if i < 0 {
      return -1, 0;
    }
    start := at + i;
    end := UrlEnd(message, start);
    assert message[start] == message[start..start + |base|][0] == base[0];
  }

  method UrlEnd(message: string, start: nat) returns (end: nat)
    requires start <= |message|
    ensures IsUrlEnd(message, start, end)
  {
    var n := IndexAny(message[start..], Space);
    end := start + n;
    assert forall i | start <= i < |message| :: message[i] == message[start..][i - start];
  }

  /** Some base URL occurs in the message, and it parses to a URL with a host. */
  ghost predicate Rewrites(k: UrlCodec, message: string, base: string) {
    base != "" && (exists i :: Occurs(message, base, i)) && k.parse(base).Some? && k.parse(base).value.host != ""
  }

  method RewriteSidecarUrlsInMessage(k: UrlCodec, message: string, sidecarBaseUrl: string, t: Targets) returns (out: string, ghost pieces: seq<Piece>)
    ensures !Rewrites(k, message, BaseUrl(sidecarBaseUrl)) ==> out == message
    ensures
      var base := BaseUrl(sidecarBaseUrl);
      Rewrites(k, message, base) ==>
        Source(pieces) == message && Result(pieces) == out && GoodPieces(k, message, base, k.parse(base).value.host, t, pieces)
  {
    pieces := [];
    var base := BaseUrl(sidecarBaseUrl);
    if message == "" || base == "" || Index(message, base) < 0 {
      return message, pieces;
    }
    var sidecar := k.parse(base);
    if sidecar.None? || sidecar.value.host == "" {
      return message, pieces;
    }
    var host := sidecar.value.host;
    BaseStartsOutsideSpace(sidecarBaseUrl);
    out := "";
    var at := 0;   // remaining is message[at..]
    var more := true;
    while more
      invariant 0 <= at <= |message|
      invariant Source(pieces) == message[..at] && Result(pieces) == out
      invariant GoodPieces(k, message, base, host, t, pieces)
      invariant !more ==> at == |message|
      decreases |message| - at, more
    {
      var text;
      text, at, more, pieces := RewriteNext(k, message, base, host, t, at, pieces);
      out := out + text;
    }
    assert message[..at] == message;
  }

  /** One turn of the loop: copy up to the next base URL, then rewrite the URL that starts there. */
  method RewriteNext(k: UrlCodec, message: string, base: string, host: string, t: Targets, at: nat, ghost before: seq<Piece>)
    returns (text: string, next: nat, more: bool, ghost pieces: seq<Piece>)
    requires base != "" && base[0] !in Space && at <= |message|
    requires Source(before) == message[..at] && GoodPieces(k, message, base, host, t, before)
    ensures at <= next <= |message| && (more ==> at < next) && (!more ==> next == |message|)
    ensures Source(pieces) == message[..next] && Result(pieces) == Result(before) + text
    ensures GoodPieces(k, message, base, host, t, pieces)
  {
    var start, end := FindNext(message, base, at);
    if start < 0 {
      CopyPiece(k, message, base, host, t, before, at, |message|);
      return message[at..|message|], |message|, false, before + [Copied(message[at..|message|])];
    }
    var rewritten := RewriteUrl(k, message[start..end], host, t);
    CopyThenSpan(k, message, base, host, t, before, at, start, end, rewritten);
    text, next, more := message[at..start] + rewritten, end, true;
    pieces := before + [Copied(message[at..start])] + [Span(message[start..end], rewritten)];
  }

  lemma {:induction false} PieceIsGood(k: UrlCodec, message: string, base: string, host: string, t: Targets, ps: seq<Piece>, i: nat)
    requires GoodPieces(k, message, base, host, t, ps) && i < |ps|
    ensures exists offset: nat :: GoodPiece(k, message, base, host, t, ps[i], offset)
  {
    var n := |ps| - 1;
    if i < n {
      PieceIsGood(k, message, base, host, t, ps[..n], i);
    } else {
      assert GoodPiece(k, message, base, host, t, ps[n], |Source(ps[..n])|);
    }
  }

  /** In a rewritten message, a span that is a URL of the sidecar names the upstream it was routed to. */
  lemma SpanFollowsRouter(k: UrlCodec, message: string, base: string, t: Targets, ps: seq<Piece>, i: nat, uri: string)
    requires Joins(k, base) && GoodPieces(k, message, base, k.parse(base).value.host, t, ps)
    requires i < |ps| && ps[i].Span? && ps[i].text == base + uri
    requires OriginForm(uri) && k.parse(base + uri).Some? && !Masked(uri)
    ensures
      var router, u := SidecarClass(uri, t.repository), k.parse(base + uri).value;
      && (router.EvalHub? ==> ps[i].out == Retargeted(k, u, t.evalHub))
      && (router.MLflow? ==> ps[i].out == Retargeted(k, u, t.mlflow))
      && (router.Oci? ==> ps[i].out == Retargeted(k, u, t.oci))
      && (router.Model? ==> ps[i].out == Retargeted(k, u, t.model))
  {
    PieceIsGood(k, message, base, k.parse(base).value.host, t, ps, i);
    RewriteFollowsRouter(k, base, uri, t);
  }

  /** The URL names another host than the sidecar's, or none at all. */
  predicate Foreign(k: UrlCodec, url: string, host: string) {
    k.parse(url).None? || k.parse(url).value.host != host
  }

  /** A message in which every span is foreign comes back verbatim. */
  lemma {:induction false} ForeignSpansVerbatim(k: UrlCodec, message: string, base: string, host: string, t: Targets, ps: seq<Piece>)
    requires GoodPieces(k, message, base, host, t, ps)
    requires forall i | 0 <= i < |ps| && ps[i].Span? :: Foreign(k, ps[i].text, host)
    ensures Result(ps) == Source(ps)
  {
    if ps != [] {
      ForeignSpansVerbatim(k, message, base, host, t, ps[..|ps| - 1]);
      assert ps[|ps| - 1].Span? ==> Foreign(k, ps[|ps| - 1].text, host);
    }
  }
}
