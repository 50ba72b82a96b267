/**
  The resolved-SHA protocol of git-source jobs. The init container writes the commit SHA to a
  metadata file; the sidecar loads it and puts it into every benchmark status event that the
  adapter posts; the server persists it on the benchmark once the event has been accepted.

  The adapter is arbitrary: it may post any body on any path at any time. Sidecar and server
  handle posts concurrently, and every point where they can interleave is a step. The sidecar
  guards a post when it recognises the path, reads the body to its end and can encode the event
  again; all other posts reach the server as they are, and the theorems say what then follows.
*/
module ResolvedSha {
  import opened Wrappers
  import opened BenchmarkOverrides
  import opened Text

  /******* Paths *******/

  /** The pieces of a request's escaped path, after the leading slash. */
  type Path = seq<string>

  /** A path segment as the server's router reads it. */
  function Segment(s: string): string {
    match Unescape(s)
    case None => s
    case Some(t) => t
  }

  /** The first three pieces, on which the sidecar routes to eval-hub, and a job id in its place. */
  predicate JobPath(p: Path) {
    |p| == 6 && p[0] == "api" && p[1] == "v1" && p[2] == "evaluations" && p[4] != ""
  }

  /** isEventsPath: the sidecar compares the escaped path. */
  predicate Recognised(p: Path) { JobPath(p) && p[3] == "jobs" && p[5] == "events" }

  /** The sidecar forwards the post to eval-hub, whose router compares unescaped segments. */
  predicate Served(p: Path) { JobPath(p) && Segment(p[3]) == "jobs" && Segment(p[5]) == "events" }

  /** The sidecar recognises exactly the served paths whose fixed segments are written without escapes. */
  lemma RecognisedExactly(p: Path)
    ensures Recognised(p) ==> Served(p)
    ensures Served(p) ==> (Recognised(p) <==> '%' !in p[3] && '%' !in p[5])
  {
    if JobPath(p) {
      if '%' !in p[3] { UnescapePlain(p[3]); }
      if '%' !in p[5] { UnescapePlain(p[5]); }
    }
  }

  /** The same endpoint with one letter escaped is served and not recognised. */
  lemma EscapedPathIsServed(id: string)
    requires id != ""
    ensures
      var p := ["api", "v1", "evaluations", "jobs", id, "%65vents"];
      Served(p) && !Recognised(p)
  {
    UnescapePlain("jobs");
    UnescapeFirst('6', '5', "vents");
    assert ['%', '6', '5'] + "vents" == "%65vents";
    assert ['e'] + "vents" == "events";
  }

  /******* Events and their encoding *******/

  /** The parts of a benchmark status event that the protocol reads. `meta` is job_meta.resolved_sha. */
  datatype BenchmarkEvent = BenchmarkEvent(provider: string, id: string, index: int, meta: Option<string>)

  datatype StatusEvent = StatusEvent(benchmark: Option<BenchmarkEvent>)

  type Body = string

  /** The JSON decoder and encoder shared by both ends, and the server's struct validation. */
  datatype Codec = Codec(
    unmarshal: Body -> Option<StatusEvent>,
    marshal: StatusEvent -> Option<Body>,
    valid: StatusEvent -> bool)

  /** All that is asked of the codec: what was encoded decodes to the same event. */
  ghost predicate Faithful(k: Codec) {
    && (forall ev: StatusEvent, b | ev.benchmark.Some? && k.marshal(ev) == Some(b) :: k.unmarshal(b) == Some(ev))
    && (forall ev: StatusEvent | k.valid(ev) :: ev.benchmark.Some?)
  }

  function WithMeta(ev: StatusEvent, meta: Option<string>): StatusEvent {
    if ev.benchmark.None? then ev else StatusEvent(Some(ev.benchmark.value.(meta := meta)))
  }

  function ShaOf(meta: Option<string>): string { if meta.Some? then meta.value else "" }

  /** ValidateResolvedSHA, for a SHA that is not empty. */
  predicate HexSha(sha: string) {
    7 <= |sha| <= 40 && forall i | 0 <= i < |sha| :: HexDigit(sha[i]).Some?
  }

  /******* The sidecar *******/

  /** A post as it reaches the sidecar; `readOk` says that its body could be read to its end. */
  datatype Request = Request(path: Path, body: Body, readOk: bool)

  function Reencode(k: Codec, body: Body, ev: StatusEvent): Body {
    match k.marshal(ev)
    case Some(b) => b
    case None => body
  }

  /** HandleProxyCall and maybeInjectResolvedSHA: the body that is forwarded when the loaded SHA is `gitSha`. */
  function Forward(k: Codec, gitSha: string, q: Request): Body {
    if !Recognised(q.path) || !q.readOk then q.body
    else
      match k.unmarshal(q.body)
      case None => q.body
      case Some(ev) =>
        if ev.benchmark.None? then q.body
        else if gitSha != "" then Reencode(k, q.body, WithMeta(ev, Some(gitSha)))
        else if ShaOf(ev.benchmark.value.meta) == "" then q.body
        else Reencode(k, q.body, WithMeta(ev, None))
  }

  /** A decoded event can be encoded again with the sidecar's SHA, or with none when it has none. */
  predicate Reencodes(k: Codec, gitSha: string, body: Body) {
    match k.unmarshal(body)
    case None => true
    case Some(ev) => ev.benchmark.Some? ==> k.marshal(WithMeta(ev, if gitSha != "" then Some(gitSha) else None)).Some?
  }

  predicate Guarded(k: Codec, gitSha: string, q: Request) {
    Recognised(q.path) && q.readOk && Reencodes(k, gitSha, q.body)
  }

  /******* The server *******/

  /** What the update handler takes from a body: the event and the SHA, or nothing if it refuses. */
  function Receive(k: Codec, body: Body): Option<BenchmarkEvent> {
    match k.unmarshal(body)
    case None => None
    case Some(ev) => if k.valid(ev) && ev.benchmark.Some? then ev.benchmark else None
  }

  /** Bodies in which the sidecar finds no event are refused by the server, on any path. */
  lemma PassThroughRefused(k: Codec, gitSha: string, q: Request)
    requires Faithful(k) && (k.unmarshal(q.body).None? || k.unmarshal(q.body).value.benchmark.None?)
    ensures Forward(k, gitSha, q) == q.body && Receive(k, q.body).None?
  {
  }

  /** The only SHA that a guarded post can carry to the server is the sidecar's own. */
  lemma GuardedShaIsOwn(k: Codec, gitSha: string, q: Request)
    requires Faithful(k) && Guarded(k, gitSha, q)
    ensures
      var r := Receive(k, Forward(k, gitSha, q));
      r.Some? ==> ShaOf(r.value.meta) == gitSha
  {
    if k.unmarshal(q.body).None? || k.unmarshal(q.body).value.benchmark.None? {
      PassThroughRefused(k, gitSha, q);
    } else {
      var ev := k.unmarshal(q.body).value;
      assert k.marshal(WithMeta(ev, if gitSha != "" then Some(gitSha) else None)).Some?;
    }
  }

  /**
    A guarded post reaches the server, if at all, as the event that the adapter wrote, with the
    sidecar's SHA for metadata, or without any.
  */
  lemma GuardedKeepsEvent(k: Codec, gitSha: string, q: Request)
    requires Faithful(k) && Guarded(k, gitSha, q)
    ensures
      var r := Receive(k, Forward(k, gitSha, q));
      r.Some? ==>
        && k.unmarshal(q.body).Some? && k.unmarshal(q.body).value.benchmark.Some?
        && var written := k.unmarshal(q.body).value.benchmark.value;
        && (r.value.provider, r.value.id, r.value.index) == (written.provider, written.id, written.index)
        && (gitSha != "" ==> r.value.meta == Some(gitSha))
        && (gitSha == "" ==> r.value.meta.None? || r.value.meta == Some(""))
  {
    if k.unmarshal(q.body).None? || k.unmarshal(q.body).value.benchmark.None? {
      PassThroughRefused(k, gitSha, q);
    } else {
      var ev := k.unmarshal(q.body).value;
      assert k.marshal(WithMeta(ev, if gitSha != "" then Some(gitSha) else None)).Some?;
    }
  }

  /** The server takes a guarded event, with the sidecar's SHA, whenever that event is valid. */
  lemma GuardedIsReceived(k: Codec, gitSha: string, q: Request, written: BenchmarkEvent)
    requires Faithful(k) && Guarded(k, gitSha, q) && gitSha != "" && k.unmarshal(q.body) == Some(StatusEvent(Some(written)))
    requires k.valid(StatusEvent(Some(written.(meta := Some(gitSha)))))
    ensures Receive(k, Forward(k, gitSha, q)) == Some(written.(meta := Some(gitSha)))
  {
    assert k.marshal(WithMeta(StatusEvent(Some(written)), Some(gitSha))).Some?;
  }

  /** A post that is not guarded is forwarded as it is. */
  lemma UnguardedIsForwarded(k: Codec, gitSha: string, q: Request)
    requires !Guarded(k, gitSha, q)
    ensures Forward(k, gitSha, q) == q.body
  {
  }

  /**
    Exactly when a post can only carry the sidecar's own SHA: it is guarded, or the server would
    not take another SHA from the body as it is.
  */
  lemma ForwardExact(k: Codec, gitSha: string, q: Request)
    requires Faithful(k)
    ensures
      var out := Receive(k, Forward(k, gitSha, q));
      var plain := Receive(k, q.body);
      (out.Some? ==> ShaOf(out.value.meta) == gitSha) <==>
      Guarded(k, gitSha, q) || (plain.Some? ==> ShaOf(plain.value.meta) == gitSha)
  {
    if Guarded(k, gitSha, q) { GuardedShaIsOwn(k, gitSha, q); } else { UnguardedIsForwarded(k, gitSha, q); }
  }

  /******* The protocol *******/

  datatype Post =
    | Arrived(request: Request)
    | TriedLoad(request: Request)
    | InFlight(path: Path, sent: Body)
    | AtServer(event: BenchmarkEvent)
    | Admitted(index: nat, sha: string)
    | Closed

  datatype State = State(
    file: Option<string>,      // .git-metadata, trimmed
    gitSha: string,            // the sidecar's field
    posts: seq<Post>,
    requests: set<Request>,    // all posts that have reached the sidecar
    job: Job,
    accepted: set<nat>,        // posts whose status update the server accepted
    persisted: set<nat>)       // posts whose SHA the server stored

  /** What stays fixed during a run: the codec, the SHA that init resolves, the job's collection. */
  datatype World = World(codec: Codec, initSha: string, collection: seq<CollectionBenchmark>)

  datatype Step =
    | WriteMetadata                          // init
    | Startup(ioOk: bool)                    // sidecar start: best-effort load
    | Receives(request: Request)             // a POST reaches the sidecar
    | Load(p: nat, ioOk: bool)               // tryLoadGitSHA
    | Send(p: nat)                           // currentGitSHA, then forward
    | Duplicate(p: nat)                      // the transport delivers twice
    | Deliver(p: nat)                        // the server routes, decodes and validates
    | UpdateStatus(p: nat, storedOk: bool)   // UpdateEvaluationJob
    | Persist(p: nat, storedOk: bool, aliases: set<nat>)  // UpdateEvaluationJobResolvedSHA

  predicate CollectionJob(s: State) { s.job.collectionId != "" }

  /** The benchmark list the server sees when it reads the job. */
  function Effective(w: World, job: Job): seq<Benchmark> {
    if job.collectionId != "" then Resolve(w.collection, job.overrides) else job.benchmarks
  }

  predicate CanStamp(list: seq<Benchmark>, index: nat, aliases: set<nat>) {
    && index < |list| && list[index].testData.Some? && list[index].testData.value.resolvedSha == ""
    && index in aliases
    && (forall i | i in aliases :: i < |list| && list[i].testData == list[index].testData)
  }

  /** Writes through the TestDataRef pointer of `index`, which the entries in `aliases` share. */
  function Stamp(list: seq<Benchmark>, index: nat, aliases: set<nat>, sha: string): seq<Benchmark>
    requires CanStamp(list, index, aliases)
  {
    seq(|list|, i requires 0 <= i < |list| =>
      if i in aliases then list[i].(testData := Some(list[i].testData.value.(resolvedSha := sha))) else list[i])
  }

  predicate CanStep(s: State, t: Step) {
    match t
    case Load(p, _) => p < |s.posts| && s.posts[p].Arrived?
    case Send(p) => p < |s.posts| && s.posts[p].TriedLoad?
    case Duplicate(p) => p < |s.posts| && s.posts[p].InFlight?
    case Deliver(p) => p < |s.posts| && s.posts[p].InFlight?
    case UpdateStatus(p, _) => p < |s.posts| && s.posts[p].AtServer?
    case Persist(p, _, _) => p < |s.posts| && s.posts[p].Admitted?
    case _ => true
  }

  function SetPost(s: State, p: nat, post: Post): State
    requires p < |s.posts|
  {
    s.(posts := s.posts[p := post])
  }

  function LoadSha(s: State, ioOk: bool): State {
    if s.gitSha == "" && ioOk && s.file.Some? then s.(gitSha := s.file.value) else s
  }

  function Next(w: World, s: State, t: Step): State
    requires CanStep(s, t)
  {
    match t
    case WriteMetadata => s.(file := Some(w.initSha))
    case Startup(ioOk) => LoadSha(s, ioOk)
    case Receives(q) => s.(posts := s.posts + [Arrived(q)], requests := s.requests + {q})
    case Load(p, ioOk) =>
      var q := s.posts[p].request;
      LoadSha(SetPost(s, p, TriedLoad(q)), ioOk && Recognised(q.path))
    case Send(p) =>
      var q := s.posts[p].request;
      SetPost(s, p, InFlight(q.path, Forward(w.codec, s.gitSha, q)))
    case Duplicate(p) => s.(posts := s.posts + [s.posts[p]])
    case Deliver(p) =>
      var event := if Served(s.posts[p].path) then Receive(w.codec, s.posts[p].sent) else None;
      SetPost(s, p, if event.Some? then AtServer(event.value) else Closed)
    case UpdateStatus(p, storedOk) =>
      var ev := s.posts[p].event;
      var list := Effective(w, s.job);
      if storedOk && 0 <= ev.index < |list| && OKey(list[ev.index]) == Key(ev.provider, ev.id) then
        SetPost(s, p, Admitted(ev.index, ShaOf(ev.meta))).(accepted := s.accepted + {p})
      else
        SetPost(s, p, Closed)
    case Persist(p, storedOk, aliases) =>
      var Admitted(index, sha) := s.posts[p];
      var list := Effective(w, s.job);
      if storedOk && HexSha(sha) && CanStamp(list, index, aliases) then
        var stamped := Stamp(list, index, aliases, sha);
        SetPost(s, p, Closed).(
          job := if CollectionJob(s) then s.job.(overrides := stamped) else s.job.(benchmarks := stamped),
          persisted := s.persisted + {p})
      else
        SetPost(s, p, Closed)
  }

  predicate Initial(w: World, s: State) {
    && (s.file.None? || s.file == Some("")) && s.gitSha == "" && |s.posts| == 0 && |s.requests| == 0
    && |s.accepted| == 0 && |s.persisted| == 0
    && (forall i | 0 <= i < |Effective(w, s.job)| :: ShaAt(w, s, i) == "")
  }

  function ShaAt(w: World, s: State, i: nat): string
    requires i < |Effective(w, s.job)|
  {
    var td := Effective(w, s.job)[i].testData;
    if td.Some? then td.value.resolvedSha else ""
  }

  predicate IsRun(w: World, s: State, steps: seq<Step>)
    decreases |steps|
  {
    steps == [] || (CanStep(s, steps[0]) && IsRun(w, Next(w, s, steps[0]), steps[1..]))
  }

  function After(w: World, s: State, steps: seq<Step>): State
    requires IsRun(w, s, steps)
    decreases |steps|
  {
    if steps == [] then s else After(w, Next(w, s, steps[0]), steps[1..])
  }

  /******* What an unguarded post can do *******/

  /** What status updates and stamping read from a benchmark, and never change. */
  datatype Place = Place(key: Key, hasData: bool)

  function Places(w: World, job: Job): seq<Place> {
    var list := Effective(w, job);
    seq(|list|, i requires 0 <= i < |list| => Place(OKey(list[i]), list[i].testData.Some?))
  }

  /** The post is not guarded before the SHA is loaded, or not after. */
  predicate Loose(w: World, q: Request) { !Guarded(w.codec, "", q) || !Guarded(w.codec, w.initSha, q) }

  /** The server would take `ev` from the post as the adapter wrote it, and the sidecar may let it through. */
  predicate Carries(w: World, q: Request, ev: BenchmarkEvent) {
    Loose(w, q) && Served(q.path) && Receive(w.codec, q.body) == Some(ev)
  }

  predicate Names(places: seq<Place>, ev: BenchmarkEvent) {
    0 <= ev.index < |places| && places[ev.index].key == Key(ev.provider, ev.id)
  }

  /** The post can put `sha` on one of the job's benchmarks. */
  ghost predicate Plants(w: World, places: seq<Place>, q: Request, sha: string) {
    exists ev :: Carries(w, q, ev) && Names(places, ev) && places[ev.index].hasData && ShaOf(ev.meta) == sha && HexSha(sha)
  }

  /******* The invariant *******/

  predicate OwnSha(w: World, sha: string) { sha == "" || sha == w.initSha }

  /** The SHA is init's, or one of the received posts carried it. */
  ghost predicate EventOk(w: World, requests: set<Request>, ev: BenchmarkEvent) {
    OwnSha(w, ShaOf(ev.meta)) || exists q :: q in requests && Carries(w, q, ev)
  }

  ghost predicate AdmittedOk(w: World, requests: set<Request>, places: seq<Place>, index: nat, sha: string) {
    OwnSha(w, sha) ||
    exists q, ev :: q in requests && Carries(w, q, ev) && Names(places, ev) && ev.index == index && ShaOf(ev.meta) == sha
  }

  ghost predicate HeldOk(w: World, requests: set<Request>, places: seq<Place>, sha: string) {
    OwnSha(w, sha) || exists q :: q in requests && Plants(w, places, q, sha)
  }

  ghost predicate PostInv(w: World, requests: set<Request>, places: seq<Place>, post: Post) {
    match post
    case Arrived(q) => q in requests
    case TriedLoad(q) => q in requests
    case InFlight(path, sent) =>
      Served(path) && Receive(w.codec, sent).Some? ==> EventOk(w, requests, Receive(w.codec, sent).value)
    case AtServer(event) => EventOk(w, requests, event)
    case Admitted(index, sha) => AdmittedOk(w, requests, places, index, sha)
    case Closed => true
  }

  ghost predicate GoodWorld(w: World) {
    Faithful(w.codec) && forall b | b in w.collection :: b.id != ""
  }

  ghost predicate SidecarInv(w: World, s: State) {
    (s.file.Some? ==> OwnSha(w, s.file.value)) && OwnSha(w, s.gitSha)
  }

  ghost predicate PostsInv(w: World, s: State) {
    && (forall p | 0 <= p < |s.posts| :: PostInv(w, s.requests, Places(w, s.job), s.posts[p]))
    && (forall p | 0 <= p < |s.posts| && s.posts[p].Admitted? :: p in s.accepted)
    && s.persisted <= s.accepted
  }

  ghost predicate HeldInv(w: World, s: State) {
    forall i | 0 <= i < |Effective(w, s.job)| :: HeldOk(w, s.requests, Places(w, s.job), ShaAt(w, s, i))
  }

  ghost predicate Inv(w: World, s: State) { SidecarInv(w, s) && PostsInv(w, s) && HeldInv(w, s) }

  /** Reading a job after its stamped list was stored gives the stamped test data back. */
  lemma StoredStampIsEffective(w: World, job: Job, stamped: seq<Benchmark>, i: nat)
    requires (forall b | b in w.collection :: b.id != "") && job.collectionId != ""
    requires |stamped| == |w.collection| && i < |stamped|
    requires forall h | 0 <= h < |stamped| :: stamped[h] == Effective(w, job)[h].(testData := stamped[h].testData)
    requires forall h | 0 <= h < |stamped| :: stamped[h].testData.Some? <==> Effective(w, job)[h].testData.Some?
    ensures Effective(w, job.(overrides := stamped))[i].testData == stamped[i].testData
    ensures OKey(Effective(w, job.(overrides := stamped))[i]) == OKey(stamped[i])
  {
    var c := w.collection;
    ResolveAligned(c, job.overrides);
    assert Aligned(c, stamped);
    ReresolveAt(c, stamped, i);
    ResolveAt(c, job.overrides, i);
  }

  /** Recording a SHA fills the stamped entries, which were empty, and changes nothing else that is read. */
  lemma PersistEffect(w: World, s: State, t: Step, i: nat)
    requires GoodWorld(w) && CanStep(s, t) && t.Persist? && i < |Effective(w, s.job)|
    ensures
      var s' := Next(w, s, t);
      var stamps := t.storedOk && HexSha(s.posts[t.p].sha) && CanStamp(Effective(w, s.job), s.posts[t.p].index, t.aliases);
      && |Effective(w, s'.job)| == |Effective(w, s.job)|
      && OKey(Effective(w, s'.job)[i]) == OKey(Effective(w, s.job)[i])
      && (Effective(w, s'.job)[i].testData.Some? <==> Effective(w, s.job)[i].testData.Some?)
      && (stamps && i in t.aliases ==> ShaAt(w, s, i) == "" && ShaAt(w, s', i) == s.posts[t.p].sha)
      && (!(stamps && i in t.aliases) ==> ShaAt(w, s', i) == ShaAt(w, s, i))
  {
    var list := Effective(w, s.job);
    var Admitted(index, sha) := s.posts[t.p];
    if t.storedOk && HexSha(sha) && CanStamp(list, index, t.aliases) {
      var stamped := Stamp(list, index, t.aliases, sha);
      if CollectionJob(s) {
        StoredStampIsEffective(w, s.job, stamped, i);
      }
    }
  }

  lemma JobOnlyChangesOnPersist(w: World, s: State, t: Step)
    requires CanStep(s, t) && !t.Persist?
    ensures Next(w, s, t).job == s.job
  {
  }

  /** No step adds, removes or renames a benchmark. */
  lemma PlacesKept(w: World, s: State, t: Step)
    requires GoodWorld(w) && CanStep(s, t)
    ensures |Effective(w, Next(w, s, t).job)| == |Effective(w, s.job)|
    ensures Places(w, Next(w, s, t).job) == Places(w, s.job)
  {
    if t.Persist? {
      EffectiveLength(w, s, t);
      var s' := Next(w, s, t);
      forall i | 0 <= i < |Effective(w, s.job)| ensures Places(w, s'.job)[i] == Places(w, s.job)[i] {
        PersistEffect(w, s, t, i);
      }
      assert |Places(w, s'.job)| == |Places(w, s.job)|;
    } else {
      JobOnlyChangesOnPersist(w, s, t);
    }
  }

  lemma EffectiveLength(w: World, s: State, t: Step)
    requires CanStep(s, t)
    ensures |Effective(w, Next(w, s, t).job)| == |Effective(w, s.job)|
  {
  }

  /** A step leaves every SHA that is set alone, and sets only one that it can explain. */
  lemma StepKeepsShas(w: World, s: State, t: Step, i: nat)
    requires GoodWorld(w) && Inv(w, s) && CanStep(s, t) && i < |Effective(w, s.job)|
    ensures i < |Effective(w, Next(w, s, t).job)|
    ensures HeldOk(w, Next(w, s, t).requests, Places(w, s.job), ShaAt(w, Next(w, s, t), i))
    ensures ShaAt(w, s, i) != "" ==> ShaAt(w, Next(w, s, t), i) == ShaAt(w, s, i)
  {
    EffectiveLength(w, s, t);
    var places := Places(w, s.job);
    HeldMonotone(w, s.requests, Next(w, s, t).requests, places, ShaAt(w, s, i));
    if t.Persist? {
      PersistEffect(w, s, t, i);
      if ShaAt(w, Next(w, s, t), i) != ShaAt(w, s, i) {
        assert PostInv(w, s.requests, places, s.posts[t.p]);
        AdmittedIsHeld(w, s.requests, places, s.posts[t.p].index, s.posts[t.p].sha);
      }
    } else {
      JobOnlyChangesOnPersist(w, s, t);
      assert ShaAt(w, Next(w, s, t), i) == ShaAt(w, s, i);
    }
  }

  lemma HeldMonotone(w: World, a: set<Request>, b: set<Request>, places: seq<Place>, sha: string)
    requires HeldOk(w, a, places, sha) && a <= b
    ensures HeldOk(w, b, places, sha)
  {
  }

  lemma AdmittedIsHeld(w: World, requests: set<Request>, places: seq<Place>, index: nat, sha: string)
    requires AdmittedOk(w, requests, places, index, sha) && HexSha(sha) && index < |places| && places[index].hasData
    ensures HeldOk(w, requests, places, sha)
  {
    if !OwnSha(w, sha) {
      var q, ev :| q in requests && Carries(w, q, ev) && Names(places, ev) && ev.index == index && ShaOf(ev.meta) == sha;
      assert Plants(w, places, q, sha);
    }
  }

  /** What the sidecar forwards is explained by the post it forwards. */
  lemma ForwardedIsOk(w: World, requests: set<Request>, gitSha: string, q: Request)
    requires Faithful(w.codec) && OwnSha(w, gitSha) && q in requests
    ensures
      var r := Receive(w.codec, Forward(w.codec, gitSha, q));
      Served(q.path) && r.Some? ==> EventOk(w, requests, r.value)
  {
    if Guarded(w.codec, gitSha, q) {
      GuardedShaIsOwn(w.codec, gitSha, q);
    } else {
      UnguardedIsForwarded(w.codec, gitSha, q);
      var r := Receive(w.codec, q.body);
      if Served(q.path) && r.Some? { assert Carries(w, q, r.value); }
    }
  }

  lemma PostMonotone(w: World, a: set<Request>, b: set<Request>, places: seq<Place>, post: Post)
    requires PostInv(w, a, places, post) && a <= b
    ensures PostInv(w, b, places, post)
  {
  }

  /** The event that a status update admits names a benchmark of the job. */
  lemma AdmittedIsOk(w: World, requests: set<Request>, places: seq<Place>, ev: BenchmarkEvent)
    requires EventOk(w, requests, ev) && Names(places, ev)
    ensures AdmittedOk(w, requests, places, ev.index, ShaOf(ev.meta))
  {
  }

  lemma StepKeepsPost(w: World, s: State, t: Step, p: nat)
    requires GoodWorld(w) && SidecarInv(w, s) && PostsInv(w, s) && CanStep(s, t) && p < |Next(w, s, t).posts|
    ensures
      var s' := Next(w, s, t);
      PostInv(w, s'.requests, Places(w, s.job), s'.posts[p]) && (s'.posts[p].Admitted? ==> p in s'.accepted)
  {
    var s' := Next(w, s, t);
    var places := Places(w, s.job);
    if p < |s.posts| { PostMonotone(w, s.requests, s'.requests, places, s.posts[p]); }
    match t
    case Send(q) =>
      assert PostInv(w, s.requests, places, s.posts[q]);
      ForwardedIsOk(w, s.requests, s.gitSha, s.posts[q].request);
    case Duplicate(q) => assert PostInv(w, s.requests, places, s.posts[q]);
    case UpdateStatus(q, _) =>
      assert PostInv(w, s.requests, places, s.posts[q]);
      if Names(places, s.posts[q].event) { AdmittedIsOk(w, s.requests, places, s.posts[q].event); }
    case _ =>
  }

  lemma StepKeepsInv(w: World, s: State, t: Step)
    requires GoodWorld(w) && Inv(w, s) && CanStep(s, t)
    ensures Inv(w, Next(w, s, t))
  {
    var s' := Next(w, s, t);
    PlacesKept(w, s, t);
    forall p | 0 <= p < |s'.posts|
      ensures PostInv(w, s'.requests, Places(w, s.job), s'.posts[p]) && (s'.posts[p].Admitted? ==> p in s'.accepted)
    {
      StepKeepsPost(w, s, t, p);
    }
    PersistedAccepted(w, s, t);
    forall i | 0 <= i < |Effective(w, s'.job)|
      ensures HeldOk(w, s'.requests, Places(w, s'.job), ShaAt(w, s', i))
    {
      StepKeepsShas(w, s, t, i);
    }
  }

  lemma PersistedAccepted(w: World, s: State, t: Step)
    requires PostsInv(w, s) && CanStep(s, t)
    ensures Next(w, s, t).persisted <= Next(w, s, t).accepted
  {
    if t.Persist? { assert s.posts[t.p].Admitted?; }
  }

  /******* Over whole runs *******/

  /** Every run keeps the invariant, the list of benchmarks, and each SHA once it is set. */
  lemma {:induction false} RunKeepsShas(w: World, s: State, steps: seq<Step>)
    requires GoodWorld(w) && Inv(w, s) && IsRun(w, s, steps)
    ensures
      var s' := After(w, s, steps);
      && Inv(w, s') && Places(w, s'.job) == Places(w, s.job)
      && |Effective(w, s'.job)| == |Effective(w, s.job)|
      && (forall i | 0 <= i < |Effective(w, s.job)| :: ShaAt(w, s, i) != "" ==> ShaAt(w, s', i) == ShaAt(w, s, i))
    decreases |steps|
  {
    if steps != [] {
      var s1 := Next(w, s, steps[0]);
      StepKeepsInv(w, s, steps[0]);
      PlacesKept(w, s, steps[0]);
      RunKeepsShas(w, s1, steps[1..]);
      forall i | 0 <= i < |Effective(w, s.job)| && ShaAt(w, s, i) != ""
        ensures ShaAt(w, s1, i) == ShaAt(w, s, i)
      {
        StepKeepsShas(w, s, steps[0], i);
      }
    }
  }

  /** The posts of a run are those of its steps. */
  lemma {:induction false} RequestsAreReceived(w: World, s: State, steps: seq<Step>)
    requires IsRun(w, s, steps)
    ensures forall q | q in After(w, s, steps).requests :: q in s.requests || Receives(q) in steps
    decreases |steps|
  {
    if steps != [] { RequestsAreReceived(w, Next(w, s, steps[0]), steps[1..]); }
  }

  lemma InitialInv(w: World, s: State)
    requires Initial(w, s)
    ensures Inv(w, s)
  {
  }

  /**
    Over every run with an arbitrary adapter: every SHA the server holds is the one init wrote, or
    an unguarded post of the run carried it; SHAs are stored only for posts whose status update
    the server had accepted.
  */
  lemma HeldShaIsExplained(w: World, s: State, steps: seq<Step>)
    requires GoodWorld(w) && Initial(w, s) && IsRun(w, s, steps)
    ensures
      var s' := After(w, s, steps);
      && (forall i | 0 <= i < |Effective(w, s'.job)| && ShaAt(w, s', i) !in {"", w.initSha} ::
            exists q :: Receives(q) in steps && Plants(w, Places(w, s.job), q, ShaAt(w, s', i)))
      && s'.persisted <= s'.accepted
  {
    InitialInv(w, s);
    RunKeepsShas(w, s, steps);
    RequestsAreReceived(w, s, steps);
    var s' := After(w, s, steps);
    forall i | 0 <= i < |Effective(w, s'.job)| && ShaAt(w, s', i) !in {"", w.initSha}
      ensures exists q :: Receives(q) in steps && Plants(w, Places(w, s.job), q, ShaAt(w, s', i))
    {
      var q :| q in s'.requests && Plants(w, Places(w, s.job), q, ShaAt(w, s', i));
    }
  }

  /** Every SHA that a run sets is a plausible commit id: 7 to 40 hexadecimal digits. */
  lemma {:induction false} HeldShaIsHex(w: World, s: State, steps: seq<Step>, i: nat)
    requires GoodWorld(w) && IsRun(w, s, steps) && i < |Effective(w, s.job)| && ShaAt(w, s, i) == ""
    ensures i < |Effective(w, After(w, s, steps).job)|
    ensures
      var sha := ShaAt(w, After(w, s, steps), i);
      sha != "" ==> 7 <= |sha| <= 40 && forall j | 0 <= j < |sha| :: '0' <= sha[j] <= '9' || 'a' <= sha[j] <= 'f' || 'A' <= sha[j] <= 'F'
    decreases |steps|
  {
    if steps != [] {
      var s1 := Next(w, s, steps[0]);
      EffectiveLength(w, s, steps[0]);
      if steps[0].Persist? { PersistEffect(w, s, steps[0], i); } else { JobOnlyChangesOnPersist(w, s, steps[0]); }
      if ShaAt(w, s1, i) == "" {
        HeldShaIsHex(w, s1, steps[1..], i);
      } else {
        SetShaStays(w, s1, steps[1..], i);
      }
    }
  }

  lemma {:induction false} SetShaStays(w: World, s: State, steps: seq<Step>, i: nat)
    requires GoodWorld(w) && IsRun(w, s, steps) && i < |Effective(w, s.job)| && ShaAt(w, s, i) != ""
    ensures i < |Effective(w, After(w, s, steps).job)| && ShaAt(w, After(w, s, steps), i) == ShaAt(w, s, i)
    decreases |steps|
  {
    if steps != [] {
      var s1 := Next(w, s, steps[0]);
      EffectiveLength(w, s, steps[0]);
      if steps[0].Persist? { PersistEffect(w, s, steps[0], i); } else { JobOnlyChangesOnPersist(w, s, steps[0]); }
      SetShaStays(w, s1, steps[1..], i);
    }
  }

  /** Every post of the run is guarded, whether or not the SHA has been loaded. */
  predicate AllGuarded(w: World, steps: seq<Step>) {
    forall i | 0 <= i < |steps| && steps[i].Receives? :: !Loose(w, steps[i].request)
  }

  /** With every post guarded, only the SHA that init wrote is ever held. */
  lemma OnlyInitShaIsPersisted(w: World, s: State, steps: seq<Step>)
    requires GoodWorld(w) && Initial(w, s) && IsRun(w, s, steps) && AllGuarded(w, steps)
    ensures
      var s' := After(w, s, steps);
      forall i | 0 <= i < |Effective(w, s'.job)| :: ShaAt(w, s', i) in {"", w.initSha}
  {
    HeldShaIsExplained(w, s, steps);
  }

  /******* Exactly when another SHA can be held *******/

  lemma RunCons(w: World, s: State, t: Step, rest: seq<Step>)
    requires CanStep(s, t) && IsRun(w, Next(w, s, t), rest)
    ensures IsRun(w, s, [t] + rest) && After(w, s, [t] + rest) == After(w, Next(w, s, t), rest)
  {
    assert ([t] + rest)[1..] == rest;
  }

  lemma {:induction false} RunAppend(w: World, s: State, first: seq<Step>, last: seq<Step>)
    requires IsRun(w, s, first) && IsRun(w, After(w, s, first), last)
    ensures IsRun(w, s, first + last) && After(w, s, first + last) == After(w, After(w, s, first), last)
    decreases |first|
  {
    if first == [] {
      assert first + last == last;
    } else {
      RunAppend(w, Next(w, s, first[0]), first[1..], last);
      RunCons(w, s, first[0], first[1..] + last);
      assert [first[0]] + (first[1..] + last) == first + last;
    }
  }

  /** The sidecar lets a post through as it is when it is not guarded under the SHA at hand. */
  lemma SidecarRun(w: World, s: State, q: Request, ioOk: bool) returns (steps: seq<Step>)
    requires |s.posts| == 0 && s.gitSha == ""
    requires !Guarded(w.codec, LoadSha(s, ioOk && Recognised(q.path)).gitSha, q)
    ensures IsRun(w, s, steps) && After(w, s, steps).posts == [InFlight(q.path, q.body)] && After(w, s, steps).job == s.job
    ensures OnlyPost(steps, q)
  {
    var s1 := Next(w, s, Receives(q));
    var s2 := Next(w, s1, Load(0, ioOk));
    var s3 := Next(w, s2, Send(0));
    UnguardedIsForwarded(w.codec, s2.gitSha, q);
    RunCons(w, s2, Send(0), []);
    RunCons(w, s1, Load(0, ioOk), [Send(0)]);
    RunCons(w, s, Receives(q), [Load(0, ioOk), Send(0)]);
    steps := [Receives(q)] + [Load(0, ioOk), Send(0)];
  }

  /** The adapter's one post in the run is `q`. */
  predicate OnlyPost(steps: seq<Step>, q: Request) { forall t | t in steps && t.Receives? :: t.request == q }

  /** A loose post can reach the server as it is, before or after the SHA is loaded. */
  lemma LooseRun(w: World, s: State, q: Request) returns (steps: seq<Step>)
    requires Initial(w, s) && Loose(w, q)
    ensures IsRun(w, s, steps) && After(w, s, steps).posts == [InFlight(q.path, q.body)] && After(w, s, steps).job == s.job
    ensures OnlyPost(steps, q)
  {
    if !Guarded(w.codec, "", q) {
      steps := SidecarRun(w, s, q, false);
    } else {
      var s1 := Next(w, s, WriteMetadata);
      var rest := SidecarRun(w, s1, q, true);
      RunCons(w, s, WriteMetadata, rest);
      steps := [WriteMetadata] + rest;
    }
  }

  /** The server records the SHA of an event that names a benchmark with unresolved test data. */
  lemma ServerRun(w: World, s: State, path: Path, sent: Body, ev: BenchmarkEvent)
    requires GoodWorld(w) && s.posts == [InFlight(path, sent)] && Served(path) && Receive(w.codec, sent) == Some(ev)
    requires Names(Places(w, s.job), ev) && Places(w, s.job)[ev.index].hasData && HexSha(ShaOf(ev.meta))
    requires ShaAt(w, s, ev.index) == ""
    ensures
      var steps := [Deliver(0), UpdateStatus(0, true), Persist(0, true, {ev.index})];
      IsRun(w, s, steps) &&
      var s' := After(w, s, steps);
      ev.index < |Effective(w, s'.job)| && ShaAt(w, s', ev.index) == ShaOf(ev.meta)
  {
    var s1 := Next(w, s, Deliver(0));
    var s2 := Next(w, s1, UpdateStatus(0, true));
    assert s2.posts[0] == Admitted(ev.index, ShaOf(ev.meta));
    var t := Persist(0, true, {ev.index});
    var s3 := Next(w, s2, t);
    PersistEffect(w, s2, t, ev.index);
    RunCons(w, s2, t, []);
    RunCons(w, s1, UpdateStatus(0, true), [t]);
    RunCons(w, s, Deliver(0), [UpdateStatus(0, true), t]);
    assert [Deliver(0)] + [UpdateStatus(0, true), t] == [Deliver(0), UpdateStatus(0, true), t];
    assert [UpdateStatus(0, true)] + [t] == [UpdateStatus(0, true), t];
  }

  /** The sidecar, with init's SHA at hand, sends on what it makes of a recognised post. */
  lemma LoadedRun(w: World, s: State, q: Request) returns (steps: seq<Step>)
    requires Initial(w, s) && Recognised(q.path)
    ensures IsRun(w, s, steps) && OnlyPost(steps, q) && After(w, s, steps).job == s.job
    ensures After(w, s, steps).posts == [InFlight(q.path, Forward(w.codec, w.initSha, q))]
  {
    var s1 := Next(w, s, WriteMetadata);
    var s2 := Next(w, s1, Receives(q));
    var s3 := Next(w, s2, Load(0, true));
    RunCons(w, s3, Send(0), []);
    RunCons(w, s2, Load(0, true), [Send(0)]);
    RunCons(w, s1, Receives(q), [Load(0, true), Send(0)]);
    RunCons(w, s, WriteMetadata, [Receives(q), Load(0, true), Send(0)]);
    steps := [WriteMetadata] + ([Receives(q)] + ([Load(0, true)] + [Send(0)]));
  }

  /**
    The protocol does what it is for: once init has written its SHA, a guarded post that names a
    benchmark with unresolved test data brings that SHA to that benchmark.
  */
  lemma InitShaReachesBenchmark(w: World, s: State, q: Request, ev: BenchmarkEvent) returns (steps: seq<Step>)
    requires GoodWorld(w) && Initial(w, s) && HexSha(w.initSha) && Guarded(w.codec, w.initSha, q)
    requires w.codec.unmarshal(q.body) == Some(StatusEvent(Some(ev)))
    requires w.codec.valid(StatusEvent(Some(ev.(meta := Some(w.initSha)))))
    requires 0 <= ev.index < |Effective(w, s.job)| && Effective(w, s.job)[ev.index].testData.Some?
    requires Effective(w, s.job)[ev.index].provider == ev.provider && Effective(w, s.job)[ev.index].id == ev.id
    ensures IsRun(w, s, steps) && OnlyPost(steps, q)
    ensures ev.index < |Effective(w, After(w, s, steps).job)| && ShaAt(w, After(w, s, steps), ev.index) == w.initSha
  {
    RecognisedExactly(q.path);
    var first := LoadedRun(w, s, q);
    var s1 := After(w, s, first);
    var received := ev.(meta := Some(w.initSha));
    GuardedIsReceived(w.codec, w.initSha, q, ev);
    assert ShaAt(w, s1, ev.index) == ShaAt(w, s, ev.index) == "";
    ServerRun(w, s1, q.path, Forward(w.codec, w.initSha, q), received);
    var last := [Deliver(0), UpdateStatus(0, true), Persist(0, true, {ev.index})];
    RunAppend(w, s, first, last);
    steps := first + last;
  }

  /** A post that can plant a SHA does so in some run. */
  lemma PlantingRun(w: World, s: State, q: Request, sha: string) returns (steps: seq<Step>, i: nat)
    requires GoodWorld(w) && Initial(w, s) && Plants(w, Places(w, s.job), q, sha)
    ensures IsRun(w, s, steps) && OnlyPost(steps, q)
    ensures i < |Effective(w, After(w, s, steps).job)| && ShaAt(w, After(w, s, steps), i) == sha
  {
    var places := Places(w, s.job);
    var ev :| Carries(w, q, ev) && Names(places, ev) && places[ev.index].hasData && ShaOf(ev.meta) == sha && HexSha(sha);
    var first := LooseRun(w, s, q);
    var s1 := After(w, s, first);
    assert ShaAt(w, s1, ev.index) == ShaAt(w, s, ev.index) == "";
    ServerRun(w, s1, q.path, q.body, ev);
    var last := [Deliver(0), UpdateStatus(0, true), Persist(0, true, {ev.index})];
    RunAppend(w, s, first, last);
    steps, i := first + last, ev.index;
  }

  ghost predicate Holds(w: World, s: State, steps: seq<Step>, sha: string) {
    IsRun(w, s, steps) &&
    exists i :: 0 <= i < |Effective(w, After(w, s, steps).job)| && ShaAt(w, After(w, s, steps), i) == sha
  }

  /**
    A SHA other than init's can come to be held exactly when the adapter has a post that is not
    guarded and whose body, as it stands, names a benchmark with test data and gives that SHA.
  */
  lemma ForeignShaExactly(w: World, s: State, sha: string)
    requires GoodWorld(w) && Initial(w, s) && !OwnSha(w, sha)
    ensures (exists steps :: Holds(w, s, steps, sha)) <==> exists q :: Plants(w, Places(w, s.job), q, sha)
  {
    if steps :| Holds(w, s, steps, sha) {
      HeldShaIsExplained(w, s, steps);
    }
    if q :| Plants(w, Places(w, s.job), q, sha) {
      var steps, i := PlantingRun(w, s, q, sha);
      assert Holds(w, s, steps, sha);
    }
  }

  /******* The smallest failing runs *******/

  /** A codec that writes nothing but the metadata, for events on one benchmark. */
  const PlainCodec := Codec(
    (b: Body) => if b == "" then Some(PlainEvent(None)) else if b[0] == '+' then Some(PlainEvent(Some(b[1..]))) else None,
    (ev: StatusEvent) => if ev.benchmark.None? || ev != PlainEvent(ev.benchmark.value.meta) then None
                         else if ev.benchmark.value.meta.None? then Some("") else Some(['+'] + ev.benchmark.value.meta.value),
    (ev: StatusEvent) => ev.benchmark.Some?)

  function PlainEvent(meta: Option<string>): StatusEvent { StatusEvent(Some(BenchmarkEvent("p", "b", 0, meta))) }

  const PlainWorld := World(PlainCodec, "0123456", [])

  /** A job with one benchmark whose test data is not resolved yet, before anything happened. */
  ghost predicate PlainStart(s: State) {
    && Initial(PlainWorld, s) && s.job.collectionId == "" && |s.job.benchmarks| == 1
    && OKey(s.job.benchmarks[0]) == Key("p", "b") && s.job.benchmarks[0].testData.Some?
  }

  lemma PlainWorldIsGood()
    ensures GoodWorld(PlainWorld)
  {
    var k := PlainCodec;
    forall ev: StatusEvent, b | ev.benchmark.Some? && k.marshal(ev) == Some(b)
      ensures k.unmarshal(b) == Some(PlainEvent(ev.benchmark.value.meta))
    {
    }
  }

  lemma PlainPlants(s: State, q: Request, sha: string)
    requires PlainStart(s) && HexSha(sha) && q.body == ['+'] + sha && Served(q.path) && (!q.readOk || !Recognised(q.path))
    ensures Plants(PlainWorld, Places(PlainWorld, s.job), q, sha)
  {
    var ev := BenchmarkEvent("p", "b", 0, Some(sha));
    assert q.body[1..] == sha;
    assert Receive(PlainCodec, q.body) == Some(ev);
    assert Carries(PlainWorld, q, ev);
  }

  /** One recognised post whose body was not read to its end is enough. */
  lemma UnreadBodyIsHeld(s: State, q: Request, sha: string) returns (steps: seq<Step>)
    requires PlainStart(s) && HexSha(sha) && q.body == ['+'] + sha && Recognised(q.path) && !q.readOk
    ensures OnlyPost(steps, q) && Holds(PlainWorld, s, steps, sha)
  {
    PlainWorldIsGood();
    RecognisedExactly(q.path);
    PlainPlants(s, q, sha);
    var i;
    steps, i := PlantingRun(PlainWorld, s, q, sha);
  }

  /** One post with an escaped letter in its path is enough, although its body is read to its end. */
  lemma EscapedPathIsHeld(s: State, id: string, sha: string) returns (steps: seq<Step>)
    requires PlainStart(s) && HexSha(sha) && id != ""
    ensures OnlyPost(steps, Request(["api", "v1", "evaluations", "jobs", id, "%65vents"], ['+'] + sha, true))
    ensures Holds(PlainWorld, s, steps, sha)
  {
    PlainWorldIsGood();
    EscapedPathIsServed(id);
    var q := Request(["api", "v1", "evaluations", "jobs", id, "%65vents"], ['+'] + sha, true);
    PlainPlants(s, q, sha);
    var i;
    steps, i := PlantingRun(PlainWorld, s, q, sha);
  }
}
