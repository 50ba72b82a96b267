/**
  Pushing evaluation cards to an OCI registry: blobs (monolithic or in chunks), then a manifest
  under a tag. The registry is an object whose Serve method may refuse, drop or apply a request;
  the client's methods are proved against every such behaviour.

  SHA-256 is an arbitrary function `sha`; a streaming hasher is the bytes written to it so far.
*/
module OciPush {
  import opened Wrappers
  import opened Text

  newtype byte = x: int | 0 <= x < 256

  type Bytes = seq<byte>

  type Digest = string

  datatype Request =
    | Head(digest: Digest)
    | StartUpload
    | PatchChunk(url: string, start: int, end: int, chunk: Bytes)
    | PutBlob(url: string, digest: Digest, body: Bytes)
    | PutManifest(tag: string, body: Bytes)

  datatype Response = Response(status: int, location: Option<string>, contentDigest: string)

  const Ok := 200
  const Created := 201
  const Accepted := 202
  const Unauthorized := 401
  const NotFound := 404

  const DefaultChunkSize := 5 * 1024 * 1024

  datatype Contents = Contents(blobs: map<Digest, Bytes>, sessions: map<string, Bytes>, tags: map<string, Bytes>)

  /** What applying a request does; `url` is where the upload session lives afterwards. */
  ghost predicate Applies(sha: Bytes -> Digest, a: Contents, q: Request, b: Contents, url: string) {
    match q
    case Head(_) => false
    case StartUpload => url != "" && url !in a.sessions && b == a.(sessions := a.sessions[url := []])
    case PatchChunk(u, start, end, chunk) =>
      && u in a.sessions && start == |a.sessions[u]| && end == start + |chunk| - 1
      && (url == u || (url != "" && url !in a.sessions))
      && b == a.(sessions := (a.sessions - {u})[url := a.sessions[u] + chunk])
    case PutBlob(u, digest, body) =>
      && u in a.sessions && sha(a.sessions[u] + body) == digest
      && b == a.(sessions := a.sessions - {u}, blobs := a.blobs[digest := a.sessions[u] + body])
    case PutManifest(tag, body) => b == a.(tags := a.tags[tag := body])
  }

  predicate Succeeded(q: Request, status: int) {
    match q
    case Head(_) => status == Ok
    case StartUpload => status == Accepted
    case PatchChunk(_, _, _, _) => status == Accepted
    case PutBlob(_, _, _) => status == Created
    case PutManifest(_, _) => status == Created
  }

  /** One exchange as its sender sees it: nothing or one application, and what success implies. */
  ghost predicate Exchange(sha: Bytes -> Digest, a: Contents, before: seq<Request>, q: Request,
                           b: Contents, after: seq<Request>, r: Option<Response>) {
    && ((b == a && after == before) || (after == before + [q] && exists url :: Applies(sha, a, q, b, url)))
    && (r.Some? && Succeeded(q, r.value.status) ==>
          if q.Head? then b == a && q.digest in b.blobs
          else after == before + [q] && exists url :: Applies(sha, a, q, b, url) && Locates(q, r.value.location, url))
  }

  /** Without a Location header the session stays where it was. */
  predicate Locates(q: Request, location: Option<string>, url: string) {
    location == Some(url) || (location.None? && (q.PatchChunk? ==> url == q.url))
  }

  /** The request is one that a registry in this state can carry out. */
  ghost predicate Proper(sha: Bytes -> Digest, a: Contents, q: Request) {
    match q
    case PatchChunk(u, start, end, chunk) => u in a.sessions && start == |a.sessions[u]| && end == start + |chunk| - 1
    case PutBlob(u, digest, body) => u in a.sessions && sha(a.sessions[u] + body) == digest
    case _ => true
  }

  /** The answer of a registry that carried the request out. */
  ghost predicate Granted(sha: Bytes -> Digest, a: Contents, q: Request, r: Option<Response>) {
    && r.Some?
    && (if q.Head? then r.value.status == (if q.digest in a.blobs then Ok else NotFound) else Succeeded(q, r.value.status))
    && (q.StartUpload? ==> r.value.location.Some? && r.value.location.value != "")
    && (q.PutManifest? ==> r.value.contentDigest == "" || r.value.contentDigest == sha(q.body))
  }

  class Registry {
    const sha: Bytes -> Digest
    const healthy: bool               // it authorizes, answers and accepts every proper request
    var blobs: map<Digest, Bytes>
    var sessions: map<string, Bytes>
    var tags: map<string, Bytes>
    ghost var effects: seq<Request>   // the requests that were applied, in order

    ghost function View(): Contents reads this { Contents(blobs, sessions, tags) }

    constructor (sha: Bytes -> Digest, healthy: bool)
      ensures this.sha == sha && this.healthy == healthy && View() == Contents(map[], map[], map[]) && effects == []
    {
      this.sha, this.healthy := sha, healthy;
      blobs, sessions, tags, effects := map[], map[], map[], [];
    }

    /** A new session URL. */
    method FreshUrl() returns (url: string)
      ensures url != "" && url !in sessions
    {
      url := "u";
      ghost var seen: set<string> := {};
      while url in sessions
        invariant url != ""
        invariant forall s | s in seen :: s in sessions && |s| < |url|
        decreases sessions.Keys - seen
      {
        seen := seen + {url};
        url := url + "u";
      }
    }

    /**
      One HTTP exchange. No response stands for a transport error, after which the request may or
      may not have been applied; so may any status other than the request's success, except that an
      unauthorized request is never applied. A healthy registry answers every proper request with
      its success, tells where the session is, and confirms a manifest's digest or says nothing of it.
    */
    method Serve(q: Request) returns (r: Option<Response>)
      modifies this
      ensures Exchange(sha, old(View()), old(effects), q, View(), effects, r)
      ensures r.Some? && r.value.status == Unauthorized ==> View() == old(View()) && effects == old(effects)
      ensures healthy && Proper(sha, old(View()), q) ==> Granted(sha, old(View()), q, r)
    {
      var refuses: bool, drops: bool, loses: bool := *, *, *;
      if refuses && !healthy {
        return Some(Response(Unauthorized, None, ""));
      }
      if drops && !healthy {
        return None;
      }
      var newUrl := FreshUrl();
      var told: bool, moves: bool, header: string := *, *, *;
      if healthy {
        told := true;
        if q.PutManifest? && header != "" {
          header := sha(q.body);
        }
      }
      var applied, status, location := false, 500, None;
      match q {
        case Head(digest) =>
          status := if digest in blobs then Ok else NotFound;
        case StartUpload =>
          sessions := sessions[newUrl := []];
          applied, status, location := true, Accepted, if told then Some(newUrl) else None;
          assert Applies(sha, old(View()), q, View(), newUrl);
        case PatchChunk(u, start, end, chunk) =>
          if u in sessions && start == |sessions[u]| && end == start + |chunk| - 1 {
            var target := if moves then newUrl else u;
            sessions := (sessions - {u})[target := sessions[u] + chunk];
            applied, status, location := true, Accepted, if told || moves then Some(target) else None;
            assert Applies(sha, old(View()), q, View(), target);
          }
        case PutBlob(u, digest, body) =>
          if u in sessions && sha(sessions[u] + body) == digest {
            blobs, sessions := blobs[digest := sessions[u] + body], sessions - {u};
            applied, status := true, Created;
            assert Applies(sha, old(View()), q, View(), u);
          }
        case PutManifest(tag, body) =>
          tags := tags[tag := body];
          applied, status := true, Created;
          assert Applies(sha, old(View()), q, View(), "");
      }
      if applied {
        effects := effects + [q];
        if loses && !healthy {
          return None;
        }
      }
      return Some(Response(status, location, header));
    }
  }

  /******* Readers and chunk logs *******/

  datatype ReadEnd = More | Eof | Fault

  /** What one call of Read hands over. A reader is the list of its answers. */
  datatype Read = Read(chunk: Bytes, end: ReadEnd)

  function Content(answers: seq<Read>): Bytes {
    if answers == [] then []
    else if answers[0].end.More? then answers[0].chunk + Content(answers[1..])
    else answers[0].chunk
  }

  predicate Faulty(answers: seq<Read>) {
    answers != [] && (answers[0].end.Fault? || (answers[0].end.More? && Faulty(answers[1..])))
  }

  /** bytes.NewReader read through a buffer of `size` bytes. */
  function ReaderOf(content: Bytes, size: nat): seq<Read>
    requires size > 0
    decreases |content|
  {
    if content == [] then [Read([], Eof)]
    else
      var n := if |content| < size then |content| else size;
      [Read(content[..n], More)] + ReaderOf(content[n..], size)
  }

  lemma {:induction false} ReaderOfContent(content: Bytes, size: nat)
    requires size > 0
    ensures Content(ReaderOf(content, size)) == content && !Faulty(ReaderOf(content, size))
    decreases |content|
  {
    if content != [] {
      var n := if |content| < size then |content| else size;
      ReaderOfContent(content[n..], size);
      assert ReaderOf(content, size)[1..] == ReaderOf(content[n..], size);
    }
  }

  /** `hashed` is what the first `i` answers gave, all of it if they came to the end. */
  ghost predicate ReadSoFar(answers: seq<Read>, i: nat, end: bool, hashed: Bytes)
    requires i <= |answers|
  {
    && Content(answers) == (if end then hashed else hashed + Content(answers[i..]))
    && (Faulty(answers) <==> !end && Faulty(answers[i..]))
  }

  lemma AtStart(answers: seq<Read>)
    ensures ReadSoFar(answers, 0, false, [])
  {
    assert answers[0..] == answers;
    assert [] + Content(answers) == Content(answers);
  }

  lemma ReadOn(answers: seq<Read>, i: nat, hashed: Bytes)
    requires i <= |answers| && ReadSoFar(answers, i, false, hashed)
    ensures i == |answers| ==> ReadSoFar(answers, i, true, hashed + [])
    ensures i < |answers| && !answers[i].end.Fault? ==> ReadSoFar(answers, i + 1, answers[i].end.Eof?, hashed + answers[i].chunk)
  {
    assert hashed + [] == hashed;
    if i < |answers| {
      assert answers[i..][1..] == answers[i + 1..];
      AppendAssoc(hashed, answers[i].chunk, Content(answers[i + 1..]));
    }
  }

  /** The bytes a list of PATCH requests carries. */
  function PatchedBytes(ps: seq<Request>): Bytes {
    if ps == [] then []
    else
      var last := ps[|ps| - 1];
      PatchedBytes(ps[..|ps| - 1]) + (if last.PatchChunk? then last.chunk else [])
  }

  /** Every request is a non-empty chunk whose inclusive range starts where the previous one ended. */
  ghost predicate Contiguous(ps: seq<Request>) {
    forall i | 0 <= i < |ps| ::
      ps[i].PatchChunk? && ps[i].chunk != [] && ps[i].start == |PatchedBytes(ps[..i])| && ps[i].end == ps[i].start + |ps[i].chunk| - 1
  }

  lemma ContiguousSnoc(ps: seq<Request>, q: Request)
    requires Contiguous(ps) && q.PatchChunk? && q.chunk != []
    requires q.start == |PatchedBytes(ps)| && q.end == q.start + |q.chunk| - 1
    ensures Contiguous(ps + [q]) && PatchedBytes(ps + [q]) == PatchedBytes(ps) + q.chunk
  {
    var all := ps + [q];
    assert all[..|ps|] == ps;
    forall i | 0 <= i < |all|
      ensures all[i].PatchChunk? && all[i].chunk != [] && all[i].start == |PatchedBytes(all[..i])| && all[i].end == all[i].start + |all[i].chunk| - 1
    {
      if i < |ps| { assert all[..i] == ps[..i]; }
    }
  }

  /******* Manifests *******/

  datatype Descriptor = Descriptor(digest: Digest, size: nat)

  datatype Manifest = Manifest(config: Descriptor, layer: Descriptor, jobId: string)

  ghost predicate CollisionFree(sha: Bytes -> Digest) { forall x, y :: sha(x) == sha(y) ==> x == y }

  /** The described blob is stored under its digest, with the stated size if hashes do not collide. */
  ghost predicate Holds(sha: Bytes -> Digest, blobs: map<Digest, Bytes>, d: Descriptor) {
    d.digest in blobs && sha(blobs[d.digest]) == d.digest && (CollisionFree(sha) ==> |blobs[d.digest]| == d.size)
  }

  /** Every blob is stored under its own digest. */
  ghost predicate Addressed(sha: Bytes -> Digest, c: Contents) { forall d | d in c.blobs :: sha(c.blobs[d]) == d }

  /** If the tag names a manifest, both its blobs are stored. */
  ghost predicate TagSound(sha: Bytes -> Digest, decode: Bytes -> Option<Manifest>, c: Contents, t: string) {
    t in c.tags && decode(c.tags[t]).Some? ==>
      Holds(sha, c.blobs, decode(c.tags[t]).value.config) && Holds(sha, c.blobs, decode(c.tags[t]).value.layer)
  }

  /** Storing content under its digest keeps the blobs addressed and every sound tag sound. */
  lemma BlobKeepsTag(sha: Bytes -> Digest, decode: Bytes -> Option<Manifest>, a: Contents, b: Contents, content: Bytes, t: string)
    requires Addressed(sha, a) && a.tags == b.tags
    requires b.blobs == a.blobs || b.blobs == a.blobs[sha(content) := content]
    ensures Addressed(sha, b) && (TagSound(sha, decode, a, t) ==> TagSound(sha, decode, b, t))
  {
  }

  /** `later` adds requests to `log`, none of them for a manifest. */
  ghost predicate BlobEffects(log: seq<Request>, later: seq<Request>) {
    log <= later && forall i | |log| <= i < |later| :: !later[i].PutManifest?
  }

  /******* The client *******/

  datatype Outcome<T> = Done(value: T) | Failed

  datatype Reference = Reference(digest: Digest, tag: string)

  class Client {
    const registry: Registry
    const encode: Manifest -> Bytes

    constructor (registry: Registry, encode: Manifest -> Bytes)
      ensures this.registry == registry && this.encode == encode
    {
      this.registry, this.encode := registry, encode;
    }

    /** At most one retry, after a refreshed token; so at most one application of the request. */
    method Do(q: Request) returns (r: Option<Response>)
      modifies registry
      ensures Exchange(registry.sha, old(registry.View()), old(registry.effects), q, registry.View(), registry.effects, r)
      ensures registry.healthy && Proper(registry.sha, old(registry.View()), q) ==> Granted(registry.sha, old(registry.View()), q, r)
    {
      r := registry.Serve(q);
      if r == None || r.value.status != Unauthorized {
        return;
      }
      var refreshed: bool := *;
      if !refreshed {
        return None;
      }
      r := registry.Serve(q);
    }

    method BlobExists(digest: Digest) returns (r: Outcome<bool>)
      modifies registry
      ensures registry.View() == old(registry.View()) && registry.effects == old(registry.effects)
      ensures r == Done(true) ==> digest in registry.blobs
      ensures registry.healthy ==> r == Done(digest in registry.blobs)
    {
      var resp := Do(Head(digest));
      if resp == None {
        return Failed;
      }
      if resp.value.status == Ok {
        return Done(true);
      }
      if resp.value.status == NotFound {
        return Done(false);
      }
      return Failed;
    }

    method StartBlobUpload() returns (url: Outcome<string>)
      modifies registry
      ensures registry.blobs == old(registry.blobs) && registry.tags == old(registry.tags)
      ensures BlobEffects(old(registry.effects), registry.effects)
      ensures url.Done? ==> registry.effects == old(registry.effects) + [StartUpload] &&
                            url.value in registry.sessions && registry.sessions[url.value] == []
      ensures registry.healthy ==> url.Done?
    {
      var resp := Do(StartUpload);
      if resp == None || resp.value.status != Accepted || resp.value.location == None || resp.value.location == Some("") {
        return Failed;
      }
      return Done(resp.value.location.value);
    }

    method PatchBlobChunk(url: string, start: int, end: int, chunk: Bytes) returns (next: Outcome<string>)
      modifies registry
      ensures registry.blobs == old(registry.blobs) && registry.tags == old(registry.tags)
      ensures BlobEffects(old(registry.effects), registry.effects)
      ensures next.Done? ==>
                && registry.effects == old(registry.effects) + [PatchChunk(url, start, end, chunk)]
                && url in old(registry.sessions) && next.value in registry.sessions
                && registry.sessions[next.value] == old(registry.sessions)[url] + chunk
      ensures registry.healthy && url in old(registry.sessions) && start == |old(registry.sessions)[url]| && end == start + |chunk| - 1 ==>
                next.Done?
    {
      var resp := Do(PatchChunk(url, start, end, chunk));
      if resp == None || resp.value.status != Accepted {
        return Failed;
      }
      if resp.value.location == None || resp.value.location == Some("") {
        return Done(url);
      }
      return Done(resp.value.location.value);
    }

    /** The final PUT of an upload session, with the rest of the content in its body. */
    method FinishUpload(url: string, digest: Digest, body: Bytes) returns (ok: bool)
      requires url in registry.sessions && registry.sha(registry.sessions[url] + body) == digest
      modifies registry
      ensures registry.tags == old(registry.tags)
      ensures registry.blobs == old(registry.blobs) || registry.blobs == old(registry.blobs)[digest := old(registry.sessions)[url] + body]
      ensures ok ==> registry.blobs == old(registry.blobs)[digest := old(registry.sessions)[url] + body]
      ensures BlobEffects(old(registry.effects), registry.effects)
      ensures ok ==> registry.effects == old(registry.effects) + [PutBlob(url, digest, body)]
      ensures registry.healthy ==> ok
    {
      var resp := Do(PutBlob(url, digest, body));
      ok := resp.Some? && resp.value.status == Created;
    }

    method UploadBlobMonolithic(content: Bytes, digest: Digest) returns (ok: bool)
      requires digest == registry.sha(content)
      modifies registry
      ensures registry.tags == old(registry.tags)
      ensures registry.blobs == old(registry.blobs) || registry.blobs == old(registry.blobs)[digest := content]
      ensures ok ==> registry.blobs == old(registry.blobs)[digest := content]
      ensures BlobEffects(old(registry.effects), registry.effects)
      ensures registry.healthy ==> ok
    {
      var url := StartBlobUpload();
      if url == Failed {
        return false;
      }
      assert [] + content == content;
      ok := FinishUpload(url.value, digest, content);
    }

    /** One turn of the loop: what was read, if anything, goes to the end of the session. */
    method SendChunk(url: string, chunk: Bytes, offset: nat, ghost log: seq<Request>, ghost patches: seq<Request>)
      returns (next: Outcome<string>, ghost patches': seq<Request>)
      requires url in registry.sessions && offset == |registry.sessions[url]| && registry.effects == log + patches
      requires Contiguous(patches) && PatchedBytes(patches) == registry.sessions[url]
      modifies registry
      ensures registry.blobs == old(registry.blobs) && registry.tags == old(registry.tags)
      ensures BlobEffects(old(registry.effects), registry.effects)
      ensures next.Done? ==>
                && next.value in registry.sessions && registry.sessions[next.value] == old(registry.sessions)[url] + chunk
                && registry.effects == log + patches'
                && Contiguous(patches') && PatchedBytes(patches') == registry.sessions[next.value]
      ensures registry.healthy ==> next.Done?
    {
      next, patches' := Done(url), patches;
      if |chunk| == 0 {
        assert registry.sessions[url] + chunk == registry.sessions[url];
        return;
      }
      var last := offset + |chunk| - 1;
      next := PatchBlobChunk(url, offset, last, chunk);
      if next == Failed {
        return;
      }
      ghost var q := PatchChunk(url, offset, last, chunk);
      ContiguousSnoc(patches, q);
      AppendAssoc(log, patches, [q]);
      patches' := patches + [q];
    }

    /** The read-and-PATCH loop: all read bytes go to the session, in order, and through the hasher. */
    method StreamChunks(start: string, answers: seq<Read>) returns (url: Outcome<string>, hashed: Bytes, offset: nat, ghost patches: seq<Request>)
      requires start in registry.sessions && registry.sessions[start] == []
      modifies registry
      ensures registry.blobs == old(registry.blobs) && registry.tags == old(registry.tags)
      ensures BlobEffects(old(registry.effects), registry.effects)
      ensures url.Done? ==>
                && !Faulty(answers) && hashed == Content(answers) && offset == |hashed|
                && url.value in registry.sessions && registry.sessions[url.value] == hashed
                && registry.effects == old(registry.effects) + patches
                && Contiguous(patches) && PatchedBytes(patches) == hashed
      ensures registry.healthy && !Faulty(answers) ==> url.Done?
    {
      patches, hashed, offset, url := [], [], 0, Done(start);
      var i, end := 0, false;
      AtStart(answers);
      while !end
        invariant registry.blobs == old(registry.blobs) && registry.tags == old(registry.tags)
        invariant BlobEffects(old(registry.effects), registry.effects)
        invariant 0 <= i <= |answers| && offset == |hashed| && url.Done?
        invariant url.value in registry.sessions && registry.sessions[url.value] == hashed
        invariant registry.effects == old(registry.effects) + patches
        invariant Contiguous(patches) && PatchedBytes(patches) == hashed
        invariant ReadSoFar(answers, i, end, hashed)
        decreases |answers| - i, !end
      {
        var answer := if i < |answers| then answers[i] else Read([], Eof);
        ReadOn(answers, i, hashed);
        url, patches := SendChunk(url.value, answer.chunk, offset, old(registry.effects), patches);
        if url == Failed {
          return;
        }
        hashed := hashed + answer.chunk;
        offset := offset + |answer.chunk|;
        if answer.end == Fault {
          url := Failed;
          return;
        }
        end := answer.end == Eof;
        i := if i < |answers| then i + 1 else i;
      }
    }

    /**
      Chunked upload has the monolithic one's contract for the whole content, whatever the reader's
      split, and its log is: start, contiguous PATCHes from byte zero that carry the content, PUT.
    */
    method UploadBlobChunked(answers: seq<Read>) returns (r: Outcome<(Digest, nat)>, ghost url: string, ghost patches: seq<Request>)
      modifies registry
      ensures registry.tags == old(registry.tags) && BlobEffects(old(registry.effects), registry.effects)
      ensures
        var content, digest := Content(answers), registry.sha(Content(answers));
        && (registry.blobs == old(registry.blobs) || registry.blobs == old(registry.blobs)[digest := content])
        && (r.Done? ==> !Faulty(answers) && r.value == (digest, |content|) && registry.blobs == old(registry.blobs)[digest := content])
        && (registry.healthy && !Faulty(answers) ==> r.Done?)
        && (r.Done? ==> registry.effects == old(registry.effects) + [StartUpload] + patches + [PutBlob(url, digest, [])] &&
                        Contiguous(patches) && PatchedBytes(patches) == content)
    {
      patches, url, r := [], "", Failed;
      var started := StartBlobUpload();
      if started == Failed {
        return;
      }
      var uploadUrl, hashed, offset;
      uploadUrl, hashed, offset, patches := StreamChunks(started.value, answers);
      if uploadUrl == Failed {
        return;
      }
      var digest := registry.sha(hashed);
      assert hashed + [] == hashed;
      url := uploadUrl.value;
      var ok := FinishUpload(uploadUrl.value, digest, []);
      if ok {
        r := Done((digest, offset));
      }
    }

    /** Uploads the content unless it is there; the choice of upload cannot be observed in the outcome. */
    method EnsureBlob(content: Bytes) returns (r: Outcome<Descriptor>)
      modifies registry
      ensures registry.tags == old(registry.tags)
      ensures registry.blobs == old(registry.blobs) || registry.blobs == old(registry.blobs)[registry.sha(content) := content]
      ensures BlobEffects(old(registry.effects), registry.effects)
      ensures r.Done? ==> r.value == Descriptor(registry.sha(content), |content|) && registry.sha(content) in registry.blobs
      ensures registry.healthy ==> r.Done?
    {
      var digest := registry.sha(content);
      var exists_ := BlobExists(digest);
      if exists_ == Failed {
        return Failed;
      }
      if exists_.value {
        return Done(Descriptor(digest, |content|));
      }
      if |content| <= DefaultChunkSize {
        var ok := UploadBlobMonolithic(content, digest);
        return if ok then Done(Descriptor(digest, |content|)) else Failed;
      }
      ReaderOfContent(content, DefaultChunkSize);
      var uploaded, _, _ := UploadBlobChunked(ReaderOf(content, DefaultChunkSize));
      if uploaded == Failed || uploaded.value.0 != digest {
        return Failed;
      }
      return Done(Descriptor(digest, uploaded.value.1));
    }

    method PutTag(tag: string, manifest: Bytes) returns (r: Outcome<Digest>)
      modifies registry
      ensures registry.blobs == old(registry.blobs)
      ensures registry.tags == old(registry.tags) || registry.tags == old(registry.tags)[tag := manifest]
      ensures registry.effects == old(registry.effects) || registry.effects == old(registry.effects) + [PutManifest(tag, manifest)]
      ensures registry.tags == old(registry.tags) || registry.effects == old(registry.effects) + [PutManifest(tag, manifest)]
      ensures r.Done? ==> r.value == registry.sha(manifest) && registry.tags == old(registry.tags)[tag := manifest]
      ensures registry.healthy ==> r.Done?
    {
      var resp := Do(PutManifest(tag, manifest));
      if resp == None || resp.value.status != Created {
        return Failed;
      }
      var expected := registry.sha(manifest);
      var digest := resp.value.contentDigest;
      if digest == "" {
        return Done(expected);
      }
      if digest != expected {
        return Failed;
      }
      return Done(digest);
    }

    /**
      Pushing a card. Whatever step fails, sound tags stay sound, no other tag is touched, and the
      pushed tag is as it was or sound. The manifest is the last thing that is sent, once both its
      blobs are stored; and a returned reference names exactly the manifest bytes at the tag.
    */
    method PushEvaluationCard(jobIdValid: bool, jobId: string, tag: string, configBlob: Outcome<Bytes>, card: Bytes,
                              ghost decode: Bytes -> Option<Manifest>) returns (r: Outcome<Reference>)
      requires forall m :: decode(encode(m)) == Some(m)
      requires Addressed(registry.sha, registry.View())
      modifies registry
      ensures Addressed(registry.sha, registry.View())
      ensures forall t :: TagSound(registry.sha, decode, old(registry.View()), t) ==> TagSound(registry.sha, decode, registry.View(), t)
      ensures registry.tags - {tag} == old(registry.tags) - {tag}
      ensures registry.tags == old(registry.tags) || TagSound(registry.sha, decode, registry.View(), tag)
      ensures forall i | |old(registry.effects)| <= i < |registry.effects| && registry.effects[i].PutManifest? ::
                && i == |registry.effects| - 1 && registry.sha(card) in registry.blobs
                && configBlob.Done? && registry.sha(configBlob.value) in registry.blobs
      ensures !jobIdValid || tag == "" || card == [] || configBlob.Failed? ==> r.Failed? && registry.View() == old(registry.View())
      ensures registry.healthy && jobIdValid && tag != "" && card != [] && configBlob.Done? ==> r.Done?
      ensures r.Done? ==>
                && tag in registry.tags && r.value == Reference(registry.sha(registry.tags[tag]), tag)
                && decode(registry.tags[tag]) ==
                   Some(Manifest(Descriptor(registry.sha(configBlob.value), |configBlob.value|), Descriptor(registry.sha(card), |card|), jobId))
    {
      if !jobIdValid || tag == "" || |card| == 0 || configBlob == Failed {
        return Failed;
      }
      ghost var c0 := registry.View();
      var config, layer := EnsureBlobs(configBlob.value, card);
      ghost var c2 := registry.View();
      forall t ensures Addressed(registry.sha, c2) && (TagSound(registry.sha, decode, c0, t) ==> TagSound(registry.sha, decode, c2, t)) {
        BlobsKeepTag(registry.sha, decode, c0, c2, configBlob.value, card, t);
      }
      if config == Failed || layer == Failed {
        return Failed;
      }
      var manifest := Manifest(config.value, layer.value, jobId);
      BlobHolds(registry.sha, c2, configBlob.value);
      BlobHolds(registry.sha, c2, card);
      var digest := PutTag(tag, encode(manifest));
      assert registry.tags - {tag} == c2.tags - {tag};
      forall t | TagSound(registry.sha, decode, c2, t) ensures TagSound(registry.sha, decode, registry.View(), t) {
        ManifestKeepsTag(registry.sha, decode, c2, registry.View(), tag, encode(manifest), t);
      }
      ManifestKeepsTag(registry.sha, decode, c2, registry.View(), tag, encode(manifest), tag);
      if digest == Failed {
        return Failed;
      }
      return Done(Reference(digest.value, tag));
    }

    /** The config blob, and then the card. */
    method EnsureBlobs(config: Bytes, card: Bytes) returns (c: Outcome<Descriptor>, l: Outcome<Descriptor>)
      modifies registry
      ensures Stores(registry.sha, old(registry.View()), registry.View(), config, card)
      ensures BlobEffects(old(registry.effects), registry.effects)
      ensures c.Done? && l.Done? ==>
                && c.value == Descriptor(registry.sha(config), |config|) && l.value == Descriptor(registry.sha(card), |card|)
                && registry.sha(config) in registry.blobs && registry.sha(card) in registry.blobs
      ensures registry.healthy ==> c.Done? && l.Done?
    {
      l := Failed;
      c := EnsureBlob(config);
      assert StoresOne(registry.sha, old(registry.blobs), registry.blobs, config);
      ghost var mid := registry.blobs;
      if c.Done? {
        l := EnsureBlob(card);
      }
      assert StoresOne(registry.sha, mid, registry.blobs, card);
    }
  }

  /** Some of the two contents have been stored under their digests, and no tag has changed. */
  ghost predicate Stores(sha: Bytes -> Digest, a: Contents, b: Contents, x: Bytes, y: Bytes) {
    && a.tags == b.tags
    && exists mid :: StoresOne(sha, a.blobs, mid, x) && StoresOne(sha, mid, b.blobs, y)
  }

  ghost predicate StoresOne(sha: Bytes -> Digest, a: map<Digest, Bytes>, b: map<Digest, Bytes>, x: Bytes) {
    b == a || b == a[sha(x) := x]
  }

  lemma BlobsKeepTag(sha: Bytes -> Digest, decode: Bytes -> Option<Manifest>, a: Contents, b: Contents, x: Bytes, y: Bytes, t: string)
    requires Addressed(sha, a) && Stores(sha, a, b, x, y)
    ensures Addressed(sha, b) && (TagSound(sha, decode, a, t) ==> TagSound(sha, decode, b, t))
  {
    var mid :| StoresOne(sha, a.blobs, mid, x) && StoresOne(sha, mid, b.blobs, y);
    BlobKeepsTag(sha, decode, a, a.(blobs := mid), x, t);
    BlobKeepsTag(sha, decode, a.(blobs := mid), b, y, t);
  }

  lemma BlobHolds(sha: Bytes -> Digest, c: Contents, content: Bytes)
    requires Addressed(sha, c) && sha(content) in c.blobs
    ensures Holds(sha, c.blobs, Descriptor(sha(content), |content|))
  {
    assert sha(c.blobs[sha(content)]) == sha(content);
  }

  /** Tagging a manifest whose blobs are stored keeps every sound tag sound, and makes its own so. */
  lemma ManifestKeepsTag(sha: Bytes -> Digest, decode: Bytes -> Option<Manifest>, a: Contents, b: Contents, tag: string, manifest: Bytes, t: string)
    requires b.blobs == a.blobs && (b.tags == a.tags || b.tags == a.tags[tag := manifest])
    requires decode(manifest).Some? && Holds(sha, a.blobs, decode(manifest).value.config) && Holds(sha, a.blobs, decode(manifest).value.layer)
    ensures TagSound(sha, decode, a, t) ==> TagSound(sha, decode, b, t)
    ensures b.tags == a.tags || TagSound(sha, decode, b, tag)
  {
  }
}
