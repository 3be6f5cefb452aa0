/** The CLI's `push` command, run against the service while others use it too. */
module Client {
  import opened Options
  import opened ByteStrings
  import opened Store
  import opened History
  import opened Service
  import opened Pushes
  import opened PushRequests
  import M = MissingAssets
  import C = Cms
  import UM = UploadMachine
  import UI = UploadInvariant
  import UT = UploadTheorems

  const ASSET_MAX_CHUNK_SIZE: nat := 8192

  // ---------- what the chunking loop sends ----------

  function BytesOf(m: PushMessage): Bytes {
    if m.Data? then m.bytes else []
  }

  function Joined(ms: seq<PushMessage>): Bytes {
    if ms == [] then [] else Joined(ms[..|ms| - 1]) + BytesOf(ms[|ms| - 1])
  }

  predicate AreChunks(ms: seq<PushMessage>) {
    forall i :: 0 <= i < |ms| ==> ms[i].Data? && 0 < |ms[i].bytes| <= ASSET_MAX_CHUNK_SIZE
  }

  lemma {:induction false} ReceivedIsJoined(u: UM.Upload, ms: seq<PushMessage>, n: nat)
    requires u.messages == AsChunks(ms) && n <= |ms|
    ensures UI.Received(u, n) == Joined(ms[..n])
  {
    if n == 0 {
    } else {
      ReceivedIsJoined(u, ms, n - 1);
      assert ms[..n][..n - 1] == ms[..n - 1];
    }
  }

  /** Chunks of the file described, in order, are an upload that succeeds and cannot hang. */
  lemma FaithfulUpload(digest: Digest, d: Descriptor, ms: seq<PushMessage>, prior: Option<Bytes>, content: Bytes)
    requires AreChunks(ms) && Joined(ms) == content
    requires d.hash == digest(content) && d.contentLength == |content|
    ensures var u := UploadOf(digest, d, ms, prior);
      UI.Payload(u) == content && UI.Prescribed(u) == UM.Success && !UT.EmptyChunkWhenFull(u)
  {
    var u := UploadOf(digest, d, ms, prior);
    ReceivedIsJoined(u, ms, |ms|);
    assert ms[..|ms|] == ms;
    forall i: nat | i < |u.messages| ensures !UI.Offends(u, i) && u.messages[i] != UM.Chunk([]) {
      assert ms[i].Data?;
      UT.ReceivedGrows(u, i + 1, |ms|);
    }
  }

  lemma ChunkSent(ms: seq<PushMessage>, content: Bytes, pos: nat, n: nat)
    requires AreChunks(ms) && pos + n <= |content| && Joined(ms) == content[..pos]
    requires 0 < n <= ASSET_MAX_CHUNK_SIZE
    ensures var ms' := ms + [Data(content[pos..pos + n])]; AreChunks(ms') && Joined(ms') == content[..pos + n]
  {
    var ms' := ms + [Data(content[pos..pos + n])];
    assert ms'[..|ms|] == ms;
    assert content[..pos] + content[pos..pos + n] == content[..pos + n];
  }

  /** The EOF-driven loop over the file: `reader` says how much each read returns, and how the end is reported. */
  method ChunkFile(content: Bytes, reader: nat -> (nat, bool)) returns (ms: seq<PushMessage>)
    ensures AreChunks(ms) && Joined(ms) == content
    ensures forall m :: m in ms ==> m.Data? && 0 < |m.bytes| <= 8192
  {
    ms := [];
    var pos := 0;
    var isEOF := false;
    while !isEOF
      invariant 0 <= pos <= |content|
      invariant AreChunks(ms) && Joined(ms) == content[..pos]
      invariant isEOF ==> pos == |content|
      decreases |content| - pos, !isEOF
    {
      var (size, atOnce) := reader(pos);
      var bytesRead := if size == 0 then 1 else if size > ASSET_MAX_CHUNK_SIZE then ASSET_MAX_CHUNK_SIZE else size;
      if bytesRead > |content| - pos { bytesRead := |content| - pos; }
      isEOF := pos + bytesRead == |content| && (bytesRead == 0 || atOnce);
      if bytesRead > 0 {
        ChunkSent(ms, content, pos, bytesRead);
        ms := ms + [Data(content[pos..pos + bytesRead])];
        pos := pos + bytesRead;
      }
    }
  }

  /** slices.IndexFunc with equality. */
  method IndexOf(ds: seq<Descriptor>, d: Descriptor) returns (index: int)
    ensures index == -1 <==> d !in ds
    ensures index != -1 ==> 0 <= index < |ds| && ds[index] == d && d !in ds[..index]
  {
    index := 0;
    while index < |ds|
      invariant 0 <= index <= |ds| && d !in ds[..index]
    {
      if ds[index] == d { return; }
      index := index + 1;
    }
    index := -1;
  }

  // ---------- what others do meanwhile ----------

  /** A call by somebody else, or by the same user from elsewhere. */
  datatype OtherCall =
    | OtherSeed(uid: User, req: SeedRequest, newId: string)
    | OtherPublish(uid: User, id: Option<string>, now: Time)
    | OtherRedact(uid: User, slug: string)
    | OtherUpload(messages: seq<PushMessage>)
    | OtherAbandon(hash: Bytes)  // an upload that hangs is cancelled

  /** What the history records of the call if it succeeds. */
  function Recorded(c: OtherCall): Option<Event> {
    match c
    case OtherSeed(uid, req, newId) => Some(SeedCall(uid, req, newId))
    case OtherPublish(uid, id, now) => Some(PublishCall(uid, id, now))
    case OtherRedact(uid, slug) => Some(RedactCall(uid, slug))
    case OtherUpload(messages) =>
      if messages != [] && messages[0].Describe? then Some(CommitOf(messages[0].descriptor)) else None
    case OtherAbandon(_) => None
  }

  /** The call can hang holding h: an upload of it with an empty chunk when full. */
  ghost predicate MayHold(digest: Digest, c: OtherCall, h: Bytes) {
    && c.OtherUpload? && c.messages != [] && c.messages[0].Describe? && c.messages[0].descriptor.hash == h
    && UT.EmptyChunkWhenFull(UploadOf(digest, c.messages[0].descriptor, c.messages[1..], None))
  }

  /** What is held was held before, or is by one of the calls. */
  ghost predicate HeldFrom(digest: Digest, held: set<Bytes>, before: set<Bytes>, calls: seq<OtherCall>) {
    forall h :: h in held && h !in before ==> exists c :: c in calls && MayHold(digest, c, h)
  }

  lemma {:induction false} ReceivedWithoutPrior(u: UM.Upload, n: nat)
    requires n <= |u.messages|
    ensures UI.Received(u, n) == UI.Received(u.(prior := None), n)
  {
    if n == 0 {
    } else {
      ReceivedWithoutPrior(u, n - 1);
    }
  }

  /** Whether a stream hangs has nothing to do with what the object name held before. */
  lemma HangsWithoutPrior(u: UM.Upload)
    requires UT.EmptyChunkWhenFull(u)
    ensures UT.EmptyChunkWhenFull(u.(prior := None))
  {
    var i: nat :| UT.EmptyChunkAt(u, i);
    ReceivedWithoutPrior(u, i);
    assert UT.EmptyChunkAt(u.(prior := None), i);
  }

  lemma HeldFromJoin(digest: Digest, held: set<Bytes>, mid: set<Bytes>, before: set<Bytes>, calls: seq<OtherCall>, c: OtherCall)
    requires HeldFrom(digest, held, mid, [c]) && HeldFrom(digest, mid, before, calls)
    ensures HeldFrom(digest, held, before, calls + [c])
  {
    forall h | h in held && h !in before ensures exists c' :: c' in calls + [c] && MayHold(digest, c', h) {
      if h in mid {
        var c' :| c' in calls && MayHold(digest, c', h);
        assert c' in calls + [c];
      } else {
        var c' :| c' in [c] && MayHold(digest, c', h);
        assert c' in calls + [c];
      }
    }
  }

  ghost predicate FromCalls(events: seq<Event>, calls: seq<OtherCall>) {
    forall e :: e in events ==> exists c :: c in calls && Recorded(c) == Some(e)
  }

  function CommittedBy(events: seq<Event>): set<Bytes> {
    set e | e in events && e.AssetCommit? :: e.hash
  }

  /** The hashes the server has, before and after these events. */
  ghost predicate Adds(before: set<Bytes>, events: seq<Event>, after: set<Bytes>) {
    after == before + CommittedBy(events) && CommittedBy(events) !! before
  }

  lemma AddsJoin(a: set<Bytes>, xs: seq<Event>, b: set<Bytes>, ys: seq<Event>, c: set<Bytes>)
    requires Adds(a, xs, b) && Adds(b, ys, c)
    ensures Adds(a, xs + ys, c)
  {
    CommittedByJoin(xs, ys);
  }

  lemma CommittedByJoin(xs: seq<Event>, ys: seq<Event>)
    ensures CommittedBy(xs + ys) == CommittedBy(xs) + CommittedBy(ys)
  {
  }

  lemma NextAdds(p: Paths, t: Tables, e: Event)
    requires e.AssetCommit? ==> e.hash !in t.assets
    ensures Adds(t.assets.Keys, [e], Next(p, t, e).assets.Keys)
  {
    if e.SeedCall? && Seed(p, t, e.uid, e.req, e.newId).1.Seeded? { SeedShape(p, t, e.uid, e.req, e.newId); }
    assert CommittedBy([e]) == if e.AssetCommit? then {e.hash} else {};
  }

  lemma RecordedAdds(p: Paths, past: seq<Event>, e: Event)
    requires e.AssetCommit? ==> e.hash !in After(p, past).assets
    ensures Adds(After(p, past).assets.Keys, [e], After(p, past + [e]).assets.Keys)
  {
    AfterOneMore(p, past, e);
    NextAdds(p, After(p, past), e);
  }

  lemma NothingAdds(keys: set<Bytes>)
    ensures Adds(keys, [], keys)
  {
  }

  /** The call itself, and whether it succeeded. */
  method Perform(server: CmsService, c: OtherCall, pick: Scheduler) returns (ok: bool)
    requires server.Sound() && Legal(pick, false)
    modifies server
    ensures server.Sound() && Extends(old(server.View()), old(server.objects), server.View(), server.objects)
    ensures ok ==> Recorded(c).Some? && server.history == old(server.history) + [Recorded(c).value]
    ensures ok && Recorded(c).value.AssetCommit? ==> Recorded(c).value.hash !in old(server.assets)
    ensures !ok ==> server.history == old(server.history)
    ensures HeldFrom(server.digest, server.held, old(server.held), [c])
  {
    if c.OtherUpload? {
      ok := PerformUpload(server, c.messages, pick);
      return;
    }
    ghost var held := server.held;
    ok := PerformOther(server, c);
    NothingMoreHeld(server.digest, server.held, held, c);
  }

  lemma NothingMoreHeld(digest: Digest, held: set<Bytes>, before: set<Bytes>, c: OtherCall)
    requires held <= before
    ensures HeldFrom(digest, held, before, [c])
  {
  }

  method PerformOther(server: CmsService, c: OtherCall) returns (ok: bool)
    requires server.Sound() && !c.OtherUpload?
    modifies server
    ensures server.Sound() && Extends(old(server.View()), old(server.objects), server.View(), server.objects)
    ensures ok ==> Recorded(c).Some? && !Recorded(c).value.AssetCommit?
    ensures ok ==> server.history == old(server.history) + [Recorded(c).value]
    ensures !ok ==> server.history == old(server.history)
    ensures server.held <= old(server.held)
  {
    match c
    case OtherSeed(uid, req, newId) => ok := PerformSeed(server, uid, req, newId);
    case OtherPublish(uid, id, now) => ok := PerformPublish(server, uid, id, now);
    case OtherRedact(uid, slug) => ok := PerformRedact(server, uid, slug);
    case OtherAbandon(hash) =>
      ok := false;
      server.Abandon(hash);
  }

  method PerformSeed(server: CmsService, uid: User, req: SeedRequest, newId: string) returns (ok: bool)
    requires server.Sound()
    modifies server
    ensures server.Sound() && Extends(old(server.View()), old(server.objects), server.View(), server.objects)
    ensures server.history == if ok then old(server.history) + [SeedCall(uid, req, newId)] else old(server.history)
    ensures server.held == old(server.held)
  {
    var reply := server.SeedArticle(uid, req, newId, false);
    ok := reply.Seeded?;
  }

  method PerformPublish(server: CmsService, uid: User, id: Option<string>, now: Time) returns (ok: bool)
    requires server.Sound()
    modifies server
    ensures server.Sound() && Extends(old(server.View()), old(server.objects), server.View(), server.objects)
    ensures server.history == if ok then old(server.history) + [PublishCall(uid, id, now)] else old(server.history)
    ensures server.held == old(server.held)
  {
    var reply := server.PublishArticle(uid, id, now, false);
    ok := reply.Ok?;
  }

  method PerformRedact(server: CmsService, uid: User, slug: string) returns (ok: bool)
    requires server.Sound()
    modifies server
    ensures server.Sound() && Extends(old(server.View()), old(server.objects), server.View(), server.objects)
    ensures server.history == if ok then old(server.history) + [RedactCall(uid, slug)] else old(server.history)
    ensures server.held == old(server.held)
  {
    var reply := server.RedactArticle(uid, slug, false);
    ok := reply.Ok?;
  }

  method PerformUpload(server: CmsService, messages: seq<PushMessage>, pick: Scheduler) returns (ok: bool)
    requires server.Sound() && Legal(pick, false)
    modifies server
    ensures server.Sound() && Extends(old(server.View()), old(server.objects), server.View(), server.objects)
    ensures ok ==> messages != [] && messages[0].Describe? && messages[0].descriptor.hash !in old(server.assets)
    ensures ok ==> server.history == old(server.history) + [CommitOf(messages[0].descriptor)]
    ensures !ok ==> server.history == old(server.history)
    ensures HeldFrom(server.digest, server.held, old(server.held), [OtherUpload(messages)])
  {
    ghost var held, objects := server.held, server.objects;
    var outcome := server.PushAsset(messages, pick, false);
    ok := outcome == Some(UM.Success);
    if server.held != held {
      ghost var d := messages[0].descriptor;
      HangsWithoutPrior(UploadOf(server.digest, d, messages[1..], C.Lookup(objects, ObjectName(d.hash))));
      assert MayHold(server.digest, OtherUpload(messages), d.hash);
    }
  }

  /** One call by another, which may fail. */
  method CallByOther(server: CmsService, c: OtherCall, pick: Scheduler) returns (ghost events: seq<Event>)
    requires server.Sound() && Legal(pick, false)
    modifies server
    ensures server.Sound() && server.history == old(server.history) + events
    ensures Performed(server.digest, [c], events, old(server.View()), old(server.objects), old(server.held),
                      server.View(), server.objects, server.held)
  {
    ghost var past := server.history;
    var ok := Perform(server, c, pick);
    assert c in [c];
    if ok {
      RecordedAdds(server.paths, past, Recorded(c).value);
      events := [Recorded(c).value];
    } else {
      NothingAdds(server.assets.Keys);
      events := [];
    }
  }

  lemma FromCallsJoin(events: seq<Event>, more: seq<Event>, calls: seq<OtherCall>, c: OtherCall)
    requires FromCalls(events, calls) && FromCalls(more, [c])
    ensures FromCalls(events + more, calls + [c])
  {
    forall e | e in events + more ensures exists c' :: c' in calls + [c] && Recorded(c') == Some(e) {
      if e in events {
        var c' :| c' in calls && Recorded(c') == Some(e);
        assert c' in calls + [c];
      } else {
        var c' :| c' in [c] && Recorded(c') == Some(e);
        assert c' in calls + [c];
      }
    }
  }

  /** These calls, as far as they succeeded, lead from the one state to the other. */
  ghost predicate Performed(
    digest: Digest, calls: seq<OtherCall>, events: seq<Event>,
    t: Tables, objects: map<string, Bytes>, held: set<Bytes>, t': Tables, objects': map<string, Bytes>, held': set<Bytes>)
  {
    && Extends(t, objects, t', objects') && FromCalls(events, calls)
    && Adds(t.assets.Keys, events, t'.assets.Keys) && HeldFrom(digest, held', held, calls)
  }

  /** Any number of calls by others. */
  method Others(server: CmsService, calls: seq<OtherCall>, pick: Scheduler) returns (ghost events: seq<Event>)
    requires server.Sound() && Legal(pick, false)
    modifies server
    ensures server.Sound() && server.history == old(server.history) + events
    ensures Performed(server.digest, calls, events, old(server.View()), old(server.objects), old(server.held),
                      server.View(), server.objects, server.held)
    decreases |calls|
  {
    if calls == [] {
      events := [];
    } else {
      var most, c := calls[..|calls| - 1], calls[|calls| - 1];
      assert calls == most + [c];
      ghost var t0, objects0, held0 := server.View(), server.objects, server.held;
      events := Others(server, most, pick);
      ghost var t1, objects1, held1 := server.View(), server.objects, server.held;
      ghost var more := CallByOther(server, c, pick);
      OneMoreCall(server.digest, most, c, events, more, t0, objects0, held0, t1, objects1, held1,
                  server.View(), server.objects, server.held);
      events := events + more;
    }
  }

  lemma OneMoreCall(
    digest: Digest, calls: seq<OtherCall>, c: OtherCall, events: seq<Event>, more: seq<Event>,
    t0: Tables, objects0: map<string, Bytes>, held0: set<Bytes>,
    t1: Tables, objects1: map<string, Bytes>, held1: set<Bytes>, t: Tables, objects: map<string, Bytes>, held: set<Bytes>)
    requires Performed(digest, calls, events, t0, objects0, held0, t1, objects1, held1)
    requires Performed(digest, [c], more, t1, objects1, held1, t, objects, held)
    ensures Performed(digest, calls + [c], events + more, t0, objects0, held0, t, objects, held)
  {
    ExtendsTransitive(t0, objects0, t1, objects1, t, objects);
    AddsJoin(t0.assets.Keys, events, t1.assets.Keys, more, t.assets.Keys);
    FromCallsJoin(events, more, calls, c);
    HeldFromJoin(digest, held, held1, held0, calls, c);
  }

  // ---------- pushArticle ----------

  /** A network or disk operation of the client's own that may fail unless all is healthy. */
  method OperationFails(healthy: bool) returns (fails: bool)
    ensures healthy ==> !fails
  {
    fails := *;
    if healthy { fails := false; }
  }

  /** Validates the metadata, then opens and hashes every asset. */
  method ProcessAssets(p: Paths, digest: Digest, mime: string -> string, article: LocalArticle,
                       files: map<string, Bytes>, healthy: bool)
    returns (ok: bool, assetDescriptors: seq<Descriptor>, assetFiles: seq<Bytes>)
    ensures ok ==> Readable(p, article, files) && |assetFiles| == |assetDescriptors|
    ensures ok ==> assetDescriptors == RequestOf(p, digest, mime, article, files).assets
    ensures ok ==> forall i :: 0 <= i < |assetFiles| ==> assetFiles[i] == files[article.front.value.assets[i]]
    ensures healthy ==> (ok <==> Readable(p, article, files))
  {
    assetDescriptors, assetFiles := [], [];
    var fails := OperationFails(healthy);
    if fails || article.front.None? { return false, [], []; }
    var f := article.front.value;
    if f.title == "" || f.description == "" || f.slug == "" { return false, [], []; }
    var i := 0;
    while i < |f.assets|
      invariant 0 <= i <= |f.assets| && |assetDescriptors| == |assetFiles| == i
      invariant forall k :: 0 <= k < i ==>
        && p.isLocal(f.assets[k]) && f.assets[k] in files
        && assetFiles[k] == files[f.assets[k]]
        && assetDescriptors[k] == DescriptorOf(digest, mime, f.assets[k], assetFiles[k])
    {
      var assetPath := f.assets[i];
      if !p.isLocal(assetPath) { return false, [], []; }
      fails := OperationFails(healthy);
      if fails || assetPath !in files { return false, [], []; }
      var file := files[assetPath];
      assetDescriptors := assetDescriptors + [DescriptorOf(digest, mime, assetPath, file)];
      assetFiles := assetFiles + [file];
      i := i + 1;
    }
    ok := true;
  }

  /** All that was added to the history are commits of assets. */
  ghost predicate OnlyCommits(past: seq<Event>, history: seq<Event>) {
    past <= history && forall i :: |past| <= i < |history| ==> history[i].AssetCommit?
  }

  lemma ChunksDoNotHang(digest: Digest, d: Descriptor, ms: seq<PushMessage>, prior: Option<Bytes>)
    requires AreChunks(ms)
    ensures !UT.EmptyChunkWhenFull(UploadOf(digest, d, ms, prior))
  {
    var u := UploadOf(digest, d, ms, prior);
    forall i: nat | i < |u.messages| ensures u.messages[i] != UM.Chunk([]) {
      assert ms[i].Data?;
    }
  }

  /** Uploads one requested asset from the file it was described from. */
  method UploadAsset(server: CmsService, d: Descriptor, file: Bytes, reader: nat -> (nat, bool),
                     pick: Scheduler, healthy: bool)
    returns (ok: bool)
    requires server.Sound() && Legal(pick, healthy)
    requires d.hash == server.digest(file) && d.contentLength == |file|
    modifies server`assets, server`objects, server`held, server`history
    ensures server.Sound() && Extends(old(server.View()), old(server.objects), server.View(), server.objects)
    ensures OnlyCommits(old(server.history), server.history) && server.held == old(server.held)
    ensures ok ==> d.hash !in old(server.assets)
    ensures ok ==> server.assets == old(server.assets)[d.hash := Asset(d.contentType, d.contentLength)]
    ensures ok ==> C.Lookup(server.objects, ObjectName(d.hash)) == Some(file)
    ensures healthy ==> (ok <==> d.hash !in old(server.assets) && d.hash !in server.held)
  {
    var chunks := ChunkFile(file, reader);
    var stream := [Describe(d)] + chunks;
    assert stream[1..] == chunks;
    FaithfulUpload(server.digest, d, chunks, C.Lookup(server.objects, ObjectName(d.hash)), file);
    var fails := OperationFails(healthy);
    if fails {
      SendPart(server, d, chunks, pick, healthy);
      return false;
    }
    ChunksDoNotHang(server.digest, d, chunks, C.Lookup(server.objects, ObjectName(d.hash)));
    var outcome := server.PushAsset(stream, pick, healthy);
    ok := outcome == Some(UM.Success);
  }

  /** What was sent before a failure may have any effect at the server, but it does not hang. */
  method SendPart(server: CmsService, d: Descriptor, chunks: seq<PushMessage>, pick: Scheduler, healthy: bool)
    requires server.Sound() && Legal(pick, healthy) && AreChunks(chunks)
    modifies server`assets, server`objects, server`held, server`history
    ensures server.Sound() && Extends(old(server.View()), old(server.objects), server.View(), server.objects)
    ensures OnlyCommits(old(server.history), server.history) && server.held == old(server.held)
  {
    var sent :| 0 <= sent <= |chunks| + 1;
    if sent == 0 { return; }
    var stream := [Describe(d)] + chunks[..sent - 1];
    assert stream[1..] == chunks[..sent - 1];
    ChunksDoNotHang(server.digest, d, chunks[..sent - 1], C.Lookup(server.objects, ObjectName(d.hash)));
    var lost := server.PushAsset(stream, pick, healthy);
  }

  /** Each descriptor is that of its file. */
  ghost predicate Described(digest: Digest, ds: seq<Descriptor>, contents: seq<Bytes>) {
    |contents| == |ds| &&
    forall i :: 0 <= i < |ds| ==> ds[i].hash == digest(contents[i]) && ds[i].contentLength == |contents[i]|
  }

  /** The object of asset d is the file of the first descriptor equal to d. */
  ghost predicate SentFrom(d: Descriptor, ds: seq<Descriptor>, contents: seq<Bytes>, objects: map<string, Bytes>)
    requires |contents| == |ds|
  {
    exists i :: 0 <= i < |ds| && ds[i] == d && d !in ds[..i] && C.Lookup(objects, ObjectName(d.hash)) == Some(contents[i])
  }

  /** Finds the file an asset was described from, and uploads it. */
  method UploadOne(server: CmsService, uploadAsset: Descriptor,
                   assetDescriptors: seq<Descriptor>, assetFiles: seq<Bytes>,
                   reader: nat -> (nat, bool), pick: Scheduler, healthy: bool)
    returns (ok: bool)
    requires server.Sound() && Legal(pick, healthy)
    requires Described(server.digest, assetDescriptors, assetFiles)
    modifies server`assets, server`objects, server`held, server`history
    ensures server.Sound() && Extends(old(server.View()), old(server.objects), server.View(), server.objects)
    ensures OnlyCommits(old(server.history), server.history) && server.held == old(server.held)
    ensures ok ==> Stored(uploadAsset, server.View())
    ensures ok ==> server.assets.Keys == old(server.assets.Keys) + {uploadAsset.hash}
    ensures ok ==> SentFrom(uploadAsset, assetDescriptors, assetFiles, server.objects)
    ensures ok ==> uploadAsset in assetDescriptors && uploadAsset.hash !in old(server.assets.Keys)
    ensures healthy ==>
      (ok <==> uploadAsset in assetDescriptors && uploadAsset.hash !in old(server.assets.Keys) + server.held)
  {
    var fileIndex := IndexOf(assetDescriptors, uploadAsset);
    // The server asks for what was never offered.
    if fileIndex == -1 { return false; }
    ok := UploadAsset(server, uploadAsset, assetFiles[fileIndex], reader, pick, healthy);
  }

  // ---------- the upload loop ----------

  /** No other call committed an asset of the list. */
  ghost predicate Untaken(foreign: seq<Event>, ds: seq<Descriptor>) {
    CommittedBy(foreign) !! HashesOf(ds)
  }

  /** What the server has after k uploads, others having committed what `foreign` says. */
  ghost predicate SentSoFar(missing: seq<Descriptor>, k: nat, have: set<Bytes>, foreign: seq<Event>, keys: set<Bytes>) {
    && k <= |missing|
    && keys == have + HashesOf(missing[..k]) + CommittedBy(foreign)
    && Fresh(missing[..k], have) && Untaken(foreign, missing[..k])
  }

  lemma OthersBetween(missing: seq<Descriptor>, k: nat, have: set<Bytes>, foreign: seq<Event>, keys: set<Bytes>,
                      events: seq<Event>, keys': set<Bytes>)
    requires SentSoFar(missing, k, have, foreign, keys) && Adds(keys, events, keys')
    ensures SentSoFar(missing, k, have, foreign + events, keys')
  {
    CommittedByJoin(foreign, events);
  }

  lemma HashesSnoc(ds: seq<Descriptor>, k: nat)
    requires k < |ds|
    ensures HashesOf(ds[..k + 1]) == HashesOf(ds[..k]) + {ds[k].hash}
  {
    assert ds[..k + 1][..k] == ds[..k];
  }

  lemma OneSent(missing: seq<Descriptor>, k: nat, have: set<Bytes>, foreign: seq<Event>, keys: set<Bytes>)
    requires SentSoFar(missing, k, have, foreign, keys) && k < |missing| && missing[k].hash !in keys
    ensures SentSoFar(missing, k + 1, have, foreign, keys + {missing[k].hash})
  {
    HashesSnoc(missing, k);
    HashesIff(missing[..k], missing[k].hash);
    FreshSnoc(missing[..k], missing[k], have);
    assert missing[..k + 1] == missing[..k] + [missing[k]];
  }

  lemma OneHad(missing: seq<Descriptor>, k: nat, have: set<Bytes>, foreign: seq<Event>, keys: set<Bytes>)
    requires SentSoFar(missing, k, have, foreign, keys) && k < |missing| && missing[k].hash in keys
    ensures !(Fresh(missing, have) && Untaken(foreign, missing))
  {
    HashesIff(missing[..k], missing[k].hash);
    HashesIff(missing, missing[k].hash);
    assert Lists(missing, missing[k].hash);
  }

  /** The asset has its row, with the content type and the length it was described with. */
  predicate Stored(d: Descriptor, t: Tables) {
    d.hash in t.assets && t.assets[d.hash] == Asset(d.contentType, d.contentLength)
  }

  lemma StillSent(d: Descriptor, ds: seq<Descriptor>, contents: seq<Bytes>,
                  t: Tables, objects: map<string, Bytes>, t': Tables, objects': map<string, Bytes>)
    requires |contents| == |ds| && SentFrom(d, ds, contents, objects) && Stored(d, t)
    requires Extends(t, objects, t', objects')
    ensures SentFrom(d, ds, contents, objects') && Stored(d, t')
  {
  }

  /** These assets have been committed, each with the bytes of its file. */
  ghost predicate AllSent(missing: seq<Descriptor>, ds: seq<Descriptor>, contents: seq<Bytes>,
                          t: Tables, objects: map<string, Bytes>)
    requires |contents| == |ds|
  {
    forall d :: d in missing ==> Stored(d, t) && SentFrom(d, ds, contents, objects)
  }

  lemma AllStillSent(missing: seq<Descriptor>, ds: seq<Descriptor>, contents: seq<Bytes>,
                     t: Tables, objects: map<string, Bytes>, t': Tables, objects': map<string, Bytes>)
    requires |contents| == |ds| && AllSent(missing, ds, contents, t, objects) && Extends(t, objects, t', objects')
    ensures AllSent(missing, ds, contents, t', objects')
  {
    forall d | d in missing ensures Stored(d, t') && SentFrom(d, ds, contents, objects') {
      StillSent(d, ds, contents, t, objects, t', objects');
    }
  }

  lemma AllSentSnoc(missing: seq<Descriptor>, k: nat, ds: seq<Descriptor>, contents: seq<Bytes>,
                    t: Tables, objects: map<string, Bytes>)
    requires |contents| == |ds| && k < |missing| && AllSent(missing[..k], ds, contents, t, objects)
    requires Stored(missing[k], t) && SentFrom(missing[k], ds, contents, objects)
    ensures AllSent(missing[..k + 1], ds, contents, t, objects)
  {
    assert missing[..k + 1] == missing[..k] + [missing[k]];
  }

  /** What others do, in the order the push finds room for it: before its n-th upload, or its publish. */
  type Interference = nat -> seq<OtherCall>

  /** What others did to it: what their calls added to the history, and what was held when it came to its n-th upload. */
  datatype Meanwhile = Meanwhile(foreign: seq<Event>, heldAt: seq<set<Bytes>>)

  ghost predicate RecordedByOthers(events: seq<Event>, others: Interference) {
    forall e :: e in events ==> exists n: nat, c :: c in others(n) && Recorded(c) == Some(e)
  }

  ghost predicate HeldByOthers(digest: Digest, held: set<Bytes>, before: set<Bytes>, others: Interference) {
    forall h :: h in held && h !in before ==> exists n: nat, c :: c in others(n) && MayHold(digest, c, h)
  }

  /** It all comes from calls of others, but for what was held before. */
  ghost predicate FromOthers(digest: Digest, m: Meanwhile, before: set<Bytes>, others: Interference) {
    && RecordedByOthers(m.foreign, others)
    && forall k :: 0 <= k < |m.heldAt| ==> HeldByOthers(digest, m.heldAt[k], before, others)
  }

  lemma RecordedByOthersJoin(foreign: seq<Event>, others: Interference, n: nat, events: seq<Event>)
    requires RecordedByOthers(foreign, others) && FromCalls(events, others(n))
    ensures RecordedByOthers(foreign + events, others)
  {
  }

  lemma HeldByOthersJoin(digest: Digest, held: set<Bytes>, mid: set<Bytes>, before: set<Bytes>, others: Interference, n: nat)
    requires HeldFrom(digest, held, mid, others(n)) && HeldByOthers(digest, mid, before, others)
    ensures HeldByOthers(digest, held, before, others)
  {
    forall h | h in held && h !in before ensures exists n: nat, c :: c in others(n) && MayHold(digest, c, h) {
      if h !in mid {
        var c :| c in others(n) && MayHold(digest, c, h);
      }
    }
  }

  /** No asset of the list was held when its turn came. */
  ghost predicate Unheld(ds: seq<Descriptor>, heldAt: seq<set<Bytes>>) {
    forall n :: 0 <= n < |heldAt| && n < |ds| ==> ds[n].hash !in heldAt[n]
  }

  /** No other call committed an asset of the list, nor held one when its turn came. */
  ghost predicate Undisturbed(m: Meanwhile, ds: seq<Descriptor>) {
    Untaken(m.foreign, ds) && Unheld(ds, m.heldAt)
  }

  /** Where the upload loop stands after k uploads. */
  ghost predicate LoopInv(missing: seq<Descriptor>, k: nat, have: set<Bytes>, m: Meanwhile,
                          ds: seq<Descriptor>, contents: seq<Bytes>, t: Tables, objects: map<string, Bytes>)
    requires |contents| == |ds|
  {
    && SentSoFar(missing, k, have, m.foreign, t.assets.Keys)
    && |m.heldAt| == k && Unheld(missing, m.heldAt)
    && (forall d :: d in missing[..k] ==> d in ds)
    && AllSent(missing[..k], ds, contents, t, objects)
  }

  lemma CountsKeep(missing: seq<Descriptor>, k: nat, have: set<Bytes>, foreign: seq<Event>, before: set<Bytes>,
                   events: seq<Event>, keys: set<Bytes>)
    requires k < |missing| && SentSoFar(missing, k, have, foreign, before) && Adds(before, events, keys)
    requires missing[k].hash !in keys
    ensures SentSoFar(missing, k + 1, have, foreign + events, keys + {missing[k].hash})
  {
    OthersBetween(missing, k, have, foreign, before, events, keys);
    OneSent(missing, k, have, foreign + events, keys);
  }

  lemma SentKeep(missing: seq<Descriptor>, k: nat, ds: seq<Descriptor>, contents: seq<Bytes>,
                 t: Tables, objects: map<string, Bytes>, t': Tables, objects': map<string, Bytes>)
    requires |contents| == |ds| && k < |missing| && AllSent(missing[..k], ds, contents, t, objects)
    requires Extends(t, objects, t', objects')
    requires Stored(missing[k], t') && SentFrom(missing[k], ds, contents, objects')
    ensures AllSent(missing[..k + 1], ds, contents, t', objects')
  {
    AllStillSent(missing[..k], ds, contents, t, objects, t', objects');
    AllSentSnoc(missing, k, ds, contents, t', objects');
  }

  lemma OfferedSnoc(missing: seq<Descriptor>, k: nat, ds: seq<Descriptor>)
    requires k < |missing| && (forall d :: d in missing[..k] ==> d in ds) && missing[k] in ds
    ensures forall d :: d in missing[..k + 1] ==> d in ds
  {
    assert missing[..k + 1] == missing[..k] + [missing[k]];
  }

  /** One more turn of the others, and what is held after it. */
  function AfterTurn(m: Meanwhile, events: seq<Event>, held: set<Bytes>): Meanwhile {
    Meanwhile(m.foreign + events, m.heldAt + [held])
  }

  lemma TurnIsFromOthers(digest: Digest, m: Meanwhile, before: set<Bytes>, others: Interference, n: nat,
                         events: seq<Event>, mid: set<Bytes>, held: set<Bytes>)
    requires FromOthers(digest, m, before, others) && HeldByOthers(digest, mid, before, others)
    requires FromCalls(events, others(n)) && HeldFrom(digest, held, mid, others(n))
    ensures FromOthers(digest, AfterTurn(m, events, held), before, others) && HeldByOthers(digest, held, before, others)
    ensures FromOthers(digest, m.(foreign := m.foreign + events), before, others)
  {
    RecordedByOthersJoin(m.foreign, others, n, events);
    HeldByOthersJoin(digest, held, mid, before, others, n);
  }

  lemma UnheldSnoc(missing: seq<Descriptor>, heldAt: seq<set<Bytes>>, held: set<Bytes>)
    requires |heldAt| < |missing| && Unheld(missing, heldAt) && missing[|heldAt|].hash !in held
    ensures Unheld(missing, heldAt + [held])
  {
  }

  /** One more upload, after others had their turn. */
  lemma LoopKeeps(missing: seq<Descriptor>, k: nat, have: set<Bytes>, m: Meanwhile,
                  ds: seq<Descriptor>, contents: seq<Bytes>, t: Tables, objects: map<string, Bytes>,
                  events: seq<Event>, keys: set<Bytes>, held: set<Bytes>, t': Tables, objects': map<string, Bytes>)
    requires |contents| == |ds| && k < |missing| && LoopInv(missing, k, have, m, ds, contents, t, objects)
    requires Adds(t.assets.Keys, events, keys) && Extends(t, objects, t', objects')
    requires missing[k] in ds && missing[k].hash !in keys && missing[k].hash !in held
    requires t'.assets.Keys == keys + {missing[k].hash}
    requires Stored(missing[k], t') && SentFrom(missing[k], ds, contents, objects')
    ensures LoopInv(missing, k + 1, have, AfterTurn(m, events, held), ds, contents, t', objects')
  {
    CountsKeep(missing, k, have, m.foreign, t.assets.Keys, events, keys);
    UnheldSnoc(missing, m.heldAt, held);
    SentKeep(missing, k, ds, contents, t, objects, t', objects');
    OfferedSnoc(missing, k, ds);
  }

  lemma LoopDone(missing: seq<Descriptor>, have: set<Bytes>, m: Meanwhile,
                 ds: seq<Descriptor>, contents: seq<Bytes>, t: Tables, objects: map<string, Bytes>)
    requires |contents| == |ds| && LoopInv(missing, |missing|, have, m, ds, contents, t, objects)
    ensures (forall d :: d in missing ==> d in ds) && Fresh(missing, have) && Undisturbed(m, missing)
  {
    assert missing[..|missing|] == missing;
  }

  /** Or none more, because the asset is had already, or held. */
  lemma LoopStops(missing: seq<Descriptor>, k: nat, have: set<Bytes>, m: Meanwhile,
                  ds: seq<Descriptor>, contents: seq<Bytes>, t: Tables, objects: map<string, Bytes>,
                  events: seq<Event>, keys: set<Bytes>, held: set<Bytes>)
    requires |contents| == |ds| && k < |missing| && LoopInv(missing, k, have, m, ds, contents, t, objects)
    requires Adds(t.assets.Keys, events, keys) && missing[k].hash in keys + held
    ensures !(Fresh(missing, have) && Undisturbed(AfterTurn(m, events, held), missing))
  {
    if missing[k].hash in keys {
      OthersBetween(missing, k, have, m.foreign, t.assets.Keys, events, keys);
      OneHad(missing, k, have, m.foreign + events, keys);
    } else {
      assert AfterTurn(m, events, held).heldAt[k] == held;
    }
  }

  /** Others have their turn, and then the asset is uploaded. */
  method OthersThenOne(server: CmsService, calls: seq<OtherCall>, otherPick: Scheduler, d: Descriptor,
                       assetDescriptors: seq<Descriptor>, assetFiles: seq<Bytes>,
                       reader: nat -> (nat, bool), pick: Scheduler, healthy: bool)
    returns (ok: bool, ghost events: seq<Event>, ghost keys: set<Bytes>)
    requires server.Sound() && Legal(pick, healthy) && Legal(otherPick, false)
    requires Described(server.digest, assetDescriptors, assetFiles)
    modifies server
    ensures server.Sound() && Extends(old(server.View()), old(server.objects), server.View(), server.objects)
    ensures OnlyCommits(old(server.history) + events, server.history) && FromCalls(events, calls)
    ensures Adds(old(server.assets.Keys), events, keys) && HeldFrom(server.digest, server.held, old(server.held), calls)
    ensures ok ==> d in assetDescriptors && d.hash !in keys + server.held && server.assets.Keys == keys + {d.hash}
    ensures ok ==> Stored(d, server.View()) && SentFrom(d, assetDescriptors, assetFiles, server.objects)
    ensures healthy && !ok ==> d !in assetDescriptors || d.hash in keys + server.held
  {
    ghost var t0, objects0 := server.View(), server.objects;
    events := Others(server, calls, otherPick);
    ghost var t1, objects1 := server.View(), server.objects;
    keys := server.assets.Keys;
    ok := UploadOne(server, d, assetDescriptors, assetFiles, reader, pick, healthy);
    ExtendsTransitive(t0, objects0, t1, objects1, server.View(), server.objects);
  }

  /** All that was added to the history are commits of assets, and what others did. */
  ghost predicate CommitsAndOthers(past: seq<Event>, history: seq<Event>, foreign: seq<Event>) {
    past <= history && forall i :: |past| <= i < |history| ==> history[i].AssetCommit? || history[i] in foreign
  }

  lemma OneMoreTurn(past: seq<Event>, before: seq<Event>, foreign: seq<Event>, events: seq<Event>, history: seq<Event>)
    requires CommitsAndOthers(past, before, foreign) && OnlyCommits(before + events, history)
    ensures CommitsAndOthers(past, history, foreign + events)
  {
    forall i | |past| <= i < |history| ensures history[i].AssetCommit? || history[i] in foreign + events {
      if i < |before| {
        assert history[i] == before[i];
      } else if i < |before| + |events| {
        assert history[i] == (before + events)[i] == events[i - |before|];
      }
    }
  }

  /** One turn of the loop. */
  method Turn(server: CmsService, missing: seq<Descriptor>, k: nat, ghost have: set<Bytes>, ghost held: set<Bytes>,
              ghost past: seq<Event>, ghost before: Meanwhile, assetDescriptors: seq<Descriptor>, assetFiles: seq<Bytes>,
              others: Interference, otherPick: Scheduler,
              reader: nat -> (nat, bool), pick: Scheduler, healthy: bool)
    returns (ok: bool, ghost m: Meanwhile)
    requires server.Sound() && Legal(pick, healthy) && Legal(otherPick, false) && k < |missing|
    requires Described(server.digest, assetDescriptors, assetFiles)
    requires LoopInv(missing, k, have, before, assetDescriptors, assetFiles, server.View(), server.objects)
    requires FromOthers(server.digest, before, held, others) && HeldByOthers(server.digest, server.held, held, others)
    requires CommitsAndOthers(past, server.history, before.foreign)
    modifies server
    ensures server.Sound() && Extends(old(server.View()), old(server.objects), server.View(), server.objects)
    ensures CommitsAndOthers(past, server.history, m.foreign)
    ensures FromOthers(server.digest, m, held, others) && HeldByOthers(server.digest, server.held, held, others)
    ensures ok ==> LoopInv(missing, k + 1, have, m, assetDescriptors, assetFiles, server.View(), server.objects)
    ensures healthy && !ok ==>
      missing[k] !in assetDescriptors || !(Fresh(missing, have) && Undisturbed(m, missing))
  {
    ghost var t, objects, held1, history1 := server.View(), server.objects, server.held, server.history;
    ghost var events, keys;
    ok, events, keys :=
      OthersThenOne(server, others(k), otherPick, missing[k], assetDescriptors, assetFiles, reader, pick, healthy);
    m := AfterTurn(before, events, server.held);
    OneMoreTurn(past, history1, before.foreign, events, server.history);
    TurnIsFromOthers(server.digest, before, held, others, k, events, held1, server.held);
    if ok {
      LoopKeeps(missing, k, have, before, assetDescriptors, assetFiles, t, objects,
                events, keys, server.held, server.View(), server.objects);
    } else if missing[k].hash in keys + server.held {
      LoopStops(missing, k, have, before, assetDescriptors, assetFiles, t, objects, events, keys, server.held);
    }
  }

  /** Uploads the assets the seed asked for, in order, stopping at the first failure. */
  method UploadMissing(server: CmsService, missing: seq<Descriptor>,
                       assetDescriptors: seq<Descriptor>, assetFiles: seq<Bytes>,
                       others: Interference, otherPick: Scheduler,
                       reader: nat -> (nat, bool), pick: Scheduler, healthy: bool)
    returns (ok: bool, ghost m: Meanwhile)
    requires server.Sound() && Legal(pick, healthy) && Legal(otherPick, false)
    requires Described(server.digest, assetDescriptors, assetFiles)
    modifies server
    ensures server.Sound() && Extends(old(server.View()), old(server.objects), server.View(), server.objects)
    ensures CommitsAndOthers(old(server.history), server.history, m.foreign)
    ensures FromOthers(server.digest, m, old(server.held), others)
    ensures HeldByOthers(server.digest, server.held, old(server.held), others)
    ensures ok ==> LoopInv(missing, |missing|, old(server.assets.Keys), m, assetDescriptors, assetFiles,
                           server.View(), server.objects)
    ensures healthy ==>
      (ok <==> (forall d :: d in missing ==> d in assetDescriptors)
               && Fresh(missing, old(server.assets.Keys)) && Undisturbed(m, missing))
  {
    ghost var t0, objects0, held0, past := server.View(), server.objects, server.held, server.history;
    m := Meanwhile([], []);
    var k := 0;
    while k < |missing|
      invariant 0 <= k <= |missing|
      invariant server.Sound() && Extends(t0, objects0, server.View(), server.objects)
      invariant CommitsAndOthers(past, server.history, m.foreign)
      invariant FromOthers(server.digest, m, held0, others) && HeldByOthers(server.digest, server.held, held0, others)
      invariant LoopInv(missing, k, t0.assets.Keys, m, assetDescriptors, assetFiles, server.View(), server.objects)
    {
      ghost var t1, objects1 := server.View(), server.objects;
      ok, m := Turn(server, missing, k, t0.assets.Keys, held0, past, m, assetDescriptors, assetFiles,
                    others, otherPick, reader, pick, healthy);
      ExtendsTransitive(t0, objects0, t1, objects1, server.View(), server.objects);
      if !ok { return; }
      k := k + 1;
    }
    LoopDone(missing, t0.assets.Keys, m, assetDescriptors, assetFiles, server.View(), server.objects);
    ok := true;
  }

  // ---------- the push ----------

  /** The history of a push that went through: its seed, what happened meanwhile, and its publish. */
  function PushHistory(past: seq<Event>, uid: User, req: SeedRequest, newId: string, now: Time, rest: seq<Event>): seq<Event> {
    past + [SeedCall(uid, req, newId)] + (rest + [PublishCall(uid, Some(newId), now)])
  }

  lemma PushHistoryJoined(past: seq<Event>, uid: User, req: SeedRequest, newId: string, now: Time, rest: seq<Event>)
    ensures past + [SeedCall(uid, req, newId)] + rest + [PublishCall(uid, Some(newId), now)]
      == PushHistory(past, uid, req, newId, now, rest)
  {
  }

  /** The revision is published and nothing it links is missing. */
  ghost predicate PublishedComplete(t: Tables, r: nat, newId: string, now: Time) {
    && r < |t.revisions|
    && t.revisions[r].publicId == newId
    && t.revisions[r].publishedAt == Some(now)
    && MissingLinks(t, r) == []
  }

  /**
   The object named after the file's digest has that digest, and it is the file itself if the push
   uploaded it, or if no other bytes have its digest.
   */
  ghost predicate HoldsFile(digest: Digest, objects: map<string, Bytes>, file: Bytes, uploaded: bool) {
    var name := ObjectName(digest(file));
    && name in objects && digest(objects[name]) == digest(file)
    && (uploaded || (forall b :: digest(b) == digest(file) ==> b == file) ==> objects[name] == file)
  }

  /**
   What a push has achieved: its revision is published with nothing missing; if the clock advances it
   is served in full; and every listed file has its object.
   */
  ghost predicate Achieved(
    p: Paths, digest: Digest, past: seq<Event>, uid: User, req: SeedRequest, newId: string, now: Time,
    rest: seq<Event>, files: map<string, Bytes>, objects: map<string, Bytes>)
  {
    var events := PushHistory(past, uid, req, newId, now, rest);
    && PublishedComplete(After(p, events), |After(p, past).revisions|, newId, now)
    && (ClockAdvances(events) ==> ServedInFull(p, req, After(p, events), |After(p, past).revisions|))
    && forall d :: d in req.assets ==>
      d.fileName in files && HoldsFile(digest, objects, files[d.fileName], d.hash !in After(p, past).assets)
  }

  lemma SentIsHeld(digest: Digest, d: Descriptor, ds: seq<Descriptor>, contents: seq<Bytes>,
                   files: map<string, Bytes>, objects: map<string, Bytes>)
    requires |contents| == |ds| && SentFrom(d, ds, contents, objects) && Described(digest, ds, contents)
    requires forall i :: 0 <= i < |ds| ==> ds[i].fileName in files && contents[i] == files[ds[i].fileName]
    ensures d.fileName in files && HoldsFile(digest, objects, files[d.fileName], true)
  {
  }

  lemma HadIsHeld(digest: Digest, assets: map<Bytes, Asset>, objects: map<string, Bytes>, file: Bytes)
    requires C.Sound(digest, assets, objects) && digest(file) in assets
    ensures HoldsFile(digest, objects, file, false)
  {
    assert C.Holds(digest, objects, digest(file), assets[digest(file)]);
  }

  /** The descriptors and contents are those of the local files. */
  ghost predicate Local(digest: Digest, ds: seq<Descriptor>, contents: seq<Bytes>, files: map<string, Bytes>) {
    && Described(digest, ds, contents)
    && forall i :: 0 <= i < |ds| ==> ds[i].fileName in files && contents[i] == files[ds[i].fileName]
  }

  /** Of a push that went through everything is achieved, whatever others did meanwhile. */
  lemma PushAchieves(
    p: Paths, digest: Digest, past: seq<Event>, uid: User, req: SeedRequest, newId: string, now: Time,
    rest: seq<Event>, contents: seq<Bytes>, files: map<string, Bytes>, t: Tables, objects: map<string, Bytes>)
    requires Delivered(p, past, uid, req, newId, rest)
    requires Publish(After(p, past + [SeedCall(uid, req, newId)] + rest), uid, Some(newId), now).1.Ok?
    requires t == After(p, PushHistory(past, uid, req, newId, now, rest)) && C.Sound(digest, t.assets, objects)
    requires Local(digest, req.assets, contents, files)
    requires AllSent(Seed(p, After(p, past), uid, req, newId).1.missing, req.assets, contents, t, objects)
    ensures Achieved(p, digest, past, uid, req, newId, now, rest, files, objects)
  {
    var more := rest + [PublishCall(uid, Some(newId), now)];
    SeedShape(p, After(p, past), uid, req, newId);
    OwnPublishIsLast(p, past, uid, req, newId, rest, now);
    PushHistoryJoined(past, uid, req, newId, now, rest);
    DeliveredIsComplete(p, past, uid, req, newId, more);
    if ClockAdvances(PushHistory(past, uid, req, newId, now, rest)) {
      DeliveredIsServed(p, past, uid, req, newId, more);
    }
    FilesAreHeld(p, digest, past, uid, req, newId, contents, files, t, objects);
  }

  lemma FilesAreHeld(
    p: Paths, digest: Digest, past: seq<Event>, uid: User, req: SeedRequest, newId: string,
    contents: seq<Bytes>, files: map<string, Bytes>, t: Tables, objects: map<string, Bytes>)
    requires Seed(p, After(p, past), uid, req, newId).1.Seeded?
    requires C.Sound(digest, t.assets, objects) && forall d :: d in req.assets ==> d.hash in t.assets
    requires Local(digest, req.assets, contents, files)
    requires AllSent(Seed(p, After(p, past), uid, req, newId).1.missing, req.assets, contents, t, objects)
    ensures forall d :: d in req.assets ==>
      d.fileName in files && HoldsFile(digest, objects, files[d.fileName], d.hash !in After(p, past).assets)
  {
    AfterValid(p, past);
    forall d | d in req.assets
      ensures d.fileName in files && HoldsFile(digest, objects, files[d.fileName], d.hash !in After(p, past).assets)
    {
      M.AbsentIsListed(p, After(p, past), uid, req, newId, d);
      if d.hash !in After(p, past).assets {
        SentIsHeld(digest, d, req.assets, contents, files, objects);
      } else {
        var i :| 0 <= i < |req.assets| && req.assets[i] == d;
        HadIsHeld(digest, t.assets, objects, files[d.fileName]);
      }
    }
  }

  lemma AllListed(p: Paths, t: Tables, uid: User, req: SeedRequest, id: string)
    requires Valid(t) && Seed(p, t, uid, req, id).1.Seeded?
    ensures forall d :: d in Seed(p, t, uid, req, id).1.missing ==> d in req.assets
  {
    forall d | d in Seed(p, t, uid, req, id).1.missing ensures d in req.assets {
      M.MissingListIff(p, t, uid, req, id, d);
    }
  }

  /** The upload loop, and a last turn of the others. */
  method UploadAll(server: CmsService, missing: seq<Descriptor>,
                   assetDescriptors: seq<Descriptor>, assetFiles: seq<Bytes>,
                   others: Interference, otherPick: Scheduler,
                   reader: nat -> (nat, bool), pick: Scheduler, healthy: bool)
    returns (ok: bool, ghost m: Meanwhile)
    requires server.Sound() && Legal(pick, healthy) && Legal(otherPick, false)
    requires Described(server.digest, assetDescriptors, assetFiles)
    modifies server
    ensures server.Sound() && Extends(old(server.View()), old(server.objects), server.View(), server.objects)
    ensures CommitsAndOthers(old(server.history), server.history, m.foreign)
    ensures FromOthers(server.digest, m, old(server.held), others)
    ensures ok ==> AllSent(missing, assetDescriptors, assetFiles, server.View(), server.objects)
    ensures healthy ==>
      (ok <==> (forall d :: d in missing ==> d in assetDescriptors)
               && Fresh(missing, old(server.assets.Keys)) && Undisturbed(m, missing))
  {
    ghost var t0, objects0, held0, past := server.View(), server.objects, server.held, server.history;
    ok, m :=
      UploadMissing(server, missing, assetDescriptors, assetFiles, others, otherPick, reader, pick, healthy);
    if !ok { return; }
    ghost var t1, objects1, held1, history1 := server.View(), server.objects, server.held, server.history;
    ghost var events := Others(server, others(|missing|), otherPick);
    OneMoreTurn(past, history1, m.foreign, events, server.history);
    TurnIsFromOthers(server.digest, m, held0, others, |missing|, events, held1, server.held);
    EndOfLoop(missing, t0, objects0, m, assetDescriptors, assetFiles, t1, objects1,
              events, server.View(), server.objects);
    m := m.(foreign := m.foreign + events);
  }

  /** Uploads what is missing, and publishes the seeded revision. */
  method Finish(server: CmsService, uid: User, missing: seq<Descriptor>,
                assetDescriptors: seq<Descriptor>, assetFiles: seq<Bytes>, newId: string, now: Time,
                others: Interference, otherPick: Scheduler,
                reader: nat -> (nat, bool), pick: Scheduler, healthy: bool)
    returns (ok: bool, ghost m: Meanwhile, ghost rest: seq<Event>)
    requires server.Sound() && Legal(pick, healthy) && Legal(otherPick, false)
    requires Described(server.digest, assetDescriptors, assetFiles)
    requires CanPublish(server.View(), uid, newId, now)
    modifies server
    ensures server.Sound() && Extends(old(server.View()), old(server.objects), server.View(), server.objects)
    ensures FromOthers(server.digest, m, old(server.held), others) && old(server.history) <= server.history
    ensures CommitsAndOthers(old(server.history), server.history, m.foreign)
      || AllSent(missing, assetDescriptors, assetFiles, server.View(), server.objects)
    ensures healthy && !ok ==> CommitsAndOthers(old(server.history), server.history, m.foreign)
    ensures ok ==> AllSent(missing, assetDescriptors, assetFiles, server.View(), server.objects)
    ensures ok ==> server.history == old(server.history) + rest + [PublishCall(uid, Some(newId), now)]
    ensures ok ==> Publish(After(server.paths, old(server.history) + rest), uid, Some(newId), now).1.Ok?
    ensures ok ==> forall d :: d in missing ==> d.hash in After(server.paths, old(server.history) + rest).assets
    ensures healthy ==>
      (ok <==> (forall d :: d in missing ==> d in assetDescriptors)
               && Fresh(missing, old(server.assets.Keys)) && Undisturbed(m, missing))
  {
    ghost var t0, objects0, past := server.View(), server.objects, server.history;
    ok, m := UploadAll(server, missing, assetDescriptors, assetFiles, others, otherPick, reader, pick, healthy);
    rest := server.history[|past|..];
    assert past + rest == server.history;
    if !ok { return; }
    ghost var t1, objects1 := server.View(), server.objects;
    ok := PublishSeeded(server, uid, newId, now, healthy);
    ExtendsTransitive(t0, objects0, t1, objects1, server.View(), server.objects);
    AllStillSent(missing, assetDescriptors, assetFiles, t1, objects1, server.View(), server.objects);
  }

  /** After the loop others have a last turn. */
  lemma EndOfLoop(missing: seq<Descriptor>, t0: Tables, objects0: map<string, Bytes>, m: Meanwhile,
                  ds: seq<Descriptor>, contents: seq<Bytes>,
                  t1: Tables, objects1: map<string, Bytes>, events: seq<Event>, t2: Tables, objects2: map<string, Bytes>)
    requires |contents| == |ds|
    requires LoopInv(missing, |missing|, t0.assets.Keys, m, ds, contents, t1, objects1)
    requires Adds(t1.assets.Keys, events, t2.assets.Keys)
    requires Extends(t0, objects0, t1, objects1) && Extends(t1, objects1, t2, objects2)
    ensures Extends(t0, objects0, t2, objects2)
    ensures AllSent(missing, ds, contents, t2, objects2)
    ensures Undisturbed(m.(foreign := m.foreign + events), missing)
  {
    assert missing[..|missing|] == missing;
    OthersBetween(missing, |missing|, t0.assets.Keys, m.foreign, t1.assets.Keys, events, t2.assets.Keys);
    ExtendsTransitive(t0, objects0, t1, objects1, t2, objects2);
    AllStillSent(missing, ds, contents, t1, objects1, t2, objects2);
  }

  method PublishSeeded(server: CmsService, uid: User, newId: string, now: Time, healthy: bool) returns (ok: bool)
    requires server.Sound() && Publish(server.View(), uid, Some(newId), now).1.Ok?
    modifies server
    ensures server.Sound() && Extends(old(server.View()), old(server.objects), server.View(), server.objects)
    ensures server.objects == old(server.objects)
    ensures old(server.history) <= server.history
    ensures ok ==> server.history == old(server.history) + [PublishCall(uid, Some(newId), now)]
    ensures healthy ==> ok
  {
    // A reply that is lost leaves the client with a failure.
    var fails := OperationFails(healthy);
    var published := server.PublishArticle(uid, Some(newId), now, healthy);
    ok := published.Ok? && !fails;
  }

  /** Whatever has been published since was published by others. */
  ghost predicate PublishedByOthers(past: seq<Event>, history: seq<Event>, foreign: seq<Event>)
    requires past <= history
  {
    forall i :: |past| <= i < |history| && history[i].PublishCall? ==> history[i] in foreign
  }

  lemma SeedIsNoPublish(past: seq<Event>, uid: User, req: SeedRequest, newId: string, history: seq<Event>, foreign: seq<Event>)
    requires CommitsAndOthers(past + [SeedCall(uid, req, newId)], history, foreign)
    ensures past <= history && PublishedByOthers(past, history, foreign)
  {
    assert history[|past|] == (past + [SeedCall(uid, req, newId)])[|past|];
  }

  lemma NothingIncomplete(
    p: Paths, t0: Tables, past: seq<Event>, uid: User, req: SeedRequest, newId: string, contents: seq<Bytes>,
    t: Tables, objects: map<string, Bytes>, history: seq<Event>, foreign: seq<Event>)
    requires Valid(t0) && Seed(p, t0, uid, req, newId).1.Seeded? && |contents| == |req.assets|
    requires Grows(Seed(p, t0, uid, req, newId).0, t) && past + [SeedCall(uid, req, newId)] <= history
    requires CommitsAndOthers(past + [SeedCall(uid, req, newId)], history, foreign)
      || AllSent(Seed(p, t0, uid, req, newId).1.missing, req.assets, contents, t, objects)
    ensures past <= history
    ensures PublishedByOthers(past, history, foreign) || MissingLinks(t, |t0.revisions|) == []
    ensures CommitsAndOthers(past + [SeedCall(uid, req, newId)], history, foreign) ==> PublishedByOthers(past, history, foreign)
  {
    if CommitsAndOthers(past + [SeedCall(uid, req, newId)], history, foreign) {
      SeedIsNoPublish(past, uid, req, newId, history, foreign);
    } else {
      FollowedIsComplete(p, t0, uid, req, newId, t);
    }
  }

  /** Seeds the article, uploads what is missing, and publishes the revision. */
  method SendAll(server: CmsService, uid: User, req: SeedRequest, assetFiles: seq<Bytes>, newId: string, now: Time,
                 others: Interference, otherPick: Scheduler,
                 reader: nat -> (nat, bool), pick: Scheduler, healthy: bool)
    returns (ok: bool, ghost m: Meanwhile, ghost rest: seq<Event>)
    requires server.Sound() && Legal(pick, healthy) && Legal(otherPick, false)
    requires Described(server.digest, req.assets, assetFiles)
    modifies server
    ensures server.Sound() && Extends(old(server.View()), old(server.objects), server.View(), server.objects)
    ensures FromOthers(server.digest, m, old(server.held), others) && old(server.history) <= server.history
    ensures PublishedByOthers(old(server.history), server.history, m.foreign)
      || MissingLinks(server.View(), |old(server.View()).revisions|) == []
    ensures healthy && !ok ==> PublishedByOthers(old(server.history), server.history, m.foreign)
    ensures ok ==>
      && Delivered(server.paths, old(server.history), uid, req, newId, rest)
      && server.history == PushHistory(old(server.history), uid, req, newId, now, rest)
      && Publish(After(server.paths, old(server.history) + [SeedCall(uid, req, newId)] + rest), uid, Some(newId), now).1.Ok?
      && AllSent(Seed(server.paths, old(server.View()), uid, req, newId).1.missing, req.assets, assetFiles,
                 server.View(), server.objects)
    ensures healthy ==>
      (ok <==> SeedsFresh(server.paths, old(server.View()), uid, req, newId)
               && Undisturbed(m, Seed(server.paths, old(server.View()), uid, req, newId).1.missing))
  {
    ghost var t0, objects0, past := server.View(), server.objects, server.history;
    m, rest := Meanwhile([], []), [];
    var reply := server.SeedArticle(uid, req, newId, healthy);
    var fails := OperationFails(healthy);
    if fails || reply.SeedFailed? { return false, m, []; }
    ghost var t1 := server.View();
    SeedShape(server.paths, t0, uid, req, newId);
    ok, m, rest := SendSeeded(server, uid, req, reply.missing, assetFiles, newId, now, t0, past,
                              others, otherPick, reader, pick, healthy);
    ExtendsTransitive(t0, objects0, t1, objects0, server.View(), server.objects);
  }

  /** The rest of it, once the seed has succeeded. */
  method SendSeeded(server: CmsService, uid: User, req: SeedRequest, missing: seq<Descriptor>, assetFiles: seq<Bytes>,
                    newId: string, now: Time, ghost t0: Tables, ghost past: seq<Event>,
                    others: Interference, otherPick: Scheduler,
                    reader: nat -> (nat, bool), pick: Scheduler, healthy: bool)
    returns (ok: bool, ghost m: Meanwhile, ghost rest: seq<Event>)
    requires server.Sound() && Legal(pick, healthy) && Legal(otherPick, false)
    requires Described(server.digest, req.assets, assetFiles)
    requires Valid(t0) && t0 == After(server.paths, past) && server.history == past + [SeedCall(uid, req, newId)]
    requires Seed(server.paths, t0, uid, req, newId) == (server.View(), Seeded(newId, missing))
    modifies server
    ensures server.Sound() && Extends(old(server.View()), old(server.objects), server.View(), server.objects)
    ensures FromOthers(server.digest, m, old(server.held), others) && past <= server.history
    ensures PublishedByOthers(past, server.history, m.foreign) || MissingLinks(server.View(), |t0.revisions|) == []
    ensures healthy && !ok ==> PublishedByOthers(past, server.history, m.foreign)
    ensures ok ==>
      && Delivered(server.paths, past, uid, req, newId, rest)
      && server.history == PushHistory(past, uid, req, newId, now, rest)
      && Publish(After(server.paths, past + [SeedCall(uid, req, newId)] + rest), uid, Some(newId), now).1.Ok?
      && AllSent(missing, req.assets, assetFiles, server.View(), server.objects)
    ensures healthy ==> (ok <==> Fresh(missing, t0.assets.Keys) && Undisturbed(m, missing))
  {
    AllListed(server.paths, t0, uid, req, newId);
    SeedShape(server.paths, t0, uid, req, newId);
    SeederCanPublish(server.paths, t0, uid, req, newId, now);
    ok, m, rest :=
      Finish(server, uid, missing, req.assets, assetFiles, newId, now, others, otherPick, reader, pick, healthy);
    NothingIncomplete(server.paths, t0, past, uid, req, newId, assetFiles, server.View(), server.objects,
                      server.history, m.foreign);
    PushHistoryJoined(past, uid, req, newId, now, rest);
  }

  /** What the seed of a pushable article asks for. */
  ghost function AskedFor(
    p: Paths, digest: Digest, mime: string -> string, t: Tables,
    uid: User, article: LocalArticle, files: map<string, Bytes>, newId: string): seq<Descriptor>
    requires Pushable(p, digest, mime, t, uid, article, files, newId)
  {
    Seed(p, t, uid, RequestOf(p, digest, mime, article, files), newId).1.missing
  }

  /** Others that upload none of these assets, when none is held to begin with, do not disturb. */
  lemma QuietOthersDoNotDisturb(digest: Digest, m: Meanwhile, held: set<Bytes>, others: Interference, ds: seq<Descriptor>)
    requires FromOthers(digest, m, held, others)
    requires forall d :: d in ds ==> d.hash !in held
    requires forall n: nat, c :: c in others(n) && c.OtherUpload? && c.messages != [] && c.messages[0].Describe? ==>
      !Lists(ds, c.messages[0].descriptor.hash)
    ensures Undisturbed(m, ds)
  {
    forall h | h in CommittedBy(m.foreign) ensures h !in HashesOf(ds) {
      HashesIff(ds, h);
    }
    forall n | 0 <= n < |m.heldAt| && n < |ds| ensures ds[n].hash !in m.heldAt[n] {
      assert ds[n] in ds && Lists(ds, ds[n].hash);
      assert HeldByOthers(digest, m.heldAt[n], held, others);
    }
  }

  /**
   The revision a push has made, field by field: the text of the article, under its slug and author,
   a link to the content of each file under its cleaned name, and, for each file the server lacked, its
   row, with the content type that goes with the path.
   */
  ghost predicate ShowsArticle(
    p: Paths, digest: Digest, mime: string -> string, uid: User, article: LocalArticle, files: map<string, Bytes>,
    t0: Tables, t: Tables)
    requires CompleteArticle(p, article, files)
  {
    var f := article.front.value;
    var r, first := |t0.revisions|, |t0.links|;
    && r < |t.revisions|
    && t.revisions[r].body == article.body
    && t.revisions[r].title == f.title && t.revisions[r].description == f.description
    && t.revisions[r].article < |t.articles| && t.articles[t.revisions[r].article] == Article(uid, f.slug)
    && first + |f.assets| <= |t.links|
    && (forall i :: 0 <= i < |f.assets| ==>
      t.links[first + i] == AssetLink(r, digest(files[f.assets[i]]), p.clean(f.assets[i])))
    && (forall l :: 0 <= l < |t.links| && t.links[l].revision == r ==> first <= l < first + |f.assets|)
    && (forall i :: 0 <= i < |f.assets| && digest(files[f.assets[i]]) !in t0.assets ==>
      && digest(files[f.assets[i]]) in t.assets
      && t.assets[digest(files[f.assets[i]])] == Asset(mime(f.assets[i]), |files[f.assets[i]]|))
  }

  lemma OwnArticle(t0: Tables, t: Tables, uid: User, id: string, now: Time, r: nat)
    requires Valid(t0) && Publish(t0, uid, Some(id), now) == (t, Ok) && r < |t.revisions| && t.revisions[r].publicId == id
    ensures t.revisions[r].article < |t.articles| && t.articles[t.revisions[r].article].author == uid
  {
    PublishAnswers(t0, uid, Some(id), now);
    assert t0.revisions[r].publicId == id;
  }

  lemma AbsentRows(
    p: Paths, t0: Tables, uid: User, req: SeedRequest, newId: string, contents: seq<Bytes>, t: Tables, objects: map<string, Bytes>)
    requires Valid(t0) && Seed(p, t0, uid, req, newId).1.Seeded? && |contents| == |req.assets|
    requires AllSent(Seed(p, t0, uid, req, newId).1.missing, req.assets, contents, t, objects)
    ensures forall i :: 0 <= i < |req.assets| && req.assets[i].hash !in t0.assets ==> Stored(req.assets[i], t)
  {
    forall i | 0 <= i < |req.assets| && req.assets[i].hash !in t0.assets ensures Stored(req.assets[i], t) {
      M.AbsentIsListed(p, t0, uid, req, newId, req.assets[i]);
    }
  }

  lemma PushShows(
    p: Paths, digest: Digest, mime: string -> string, past: seq<Event>, uid: User, article: LocalArticle,
    files: map<string, Bytes>, newId: string, now: Time, rest: seq<Event>,
    req: SeedRequest, contents: seq<Bytes>, t: Tables, objects: map<string, Bytes>)
    requires CompleteArticle(p, article, files) && req == SeedRequest(article.body, article.front, req.assets)
    requires |req.assets| == |article.front.value.assets| == |contents|
    requires forall i :: 0 <= i < |req.assets| ==>
      var path := article.front.value.assets[i];
      req.assets[i] == Descriptor(path, digest(files[path]), mime(path), |files[path]|)
    requires Delivered(p, past, uid, req, newId, rest)
    requires Publish(After(p, past + [SeedCall(uid, req, newId)] + rest), uid, Some(newId), now).1.Ok?
    requires t == After(p, PushHistory(past, uid, req, newId, now, rest))
    requires AllSent(Seed(p, After(p, past), uid, req, newId).1.missing, req.assets, contents, t, objects)
    ensures ShowsArticle(p, digest, mime, uid, article, files, After(p, past), t)
  {
    var before := past + [SeedCall(uid, req, newId)] + rest;
    OwnPublishIsLast(p, past, uid, req, newId, rest, now);
    PushHistoryJoined(past, uid, req, newId, now, rest);
    DeliveredIsFollowed(p, past, uid, req, newId, rest + [PublishCall(uid, Some(newId), now)]);
    FollowedIsHeld(p, After(p, past), uid, req, newId, t);
    AfterValid(p, before);
    AfterOneMore(p, before, PublishCall(uid, Some(newId), now));
    OwnArticle(After(p, before), t, uid, newId, now, |After(p, past).revisions|);
    AbsentRows(p, After(p, past), uid, req, newId, contents, t, objects);
    HeldShows(p, digest, mime, uid, article, files, newId, req, After(p, past), t);
  }

  lemma HeldShows(
    p: Paths, digest: Digest, mime: string -> string, uid: User, article: LocalArticle, files: map<string, Bytes>,
    newId: string, req: SeedRequest, t0: Tables, t: Tables)
    requires CompleteArticle(p, article, files) && req == SeedRequest(article.body, article.front, req.assets)
    requires |req.assets| == |article.front.value.assets|
    requires forall i :: 0 <= i < |req.assets| ==>
      var path := article.front.value.assets[i];
      req.assets[i] == Descriptor(path, digest(files[path]), mime(path), |files[path]|)
    requires HoldsSeeded(p, |t0.revisions|, |t0.links|, req, newId, t)
    requires t.articles[t.revisions[|t0.revisions|].article].author == uid
    requires forall i :: 0 <= i < |req.assets| && req.assets[i].hash !in t0.assets ==> Stored(req.assets[i], t)
    ensures ShowsArticle(p, digest, mime, uid, article, files, t0, t)
  {
    var assets := article.front.value.assets;
    forall i | 0 <= i < |assets| && digest(files[assets[i]]) !in t0.assets ensures Stored(req.assets[i], t) {
      assert req.assets[i].hash == digest(files[assets[i]]);
    }
  }

  /**
   Pushes an article, while others make any calls they like. A push that returns without error has
   `Achieved` what it is for, whatever happened on the way; one that fails has still changed no row
   but publication times, and no committed object; and it publishes nothing that is incomplete, nor, when
   nothing fails, a push that is refused. When nothing fails, it returns without error
   exactly if the article is `Pushable`, no other call committed an asset it was asked for, and none
   that hangs held one when its turn came, for which the push would wait: `ok` is false for that, too.
   */
  method PushArticle(server: CmsService, uid: User, article: LocalArticle, files: map<string, Bytes>,
                     mime: string -> string, newId: string, now: Time,
                     others: Interference, otherPick: Scheduler,
                     reader: nat -> (nat, bool), pick: Scheduler, healthy: bool)
    returns (ok: bool, ghost m: Meanwhile, ghost rest: seq<Event>)
    requires server.Sound() && Legal(pick, healthy) && Legal(otherPick, false)
    modifies server
    ensures server.Sound() && Extends(old(server.View()), old(server.objects), server.View(), server.objects)
    ensures FromOthers(server.digest, m, old(server.held), others)
    ensures old(server.history) <= server.history
    ensures PublishedByOthers(old(server.history), server.history, m.foreign)
      || MissingLinks(server.View(), |old(server.View()).revisions|) == []
    ensures healthy && !ok ==> PublishedByOthers(old(server.history), server.history, m.foreign)
    ensures ok ==> CompleteArticle(server.paths, article, files)
    ensures ok ==>
      ShowsArticle(server.paths, server.digest, mime, uid, article, files, old(server.View()), server.View())
    ensures ok ==> Readable(server.paths, article, files)
    ensures ok ==>
      var req := RequestOf(server.paths, server.digest, mime, article, files);
      && server.history == PushHistory(old(server.history), uid, req, newId, now, rest)
      && Achieved(server.paths, server.digest, old(server.history), uid, req, newId, now, rest, files, server.objects)
    ensures healthy ==>
      (ok <==> Pushable(server.paths, server.digest, mime, old(server.View()), uid, article, files, newId)
               && Undisturbed(m, AskedFor(server.paths, server.digest, mime, old(server.View()), uid, article, files, newId)))
  {
    m, rest := Meanwhile([], []), [];
    var read, assetDescriptors, assetFiles := ProcessAssets(server.paths, server.digest, mime, article, files, healthy);
    if !read { return false, m, []; }
    ghost var past := server.history;
    var req := SeedRequest(article.body, article.front, assetDescriptors);
    ok, m, rest :=
      SendAll(server, uid, req, assetFiles, newId, now, others, otherPick, reader, pick, healthy);
    ReadableIff(server.paths, article, files);
    if ok {
      PushAchieves(server.paths, server.digest, past, uid, req, newId, now, rest, assetFiles, files,
                   server.View(), server.objects);
      PushShows(server.paths, server.digest, mime, past, uid, article, files, newId, now, rest, req, assetFiles,
                server.View(), server.objects);
    }
  }

  /**
   Another upload of the same file, with one empty chunk too many, is enough: it hangs and holds the
   hash, and the upload that comes after it waits forever.
   */
  method UploadBehindHungTwin(server: CmsService, d: Descriptor, file: Bytes, reader: nat -> (nat, bool), pick: Scheduler)
    returns (ok: bool)
    requires server.Sound() && Legal(pick, true)
    requires d.hash == server.digest(file) && d.contentLength == |file|
    requires d.hash !in server.assets && d.hash !in server.held
    modifies server
    ensures !ok && d.hash in server.held && d.hash !in server.assets
  {
    PushTwin(server, d, file, pick);
    ok := UploadAsset(server, d, file, reader, pick, true);
  }

  method PushTwin(server: CmsService, d: Descriptor, file: Bytes, pick: Scheduler)
    requires server.Sound() && Legal(pick, true)
    requires d.contentLength == |file| && d.hash !in server.assets && d.hash !in server.held
    modifies server
    ensures server.Sound() && server.assets == old(server.assets) && d.hash in server.held
  {
    var twin := [Describe(d), Data(file), Data([])];
    TwinHangs(server.digest, d, file, C.Lookup(server.objects, ObjectName(d.hash)));
    assert twin[1..] == [Data(file), Data([])];
    var outcome := server.PushAsset(twin, pick, true);
  }

  lemma TwinHangs(digest: Digest, d: Descriptor, file: Bytes, prior: Option<Bytes>)
    requires d.contentLength == |file|
    ensures UT.EmptyChunkWhenFull(UploadOf(digest, d, [Data(file), Data([])], prior))
  {
    var u := UploadOf(digest, d, [Data(file), Data([])], prior);
    assert UI.Received(u, 0) == [] && UI.Received(u, 1) == file;
    assert UT.EmptyChunkAt(u, 1);
  }
}
