/**
 `CmsService`: the calls as methods that change the tables and the object storage in place. Each
 is tied to the function on tables, or to the upload machine, whose properties are proved elsewhere.
 */
module Service {
  import opened Options
  import opened ByteStrings
  import opened Store
  import opened History
  import UM = UploadMachine
  import UI = UploadInvariant
  import UT = UploadTheorems
  import C = Cms

  /** A message of the PushAsset stream: its header, a chunk, or one with neither. */
  datatype PushMessage = Describe(descriptor: Descriptor) | Data(bytes: Bytes) | Neither

  function AsChunk(m: PushMessage): UM.Message {
    if m.Data? then UM.Chunk(m.bytes) else UM.NotChunk
  }

  function AsChunks(ms: seq<PushMessage>): (r: seq<UM.Message>)
    ensures |r| == |ms|
    ensures forall i :: 0 <= i < |ms| ==> r[i] == AsChunk(ms[i])
    ensures forall i :: 0 <= i < |ms| ==> if ms[i].Data? then r[i] == UM.Chunk(ms[i].bytes) else r[i].NotChunk?
  {
    seq(|ms|, i requires 0 <= i < |ms| => AsChunk(ms[i]))
  }

  /** Chooses, for each state of an upload, which task moves next and whether the disk obeys. */
  type Scheduler = (UM.Upload, UM.State) -> UM.Step

  /** The scheduler picks a step that is possible, and no fault when all is healthy. */
  ghost predicate Legal(pick: Scheduler, healthy: bool) {
    forall u, s :: UI.Inv(u, s) && !UM.Finished(s) && !UT.Stalled(s) ==>
      UM.Enabled(u, s, pick(u, s)) && (healthy ==> !UM.IsFault(pick(u, s)))
  }

  /** What the history records of an upload that succeeded. */
  function CommitOf(d: Descriptor): Event {
    AssetCommit(d.hash, Asset(d.contentType, d.contentLength))
  }

  /** There is such a scheduler. */
  lemma LegalSchedulerExists() returns (pick: Scheduler)
    ensures Legal(pick, true)
  {
    pick := (u: UM.Upload, s: UM.State) => if s.recv.next <= |u.messages| then UT.SoundStep(u, s) else UM.Return;
    forall u, s | UI.Inv(u, s) && !UM.Finished(s) && !UT.Stalled(s)
      ensures UM.Enabled(u, s, pick(u, s)) && !UM.IsFault(pick(u, s))
    {
      UT.Progress(u, s);
    }
  }

  /** The upload a stream with this header and rest starts. */
  function UploadOf(digest: Digest, d: Descriptor, rest: seq<PushMessage>, prior: Option<Bytes>): UM.Upload {
    UM.Upload(digest, d.hash, d.contentLength, AsChunks(rest), prior)
  }

  /** Rows are only added, and no object of a committed asset changes. */
  ghost predicate Extends(t: Tables, objects: map<string, Bytes>, t': Tables, objects': map<string, Bytes>) {
    && Grows(t, t')
    && forall h :: h in t.assets ==> C.Lookup(objects', ObjectName(h)) == C.Lookup(objects, ObjectName(h))
  }

  lemma ExtendsTransitive(
    t: Tables, objects: map<string, Bytes>, t1: Tables, objects1: map<string, Bytes>, t2: Tables, objects2: map<string, Bytes>)
    requires Extends(t, objects, t1, objects1) && Extends(t1, objects1, t2, objects2)
    ensures Extends(t, objects, t2, objects2)
  {
    GrowsTransitive(t, t1, t2);
  }

  /**
   What an upload of a new hash comes to. Success adds just the row and the object the stream describes.
   Anything else adds no row, and an answer when nothing fails leaves no object either. No other object is
   touched; the answer is the prescribed one, unless something fails. The call can hang only on a
   stream with an empty chunk when full, and then does unless something fails.
   */
  ghost predicate Uploaded(
    u: UM.Upload, contentType: string, healthy: bool, outcome: Option<UM.Outcome>,
    assets: map<Bytes, Asset>, objects: map<string, Bytes>, assets': map<Bytes, Asset>, objects': map<string, Bytes>)
  {
    var name := ObjectName(u.declaredHash);
    && (forall n :: n != name ==> C.Lookup(objects', n) == C.Lookup(objects, n))
    && (match outcome
        case None => assets' == assets && UT.EmptyChunkWhenFull(u)
        case Some(o) =>
          && o in {UM.Internal, UI.Prescribed(u)}
          && (healthy ==> !UT.EmptyChunkWhenFull(u))
          && (healthy && 0 <= u.declaredLength ==> o == UI.Prescribed(u))
          && (o.Success? ==>
            && assets' == assets[u.declaredHash := Asset(contentType, u.declaredLength)]
            && objects' == objects[name := UI.Payload(u)])
          && (!o.Success? ==>
            && assets' == assets
            && (healthy ==> C.Lookup(objects', name) == None)))
  }

  class CmsService {
    const paths: Paths
    const digest: Digest
    var articles: seq<Article>
    var revisions: seq<Revision>
    var links: seq<AssetLink>
    var assets: map<Bytes, Asset>
    var objects: map<string, Bytes>
    var held: set<Bytes>           // the uncommitted rows of uploads that hang
    ghost var history: seq<Event>  // the calls that succeeded

    constructor (paths: Paths, digest: Digest)
      ensures this.paths == paths && this.digest == digest
      ensures View() == EMPTY && objects == map[] && held == {} && history == [] && Sound()
    {
      this.paths, this.digest, history := paths, digest, [];
      articles, revisions, links, assets, objects, held := [], [], [], map[], map[], {};
    }

    function View(): Tables
      reads this
    {
      Tables(articles, revisions, links, assets)
    }

    /** The tables are what the history made them, every committed asset has its object, and none is also held. */
    ghost predicate Sound()
      reads this
    {
      View() == After(paths, history) && Valid(View()) && C.Sound(digest, assets, objects) && held !! assets.Keys
    }

    /** What a call that succeeded keeps. */
    lemma StaysSound(before: Tables, past: seq<Event>, e: Event, t: Tables, objects: map<string, Bytes>)
      requires before == After(paths, past) && Valid(before) && t == Next(paths, before, e)
      ensures t == After(paths, past + [e]) && Valid(t) && Grows(before, t)
      ensures !e.AssetCommit? ==> t.assets == before.assets && Extends(before, objects, t, objects)
    {
      AfterOneMore(paths, past, e);
      KeepsTables(before, e, t, objects);
    }

    lemma KeepsTables(before: Tables, e: Event, t: Tables, objects: map<string, Bytes>)
      requires Valid(before) && t == Next(paths, before, e)
      ensures Valid(t) && Grows(before, t)
      ensures !e.AssetCommit? ==> t.assets == before.assets && Extends(before, objects, t, objects)
    {
      NextValid(paths, before, e);
      NextGrows(paths, before, e);
      if !e.AssetCommit? { CallAddsNoAsset(paths, before, e); }
    }

    lemma SeedStaysSound(before: Tables, past: seq<Event>, uid: User, req: SeedRequest, newId: string,
                         t: Tables, objects: map<string, Bytes>)
      requires before == After(paths, past) && Valid(before) && t == Seed(paths, before, uid, req, newId).0
      ensures t == After(paths, past + [SeedCall(uid, req, newId)]) && Valid(t)
      ensures t.assets == before.assets && Extends(before, objects, t, objects)
    {
      StaysSound(before, past, SeedCall(uid, req, newId), t, objects);
    }

    lemma PublishStaysSound(before: Tables, past: seq<Event>, uid: User, id: Option<string>, now: Time,
                            t: Tables, objects: map<string, Bytes>)
      requires before == After(paths, past) && Valid(before) && t == Publish(before, uid, id, now).0
      ensures t == After(paths, past + [PublishCall(uid, id, now)]) && Valid(t)
      ensures t.assets == before.assets && Extends(before, objects, t, objects)
    {
      StaysSound(before, past, PublishCall(uid, id, now), t, objects);
    }

    lemma RedactStaysSound(before: Tables, past: seq<Event>, uid: User, slug: string, t: Tables, objects: map<string, Bytes>)
      requires before == After(paths, past) && Valid(before) && t == Redact(before, uid, slug).0
      ensures t == After(paths, past + [RedactCall(uid, slug)]) && Valid(t)
      ensures t.assets == before.assets && Extends(before, objects, t, objects)
    {
      StaysSound(before, past, RedactCall(uid, slug), t, objects);
    }

    lemma AddedRow(before: Tables, d: Descriptor, t: Tables)
      requires Valid(before) && d.hash !in before.assets
      requires t == before.(assets := before.assets[d.hash := Asset(d.contentType, d.contentLength)])
      ensures Next(paths, before, CommitOf(d)) == t && t.assets.Keys == before.assets.Keys + {d.hash}
    {
    }

    lemma ExtendsItself(t: Tables, objects: map<string, Bytes>)
      ensures Extends(t, objects, t, objects)
    {
    }

    /** A database call that may fail unless the database is healthy. */
    method DatabaseFails(healthy: bool) returns (fails: bool)
      ensures healthy ==> !fails
    {
      fails := *;
      if healthy { fails := false; }
    }

    /** Undoes what a transaction did to the tables it writes. */
    method Rollback(before: Tables)
      modifies this`articles, this`revisions, this`links
      ensures articles == before.articles && revisions == before.revisions && links == before.links
    {
      articles, revisions, links := before.articles, before.revisions, before.links;
    }

    /**
     Seeds an article. Unless the database fails the tables and the reply are those of `Seed`;
     whenever the call fails, wherever in the transaction, no table has changed.
     */
    method SeedArticle(uid: User, req: SeedRequest, newId: string, healthy: bool) returns (reply: SeedReply)
      requires Sound()
      modifies this`articles, this`revisions, this`links, this`history
      ensures Sound() && Extends(old(View()), objects, View(), objects)
      ensures history == if reply.Seeded? then old(history) + [SeedCall(uid, req, newId)] else old(history)
      ensures (View(), reply) == Seed(paths, old(View()), uid, req, newId)
        || (!healthy && View() == old(View()) && reply == SeedFailed(InternalError))
      ensures reply.SeedFailed? ==> View() == old(View())
    {
      var before := View();
      reply := SeedTransaction(uid, req, newId, healthy);
      if reply.SeedFailed? {
        Rollback(before);
        ExtendsItself(before, objects);
      } else {
        RecordSeed(before, uid, req, newId);
      }
    }

    ghost method RecordSeed(before: Tables, uid: User, req: SeedRequest, newId: string)
      requires before == After(paths, history) && Valid(before) && View() == Seed(paths, before, uid, req, newId).0
      requires assets == before.assets && C.Sound(digest, assets, objects) && held !! assets.Keys
      modifies this`history
      ensures Sound() && Extends(before, objects, View(), objects)
      ensures history == old(history) + [SeedCall(uid, req, newId)]
    {
      SeedStaysSound(before, history, uid, req, newId, View(), objects);
      history := history + [SeedCall(uid, req, newId)];
    }

    /** The transaction, still to be rolled back if it fails. */
    method SeedTransaction(uid: User, req: SeedRequest, newId: string, healthy: bool) returns (reply: SeedReply)
      modifies this`articles, this`revisions, this`links
      ensures reply.Seeded? ==> (View(), reply) == Seed(paths, old(View()), uid, req, newId)
      ensures reply.SeedFailed? ==>
        Seed(paths, old(View()), uid, req, newId) == (old(View()), reply) || (!healthy && reply == SeedFailed(InternalError))
    {
      if req.front.None? { return SeedFailed(InvalidArgument); }
      var staging := StageArticle(uid, req.front.value, req.body, newId, healthy);
      if staging.NotStaged? { return SeedFailed(staging.error); }
      var error := LinkAssets(staging.rev, req.assets, healthy);
      if error.Some? { return SeedFailed(error.value); }
      var missing := ListMissing(staging.rev, req.assets);
      var fails := DatabaseFails(healthy);
      if fails { return SeedFailed(InternalError); }
      reply := Seeded(newId, missing);
    }

    /** The article, new or found, checked to be the caller's, and its new revision. */
    method StageArticle(uid: User, f: Frontmatter, body: string, newId: string, healthy: bool)
      returns (staging: Staging)
      modifies this`articles, this`revisions
      ensures staging == Stage(old(View()), uid, f, body, newId) || (!healthy && staging == NotStaged(InternalError))
      ensures staging.Staged? ==> View() == staging.tables
    {
      var fails := DatabaseFails(healthy);
      if fails { return NotStaged(InternalError); }
      var found := ArticleBySlug(View(), f.slug);
      if found.None? { articles := articles + [Article(uid, f.slug)]; }
      found := ArticleBySlug(View(), f.slug);
      fails := DatabaseFails(healthy);
      if found.None? || fails { return NotStaged(InternalError); }
      if articles[found.value].author != uid { return NotStaged(PermissionDenied); }
      var taken := RevisionById(View(), newId);
      fails := DatabaseFails(healthy);
      if taken.Some? || fails { return NotStaged(InternalError); }
      revisions := revisions + [Revision(newId, found.value, f.title, f.description, body, None)];
      staging := Staged(View(), |revisions| - 1);
    }

    method LinkAssets(rev: nat, ds: seq<Descriptor>, healthy: bool) returns (error: Option<Error>)
      modifies this`links
      ensures error.None? ==> AllLocal(paths, ds) && links == old(links) + LinksOf(paths, rev, ds)
      ensures error.Some? ==>
        (error.value.InvalidArgument? && !AllLocal(paths, ds)) || (error.value.InternalError? && !healthy)
    {
      var i := 0;
      while i < |ds|
        invariant 0 <= i <= |ds|
        invariant links == old(links) + LinksOf(paths, rev, ds[..i])
        invariant AllLocal(paths, ds[..i])
      {
        // A path that leads out of the article's own directory could not be served.
        if !paths.isLocal(ds[i].fileName) { return Some(InvalidArgument); }
        var fails := DatabaseFails(healthy);
        if fails { return Some(InternalError); }
        links := links + [LinkOf(paths, rev, ds[i])];
        i := i + 1;
        assert LinksOf(paths, rev, ds[..i]) == LinksOf(paths, rev, ds[..i - 1]) + [LinkOf(paths, rev, ds[i - 1])];
      }
      assert ds[..|ds|] == ds;
      error := None;
    }

    /** The nested loops over the rows the missing query returns and the request's assets. */
    method ListMissing(rev: nat, ds: seq<Descriptor>) returns (missing: seq<Descriptor>)
      ensures missing == Requested(paths, MissingLinks(View(), rev), ds)
    {
      var rows := MissingLinks(View(), rev);
      missing := [];
      var i := 0;
      while i < |rows|
        invariant 0 <= i <= |rows|
        invariant missing == Requested(paths, rows[..i], ds)
      {
        var j := 0;
        while j < |ds|
          invariant 0 <= j <= |ds|
          invariant missing == Requested(paths, rows[..i], ds) + Named(paths, rows[i].fileName, ds[..j])
        {
          if paths.clean(ds[j].fileName) == rows[i].fileName {
            missing := missing + [ds[j]];
          }
          j := j + 1;
          assert ds[..j][..j - 1] == ds[..j - 1];
        }
        assert ds[..|ds|] == ds;
        i := i + 1;
        assert rows[..i][..i - 1] == rows[..i - 1];
      }
      assert rows[..|rows|] == rows;
    }

    method PublishArticle(uid: User, id: Option<string>, now: Time, healthy: bool) returns (reply: Reply)
      requires Sound()
      modifies this`revisions, this`history
      ensures Sound() && Extends(old(View()), objects, View(), objects)
      ensures history == if reply.Ok? then old(history) + [PublishCall(uid, id, now)] else old(history)
      ensures (View(), reply) == Publish(old(View()), uid, id, now)
        || (!healthy && View() == old(View()) && reply == Failed(InternalError))
    {
      var fails := DatabaseFails(healthy);
      if fails { return Failed(InternalError); }
      if id.None? { return Failed(InvalidArgument); }
      var r := RevisionById(View(), id.value);
      fails := DatabaseFails(healthy);
      if r.None? || fails { return Failed(InternalError); }
      if articles[revisions[r.value].article].author != uid { return Failed(PermissionDenied); }
      fails := DatabaseFails(healthy);
      if fails { return Failed(InternalError); }
      ghost var before := View();
      revisions := revisions[r.value := revisions[r.value].(publishedAt := Some(now))];
      PublishStaysSound(before, history, uid, id, now, View(), objects);
      history := history + [PublishCall(uid, id, now)];
      return Ok;
    }

    method RedactArticle(uid: User, slug: string, healthy: bool) returns (reply: Reply)
      requires Sound()
      modifies this`revisions, this`history
      ensures Sound() && Extends(old(View()), objects, View(), objects)
      ensures history == if reply.Ok? then old(history) + [RedactCall(uid, slug)] else old(history)
      ensures (View(), reply) == Redact(old(View()), uid, slug)
        || (!healthy && View() == old(View()) && reply == Failed(InternalError))
    {
      var fails := DatabaseFails(healthy);
      if fails { return Failed(InternalError); }
      var a := ArticleBySlug(View(), slug);
      if a.None? { return Failed(NotFound); }
      if articles[a.value].author != uid { return Failed(PermissionDenied); }
      ghost var before := View();
      revisions := Unpublished(revisions, a.value);
      RedactStaysSound(before, history, uid, slug, View(), objects);
      history := history + [RedactCall(uid, slug)];
      return Ok;
    }

    /**
     Receives an upload under the schedule `pick`; the outcome None means that the call never returns.
     A stream that does not begin with a header, or has the hash of a committed asset, changes nothing.
     Nor does one with a hash that is held: its insertion waits for the other transaction to end. A call
     that hangs holds its own hash, unless its transaction was cancelled.
     */
    method PushAsset(messages: seq<PushMessage>, pick: Scheduler, healthy: bool)
      returns (outcome: Option<UM.Outcome>)
      requires Sound() && Legal(pick, healthy)
      modifies this`assets, this`objects, this`held, this`history
      ensures Sound() && Extends(old(View()), old(objects), View(), objects)
      ensures outcome != Some(UM.Success) ==> history == old(history)
      ensures messages == [] || !messages[0].Describe? ==>
        outcome == Some(UM.ProtocolViolation) && assets == old(assets) && objects == old(objects) && held == old(held)
      ensures messages != [] && messages[0].Describe? ==>
        var d := messages[0].descriptor;
        var u := UploadOf(digest, d, messages[1..], C.Lookup(old(objects), ObjectName(d.hash)));
        && (outcome == Some(UM.Success) ==> history == old(history) + [CommitOf(d)])
        && if d.hash in old(assets) || d.hash in old(held) then
             && assets == old(assets) && objects == old(objects) && held == old(held)
             && outcome in {None, Some(UM.Internal)}
             && (d.hash in old(assets) ==> outcome == Some(UM.Internal))
             && (d.hash in old(held) && healthy ==> outcome == None)
           else
             && Uploaded(u, d.contentType, healthy, outcome, old(assets), old(objects), assets, objects)
             && (held == old(held) || (outcome.None? && held == old(held) + {d.hash}))
             && (healthy && outcome.None? ==> d.hash in held)
    {
      if messages == [] || !messages[0].Describe? { return Some(UM.ProtocolViolation); }
      var d := messages[0].descriptor;
      var fails := DatabaseFails(healthy);
      if fails || d.hash in assets { return Some(UM.Internal); }
      if d.hash in held { return None; }
      outcome := Receive(d, messages[1..], pick, healthy);
    }

    /** The client of an upload that hangs goes away, which ends the transaction. */
    method Abandon(hash: Bytes)
      requires Sound()
      modifies this`held
      ensures Sound() && held == old(held) - {hash}
    {
      held := held - {hash};
    }

    /** The upload proper, its row inserted. */
    method Receive(d: Descriptor, chunks: seq<PushMessage>, pick: Scheduler, healthy: bool)
      returns (outcome: Option<UM.Outcome>)
      requires Sound() && Legal(pick, healthy) && d.hash !in assets && d.hash !in held
      modifies this`assets, this`objects, this`held, this`history
      ensures Sound() && Extends(old(View()), old(objects), View(), objects)
      ensures history == if outcome == Some(UM.Success) then old(history) + [CommitOf(d)] else old(history)
      ensures Uploaded(UploadOf(digest, d, chunks, C.Lookup(old(objects), ObjectName(d.hash))),
                       d.contentType, healthy, outcome, old(assets), old(objects), assets, objects)
      ensures held == old(held) || (outcome.None? && held == old(held) + {d.hash})
      ensures healthy && outcome.None? ==> d.hash in held
    {
      var u := UploadOf(digest, d, chunks, C.Lookup(objects, ObjectName(d.hash)));
      ghost var before := View();
      var s;
      ghost var steps;
      s, steps := RunUpload(u, pick, healthy);
      UploadedWhenDone(u, steps, s, d.contentType, healthy, assets, old(objects), objects);
      outcome := if UT.Stalled(s) then None else Some(s.main.outcome);
      Conclude(d, s.row);
      UploadedExtends(View(), u, d.contentType, healthy, outcome, before.assets, old(objects), objects);
    }

    /** Commits the row. */
    method AddRow(d: Descriptor)
      requires View() == After(paths, history) && Valid(View()) && d.hash !in assets
      modifies this`assets, this`history
      ensures View() == After(paths, history) && Valid(View())
      ensures assets == old(assets)[d.hash := Asset(d.contentType, d.contentLength)]
      ensures assets.Keys == old(assets.Keys) + {d.hash}
      ensures history == old(history) + [CommitOf(d)]
    {
      ghost var before := View();
      assets := assets[d.hash := Asset(d.contentType, d.contentLength)];
      AddedRow(before, d, View());
      StaysSound(before, history, CommitOf(d), View(), objects);
      history := history + [CommitOf(d)];
    }

    /** What becomes of the row: committed, rolled back, or still in an open transaction. */
    method Conclude(d: Descriptor, row: UM.Row)
      requires View() == After(paths, history) && Valid(View()) && d.hash !in assets && held !! assets.Keys && d.hash !in held
      modifies this`assets, this`held, this`history
      ensures View() == After(paths, history) && Valid(View()) && held !! assets.Keys
      ensures assets == if row.Committed? then old(assets)[d.hash := Asset(d.contentType, d.contentLength)] else old(assets)
      ensures history == if row.Committed? then old(history) + [CommitOf(d)] else old(history)
      ensures held == if row.Pending? then old(held) + {d.hash} else old(held)
    {
      match row
      case Committed => AddRow(d);
      case Pending => held := held + {d.hash};
      case RolledBack =>
    }

    /** What the upload's state amounts to, its row added if it was committed. */
    lemma UploadedWhenDone(
      u: UM.Upload, steps: seq<UM.Step>, s: UM.State, contentType: string, healthy: bool,
      assets: map<Bytes, Asset>, before: map<string, Bytes>, after: map<string, Bytes>)
      requires UM.Run(u, UM.Init(u), steps, s) && (healthy ==> UT.Faultless(steps))
      requires UM.Finished(s) || UT.Stalled(s)
      requires u.declaredHash !in assets && u.prior == C.Lookup(before, ObjectName(u.declaredHash))
      requires C.Lookup(after, ObjectName(u.declaredHash)) == s.file.content
      requires forall n :: n != ObjectName(u.declaredHash) ==> C.Lookup(after, n) == C.Lookup(before, n)
      ensures Uploaded(u, contentType, healthy, if UT.Stalled(s) then None else Some(s.main.outcome), assets, before,
                       if s.row.Committed? then assets[u.declaredHash := Asset(contentType, u.declaredLength)] else assets,
                       after)
      ensures UT.Stalled(s) ==> !s.row.Committed? && (healthy ==> s.row.Pending?)
      ensures s.row.Pending? ==> UT.Stalled(s)
      ensures s.row.Committed? <==> !UT.Stalled(s) && s.main.outcome.Success?
    {
      UI.InitKeeps(u);
      UI.RunKeeps(u, UM.Init(u), steps, s);
      KeepsOthers(before, after, u.declaredHash);
      if UT.Stalled(s) { UT.StallNeedsEmptyChunk(u, s); }
      if healthy { UT.FaultlessEnd(u, steps, s); }
    }

    /** A row is added only with its object, so the store stays sound and every committed object as it was. */
    lemma UploadedExtends(
      t: Tables, u: UM.Upload, contentType: string, healthy: bool, outcome: Option<UM.Outcome>,
      assets: map<Bytes, Asset>, before: map<string, Bytes>, after: map<string, Bytes>)
      requires u.digest == digest && u.declaredHash !in assets && C.Sound(digest, assets, before)
      requires Uploaded(u, contentType, healthy, outcome, assets, before, t.assets, after)
      ensures C.Sound(digest, t.assets, after)
      ensures Extends(t.(assets := assets), before, t, after)
    {
      KeepsOthers(before, after, u.declaredHash);
      PrescribedSuccess(u);
      forall h | h in t.assets ensures C.Holds(digest, after, h, t.assets[h]) {
        if h != u.declaredHash { assert C.Holds(digest, before, h, assets[h]); }
      }
    }

    /** Runs the two tasks of an upload until neither can move. */
    method RunUpload(u: UM.Upload, pick: Scheduler, healthy: bool) returns (s: UM.State, ghost steps: seq<UM.Step>)
      requires Legal(pick, healthy) && u.prior == C.Lookup(objects, ObjectName(u.declaredHash))
      modifies this`objects
      ensures UM.Run(u, UM.Init(u), steps, s) && (healthy ==> UT.Faultless(steps))
      ensures UM.Finished(s) || UT.Stalled(s)
      ensures C.Lookup(objects, ObjectName(u.declaredHash)) == s.file.content
      ensures forall n :: n != ObjectName(u.declaredHash) ==> C.Lookup(objects, n) == C.Lookup(old(objects), n)
    {
      var name := ObjectName(u.declaredHash);
      s, steps := UM.Init(u), [];
      UI.InitKeeps(u);
      while !UM.Finished(s) && !UT.Stalled(s)
        invariant UI.Inv(u, s) && UM.Run(u, UM.Init(u), steps, s)
        invariant healthy ==> UT.Faultless(steps)
        invariant forall n :: n != name ==> C.Lookup(objects, n) == C.Lookup(old(objects), n)
        invariant C.Lookup(objects, name) == s.file.content
        decreases UT.Measure(u, s)
      {
        var a := pick(u, s);
        StepTaken(u, steps, s, a, healthy);
        s, steps := UM.Apply(u, s, a), steps + [a];
        StoreObject(name, s.file.content);
      }
    }

    lemma StepTaken(u: UM.Upload, steps: seq<UM.Step>, s: UM.State, a: UM.Step, healthy: bool)
      requires UI.Inv(u, s) && UM.Run(u, UM.Init(u), steps, s) && UM.Enabled(u, s, a)
      requires healthy ==> UT.Faultless(steps) && !UM.IsFault(a)
      ensures UI.Inv(u, UM.Apply(u, s, a)) && UM.Run(u, UM.Init(u), steps + [a], UM.Apply(u, s, a))
      ensures healthy ==> UT.Faultless(steps + [a])
      ensures UT.Measure(u, UM.Apply(u, s, a)) < UT.Measure(u, s)
    {
      UI.StepKeeps(u, s, a);
      UT.StepDecreases(u, s, a);
      UT.OneMoreStep(u, UM.Init(u), steps, s, a);
    }

    method StoreObject(name: string, content: Option<Bytes>)
      modifies this`objects
      ensures C.Lookup(objects, name) == content
      ensures forall n :: n != name ==> C.Lookup(objects, n) == C.Lookup(old(objects), n)
    {
      objects := C.Write(objects, name, content);
    }

    lemma PrescribedSuccess(u: UM.Upload)
      ensures UI.Prescribed(u) == UM.Success ==>
        u.digest(UI.Payload(u)) == u.declaredHash && |UI.Payload(u)| == u.declaredLength
    {
    }

    /** Only the object of hash h differs, so the objects of all other assets are as they were. */
    lemma KeepsOthers(before: map<string, Bytes>, after: map<string, Bytes>, h: Bytes)
      requires forall n :: n != ObjectName(h) ==> C.Lookup(after, n) == C.Lookup(before, n)
      ensures forall g, row :: g != h && C.Holds(digest, before, g, row) ==> C.Holds(digest, after, g, row)
      ensures forall g :: g != h ==> C.Lookup(after, ObjectName(g)) == C.Lookup(before, ObjectName(g))
      ensures C.Lookup(after, ObjectName(h)).Some? ==>
        after == before[ObjectName(h) := C.Lookup(after, ObjectName(h)).value]
    {
      forall g | g != h ensures C.Lookup(after, ObjectName(g)) == C.Lookup(before, ObjectName(g)) {
        if ObjectName(g) == ObjectName(h) { ObjectNameInjective(g, h); }
      }
      forall g, row | g != h && C.Holds(digest, before, g, row) ensures C.Holds(digest, after, g, row) {
        assert C.Lookup(after, ObjectName(g)) == C.Lookup(before, ObjectName(g));
      }
      forall n | n != ObjectName(h)
        ensures n in after <==> n in before
        ensures n in after ==> after[n] == before[n]
      {
        assert C.Lookup(after, n) == C.Lookup(before, n);
      }
    }
  }
}
