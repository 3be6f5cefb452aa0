/** What the CLI asks the server for, and when a push that meets no failure succeeds. */
module PushRequests {
  import opened Options
  import opened ByteStrings
  import opened Store
  import M = MissingAssets

  /** A markdown file with its parsed front matter, None if that does not parse. */
  datatype LocalArticle = LocalArticle(body: string, front: Option<Frontmatter>)

  function DescriptorOf(digest: Digest, mime: string -> string, path: string, content: Bytes): Descriptor {
    Descriptor(path, digest(content), mime(path), |content|)
  }

  function DescriptorsOf(digest: Digest, mime: string -> string, paths: seq<string>, files: map<string, Bytes>)
    : (ds: seq<Descriptor>)
    requires forall path :: path in paths ==> path in files
    ensures |ds| == |paths|
    ensures forall i :: 0 <= i < |paths| ==> ds[i] == DescriptorOf(digest, mime, paths[i], files[paths[i]])
  {
    seq(|paths|, i requires 0 <= i < |paths| => DescriptorOf(digest, mime, paths[i], files[paths[i]]))
  }

  predicate Readable(p: Paths, article: LocalArticle, files: map<string, Bytes>) {
    && article.front.Some?
    && article.front.value.title != "" && article.front.value.description != "" && article.front.value.slug != ""
    && forall path :: path in article.front.value.assets ==> p.isLocal(path) && path in files
  }

  function RequestOf(p: Paths, digest: Digest, mime: string -> string, article: LocalArticle, files: map<string, Bytes>)
    : SeedRequest
    requires Readable(p, article, files)
  {
    SeedRequest(article.body, article.front, DescriptorsOf(digest, mime, article.front.value.assets, files))
  }

  predicate Lists(ds: seq<Descriptor>, hash: Bytes) {
    exists i :: 0 <= i < |ds| && ds[i].hash == hash
  }

  lemma ListsSnoc(ds: seq<Descriptor>, d: Descriptor, hash: Bytes)
    ensures Lists(ds + [d], hash) <==> Lists(ds, hash) || d.hash == hash
  {
    var all := ds + [d];
    assert all[|ds|] == d && forall k :: 0 <= k < |ds| ==> all[k] == ds[k];
  }

  function HashesOf(ds: seq<Descriptor>): set<Bytes> {
    if ds == [] then {} else HashesOf(ds[..|ds| - 1]) + {ds[|ds| - 1].hash}
  }

  lemma {:induction false} HashesIff(ds: seq<Descriptor>, h: Bytes)
    ensures h in HashesOf(ds) <==> Lists(ds, h)
  {
    if ds == [] {
    } else {
      var n := |ds| - 1;
      HashesIff(ds[..n], h);
      assert ds == ds[..n] + [ds[n]];
      ListsSnoc(ds[..n], ds[n], h);
    }
  }

  /** Nothing in the list is had already, and no hash is in it twice. */
  ghost predicate Fresh(ds: seq<Descriptor>, have: set<Bytes>) {
    && (forall i :: 0 <= i < |ds| ==> ds[i].hash !in have)
    && (forall i, j :: 0 <= i < j < |ds| ==> ds[i].hash != ds[j].hash)
  }

  lemma FreshSnoc(ds: seq<Descriptor>, d: Descriptor, have: set<Bytes>)
    ensures Fresh(ds + [d], have) <==> Fresh(ds, have) && d.hash !in have && !Lists(ds, d.hash)
  {
    var all := ds + [d];
    assert all[|ds|] == d && forall k :: 0 <= k < |ds| ==> all[k] == ds[k];
  }

  /**
   What decides a push when nothing fails: a readable article, a seed that is accepted, and a list
   of missing assets in which no hash is repeated and none is one the server has.
   */
  ghost predicate Pushable(
    p: Paths, digest: Digest, mime: string -> string, t: Tables,
    uid: User, article: LocalArticle, files: map<string, Bytes>, newId: string)
  {
    Readable(p, article, files) && SeedsFresh(p, t, uid, RequestOf(p, digest, mime, article, files), newId)
  }

  /** The seed is accepted, and asks only for new assets, each once. */
  ghost predicate SeedsFresh(p: Paths, t: Tables, uid: User, req: SeedRequest, newId: string) {
    var reply := Seed(p, t, uid, req, newId).1;
    reply.Seeded? && Fresh(reply.missing, t.assets.Keys)
  }

  /** No two listed assets the server lacks have the same hash. */
  ghost predicate DistinctAbsent(t: Tables, ds: seq<Descriptor>) {
    forall i, j :: 0 <= i < j < |ds| && ds[i].hash !in t.assets ==> ds[i].hash != ds[j].hash
  }

  lemma DistinctAbsentSnoc(t: Tables, ds: seq<Descriptor>, d: Descriptor)
    ensures DistinctAbsent(t, ds + [d]) <==> DistinctAbsent(t, ds) && (d.hash in t.assets || !Lists(ds, d.hash))
  {
    var all := ds + [d];
    assert all[|ds|] == d && forall k :: 0 <= k < |ds| ==> all[k] == ds[k];
  }

  lemma {:induction false} RepeatsAmongAbsent(t: Tables, ds: seq<Descriptor>)
    ensures Fresh(M.Absent(t, ds), t.assets.Keys) <==> DistinctAbsent(t, ds)
    ensures forall h :: Lists(M.Absent(t, ds), h) <==> Lists(ds, h) && h !in t.assets
  {
    if ds == [] {
    } else {
      var n := |ds| - 1;
      var before, d := M.Absent(t, ds[..n]), ds[n];
      assert ds == ds[..n] + [d];
      RepeatsAmongAbsent(t, ds[..n]);
      DistinctAbsentSnoc(t, ds[..n], d);
      FreshSnoc(before, d, t.assets.Keys);
      if d.hash !in t.assets {
        assert M.Absent(t, ds) == before + [d];
      } else {
        assert M.Absent(t, ds) == before;
      }
      forall h ensures Lists(M.Absent(t, ds), h) <==> Lists(ds, h) && h !in t.assets {
        ListsSnoc(ds[..n], d, h);
        ListsSnoc(before, d, h);
      }
    }
  }

  lemma {:induction false} DistinctNotLonger(xs: seq<Descriptor>, ys: seq<Descriptor>)
    requires forall i, j :: 0 <= i < j < |xs| ==> xs[i] != xs[j]
    requires forall x :: x in xs ==> x in ys
    ensures |xs| <= |ys|
  {
    if xs == [] {
    } else {
      var n := |xs| - 1;
      assert xs[n] in xs;
      var k :| 0 <= k < |ys| && ys[k] == xs[n];
      forall x | x in xs[..n] ensures x in ys[..k] + ys[k + 1..] {
        assert x in xs && x != xs[n];
      }
      DistinctNotLonger(xs[..n], ys[..k] + ys[k + 1..]);
    }
  }

  /** If an absent asset shares its cleaned name with another, the server asks for one it has, or for one twice. */
  lemma SharedNameNotFresh(p: Paths, t: Tables, uid: User, req: SeedRequest, id: string)
    requires Valid(t) && SeedsFresh(p, t, uid, req, id)
    ensures M.AbsentNamesUnique(p, t, req.assets)
  {
    var missing := Seed(p, t, uid, req, id).1.missing;
    var absent := M.Absent(t, req.assets);
    if !M.AbsentNamesUnique(p, t, req.assets) {
      forall d | d in missing ensures d in absent {
        M.MissingListIff(p, t, uid, req, id, d);
        M.AbsentIff(t, req.assets, d);
      }
      DistinctNotLonger(missing, absent);
      var i, j :| 0 <= i < |req.assets| && 0 <= j < |req.assets| && i != j && req.assets[i].hash !in t.assets
        && p.clean(req.assets[i].fileName) == p.clean(req.assets[j].fileName);
      M.MissingOfSeed(p, t, uid, req, id);
      M.SharedGivesMore(p, t, |t.revisions|, req.assets, i, j);
    }
  }

  lemma SeedsFreshIff(p: Paths, t: Tables, uid: User, req: SeedRequest, id: string)
    requires Valid(t)
    ensures SeedsFresh(p, t, uid, req, id) <==>
      && Seed(p, t, uid, req, id).1.Seeded?
      && M.AbsentNamesUnique(p, t, req.assets) && DistinctAbsent(t, req.assets)
  {
    if Seed(p, t, uid, req, id).1.Seeded? {
      if SeedsFresh(p, t, uid, req, id) { SharedNameNotFresh(p, t, uid, req, id); }
      M.MissingListExactIff(p, t, uid, req, id);
      RepeatsAmongAbsent(t, req.assets);
    }
  }

  /** The metadata is complete, and every asset path is local and names a file. */
  ghost predicate CompleteArticle(p: Paths, article: LocalArticle, files: map<string, Bytes>) {
    && article.front.Some?
    && article.front.value.title != "" && article.front.value.description != "" && article.front.value.slug != ""
    && forall i :: 0 <= i < |article.front.value.assets| ==>
      p.isLocal(article.front.value.assets[i]) && article.front.value.assets[i] in files
  }

  lemma ReadableIff(p: Paths, article: LocalArticle, files: map<string, Bytes>)
    ensures Readable(p, article, files) <==> CompleteArticle(p, article, files)
  {
    if article.front.Some? {
      var assets := article.front.value.assets;
      assert forall i :: 0 <= i < |assets| ==> assets[i] in assets;
    }
  }

  /** Of the files the server lacks none has the content or the cleaned name of another. */
  ghost predicate AbsentAreApart(p: Paths, digest: Digest, t: Tables, assetPaths: seq<string>, files: map<string, Bytes>)
    requires forall i :: 0 <= i < |assetPaths| ==> assetPaths[i] in files
  {
    forall i, j :: 0 <= i < |assetPaths| && 0 <= j < |assetPaths| && i != j && digest(files[assetPaths[i]]) !in t.assets ==>
      p.clean(assetPaths[i]) != p.clean(assetPaths[j]) && digest(files[assetPaths[i]]) != digest(files[assetPaths[j]])
  }

  lemma ApartIff(p: Paths, digest: Digest, t: Tables, assetPaths: seq<string>, files: map<string, Bytes>, ds: seq<Descriptor>)
    requires |ds| == |assetPaths|
    requires forall i :: 0 <= i < |assetPaths| ==>
      assetPaths[i] in files && ds[i].fileName == assetPaths[i] && ds[i].hash == digest(files[assetPaths[i]])
    ensures AbsentAreApart(p, digest, t, assetPaths, files) <==> M.AbsentNamesUnique(p, t, ds) && DistinctAbsent(t, ds)
  {
    if M.AbsentNamesUnique(p, t, ds) && DistinctAbsent(t, ds) {
      forall i, j | 0 <= i < |ds| && 0 <= j < |ds| && i != j && ds[i].hash !in t.assets
        ensures p.clean(ds[i].fileName) != p.clean(ds[j].fileName) && ds[i].hash != ds[j].hash
      {
        assert i < j || j < i;
      }
    }
    if AbsentAreApart(p, digest, t, assetPaths, files) {
      forall i, j | 0 <= i < |ds| && 0 <= j < |ds| && i != j && ds[i].hash !in t.assets
        ensures p.clean(ds[i].fileName) != p.clean(ds[j].fileName) && ds[i].hash != ds[j].hash
      {
        assert digest(files[assetPaths[i]]) !in t.assets;
      }
    }
  }

  /**
   What a push that meets no failure needs, in terms of the article, its files and the tables before
   it: it is complete, the slug is free or the caller's, the new id is free, and among the files the
   server lacks no content occurs twice, and none shares a cleaned name with another file.
   */
  lemma PushableIff(
    p: Paths, digest: Digest, mime: string -> string, t: Tables,
    uid: User, article: LocalArticle, files: map<string, Bytes>, newId: string)
    requires Valid(t)
    ensures Pushable(p, digest, mime, t, uid, article, files, newId) <==>
      && CompleteArticle(p, article, files)
      && !OthersSlug(t, uid, article.front.value.slug) && !IdTaken(t, newId)
      && AbsentAreApart(p, digest, t, article.front.value.assets, files)
  {
    ReadableIff(p, article, files);
    if Readable(p, article, files) {
      var req := RequestOf(p, digest, mime, article, files);
      SeedAnswers(p, t, uid, req, newId);
      SeedsFreshIff(p, t, uid, req, newId);
      ApartIff(p, digest, t, article.front.value.assets, files, req.assets);
    }
  }
}
