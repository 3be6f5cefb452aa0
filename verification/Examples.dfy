/** Small histories on which properties one might expect of the store fail. */
module Examples {
  import opened Options
  import opened ByteStrings
  import opened Store
  import opened History
  import opened Queries
  import opened PushRequests
  import M = MissingAssets

  /** The article of all the examples, and its author. */
  datatype Scene = Scene(paths: Paths, uid: User, slug: string)

  function RequestFor(x: Scene, ds: seq<Descriptor>): SeedRequest {
    SeedRequest("", Some(Frontmatter(x.slug, "", "", [])), ds)
  }

  function RevisionOf(id: string, publishedAt: Option<Time>): Revision {
    Revision(id, 0, "", "", "", publishedAt)
  }

  function ArticlesOf(x: Scene): seq<Article> {
    [Article(x.uid, x.slug)]
  }

  lemma ArticleFound(x: Scene, t: Tables)
    requires t.articles == ArticlesOf(x)
    ensures ArticleBySlug(t, x.slug) == Some(0)
  {
  }

  lemma StageNew(x: Scene, t: Tables, id: string)
    requires t.articles == ArticlesOf(x) || t.articles == []
    requires forall r :: 0 <= r < |t.revisions| ==> t.revisions[r].publicId != id
    ensures Stage(t, x.uid, RequestFor(x, []).front.value, "", id)
      == Staged(Tables(ArticlesOf(x), t.revisions + [RevisionOf(id, None)], t.links, t.assets), |t.revisions|)
  {
    var t1 := CreateArticle(t, x.uid, x.slug);
    assert t.articles == [] ==> ArticleBySlug(t, x.slug).None?;
    if t.articles != [] { ArticleFound(x, t); }
    assert t1.articles == ArticlesOf(x);
    ArticleFound(x, t1);
  }

  /** What a seed of a new revision does. */
  lemma SeedNew(x: Scene, t: Tables, id: string, ds: seq<Descriptor>)
    requires t.articles == ArticlesOf(x) || t.articles == []
    requires forall r :: 0 <= r < |t.revisions| ==> t.revisions[r].publicId != id
    requires AllLocal(x.paths, ds)
    ensures Seed(x.paths, t, x.uid, RequestFor(x, ds), id).0 == Tables(
      ArticlesOf(x), t.revisions + [RevisionOf(id, None)], t.links + LinksOf(x.paths, |t.revisions|, ds), t.assets)
    ensures Seed(x.paths, t, x.uid, RequestFor(x, ds), id).1.Seeded?
  {
    StageNew(x, t, id);
  }

  lemma PrefixStep(p: Paths, h: seq<Event>, n: nat)
    requires n < |h|
    ensures After(p, h[..n + 1]) == Next(p, After(p, h[..n]), h[n])
  {
    assert h[..n + 1][..n] == h[..n];
  }

  /** What a publish of the n-th revision does. */
  lemma PublishNth(x: Scene, t: Tables, n: nat, now: Time)
    requires t.articles == ArticlesOf(x) && n < |t.revisions| && t.revisions[n].article == 0
    requires forall r :: 0 <= r < n ==> t.revisions[r].publicId != t.revisions[n].publicId
    ensures Publish(t, x.uid, Some(t.revisions[n].publicId), now).0
      == t.(revisions := t.revisions[n := t.revisions[n].(publishedAt := Some(now))])
  {
    assert RevisionById(t, t.revisions[n].publicId) == Some(n);
  }

  // ---------- the feed and the page ----------

  function EarlyHistory(x: Scene, id: string, now: Time): seq<Event> {
    [SeedCall(x.uid, RequestFor(x, []), id), PublishCall(x.uid, Some(id), now)]
  }

  lemma EarlyTables(x: Scene, id: string, now: Time)
    ensures After(x.paths, EarlyHistory(x, id, now)) == Tables(ArticlesOf(x), [RevisionOf(id, Some(now))], [], map[])
  {
    var h := EarlyHistory(x, id, now);
    assert h[..0] == [] && h[..2] == h;
    PrefixStep(x.paths, h, 0);
    PrefixStep(x.paths, h, 1);
    SeedNew(x, EMPTY, id, []);
    PublishNth(x, After(x.paths, h[..1]), 0, now);
  }

  /** The page shows a revision published in the future, the feed does not. */
  lemma FeedCanLackServed(x: Scene, id: string, early: Time, now: Time)
    requires early <= now
    ensures var t := After(x.paths, EarlyHistory(x, id, now)); Served(t, x.slug, 0) && !FeedRow(t, early, 0)
  {
    EarlyTables(x, id, now);
    var t := After(x.paths, EarlyHistory(x, id, now));
    assert Candidate(t, x.slug, 0);
    AfterValid(x.paths, EarlyHistory(x, id, now));
    FeedRowIff(t, early, 0);
  }

  // ---------- the file and the page ----------

  function StaleHistory(x: Scene, d1: Descriptor, d2: Descriptor, id1: string, id2: string): seq<Event> {
    [SeedCall(x.uid, RequestFor(x, [d1]), id1), AssetCommit(d1.hash, Asset("", 0)), PublishCall(x.uid, Some(id1), 1),
     SeedCall(x.uid, RequestFor(x, [d2]), id2), PublishCall(x.uid, Some(id2), 2)]
  }

  lemma OneLink(p: Paths, r: nat, d: Descriptor)
    ensures LinksOf(p, r, [d]) == [LinkOf(p, r, d)]
  {
  }

  lemma FirstSeed(x: Scene, d1: Descriptor, id1: string, t1: Tables)
    requires x.paths.isLocal(d1.fileName) && t1 == Seed(x.paths, EMPTY, x.uid, RequestFor(x, [d1]), id1).0
    ensures t1 == Tables(ArticlesOf(x), [RevisionOf(id1, None)], [LinkOf(x.paths, 0, d1)], map[])
  {
    SeedNew(x, EMPTY, id1, [d1]);
    OneLink(x.paths, 0, d1);
  }

  lemma FirstThree(x: Scene, d1: Descriptor, id1: string, t1: Tables, t2: Tables, t3: Tables)
    requires t1 == Tables(ArticlesOf(x), [RevisionOf(id1, None)], [LinkOf(x.paths, 0, d1)], map[])
    requires t2 == AddAsset(t1, d1.hash, Asset("", 0)) && t3 == Publish(t2, x.uid, Some(id1), 1).0
    ensures t3 == Tables(ArticlesOf(x), [RevisionOf(id1, Some(1))], [LinkOf(x.paths, 0, d1)], map[d1.hash := Asset("", 0)])
  {
    PublishNth(x, t2, 0, 1);
  }

  lemma LastTwo(x: Scene, d2: Descriptor, id1: string, id2: string, t3: Tables, t4: Tables, t5: Tables)
    requires x.paths.isLocal(d2.fileName) && id1 != id2
    requires t3.articles == ArticlesOf(x) && t3.revisions == [RevisionOf(id1, Some(1))]
    requires t4 == Seed(x.paths, t3, x.uid, RequestFor(x, [d2]), id2).0 && t5 == Publish(t4, x.uid, Some(id2), 2).0
    ensures t5 == Tables(ArticlesOf(x), [RevisionOf(id1, Some(1)), RevisionOf(id2, Some(2))],
                         t3.links + [LinkOf(x.paths, 1, d2)], t3.assets)
  {
    SeedNew(x, t3, id2, [d2]);
    OneLink(x.paths, 1, d2);
    PublishNth(x, t4, 1, 2);
  }

  /** The tables of that history. */
  lemma StaleTables(x: Scene, d1: Descriptor, d2: Descriptor, id1: string, id2: string)
    requires x.paths.isLocal(d1.fileName) && x.paths.isLocal(d2.fileName) && id1 != id2
    ensures After(x.paths, StaleHistory(x, d1, d2, id1, id2)) ==
      Tables(ArticlesOf(x), [RevisionOf(id1, Some(1)), RevisionOf(id2, Some(2))],
             [LinkOf(x.paths, 0, d1)] + [LinkOf(x.paths, 1, d2)], map[d1.hash := Asset("", 0)])
  {
    var p, h := x.paths, StaleHistory(x, d1, d2, id1, id2);
    assert h[..0] == [] && h[..5] == h;
    PrefixStep(p, h, 0);
    PrefixStep(p, h, 1);
    PrefixStep(p, h, 2);
    PrefixStep(p, h, 3);
    PrefixStep(p, h, 4);
    FirstSeed(x, d1, id1, After(p, h[..1]));
    FirstThree(x, d1, id1, After(p, h[..1]), After(p, h[..2]), After(p, h[..3]));
    LastTwo(x, d2, id1, id2, After(p, h[..3]), After(p, h[..4]), After(p, h));
  }

  /** The second revision is served, its file was never uploaded, and the lookup answers with the first one's. */
  lemma FileCanBeStale(x: Scene, d1: Descriptor, d2: Descriptor, id1: string, id2: string)
    requires x.paths.isLocal(d1.fileName) && d1.fileName == d2.fileName && d1.hash != d2.hash && id1 != id2
    ensures var t := After(x.paths, StaleHistory(x, d1, d2, id1, id2));
      Served(t, x.slug, 1) && AssetHit(t, x.slug, x.paths.clean(d2.fileName), 0) && t.links[0].revision == 0
  {
    StaleTables(x, d1, d2, id1, id2);
    TwoRevisions(x, After(x.paths, StaleHistory(x, d1, d2, id1, id2)), id1, id2, d2);
  }

  lemma TwoRevisions(x: Scene, t: Tables, id1: string, id2: string, d2: Descriptor)
    requires t.articles == ArticlesOf(x) && t.revisions == [RevisionOf(id1, Some(1)), RevisionOf(id2, Some(2))]
    requires |t.links| == 2 && t.links[0].revision == 0 && t.links[0].fileName == x.paths.clean(d2.fileName)
    requires t.links[0].hash in t.assets && t.links[1] == LinkOf(x.paths, 1, d2) && d2.hash !in t.assets
    ensures Served(t, x.slug, 1) && AssetHit(t, x.slug, x.paths.clean(d2.fileName), 0)
  {
    assert Candidate(t, x.slug, 0) && Candidate(t, x.slug, 1);
    assert AssetRow(t, x.slug, x.paths.clean(d2.fileName), 0) && !AssetRow(t, x.slug, x.paths.clean(d2.fileName), 1);
  }

  // ---------- the missing list and the push ----------

  lemma {:induction false} NamedAll(p: Paths, name: string, ds: seq<Descriptor>)
    requires forall i :: 0 <= i < |ds| ==> p.clean(ds[i].fileName) == name
    ensures Named(p, name, ds) == ds
  {
    if ds == [] {
    } else {
      NamedAll(p, name, ds[..|ds| - 1]);
      assert ds == ds[..|ds| - 1] + [ds[|ds| - 1]];
    }
  }

  lemma {:induction false} AbsentAll(ds: seq<Descriptor>)
    ensures M.Absent(EMPTY, ds) == ds
  {
    if ds == [] {
    } else {
      var before, d := ds[..|ds| - 1], ds[|ds| - 1];
      AbsentAll(before);
      M.AbsentSnoc(EMPTY, before, d);
      assert ds == before + [d];
    }
  }

  lemma RequestedTwo(p: Paths, name: string, rows: seq<AssetLink>, ds: seq<Descriptor>)
    requires |rows| == 2 && rows[0].fileName == name && rows[1].fileName == name && Named(p, name, ds) == ds
    ensures Requested(p, rows, ds) == ds + ds
  {
    M.RequestedSnoc(p, [], rows[0], ds);
    M.RequestedSnoc(p, [rows[0]], rows[1], ds);
    assert [] + [rows[0]] == [rows[0]] && [rows[0]] + [rows[1]] == rows;
  }

  lemma FirstReply(x: Scene, ds: seq<Descriptor>, id: string, rows: seq<AssetLink>, missing: seq<Descriptor>)
    requires AllLocal(x.paths, ds) && rows == LinksOf(x.paths, 0, ds) && missing == Requested(x.paths, rows, ds)
    ensures Seed(x.paths, EMPTY, x.uid, RequestFor(x, ds), id).1 == Seeded(id, missing)
  {
    SeedNew(x, EMPTY, id, ds);
    SeedShape(x.paths, EMPTY, x.uid, RequestFor(x, ds), id);
    M.MissingOfSeed(x.paths, EMPTY, x.uid, RequestFor(x, ds), id);
    AbsentAll(ds);
  }

  /** Two new assets of one name: the server asks for each of them twice. */
  lemma MissingListCanRepeat(x: Scene, ds: seq<Descriptor>, name: string, id: string)
    requires |ds| == 2 && x.paths.isLocal(name) && ds[0].fileName == name && ds[1].fileName == name
    ensures Seed(x.paths, EMPTY, x.uid, RequestFor(x, ds), id).1 == Seeded(id, ds + ds)
  {
    NamedAll(x.paths, x.paths.clean(name), ds);
    RequestedTwo(x.paths, x.paths.clean(name), LinksOf(x.paths, 0, ds), ds);
    FirstReply(x, ds, id, LinksOf(x.paths, 0, ds), ds + ds);
  }

  /** An article with two files of the same content cannot be pushed. */
  lemma TwinsNotPushable(
    p: Paths, digest: Digest, mime: string -> string, uid: User, article: LocalArticle, files: map<string, Bytes>, id: string)
    requires Readable(p, article, files) && |article.front.value.assets| == 2
    requires files[article.front.value.assets[0]] == files[article.front.value.assets[1]]
    ensures CompleteArticle(p, article, files)
    ensures !Pushable(p, digest, mime, EMPTY, uid, article, files, id)
  {
    ReadableIff(p, article, files);
    assert !AbsentAreApart(p, digest, EMPTY, article.front.value.assets, files);
    PushableIff(p, digest, mime, EMPTY, uid, article, files, id);
  }
}
