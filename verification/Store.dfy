/** The CMS tables, and the four calls on them, each as one transaction. */
module Store {
  import opened Options
  import opened ByteStrings

  type User = string
  type Time = int

  // ---------- tables; a row of `articles` or `revisions` is identified by its position ----------

  datatype Article = Article(author: User, slug: string)

  datatype Revision = Revision(
    publicId: string,
    article: nat,
    title: string,
    description: string,
    body: string,
    publishedAt: Option<Time>
  )

  datatype AssetLink = AssetLink(revision: nat, hash: Bytes, fileName: string)

  datatype Asset = Asset(contentType: string, contentLength: int)

  datatype Tables = Tables(
    articles: seq<Article>,
    revisions: seq<Revision>,
    links: seq<AssetLink>,
    assets: map<Bytes, Asset>
  )

  const EMPTY: Tables := Tables([], [], [], map[])

  // ---------- requests ----------

  datatype Descriptor = Descriptor(fileName: string, hash: Bytes, contentType: string, contentLength: int)

  datatype Frontmatter = Frontmatter(slug: string, title: string, description: string, assets: seq<string>)

  /** `front` is the parsed front matter of `body`, None if it does not parse. */
  datatype SeedRequest = SeedRequest(body: string, front: Option<Frontmatter>, assets: seq<Descriptor>)

  datatype Error = InvalidArgument | PermissionDenied | NotFound | InternalError

  datatype SeedReply = Seeded(revisionId: string, missing: seq<Descriptor>) | SeedFailed(error: Error)

  datatype Reply = Ok | Failed(error: Error)

  /** Stands for `filepath.IsLocal` and `path.Clean`. */
  datatype Paths = Paths(isLocal: string -> bool, clean: string -> string)

  // ---------- queries used by the calls ----------

  function ArticleBySlug(t: Tables, slug: string): Option<nat> {
    Find(t.articles, (a: Article) => a.slug == slug)
  }

  function RevisionById(t: Tables, id: string): Option<nat> {
    Find(t.revisions, (r: Revision) => r.publicId == id)
  }

  function IsMissing(t: Tables, rev: nat, l: AssetLink): bool {
    l.revision == rev && l.hash !in t.assets
  }

  /** GetMissingArticleAssets. */
  function MissingLinks(t: Tables, rev: nat): seq<AssetLink> {
    MissingAmong(t, rev, t.links)
  }

  function MissingAmong(t: Tables, rev: nat, links: seq<AssetLink>): seq<AssetLink> {
    if links == [] then []
    else
      var n := |links| - 1;
      MissingAmong(t, rev, links[..n]) + if IsMissing(t, rev, links[n]) then [links[n]] else []
  }

  // ---------- SeedArticle ----------

  function CreateArticle(t: Tables, uid: User, slug: string): Tables {
    if ArticleBySlug(t, slug).Some? then t else t.(articles := t.articles + [Article(uid, slug)])
  }

  function StageRevision(t: Tables, article: nat, id: string, f: Frontmatter, body: string): Tables {
    t.(revisions := t.revisions + [Revision(id, article, f.title, f.description, body, None)])
  }

  function LinkOf(p: Paths, rev: nat, d: Descriptor): AssetLink {
    AssetLink(rev, d.hash, p.clean(d.fileName))
  }

  function LinksOf(p: Paths, rev: nat, ds: seq<Descriptor>): (ls: seq<AssetLink>)
    ensures |ls| == |ds|
    ensures forall i :: 0 <= i < |ds| ==> ls[i] == LinkOf(p, rev, ds[i])
  {
    seq(|ds|, i requires 0 <= i < |ds| => LinkOf(p, rev, ds[i]))
  }

  predicate AllLocal(p: Paths, ds: seq<Descriptor>) {
    forall i :: 0 <= i < |ds| ==> p.isLocal(ds[i].fileName)
  }

  /** The request's descriptors whose cleaned name is `name`. */
  function Named(p: Paths, name: string, ds: seq<Descriptor>): seq<Descriptor> {
    if ds == [] then []
    else
      var n := |ds| - 1;
      Named(p, name, ds[..n]) + if p.clean(ds[n].fileName) == name then [ds[n]] else []
  }

  /** What the nested loops over the missing rows and the request collect. */
  function Requested(p: Paths, rows: seq<AssetLink>, ds: seq<Descriptor>): seq<Descriptor> {
    if rows == [] then []
    else
      var n := |rows| - 1;
      Requested(p, rows[..n], ds) + Named(p, rows[n].fileName, ds)
  }

  datatype Staging = Staged(tables: Tables, rev: nat) | NotStaged(error: Error)

  /** The first half of a seed: its article, created if need be, and its new revision. */
  function Stage(t: Tables, uid: User, f: Frontmatter, body: string, id: string): Staging {
    var t1 := CreateArticle(t, uid, f.slug);
    var a := ArticleBySlug(t1, f.slug);
    if a.None? then NotStaged(InternalError)
    else if t1.articles[a.value].author != uid then NotStaged(PermissionDenied)
    else if RevisionById(t1, id).Some? then NotStaged(InternalError)
    else Staged(StageRevision(t1, a.value, id, f, body), |t1.revisions|)
  }

  function Seed(p: Paths, t: Tables, uid: User, req: SeedRequest, id: string): (Tables, SeedReply) {
    if req.front.None? then (t, SeedFailed(InvalidArgument))
    else
      match Stage(t, uid, req.front.value, req.body, id)
      case NotStaged(error) => (t, SeedFailed(error))
      case Staged(t2, rev) =>
        if !AllLocal(p, req.assets) then (t, SeedFailed(InvalidArgument))
        else
          var t3 := t2.(links := t2.links + LinksOf(p, rev, req.assets));
          (t3, Seeded(id, Requested(p, MissingLinks(t3, rev), req.assets)))
  }

  /** A seed that succeeds adds one revision, links the request's assets to it and reports the missing ones. */
  lemma SeedShape(p: Paths, t: Tables, uid: User, req: SeedRequest, id: string)
    requires Seed(p, t, uid, req, id).1.Seeded?
    ensures req.front.Some?
    ensures var (t', reply) := Seed(p, t, uid, req, id);
      && t'.links == t.links + LinksOf(p, |t.revisions|, req.assets)
      && t'.assets == t.assets
      && |t'.revisions| == |t.revisions| + 1 && t'.revisions[..|t.revisions|] == t.revisions
      && reply.revisionId == id
      && (var a := t'.revisions[|t.revisions|].article;
          && a < |t'.articles| && t'.articles[a] == Article(uid, req.front.value.slug)
          && t'.revisions[|t.revisions|] ==
             Revision(id, a, req.front.value.title, req.front.value.description, req.body, None))
      && reply.missing == Requested(p, MissingLinks(t', |t.revisions|), req.assets)
  {
  }

  /** Each link of the new revision gives a cleaned name to the hash it came with. */
  lemma SeedLinks(p: Paths, t: Tables, uid: User, req: SeedRequest, id: string, i: nat)
    requires Seed(p, t, uid, req, id).1.Seeded? && i < |req.assets|
    ensures var links := Seed(p, t, uid, req, id).0.links;
      && |links| == |t.links| + |req.assets|
      && links[|t.links| + i] == AssetLink(|t.revisions|, req.assets[i].hash, p.clean(req.assets[i].fileName))
  {
    SeedShape(p, t, uid, req, id);
  }

  // ---------- PublishArticle, RedactArticle, CreateAsset ----------

  /** `id` is None when the request's revision id does not parse. */
  function Publish(t: Tables, uid: User, id: Option<string>, now: Time): (Tables, Reply) {
    if id.None? then (t, Failed(InvalidArgument))
    else
      var r := RevisionById(t, id.value);
      if r.None? || t.revisions[r.value].article >= |t.articles| then (t, Failed(InternalError))
      else if t.articles[t.revisions[r.value].article].author != uid then (t, Failed(PermissionDenied))
      else
        var published := t.revisions[r.value].(publishedAt := Some(now));
        (t.(revisions := t.revisions[r.value := published]), Ok)
  }

  function Unpublished(revisions: seq<Revision>, article: nat): (rs: seq<Revision>)
    ensures |rs| == |revisions|
    ensures forall i :: 0 <= i < |rs| ==>
      rs[i] == if revisions[i].article == article then revisions[i].(publishedAt := None) else revisions[i]
  {
    seq(|revisions|, i requires 0 <= i < |revisions| =>
      if revisions[i].article == article then revisions[i].(publishedAt := None) else revisions[i])
  }

  function Redact(t: Tables, uid: User, slug: string): (Tables, Reply) {
    var a := ArticleBySlug(t, slug);
    if a.None? then (t, Failed(NotFound))
    else if t.articles[a.value].author != uid then (t, Failed(PermissionDenied))
    else (t.(revisions := Unpublished(t.revisions, a.value)), Ok)
  }

  /** The row an upload commits; the primary key makes a second one for the hash fail. */
  function AddAsset(t: Tables, hash: Bytes, row: Asset): Tables {
    if hash in t.assets then t else t.(assets := t.assets[hash := row])
  }

  // ---------- runs ----------

  /** A call and its caller, or the commit of an upload. */
  datatype Event =
    | SeedCall(uid: User, req: SeedRequest, newId: string)
    | PublishCall(uid: User, id: Option<string>, now: Time)
    | RedactCall(uid: User, slug: string)
    | AssetCommit(hash: Bytes, row: Asset)

  function Next(p: Paths, t: Tables, e: Event): Tables {
    match e
    case SeedCall(uid, req, id) => Seed(p, t, uid, req, id).0
    case PublishCall(uid, id, now) => Publish(t, uid, id, now).0
    case RedactCall(uid, slug) => Redact(t, uid, slug).0
    case AssetCommit(hash, row) => AddAsset(t, hash, row)
  }

  function After(p: Paths, events: seq<Event>): Tables {
    if events == [] then EMPTY
    else Next(p, After(p, events[..|events| - 1]), events[|events| - 1])
  }

  lemma AfterOneMore(p: Paths, events: seq<Event>, e: Event)
    ensures After(p, events + [e]) == Next(p, After(p, events), e)
  {
    assert (events + [e])[..|events|] == events;
  }

  lemma CallAddsNoAsset(p: Paths, t: Tables, e: Event)
    requires !e.AssetCommit?
    ensures Next(p, t, e).assets == t.assets
  {
    if e.SeedCall? && Seed(p, t, e.uid, e.req, e.newId).1.Seeded? { SeedShape(p, t, e.uid, e.req, e.newId); }
  }

  /** The constraints of the schema: unique slugs and public ids, and references that exist. */
  ghost predicate Valid(t: Tables) {
    && (forall i, j :: 0 <= i < j < |t.articles| ==> t.articles[i].slug != t.articles[j].slug)
    && (forall i, j :: 0 <= i < j < |t.revisions| ==> t.revisions[i].publicId != t.revisions[j].publicId)
    && (forall i :: 0 <= i < |t.revisions| ==> t.revisions[i].article < |t.articles|)
    && (forall i :: 0 <= i < |t.links| ==> t.links[i].revision < |t.revisions|)
  }

  lemma CreateArticleValid(t: Tables, uid: User, slug: string)
    requires Valid(t)
    ensures Valid(CreateArticle(t, uid, slug))
  {
  }

  /** Adding a revision with a new id to an existing article, and links to it. */
  lemma RevisionValid(t: Tables, rev: Revision, links: seq<AssetLink>)
    requires Valid(t) && rev.article < |t.articles| && RevisionById(t, rev.publicId).None?
    requires forall i :: 0 <= i < |links| ==> links[i].revision == |t.revisions|
    ensures Valid(Tables(t.articles, t.revisions + [rev], t.links + links, t.assets))
  {
  }

  lemma SeedValid(p: Paths, t: Tables, uid: User, req: SeedRequest, id: string)
    requires Valid(t)
    ensures Valid(Seed(p, t, uid, req, id).0)
  {
    if Seed(p, t, uid, req, id).1.Seeded? {
      var f := req.front.value;
      var t1 := CreateArticle(t, uid, f.slug);
      CreateArticleValid(t, uid, f.slug);
      RevisionValid(t1, Revision(id, ArticleBySlug(t1, f.slug).value, f.title, f.description, req.body, None),
                    LinksOf(p, |t1.revisions|, req.assets));
    }
  }

  /** The slug belongs to somebody else. */
  ghost predicate OthersSlug(t: Tables, uid: User, slug: string) {
    exists a :: 0 <= a < |t.articles| && t.articles[a].slug == slug && t.articles[a].author != uid
  }

  ghost predicate IdTaken(t: Tables, id: string) {
    exists r :: 0 <= r < |t.revisions| && t.revisions[r].publicId == id
  }

  ghost predicate SomeNotLocal(p: Paths, ds: seq<Descriptor>) {
    exists i :: 0 <= i < |ds| && !p.isLocal(ds[i].fileName)
  }

  lemma StageAnswers(t: Tables, uid: User, f: Frontmatter, body: string, id: string)
    requires Valid(t)
    ensures Stage(t, uid, f, body, id).Staged? <==> !OthersSlug(t, uid, f.slug) && !IdTaken(t, id)
    ensures Stage(t, uid, f, body, id) == NotStaged(PermissionDenied) <==> OthersSlug(t, uid, f.slug)
    ensures Stage(t, uid, f, body, id) == NotStaged(InternalError) <==> !OthersSlug(t, uid, f.slug) && IdTaken(t, id)
  {
    var a := ArticleBySlug(t, f.slug);
    var t1 := CreateArticle(t, uid, f.slug);
    assert a.None? ==> t1.articles[|t.articles|] == Article(uid, f.slug);
    assert ArticleBySlug(t1, f.slug) == if a.Some? then a else Some(|t.articles|);
    assert OthersSlug(t, uid, f.slug) <==> a.Some? && t.articles[a.value].author != uid;
  }

  /** What a seed answers, in terms of the request and the tables; unless it succeeds, nothing changes. */
  lemma SeedAnswers(p: Paths, t: Tables, uid: User, req: SeedRequest, id: string)
    requires Valid(t)
    ensures var (t', reply) := Seed(p, t, uid, req, id);
      && (reply.Seeded? <==>
          req.front.Some? && !OthersSlug(t, uid, req.front.value.slug) && !IdTaken(t, id) && !SomeNotLocal(p, req.assets))
      && (reply == SeedFailed(InvalidArgument) <==>
          req.front.None?
          || (!OthersSlug(t, uid, req.front.value.slug) && !IdTaken(t, id) && SomeNotLocal(p, req.assets)))
      && (reply == SeedFailed(PermissionDenied) <==> req.front.Some? && OthersSlug(t, uid, req.front.value.slug))
      && (reply == SeedFailed(InternalError) <==>
          req.front.Some? && !OthersSlug(t, uid, req.front.value.slug) && IdTaken(t, id))
      && (reply.SeedFailed? ==> t' == t)
  {
    if req.front.Some? { StageAnswers(t, uid, req.front.value, req.body, id); }
    assert AllLocal(p, req.assets) <==> !SomeNotLocal(p, req.assets);
  }

  /** And a publish; it succeeds exactly for a revision of the caller's own article, and changes only its time. */
  lemma PublishAnswers(t: Tables, uid: User, id: Option<string>, now: Time)
    requires Valid(t)
    ensures var (t', reply) := Publish(t, uid, id, now);
      && (reply == Failed(InvalidArgument) <==> id.None?)
      && (reply == Failed(InternalError) <==> id.Some? && !IdTaken(t, id.value))
      && (forall r :: 0 <= r < |t.revisions| && id == Some(t.revisions[r].publicId) ==>
          if t.articles[t.revisions[r].article].author != uid then reply == Failed(PermissionDenied)
          else reply == Ok && t' == t.(revisions := t.revisions[r := t.revisions[r].(publishedAt := Some(now))]))
      && (reply != Ok ==> t' == t)
  {
    if id.Some? {
      var found := RevisionById(t, id.value);
      forall r | 0 <= r < |t.revisions| && t.revisions[r].publicId == id.value ensures found == Some(r) {}
    }
  }

  /** And a redact; it succeeds exactly for the caller's own article, and takes the times of all its revisions. */
  lemma RedactAnswers(t: Tables, uid: User, slug: string)
    requires Valid(t)
    ensures var (t', reply) := Redact(t, uid, slug);
      && (reply == Failed(NotFound) <==> forall a :: 0 <= a < |t.articles| ==> t.articles[a].slug != slug)
      && (reply == Failed(PermissionDenied) <==> OthersSlug(t, uid, slug))
      && (forall a :: 0 <= a < |t.articles| && t.articles[a] == Article(uid, slug) ==>
          && reply == Ok && t' == t.(revisions := t'.revisions) && |t'.revisions| == |t.revisions|
          && forall r :: 0 <= r < |t.revisions| ==>
            t'.revisions[r] == t.revisions[r].(publishedAt := if t.revisions[r].article == a then None else t.revisions[r].publishedAt))
      && (reply != Ok ==> t' == t)
  {
    var found := ArticleBySlug(t, slug);
    forall a | 0 <= a < |t.articles| && t.articles[a].slug == slug ensures found == Some(a) {}
  }

  lemma NextValid(p: Paths, t: Tables, e: Event)
    requires Valid(t)
    ensures Valid(Next(p, t, e))
  {
    if e.SeedCall? { SeedValid(p, t, e.uid, e.req, e.newId); }
  }

  lemma {:induction false} AfterValid(p: Paths, events: seq<Event>)
    ensures Valid(After(p, events))
    decreases |events|
  {
    if events == [] {
    } else {
      AfterValid(p, events[..|events| - 1]);
      NextValid(p, After(p, events[..|events| - 1]), events[|events| - 1]);
    }
  }
}
