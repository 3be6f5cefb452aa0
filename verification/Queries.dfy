/** The read queries: the page, the file lookup and the feed, and how they agree. */
module Queries {
  import opened Options
  import opened ByteStrings
  import opened Store
  import opened History

  // ---------- GetAsset ----------

  /** A row of the join: link l gives `file` to a published revision of the slug, and its asset exists. */
  predicate AssetRow(t: Tables, slug: string, file: string, l: nat) {
    && l < |t.links|
    && t.links[l].fileName == file
    && t.links[l].hash in t.assets
    && Candidate(t, slug, t.links[l].revision)
  }

  /** A row the query may answer with: none was published later. */
  ghost predicate AssetHit(t: Tables, slug: string, file: string, l: nat) {
    AssetRow(t, slug, file, l) &&
    forall l': nat :: AssetRow(t, slug, file, l') ==>
      PublishedAt(t, t.links[l'].revision) <= PublishedAt(t, t.links[l].revision)
  }

  /** Revision r links `file` to an asset that has been committed. */
  ghost predicate Provides(t: Tables, r: nat, file: string) {
    exists l: nat :: ProvidedBy(t, r, file, l)
  }

  predicate ProvidedBy(t: Tables, r: nat, file: string, l: nat) {
    l < |t.links| && t.links[l].revision == r && t.links[l].fileName == file && t.links[l].hash in t.assets
  }

  /**
   The file lookup answers from the revision the page shows exactly when that revision links
   the file to a committed asset; otherwise every answer comes from an older publication.
   */
  lemma FileComesFromServedIff(t: Tables, slug: string, file: string, r: nat, l: nat)
    requires DistinctTimes(t) && Served(t, slug, r) && AssetHit(t, slug, file, l)
    ensures t.links[l].revision == r <==> Provides(t, r, file)
    ensures !Provides(t, r, file) ==> PublishedAt(t, t.links[l].revision) < PublishedAt(t, r)
  {
    var r' := t.links[l].revision;
    if r' == r {
      assert ProvidedBy(t, r, file, l);
    }
    if Provides(t, r, file) {
      var l': nat :| ProvidedBy(t, r, file, l');
      assert AssetRow(t, slug, file, l');
    }
    assert r' != r ==> t.revisions[r'].publishedAt != t.revisions[r].publishedAt;
  }

  ghost predicate AssetAnswer(t: Tables, slug: string, file: string, hash: Bytes) {
    exists l: nat :: AssetHit(t, slug, file, l) && t.links[l].hash == hash
  }

  /**
   A file linked once by the served revision, with its asset committed, is looked up as just that
   asset, however many older publications link the name.
   */
  lemma PageAndFileAgree(t: Tables, slug: string, file: string, r: nat, l: nat, hash: Bytes)
    requires DistinctTimes(t) && Served(t, slug, r)
    requires ProvidedBy(t, r, file, l)
    requires forall l': nat :: l' < |t.links| && t.links[l'].revision == r && t.links[l'].fileName == file ==> l' == l
    ensures AssetAnswer(t, slug, file, hash) <==> hash == t.links[l].hash
  {
    assert AssetRow(t, slug, file, l);
    assert AssetHit(t, slug, file, l);
    if AssetAnswer(t, slug, file, hash) {
      var l': nat :| AssetHit(t, slug, file, l') && t.links[l'].hash == hash;
      FileComesFromServedIff(t, slug, file, r, l');
      assert Provides(t, r, file);
    }
  }

  // ---------- GetArticleFeed ----------

  predicate PastOf(t: Tables, a: nat, now: Time, r: nat)
    requires r < |t.revisions|
  {
    t.revisions[r].article == a && t.revisions[r].publishedAt.Some? && t.revisions[r].publishedAt.value < now
  }

  /** MAX(published_at) of article a over the first n revisions, of those before now. */
  function LatestPublish(t: Tables, a: nat, now: Time, n: nat): Option<Time>
    requires n <= |t.revisions|
  {
    if n == 0 then None
    else
      var m := LatestPublish(t, a, now, n - 1);
      if !PastOf(t, a, now, n - 1) then m
      else if m.Some? && m.value >= t.revisions[n - 1].publishedAt.value then m
      else t.revisions[n - 1].publishedAt
  }

  /** A row of the feed's join: r carries the latest past publication time of its article. */
  predicate FeedRow(t: Tables, now: Time, r: nat) {
    && r < |t.revisions|
    && t.revisions[r].article < |t.articles|
    && t.revisions[r].publishedAt.Some?
    && LatestPublish(t, t.revisions[r].article, now, |t.revisions|) == t.revisions[r].publishedAt
  }

  function FeedRows(t: Tables, now: Time, n: nat): (rows: seq<nat>)
    ensures forall i :: 0 <= i < |rows| ==> rows[i] < n && FeedRow(t, now, rows[i])
    ensures forall r: nat :: r < n && FeedRow(t, now, r) ==> r in rows
    ensures forall i, j :: 0 <= i < j < |rows| ==> rows[i] < rows[j]
  {
    if n == 0 then []
    else FeedRows(t, now, n - 1) + if FeedRow(t, now, n - 1) then [n - 1] else []
  }

  /** `rows` in an order ORDER BY published_at DESC allows. */
  ghost predicate OrderedFeed(t: Tables, now: Time, rows: seq<nat>) {
    && multiset(rows) == multiset(FeedRows(t, now, |t.revisions|))
    && (forall i :: 0 <= i < |rows| ==> FeedRow(t, now, rows[i]))
    && (forall i, j :: 0 <= i < j < |rows| ==> PublishedAt(t, rows[j]) <= PublishedAt(t, rows[i]))
  }

  function Window(rows: seq<nat>, limit: nat, offset: nat): seq<nat> {
    var lo := if offset <= |rows| then offset else |rows|;
    var hi := if offset + limit <= |rows| then offset + limit else |rows|;
    rows[lo..hi]
  }

  /** An answer of the feed query. */
  ghost predicate Feed(t: Tables, now: Time, limit: nat, offset: nat, out: seq<nat>) {
    exists rows :: OrderedFeed(t, now, rows) && out == Window(rows, limit, offset)
  }

  lemma {:induction false} LatestPublishIsMax(t: Tables, a: nat, now: Time, n: nat)
    requires n <= |t.revisions|
    ensures forall r: nat :: r < n && PastOf(t, a, now, r) ==>
      LatestPublish(t, a, now, n).Some? && t.revisions[r].publishedAt.value <= LatestPublish(t, a, now, n).value
    ensures LatestPublish(t, a, now, n).Some? ==>
      exists r: nat :: r < n && PastOf(t, a, now, r) && t.revisions[r].publishedAt == LatestPublish(t, a, now, n)
  {
    if n == 0 {
    } else {
      LatestPublishIsMax(t, a, now, n - 1);
    }
  }

  /** A feed row is one whose time is in the past and no earlier than its article's past ones. */
  lemma FeedRowIff(t: Tables, now: Time, r: nat)
    requires Valid(t) && r < |t.revisions|
    ensures FeedRow(t, now, r) <==>
      PastOf(t, t.revisions[r].article, now, r) &&
      forall r': nat :: r' < |t.revisions| && PastOf(t, t.revisions[r].article, now, r') ==>
        PublishedAt(t, r') <= PublishedAt(t, r)
  {
    LatestPublishIsMax(t, t.revisions[r].article, now, |t.revisions|);
  }

  /** Candidates for the slug of a's article are exactly a's published revisions. */
  lemma CandidateIff(t: Tables, r: nat, r': nat)
    requires Valid(t) && r < |t.revisions|
    ensures Candidate(t, t.articles[t.revisions[r].article].slug, r') <==>
      r' < |t.revisions| && t.revisions[r'].article == t.revisions[r].article && t.revisions[r'].publishedAt.Some?
  {
  }

  /** The feed and the page show the same revision of an article exactly when it is not in the future. */
  lemma FeedAgreesIffPast(t: Tables, now: Time, slug: string, r: nat)
    requires Valid(t) && Served(t, slug, r)
    ensures (forall r': nat :: Candidate(t, slug, r') ==> (FeedRow(t, now, r') <==> Served(t, slug, r')))
      <==> PublishedAt(t, r) < now
  {
    forall r': nat | Candidate(t, slug, r')
      ensures t.revisions[r'].article == t.revisions[r].article
      ensures FeedRow(t, now, r') ==> PublishedAt(t, r') < now
      ensures PublishedAt(t, r) < now ==> (FeedRow(t, now, r') <==> Served(t, slug, r'))
    {
      CandidateIff(t, r, r');
      FeedRowIff(t, now, r');
      if PublishedAt(t, r) < now {
        assert PastOf(t, t.revisions[r].article, now, r);
        forall q: nat | Candidate(t, slug, q) ensures q < |t.revisions| && PastOf(t, t.revisions[r].article, now, q) {
          CandidateIff(t, r, q);
        }
        forall q: nat | q < |t.revisions| && PastOf(t, t.revisions[r'].article, now, q) ensures Candidate(t, slug, q) {
          CandidateIff(t, r, q);
        }
      }
    }
  }

  lemma FeedRowIsServed(t: Tables, now: Time, r: nat)
    requires Valid(t) && PublishedBefore(t, now) && r < |t.revisions|
    ensures FeedRow(t, now, r) <==> Served(t, t.articles[t.revisions[r].article].slug, r)
  {
    var slug := t.articles[t.revisions[r].article].slug;
    FeedRowIff(t, now, r);
    forall q: nat
      ensures Candidate(t, slug, q) <==> q < |t.revisions| && PastOf(t, t.revisions[r].article, now, q)
    {
      CandidateIff(t, r, q);
    }
  }

  lemma SameElements(xs: seq<nat>, ys: seq<nat>, x: nat)
    requires multiset(xs) == multiset(ys)
    ensures x in xs <==> x in ys
  {
    assert x in xs <==> x in multiset(xs);
    assert x in ys <==> x in multiset(ys);
  }

  lemma OrderKeepsDistinct(xs: seq<nat>, ys: seq<nat>, i: nat, j: nat)
    requires multiset(xs) == multiset(ys)
    requires forall i, j :: 0 <= i < j < |ys| ==> ys[i] < ys[j]
    requires i < j < |xs|
    ensures xs[i] != xs[j]
  {
    IncreasingOnce(ys, xs[i]);
    assert xs == xs[..j] + xs[j..];
    assert multiset(xs)[xs[i]] == multiset(xs[..j])[xs[i]] + multiset(xs[j..])[xs[i]];
    assert xs[..j][i] == xs[i] && xs[j..][0] == xs[j];
  }

  lemma {:induction false} IncreasingOnce(ys: seq<nat>, y: nat)
    requires forall i, j :: 0 <= i < j < |ys| ==> ys[i] < ys[j]
    ensures multiset(ys)[y] <= 1
  {
    if ys == [] {
    } else {
      var n := |ys| - 1;
      IncreasingOnce(ys[..n], y);
      assert ys == ys[..n] + [ys[n]];
      if ys[n] == y {
        assert y !in ys[..n];
      }
    }
  }

  lemma FeedCutsOffOldest(t: Tables, now: Time, limit: nat, rows: seq<nat>, slug: string, r: nat)
    requires Valid(t) && PublishedBefore(t, now) && OrderedFeed(t, now, rows) && Served(t, slug, r)
    requires r !in Window(rows, limit, 0)
    ensures |Window(rows, limit, 0)| == limit
    ensures forall q :: q in Window(rows, limit, 0) ==> FeedRow(t, now, q) && PublishedAt(t, r) <= PublishedAt(t, q)
  {
    FeedRowIsServed(t, now, r);
    SameElements(rows, FeedRows(t, now, |t.revisions|), r);
    var out := Window(rows, limit, 0);
    var k :| 0 <= k < |rows| && rows[k] == r;
    assert forall i :: 0 <= i < |out| ==> out[i] == rows[i];
  }

  lemma FeedHeadIsOrdered(t: Tables, now: Time, limit: nat, rows: seq<nat>)
    requires Valid(t) && PublishedBefore(t, now) && OrderedFeed(t, now, rows)
    ensures var out := Window(rows, limit, 0);
      && |out| <= limit
      && (forall r :: r in out ==> r < |t.revisions| && Served(t, t.articles[t.revisions[r].article].slug, r))
      && (forall i, j :: 0 <= i < j < |out| ==>
        out[i] != out[j] && PublishedAt(t, out[j]) <= PublishedAt(t, out[i]))
  {
    var out := Window(rows, limit, 0);
    assert out == rows[..|out|];
    forall r | r in out ensures r < |t.revisions| && Served(t, t.articles[t.revisions[r].article].slug, r) {
      FeedRowIsServed(t, now, r);
    }
    forall i, j | 0 <= i < j < |out| ensures out[i] != out[j] {
      OrderKeepsDistinct(rows, FeedRows(t, now, |t.revisions|), i, j);
    }
  }

  /**
   The first page of the feed, when all publications are in the past: every row is the one the
   page shows for its slug, the newest first, and what is cut off is no newer than what is shown.
   */
  lemma FeedShowsServed(t: Tables, now: Time, limit: nat, out: seq<nat>)
    requires Valid(t) && PublishedBefore(t, now) && Feed(t, now, limit, 0, out)
    ensures |out| <= limit
    ensures forall r :: r in out ==> r < |t.revisions| && Served(t, t.articles[t.revisions[r].article].slug, r)
    ensures forall i, j :: 0 <= i < j < |out| ==>
      out[i] != out[j] && PublishedAt(t, out[j]) <= PublishedAt(t, out[i])
    ensures forall slug, r: nat :: Served(t, slug, r) && r !in out ==>
      |out| == limit && forall q :: q in out ==> PublishedAt(t, r) <= PublishedAt(t, q)
  {
    var rows :| OrderedFeed(t, now, rows) && out == Window(rows, limit, 0);
    FeedHeadIsOrdered(t, now, limit, rows);
    forall slug, r: nat | Served(t, slug, r) && r !in out
      ensures |out| == limit && forall q :: q in out ==> PublishedAt(t, r) <= PublishedAt(t, q)
    {
      FeedCutsOffOldest(t, now, limit, rows, slug, r);
    }
  }

  lemma ServedOnce(t: Tables, r: nat, q: nat)
    requires Valid(t) && DistinctTimes(t) && r < |t.revisions| && q < |t.revisions| && r != q
    requires Served(t, t.articles[t.revisions[r].article].slug, r) && Served(t, t.articles[t.revisions[q].article].slug, q)
    ensures t.revisions[r].article != t.revisions[q].article
  {
    assert t.revisions[r].publishedAt != t.revisions[q].publishedAt;
  }

  /** With distinct times there is one row per article, and its order is strict. */
  lemma FeedIsOnePerArticle(t: Tables, now: Time, limit: nat, out: seq<nat>, i: nat, j: nat)
    requires Valid(t) && PublishedBefore(t, now) && DistinctTimes(t) && Feed(t, now, limit, 0, out)
    requires i < j < |out| && out[i] < |t.revisions| && out[j] < |t.revisions|
    requires t.revisions[out[i]].publishedAt.Some? && t.revisions[out[j]].publishedAt.Some?
    ensures t.revisions[out[i]].article != t.revisions[out[j]].article
    ensures PublishedAt(t, out[j]) < PublishedAt(t, out[i])
  {
    FeedShowsServed(t, now, limit, out);
    var r, q := out[i], out[j];
    assert r in out && q in out && r != q;
    assert t.revisions[r].publishedAt != t.revisions[q].publishedAt;
    ServedOnce(t, r, q);
  }

  /** So after any run with an advancing clock, all three reads rest on the same history. */
  lemma FeedAfterRun(p: Paths, events: seq<Event>, now: Time, limit: nat, out: seq<nat>, r: nat)
    requires ClockAdvances(events)
    requires forall i :: 0 <= i < |events| && events[i].PublishCall? ==> events[i].now < now
    requires Feed(After(p, events), now, limit, 0, out) && r in out
    ensures var t := After(p, events);
      r < |t.revisions| && t.revisions[r].article < |t.articles| &&
      LastPublished(p, events, t.articles[t.revisions[r].article].slug) == Some(t.revisions[r].publicId)
  {
    var t := After(p, events);
    AfterValid(p, events);
    TimesComeFromCalls(p, events, now);
    FeedShowsServed(t, now, limit, out);
    ServedIsLastPublished(p, events, t.articles[t.revisions[r].article].slug);
  }
}
