/** What every run of the store keeps, and what a slug serves as a function of the run alone. */
module History {
  import opened Options
  import opened Store

  // ---------- what never changes ----------

  ghost predicate SameButPublication(r: Revision, r': Revision) {
    r' == r.(publishedAt := r'.publishedAt)
  }

  /** Rows are only added; an article keeps its author, a revision its text and its links, an asset its row. */
  ghost predicate Grows(t: Tables, t': Tables) {
    && t.articles <= t'.articles
    && |t.revisions| <= |t'.revisions|
    && (forall i :: 0 <= i < |t.revisions| ==> SameButPublication(t.revisions[i], t'.revisions[i]))
    && t.links <= t'.links
    && (forall i :: |t.links| <= i < |t'.links| ==> t'.links[i].revision >= |t.revisions|)
    && t.assets.Keys <= t'.assets.Keys
    && (forall h :: h in t.assets ==> t'.assets[h] == t.assets[h])
  }

  lemma SeedGrows(p: Paths, t: Tables, uid: User, req: SeedRequest, id: string)
    requires Valid(t)
    ensures Grows(t, Seed(p, t, uid, req, id).0)
  {
  }

  lemma NextGrows(p: Paths, t: Tables, e: Event)
    requires Valid(t)
    ensures Grows(t, Next(p, t, e))
  {
    if e.SeedCall? { SeedGrows(p, t, e.uid, e.req, e.newId); }
  }

  lemma GrowsTransitive(t: Tables, t1: Tables, t2: Tables)
    requires Grows(t, t1) && Grows(t1, t2)
    ensures Grows(t, t2)
  {
    forall i | 0 <= i < |t.revisions| ensures SameButPublication(t.revisions[i], t2.revisions[i]) {
      assert SameButPublication(t.revisions[i], t1.revisions[i]) && SameButPublication(t1.revisions[i], t2.revisions[i]);
    }
  }

  lemma {:induction false} RunGrows(p: Paths, events: seq<Event>, more: seq<Event>)
    ensures Grows(After(p, events), After(p, events + more))
    decreases |more|
  {
    if more == [] {
      assert events + more == events;
    } else {
      var n := |more| - 1;
      assert events + more == (events + more[..n]) + [more[n]];
      AfterOneMore(p, events + more[..n], more[n]);
      RunGrows(p, events, more[..n]);
      AfterValid(p, events + more[..n]);
      NextGrows(p, After(p, events + more[..n]), more[n]);
      GrowsTransitive(After(p, events), After(p, events + more[..n]), After(p, events + more));
    }
  }

  lemma {:induction false} MissingAmongIff(t: Tables, rev: nat, links: seq<AssetLink>, l: AssetLink)
    ensures l in MissingAmong(t, rev, links) <==> l in links && IsMissing(t, rev, l)
  {
    if links == [] {
    } else {
      var n := |links| - 1;
      MissingAmongIff(t, rev, links[..n], l);
      assert links == links[..n] + [links[n]];
    }
  }

  /** The missing rows of a revision only ever become fewer, through all later calls of anybody. */
  lemma MissingOnlyShrinks(p: Paths, events: seq<Event>, more: seq<Event>, rev: nat, l: AssetLink)
    requires rev < |After(p, events).revisions|
    requires l in MissingLinks(After(p, events + more), rev)
    ensures l in MissingLinks(After(p, events), rev)
  {
    var t, t' := After(p, events), After(p, events + more);
    RunGrows(p, events, more);
    MissingAmongIff(t', rev, t'.links, l);
    MissingAmongIff(t, rev, t.links, l);
  }

  function Caller(e: Event): Option<User> {
    match e
    case SeedCall(uid, _, _) => Some(uid)
    case PublishCall(uid, _, _) => Some(uid)
    case RedactCall(uid, _) => Some(uid)
    case AssetCommit(_, _) => None
  }

  function ArticleOf(t: Tables, rev: nat): Option<nat> {
    if rev < |t.revisions| then Some(t.revisions[rev].article) else None
  }

  /** The revisions of article a, and their links, are the same in both. */
  ghost predicate Untouched(t: Tables, t': Tables, a: nat) {
    && (forall i :: 0 <= i < |t'.revisions| && t'.revisions[i].article == a ==>
      i < |t.revisions| && t.revisions[i] == t'.revisions[i])
    && (forall i :: 0 <= i < |t.revisions| && t.revisions[i].article == a ==>
      i < |t'.revisions| && t.revisions[i] == t'.revisions[i])
    && (forall i :: 0 <= i < |t'.links| && ArticleOf(t', t'.links[i].revision) == Some(a) ==>
      i < |t.links| && t.links[i] == t'.links[i])
  }

  /** Rows appended for article b leave any other article alone. */
  lemma AppendTouchesOwn(t: Tables, t': Tables, ds: seq<AssetLink>, a: nat, b: nat)
    requires Valid(t) && a != b && |t'.revisions| == |t.revisions| + 1 && t'.revisions[..|t.revisions|] == t.revisions
    requires t'.revisions[|t.revisions|].article == b
    requires t'.links == t.links + ds && forall i :: 0 <= i < |ds| ==> ds[i].revision == |t.revisions|
    ensures Untouched(t, t', a)
  {
    assert forall i :: |t.links| <= i < |t'.links| ==> t'.links[i] == ds[i - |t.links|];
  }

  lemma SeedTouchesOwn(p: Paths, t: Tables, uid: User, req: SeedRequest, id: string, a: nat)
    requires Valid(t) && a < |t.articles| && uid != t.articles[a].author
    ensures Untouched(t, Seed(p, t, uid, req, id).0, a)
  {
    if Seed(p, t, uid, req, id).1.Seeded? {
      var t' := Seed(p, t, uid, req, id).0;
      SeedShape(p, t, uid, req, id);
      SeedGrows(p, t, uid, req, id);
      AppendTouchesOwn(t, t', LinksOf(p, |t.revisions|, req.assets), a, t'.revisions[|t.revisions|].article);
    }
  }

  /** Only its author stages, publishes or redacts an article's revisions. */
  lemma OnlyAuthorActs(p: Paths, t: Tables, e: Event, a: nat)
    requires Valid(t) && a < |t.articles| && Caller(e) != Some(t.articles[a].author)
    ensures Untouched(t, Next(p, t, e), a)
  {
    if e.SeedCall? { SeedTouchesOwn(p, t, e.uid, e.req, e.newId, a); }
  }

  // ---------- the revision served for a slug ----------

  predicate Candidate(t: Tables, slug: string, r: nat) {
    && r < |t.revisions|
    && t.revisions[r].article < |t.articles|
    && t.articles[t.revisions[r].article].slug == slug
    && t.revisions[r].publishedAt.Some?
  }

  function PublishedAt(t: Tables, r: nat): Time
    requires r < |t.revisions| && t.revisions[r].publishedAt.Some?
  {
    t.revisions[r].publishedAt.value
  }

  /** GetPublishedRevisionBySlug: any candidate no other was published after. */
  ghost predicate Served(t: Tables, slug: string, r: nat) {
    Candidate(t, slug, r) &&
    forall r': nat :: Candidate(t, slug, r') ==> PublishedAt(t, r') <= PublishedAt(t, r)
  }

  /** The public id the last successful publish of the slug's article named, unless redacted since. */
  function LastPublished(p: Paths, events: seq<Event>, slug: string): Option<string> {
    if events == [] then None
    else
      var before := events[..|events| - 1];
      var t := After(p, before);
      match events[|events| - 1]
      case PublishCall(uid, id, now) =>
        if Publish(t, uid, id, now).1.Ok? && SlugOf(t, id.value) == Some(slug) then id
        else LastPublished(p, before, slug)
      case RedactCall(uid, s) =>
        if Redact(t, uid, s).1.Ok? && s == slug then None else LastPublished(p, before, slug)
      case _ => LastPublished(p, before, slug)
  }

  function SlugOf(t: Tables, id: string): Option<string> {
    var r := RevisionById(t, id);
    if r.Some? && t.revisions[r.value].article < |t.articles| then
      Some(t.articles[t.revisions[r.value].article].slug)
    else None
  }

  /** The clock advances between any two publishes. */
  ghost predicate ClockAdvances(events: seq<Event>) {
    forall i, j :: 0 <= i < j < |events| && events[i].PublishCall? && events[j].PublishCall? ==>
      events[i].now < events[j].now
  }

  ghost predicate PublishedBefore(t: Tables, now: Time) {
    forall r :: 0 <= r < |t.revisions| && t.revisions[r].publishedAt.Some? ==> t.revisions[r].publishedAt.value < now
  }

  lemma {:induction false} TimesComeFromCalls(p: Paths, events: seq<Event>, now: Time)
    requires forall i :: 0 <= i < |events| && events[i].PublishCall? ==> events[i].now < now
    ensures PublishedBefore(After(p, events), now)
    decreases |events|
  {
    if events == [] {
    } else {
      TimesComeFromCalls(p, events[..|events| - 1], now);
    }
  }

  /** No two revisions carry the same publication time. */
  ghost predicate DistinctTimes(t: Tables) {
    forall r, r' :: 0 <= r < r' < |t.revisions| ==>
      t.revisions[r].publishedAt == None || t.revisions[r].publishedAt != t.revisions[r'].publishedAt
  }

  lemma SeedKeepsDistinctTimes(p: Paths, t: Tables, uid: User, req: SeedRequest, id: string)
    requires DistinctTimes(t)
    ensures DistinctTimes(Seed(p, t, uid, req, id).0)
  {
    if Seed(p, t, uid, req, id).1.Seeded? { SeedShape(p, t, uid, req, id); }
  }

  lemma NextKeepsDistinctTimes(p: Paths, t: Tables, e: Event)
    requires DistinctTimes(t) && (e.PublishCall? ==> PublishedBefore(t, e.now))
    ensures DistinctTimes(Next(p, t, e))
  {
    if e.SeedCall? { SeedKeepsDistinctTimes(p, t, e.uid, e.req, e.newId); }
  }

  lemma {:induction false} ClockGivesDistinctTimes(p: Paths, events: seq<Event>)
    requires ClockAdvances(events)
    ensures DistinctTimes(After(p, events))
    decreases |events|
  {
    if events == [] {
    } else {
      var n := |events| - 1;
      ClockGivesDistinctTimes(p, events[..n]);
      if events[n].PublishCall? {
        TimesComeFromCalls(p, events[..n], events[n].now);
      }
      NextKeepsDistinctTimes(p, After(p, events[..n]), events[n]);
    }
  }

  /** The revisions of the slug are candidates in both, with the same times. */
  ghost predicate SameCandidates(t: Tables, t': Tables, slug: string) {
    forall r: nat :: Candidate(t, slug, r) || Candidate(t', slug, r) ==>
      Candidate(t, slug, r) && Candidate(t', slug, r) && t.revisions[r] == t'.revisions[r]
  }

  lemma SameCandidatesServe(t: Tables, t': Tables, slug: string, r: nat)
    requires SameCandidates(t, t', slug)
    ensures Served(t, slug, r) <==> Served(t', slug, r)
  {
    if Served(t, slug, r) {
      forall r': nat | Candidate(t', slug, r') ensures PublishedAt(t', r') <= PublishedAt(t', r) {
        assert Candidate(t, slug, r');
      }
    }
    if Served(t', slug, r) {
      forall r': nat | Candidate(t, slug, r') ensures PublishedAt(t, r') <= PublishedAt(t, r) {
        assert Candidate(t', slug, r');
      }
    }
  }

  lemma SeedKeepsCandidates(p: Paths, t: Tables, uid: User, req: SeedRequest, id: string, slug: string)
    requires Valid(t)
    ensures SameCandidates(t, Seed(p, t, uid, req, id).0, slug)
  {
  }

  /** A call that publishes or redacts nothing of the slug leaves its candidates alone. */
  lemma OtherCallsKeepCandidates(p: Paths, t: Tables, e: Event, slug: string)
    requires Valid(t)
    requires e.PublishCall? ==>
      !Publish(t, e.uid, e.id, e.now).1.Ok? || SlugOf(t, e.id.value) != Some(slug)
    requires e.RedactCall? ==> !Redact(t, e.uid, e.slug).1.Ok? || e.slug != slug
    ensures SameCandidates(t, Next(p, t, e), slug)
  {
    if e.SeedCall? { SeedKeepsCandidates(p, t, e.uid, e.req, e.newId, slug); }
  }

  /**
   After any run the revision served for a slug is the one named by the last successful
   publish for its article since the last successful redact, and there is none if there is none.
   */
  lemma {:induction false} ServedIsLastPublished(p: Paths, events: seq<Event>, slug: string)
    requires ClockAdvances(events)
    ensures forall r: nat :: Served(After(p, events), slug, r) <==>
      r < |After(p, events).revisions| &&
      LastPublished(p, events, slug) == Some(After(p, events).revisions[r].publicId)
    ensures LastPublished(p, events, slug).Some? ==>
      RevisionById(After(p, events), LastPublished(p, events, slug).value).Some?
    decreases |events|
  {
    if events == [] {
    } else {
      var n := |events| - 1;
      var e := events[n];
      var t, t' := After(p, events[..n]), After(p, events);
      ServedIsLastPublished(p, events[..n], slug);
      AfterValid(p, events[..n]);
      NextValid(p, t, e);
      NextGrows(p, t, e);
      if e.PublishCall? && Publish(t, e.uid, e.id, e.now).1.Ok? && SlugOf(t, e.id.value) == Some(slug) {
        TimesComeFromCalls(p, events[..n], e.now);
        PublishServes(t, e.uid, e.id, e.now, slug);
      } else if e.RedactCall? && Redact(t, e.uid, e.slug).1.Ok? && e.slug == slug {
        RedactServesNothing(t, e.uid, slug);
      } else {
        OtherCallsKeepCandidates(p, t, e, slug);
        ServedCarriesOver(t, t', slug, LastPublished(p, events[..n], slug));
      }
    }
  }

  lemma PublishServes(t: Tables, uid: User, id: Option<string>, now: Time, slug: string)
    requires Valid(t) && PublishedBefore(t, now)
    requires Publish(t, uid, id, now).1.Ok? && SlugOf(t, id.value) == Some(slug)
    ensures var t' := Publish(t, uid, id, now).0;
      && RevisionById(t', id.value).Some?
      && forall r: nat :: Served(t', slug, r) <==> r < |t'.revisions| && t'.revisions[r].publicId == id.value
  {
    var t' := Publish(t, uid, id, now).0;
    var r0 := RevisionById(t, id.value).value;
    assert t'.revisions[r0].publicId == id.value;
    assert Candidate(t', slug, r0) && PublishedAt(t', r0) == now;
    forall r: nat | Candidate(t', slug, r) && r != r0 ensures PublishedAt(t', r) < now {
    }
    forall r: nat | r < |t'.revisions| && t'.revisions[r].publicId == id.value ensures r == r0 {
      assert t'.revisions[r].publicId == t.revisions[r].publicId;
    }
  }

  lemma RedactServesNothing(t: Tables, uid: User, slug: string)
    requires Valid(t) && Redact(t, uid, slug).1.Ok?
    ensures forall r: nat :: !Candidate(Redact(t, uid, slug).0, slug, r)
  {
  }

  lemma ServedCarriesOver(t: Tables, t': Tables, slug: string, last: Option<string>)
    requires Valid(t) && Valid(t') && Grows(t, t') && SameCandidates(t, t', slug)
    requires last.Some? ==> RevisionById(t, last.value).Some?
    requires forall r: nat :: Served(t, slug, r) <==> r < |t.revisions| && last == Some(t.revisions[r].publicId)
    ensures last.Some? ==> RevisionById(t', last.value).Some?
    ensures forall r: nat :: Served(t', slug, r) <==> r < |t'.revisions| && last == Some(t'.revisions[r].publicId)
  {
    if last.Some? {
      var r0 := RevisionById(t, last.value).value;
      assert SameButPublication(t.revisions[r0], t'.revisions[r0]);
    }
    forall r: nat
      ensures Served(t', slug, r) <==> r < |t'.revisions| && last == Some(t'.revisions[r].publicId)
    {
      SameCandidatesServe(t, t', slug, r);
      if r < |t.revisions| {
        assert SameButPublication(t.revisions[r], t'.revisions[r]);
      } else if last.Some? {
        var r0 := RevisionById(t, last.value).value;
        assert SameButPublication(t.revisions[r0], t'.revisions[r0]);
      }
    }
  }
}
