/**
 What a push is for, over any history: the revision it seeded is served in full as long as it is the
 last one published, whatever other calls come between and after those of the push.
 */
module Pushes {
  import opened Options
  import opened ByteStrings
  import opened Store
  import opened History
  import opened Queries
  import M = MissingAssets

  /** The tables some time after a seed, when every asset it asked for has been committed. */
  ghost predicate Followed(p: Paths, t0: Tables, uid: User, req: SeedRequest, id: string, t: Tables) {
    && Seed(p, t0, uid, req, id).1.Seeded?
    && Grows(Seed(p, t0, uid, req, id).0, t)
    && forall d :: d in Seed(p, t0, uid, req, id).1.missing ==> d.hash in t.assets
  }

  /** Row r is the seeded revision, and its links are those of the request. */
  ghost predicate HoldsSeeded(p: Paths, r: nat, first: nat, req: SeedRequest, id: string, t: Tables) {
    && req.front.Some?
    && r < |t.revisions| && t.revisions[r].publicId == id
    && t.revisions[r].title == req.front.value.title && t.revisions[r].description == req.front.value.description
    && t.revisions[r].body == req.body
    && t.revisions[r].article < |t.articles|
    && t.articles[t.revisions[r].article].slug == req.front.value.slug
    && first + |req.assets| <= |t.links|
    && (forall i :: 0 <= i < |req.assets| ==> t.links[first + i] == LinkOf(p, r, req.assets[i]))
    && (forall l :: 0 <= l < |t.links| && t.links[l].revision == r ==> first <= l < first + |req.assets|)
  }

  lemma OldLinksAreOlder(t0: Tables, links: seq<AssetLink>)
    requires Valid(t0) && t0.links <= links
    ensures forall l :: 0 <= l < |t0.links| ==> links[l].revision < |t0.revisions|
  {
    assert forall l :: 0 <= l < |t0.links| ==> links[l] == t0.links[l];
  }

  lemma AddedLinksFollow(links: seq<AssetLink>, added: seq<AssetLink>, all: seq<AssetLink>)
    requires all == links + added
    ensures links <= all && forall i :: 0 <= i < |added| ==> all[|links| + i] == added[i]
  {
  }

  lemma NewLinksAreHeld(p: Paths, t0: Tables, ds: seq<Descriptor>, added: seq<AssetLink>, links: seq<AssetLink>)
    requires Valid(t0) && added == LinksOf(p, |t0.revisions|, ds) && links == t0.links + added
    ensures forall i :: 0 <= i < |ds| ==> links[|t0.links| + i] == LinkOf(p, |t0.revisions|, ds[i])
    ensures forall l :: 0 <= l < |links| && links[l].revision == |t0.revisions| ==> |t0.links| <= l
  {
    AddedLinksFollow(t0.links, added, links);
    OldLinksAreOlder(t0, links);
  }

  lemma SeededIsHeld(p: Paths, t0: Tables, uid: User, req: SeedRequest, id: string)
    requires Valid(t0) && Seed(p, t0, uid, req, id).1.Seeded?
    ensures HoldsSeeded(p, |t0.revisions|, |t0.links|, req, id, Seed(p, t0, uid, req, id).0)
    ensures |Seed(p, t0, uid, req, id).0.revisions| == |t0.revisions| + 1
  {
    SeedShape(p, t0, uid, req, id);
    NewLinksAreHeld(p, t0, req.assets, LinksOf(p, |t0.revisions|, req.assets), Seed(p, t0, uid, req, id).0.links);
  }

  lemma HeldAfterwards(p: Paths, r: nat, first: nat, req: SeedRequest, id: string, t1: Tables, t: Tables)
    requires HoldsSeeded(p, r, first, req, id, t1) && |t1.revisions| == r + 1 && Grows(t1, t)
    ensures HoldsSeeded(p, r, first, req, id, t)
  {
    assert SameButPublication(t1.revisions[r], t.revisions[r]);
  }

  lemma FollowedIsHeld(p: Paths, t0: Tables, uid: User, req: SeedRequest, id: string, t: Tables)
    requires Valid(t0) && Followed(p, t0, uid, req, id, t)
    ensures HoldsSeeded(p, |t0.revisions|, |t0.links|, req, id, t)
  {
    SeededIsHeld(p, t0, uid, req, id);
    HeldAfterwards(p, |t0.revisions|, |t0.links|, req, id, Seed(p, t0, uid, req, id).0, t);
  }

  lemma {:induction false} NothingMissing(t: Tables, rev: nat, links: seq<AssetLink>)
    requires forall i :: 0 <= i < |links| && links[i].revision == rev ==> links[i].hash in t.assets
    ensures MissingAmong(t, rev, links) == []
  {
    if links == [] {
    } else {
      NothingMissing(t, rev, links[..|links| - 1]);
    }
  }

  /** Every asset the request lists is committed, so nothing is missing. */
  lemma FollowedIsComplete(p: Paths, t0: Tables, uid: User, req: SeedRequest, id: string, t: Tables)
    requires Valid(t0) && Followed(p, t0, uid, req, id, t)
    ensures MissingLinks(t, |t0.revisions|) == []
    ensures forall d :: d in req.assets ==> d.hash in t.assets
  {
    SeedShape(p, t0, uid, req, id);
    forall d | d in req.assets ensures d.hash in t.assets {
      M.AbsentIsListed(p, t0, uid, req, id, d);
    }
    FollowedIsHeld(p, t0, uid, req, id, t);
    LinkedAreCommitted(p, |t0.revisions|, |t0.links|, req, id, t);
    NothingMissing(t, |t0.revisions|, t.links);
  }

  lemma LinkedAreCommitted(p: Paths, r: nat, first: nat, req: SeedRequest, id: string, t: Tables)
    requires HoldsSeeded(p, r, first, req, id, t) && forall d :: d in req.assets ==> d.hash in t.assets
    ensures forall l :: 0 <= l < |t.links| && t.links[l].revision == r ==> t.links[l].hash in t.assets
  {
    forall l | 0 <= l < |t.links| && t.links[l].revision == r ensures t.links[l].hash in t.assets {
      assert t.links[first + (l - first)] == LinkOf(p, r, req.assets[l - first]);
      assert req.assets[l - first] in req.assets;
    }
  }

  /** No other file of the list has the cleaned name of the i-th. */
  predicate NamedAlone(p: Paths, ds: seq<Descriptor>, i: nat)
    requires i < |ds|
  {
    forall j :: 0 <= j < |ds| && j != i ==> p.clean(ds[j].fileName) != p.clean(ds[i].fileName)
  }

  ghost predicate LookedUpAs(t: Tables, slug: string, name: string, hash: Bytes, expected: Bytes) {
    AssetAnswer(t, slug, name, hash) <==> hash == expected
  }

  lemma HeldIsLookedUp(p: Paths, r: nat, first: nat, req: SeedRequest, id: string, t: Tables, i: nat, hash: Bytes)
    requires HoldsSeeded(p, r, first, req, id, t) && DistinctTimes(t) && Served(t, req.front.value.slug, r)
    requires i < |req.assets| && NamedAlone(p, req.assets, i) && req.assets[i].hash in t.assets
    ensures LookedUpAs(t, req.front.value.slug, p.clean(req.assets[i].fileName), hash, req.assets[i].hash)
  {
    var name := p.clean(req.assets[i].fileName);
    assert ProvidedBy(t, r, name, first + i);
    forall l: nat | l < |t.links| && t.links[l].revision == r && t.links[l].fileName == name ensures l == first + i {
      assert t.links[first + (l - first)] == LinkOf(p, r, req.assets[l - first]);
    }
    PageAndFileAgree(t, req.front.value.slug, name, r, first + i, hash);
  }

  /**
   Revision r is the one served, and each file of the request whose cleaned name no other has is
   looked up as the asset the request described.
   */
  ghost predicate ServedInFull(p: Paths, req: SeedRequest, t: Tables, r: nat) {
    && req.front.Some?
    && Served(t, req.front.value.slug, r)
    && forall i, hash :: 0 <= i < |req.assets| && NamedAlone(p, req.assets, i) ==>
      LookedUpAs(t, req.front.value.slug, p.clean(req.assets[i].fileName), hash, req.assets[i].hash)
  }

  lemma FollowedIsServedInFull(p: Paths, t0: Tables, uid: User, req: SeedRequest, id: string, t: Tables)
    requires Valid(t0) && Followed(p, t0, uid, req, id, t) && DistinctTimes(t)
    requires req.front.Some? && Served(t, req.front.value.slug, |t0.revisions|)
    ensures ServedInFull(p, req, t, |t0.revisions|)
  {
    FollowedIsComplete(p, t0, uid, req, id, t);
    FollowedIsHeld(p, t0, uid, req, id, t);
    forall i, hash | 0 <= i < |req.assets| && NamedAlone(p, req.assets, i)
      ensures LookedUpAs(t, req.front.value.slug, p.clean(req.assets[i].fileName), hash, req.assets[i].hash)
    {
      assert req.assets[i] in req.assets;
      HeldIsLookedUp(p, |t0.revisions|, |t0.links|, req, id, t, i, hash);
    }
  }

  /** The seed succeeds after `past`, and what it asks for is committed by the end of the history. */
  ghost predicate Delivered(p: Paths, past: seq<Event>, uid: User, req: SeedRequest, id: string, rest: seq<Event>) {
    && Seed(p, After(p, past), uid, req, id).1.Seeded?
    && forall d :: d in Seed(p, After(p, past), uid, req, id).1.missing ==>
      d.hash in After(p, past + [SeedCall(uid, req, id)] + rest).assets
  }

  lemma DeliveredIsFollowed(p: Paths, past: seq<Event>, uid: User, req: SeedRequest, id: string, rest: seq<Event>)
    requires Delivered(p, past, uid, req, id, rest)
    ensures Valid(After(p, past))
    ensures Followed(p, After(p, past), uid, req, id, After(p, past + [SeedCall(uid, req, id)] + rest))
  {
    AfterValid(p, past);
    AfterOneMore(p, past, SeedCall(uid, req, id));
    RunGrows(p, past + [SeedCall(uid, req, id)], rest);
  }

  /** Whatever else was called, by whomever, nothing the revision links is missing. */
  lemma DeliveredIsComplete(p: Paths, past: seq<Event>, uid: User, req: SeedRequest, id: string, rest: seq<Event>)
    requires Delivered(p, past, uid, req, id, rest)
    ensures var t := After(p, past + [SeedCall(uid, req, id)] + rest);
      && MissingLinks(t, |After(p, past).revisions|) == []
      && forall d :: d in req.assets ==> d.hash in t.assets
  {
    DeliveredIsFollowed(p, past, uid, req, id, rest);
    FollowedIsComplete(p, After(p, past), uid, req, id, After(p, past + [SeedCall(uid, req, id)] + rest));
  }

  /**
   And as long as the revision is the last one published for its slug, it is served, and served in
   full: with arbitrary calls of anybody before, between and after those of the push.
   */
  lemma DeliveredIsServed(p: Paths, past: seq<Event>, uid: User, req: SeedRequest, id: string, rest: seq<Event>)
    requires Delivered(p, past, uid, req, id, rest) && req.front.Some?
    requires ClockAdvances(past + [SeedCall(uid, req, id)] + rest)
    requires LastPublished(p, past + [SeedCall(uid, req, id)] + rest, req.front.value.slug) == Some(id)
    ensures ServedInFull(p, req, After(p, past + [SeedCall(uid, req, id)] + rest), |After(p, past).revisions|)
  {
    var t0 := After(p, past);
    var events := past + [SeedCall(uid, req, id)] + rest;
    var t := After(p, events);
    DeliveredIsFollowed(p, past, uid, req, id, rest);
    FollowedIsHeld(p, t0, uid, req, id, t);
    ClockGivesDistinctTimes(p, events);
    ServedIsLastPublished(p, events, req.front.value.slug);
    FollowedIsServedInFull(p, t0, uid, req, id, t);
  }

  lemma LastEvent(p: Paths, before: seq<Event>, uid: User, id: string, now: Time, slug: string)
    requires Publish(After(p, before), uid, Some(id), now).1.Ok? && SlugOf(After(p, before), id) == Some(slug)
    ensures LastPublished(p, before + [PublishCall(uid, Some(id), now)], slug) == Some(id)
  {
    var events := before + [PublishCall(uid, Some(id), now)];
    assert events[..|events| - 1] == before;
  }

  /** A revision whose publish comes last is the last one published. */
  lemma OwnPublishIsLast(p: Paths, past: seq<Event>, uid: User, req: SeedRequest, id: string, rest: seq<Event>, now: Time)
    requires Delivered(p, past, uid, req, id, rest) && req.front.Some?
    requires Publish(After(p, past + [SeedCall(uid, req, id)] + rest), uid, Some(id), now).1.Ok?
    ensures var more := rest + [PublishCall(uid, Some(id), now)];
      && Delivered(p, past, uid, req, id, more)
      && LastPublished(p, past + [SeedCall(uid, req, id)] + more, req.front.value.slug) == Some(id)
    ensures var t, r := After(p, past + [SeedCall(uid, req, id)] + rest + [PublishCall(uid, Some(id), now)]), |After(p, past).revisions|;
      r < |t.revisions| && t.revisions[r].publicId == id && t.revisions[r].publishedAt == Some(now)
  {
    var before := past + [SeedCall(uid, req, id)] + rest;
    var e := PublishCall(uid, Some(id), now);
    assert past + [SeedCall(uid, req, id)] + (rest + [e]) == before + [e];
    AfterOneMore(p, before, e);
    DeliveredIsFollowed(p, past, uid, req, id, rest);
    FollowedIsHeld(p, After(p, past), uid, req, id, After(p, before));
    AfterValid(p, before);
    HeldIsFound(p, |After(p, past).revisions|, |After(p, past).links|, req, id, After(p, before));
    LastEvent(p, before, uid, id, now, req.front.value.slug);
  }

  lemma HeldIsFound(p: Paths, r: nat, first: nat, req: SeedRequest, id: string, t: Tables)
    requires HoldsSeeded(p, r, first, req, id, t) && Valid(t)
    ensures RevisionById(t, id) == Some(r) && SlugOf(t, id) == Some(req.front.value.slug)
  {
  }

  /** However the tables grow, the caller can publish the revision. */
  ghost predicate CanPublish(t1: Tables, uid: User, id: string, now: Time) {
    forall t :: Valid(t) && Grows(t1, t) ==> Publish(t, uid, Some(id), now).1.Ok?
  }

  /** The seeder can publish the revision at any later time. */
  lemma SeederCanPublish(p: Paths, t0: Tables, uid: User, req: SeedRequest, id: string, now: Time)
    requires Valid(t0) && Seed(p, t0, uid, req, id).1.Seeded?
    ensures CanPublish(Seed(p, t0, uid, req, id).0, uid, id, now)
  {
    var t1 := Seed(p, t0, uid, req, id).0;
    SeedShape(p, t0, uid, req, id);
    SeededIsHeld(p, t0, uid, req, id);
    forall t | Valid(t) && Grows(t1, t) ensures Publish(t, uid, Some(id), now).1.Ok? {
      HeldAfterwards(p, |t0.revisions|, |t0.links|, req, id, t1, t);
      HeldIsFound(p, |t0.revisions|, |t0.links|, req, id, t);
      OwnCanPublish(t1, t, uid, |t0.revisions|, id, now);
    }
  }

  lemma OwnCanPublish(t1: Tables, t: Tables, uid: User, r: nat, id: string, now: Time)
    requires r < |t1.revisions| && t1.revisions[r].article < |t1.articles|
    requires t1.articles[t1.revisions[r].article].author == uid
    requires Grows(t1, t) && RevisionById(t, id) == Some(r)
    ensures Publish(t, uid, Some(id), now).1.Ok?
  {
    assert SameButPublication(t1.revisions[r], t.revisions[r]);
  }
}
