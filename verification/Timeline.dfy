/** A run of the whole server as a history of calls, so that what is proved of histories holds of it. */
module Timeline {
  import opened Options
  import opened ByteStrings
  import opened Store
  import opened History
  import opened Cms
  import opened Pushes
  import UM = UploadMachine
  import O = Overlap

  /** What an action adds to the history: an upload only its commit. */
  ghost function EventOf(sys: System, a: Action): seq<Event>
    requires Enabled(sys, a)
  {
    match a
    case Call(e) => [e]
    case Begin(_, _) => []
    case Move(k, step) =>
      if step.CommitOk? then [AssetCommit(sys.sessions[k].upload.declaredHash, RowOf(sys.sessions[k]))] else []
  }

  ghost function EventsOf(p: Paths, digest: Digest, sys: System, actions: seq<Action>): seq<Event>
    decreases |actions|
  {
    if actions == [] || !Enabled(sys, actions[0]) then []
    else EventOf(sys, actions[0]) + EventsOf(p, digest, Apply(p, digest, sys, actions[0]), actions[1..])
  }

  lemma ActionIsHistory(p: Paths, digest: Digest, sys: System, a: Action, past: seq<Event>)
    requires Enabled(sys, a) && sys.tables == After(p, past)
    ensures Apply(p, digest, sys, a).tables == After(p, past + EventOf(sys, a))
  {
    if EventOf(sys, a) == [] {
      assert past + [] == past;
    } else {
      AfterOneMore(p, past, EventOf(sys, a)[0]);
    }
  }

  lemma JoinedThrice(xs: seq<Event>, ys: seq<Event>, zs: seq<Event>)
    ensures xs + ys + zs == xs + (ys + zs)
  {
  }

  /** The tables after a run are those of its history, however the uploads interleaved. */
  lemma {:induction false} RunIsHistory(
    p: Paths, digest: Digest, orderly: bool, sys: System, actions: seq<Action>, sys': System, past: seq<Event>)
    requires Run(p, digest, orderly, sys, actions, sys') && sys.tables == After(p, past)
    ensures sys'.tables == After(p, past + EventsOf(p, digest, sys, actions))
    decreases |actions|
  {
    if actions == [] {
      assert past + [] == past;
    } else {
      var mid, first := Apply(p, digest, sys, actions[0]), EventOf(sys, actions[0]);
      ActionIsHistory(p, digest, sys, actions[0], past);
      RunIsHistory(p, digest, orderly, mid, actions[1..], sys', past + first);
      JoinedThrice(past, first, EventsOf(p, digest, mid, actions[1..]));
    }
  }

  lemma StartIsHistory(p: Paths, digest: Digest, orderly: bool, actions: seq<Action>, sys: System)
    requires Run(p, digest, orderly, START, actions, sys)
    ensures sys.tables == After(p, EventsOf(p, digest, START, actions))
  {
    RunIsHistory(p, digest, orderly, START, actions, sys, []);
    assert [] + EventsOf(p, digest, START, actions) == EventsOf(p, digest, START, actions);
  }

  /** Every asset the request lists has its row, and an object of its hash and its row's length. */
  ghost predicate AllHeld(digest: Digest, ds: seq<Descriptor>, sys: System) {
    forall d :: d in ds ==> d.hash in sys.tables.assets && Holds(digest, sys.objects, d.hash, sys.tables.assets[d.hash])
  }

  /**
   A seed succeeds in the middle of an orderly run, uploads of any number in progress before and
   after. Once all it asked for is committed its revision is complete, and every listed asset has its
   object. While it is the last published for its slug, and the clock advances, it is served in full.
   */
  lemma PushedThroughRun(
    p: Paths, digest: Digest, before: seq<Action>, mid: System, uid: User, req: SeedRequest, id: string,
    after: seq<Action>, sys: System)
    requires Run(p, digest, true, START, before, mid)
    requires Seed(p, mid.tables, uid, req, id).1.Seeded?
    requires Run(p, digest, true, Apply(p, digest, mid, Call(SeedCall(uid, req, id))), after, sys)
    requires forall d :: d in Seed(p, mid.tables, uid, req, id).1.missing ==> d.hash in sys.tables.assets
    ensures MissingLinks(sys.tables, |mid.tables.revisions|) == [] && AllHeld(digest, req.assets, sys)
    ensures var seeded := Apply(p, digest, mid, Call(SeedCall(uid, req, id)));
      var events := EventsOf(p, digest, START, before) + [SeedCall(uid, req, id)] + EventsOf(p, digest, seeded, after);
      && sys.tables == After(p, events)
      && req.front.Some?
      && (ClockAdvances(events) && LastPublished(p, events, req.front.value.slug) == Some(id) ==>
        ServedInFull(p, req, sys.tables, |mid.tables.revisions|))
  {
    var call := SeedCall(uid, req, id);
    var seeded := Apply(p, digest, mid, Call(call));
    var past, rest := EventsOf(p, digest, START, before), EventsOf(p, digest, seeded, after);
    var events := past + [call] + rest;
    StartIsHistory(p, digest, true, before, mid);
    AfterOneMore(p, past, call);
    RunIsHistory(p, digest, true, seeded, after, sys, past + [call]);
    DeliveredIsComplete(p, past, uid, req, id, rest);
    SeedShape(p, mid.tables, uid, req, id);

    O.OneMore(p, digest, true, START, before, mid, Call(call), seeded);
    O.RunsJoin(p, digest, true, START, before + [Call(call)], seeded, after, sys);
    StartInv(digest);
    CommittedAssetsEndure(p, digest, START, before + [Call(call)] + after, sys);

    if ClockAdvances(events) && LastPublished(p, events, req.front.value.slug) == Some(id) {
      DeliveredIsServed(p, past, uid, req, id, rest);
    }
  }

  // ---------- where rows come from ----------

  /** Some upload of these began with this header. */
  ghost predicate BegunWith(actions: seq<Action>, header: Header, messages: seq<UM.Message>) {
    exists i :: 0 <= i < |actions| && actions[i] == Begin(header, messages)
  }

  ghost predicate Announced(actions: seq<Action>, hash: Bytes, row: Asset) {
    exists messages :: BegunWith(actions, Header(hash, row.contentType, row.contentLength), messages)
  }

  /** Every upload is one that began, and every row that of one. */
  ghost predicate AllAnnounced(actions: seq<Action>, sys: System) {
    && (forall k :: 0 <= k < |sys.sessions| ==> var x := sys.sessions[k];
          BegunWith(actions, Header(x.upload.declaredHash, x.contentType, x.upload.declaredLength), x.upload.messages))
    && (forall h :: h in sys.tables.assets ==> Announced(actions, h, sys.tables.assets[h]))
  }

  lemma AnnouncedBefore(actions: seq<Action>, a: Action, header: Header, messages: seq<UM.Message>)
    requires BegunWith(actions, header, messages)
    ensures BegunWith(actions + [a], header, messages)
  {
    var i :| 0 <= i < |actions| && actions[i] == Begin(header, messages);
    assert (actions + [a])[i] == Begin(header, messages);
  }

  lemma StillAnnounced(actions: seq<Action>, a: Action, sys: System)
    requires AllAnnounced(actions, sys)
    ensures AllAnnounced(actions + [a], sys)
  {
    forall k | 0 <= k < |sys.sessions|
      ensures var x := sys.sessions[k];
        BegunWith(actions + [a], Header(x.upload.declaredHash, x.contentType, x.upload.declaredLength), x.upload.messages)
    {
      var x := sys.sessions[k];
      AnnouncedBefore(actions, a, Header(x.upload.declaredHash, x.contentType, x.upload.declaredLength), x.upload.messages);
    }
    forall h | h in sys.tables.assets ensures Announced(actions + [a], h, sys.tables.assets[h]) {
      var row := sys.tables.assets[h];
      var messages :| BegunWith(actions, Header(h, row.contentType, row.contentLength), messages);
      AnnouncedBefore(actions, a, Header(h, row.contentType, row.contentLength), messages);
    }
  }

  lemma ActionAnnounces(p: Paths, digest: Digest, past: seq<Action>, sys: System, a: Action, sys': System)
    requires AllAnnounced(past, sys) && Enabled(sys, a) && sys' == Apply(p, digest, sys, a)
    ensures AllAnnounced(past + [a], sys')
  {
    StillAnnounced(past, a, sys);
    match a
    case Call(e) => CallAddsNoAsset(p, sys.tables, e);
    case Begin(h, ms) => assert (past + [a])[|past|] == a;
    case Move(k, step) => MoveAnnounces(p, digest, past + [a], sys, k, step, sys');
  }

  lemma MoveAnnounces(p: Paths, digest: Digest, actions: seq<Action>, sys: System, k: nat, step: UM.Step, sys': System)
    requires AllAnnounced(actions, sys) && Moved(p, digest, sys, k, step, sys')
    ensures AllAnnounced(actions, sys')
  {
    var x := sys.sessions[k];
    assert BegunWith(actions, Header(x.upload.declaredHash, x.contentType, x.upload.declaredLength), x.upload.messages);
    assert Announced(actions, x.upload.declaredHash, Asset(x.contentType, x.upload.declaredLength));
  }

  lemma {:induction false} RunAnnounces(
    p: Paths, digest: Digest, orderly: bool, past: seq<Action>, sys: System, actions: seq<Action>, sys': System)
    requires AllAnnounced(past, sys) && Run(p, digest, orderly, sys, actions, sys')
    ensures AllAnnounced(past + actions, sys')
    decreases |actions|
  {
    if actions == [] {
      assert past + [] == past;
    } else {
      var mid := Apply(p, digest, sys, actions[0]);
      ActionAnnounces(p, digest, past, sys, actions[0], mid);
      RunAnnounces(p, digest, orderly, past + [actions[0]], mid, actions[1..], sys');
      assert past + actions == past + [actions[0]] + actions[1..];
    }
  }

  /** In every run each committed row is, in full, the header of an upload of the run. */
  lemma RowsComeFromHeaders(p: Paths, digest: Digest, orderly: bool, actions: seq<Action>, sys: System, hash: Bytes)
    requires Run(p, digest, orderly, START, actions, sys) && hash in sys.tables.assets
    ensures var row := sys.tables.assets[hash];
      exists i :: 0 <= i < |actions| && actions[i].Begin?
                  && actions[i].header == Header(hash, row.contentType, row.contentLength)
  {
    RunAnnounces(p, digest, orderly, [], START, actions, sys);
    assert [] + actions == actions;
    var row := sys.tables.assets[hash];
    var messages :| BegunWith(actions, Header(hash, row.contentType, row.contentLength), messages);
    var i :| 0 <= i < |actions| && actions[i] == Begin(Header(hash, row.contentType, row.contentLength), messages);
  }
}
