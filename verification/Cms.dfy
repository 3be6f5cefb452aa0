/**
 The whole server: the tables, the object storage, and any number of uploads in progress, whose
 steps interleave freely with each other and with the other calls.
 */
module Cms {
  import opened Options
  import opened ByteStrings
  import opened Store
  import UM = UploadMachine
  import UI = UploadInvariant
  import UT = UploadTheorems

  datatype Session = Session(upload: UM.Upload, contentType: string, state: UM.State)

  datatype System = System(tables: Tables, objects: map<string, Bytes>, sessions: seq<Session>)

  datatype Header = Header(hash: Bytes, contentType: string, contentLength: int)

  datatype Action =
    | Call(event: Event)                                    // one of the other calls
    | Begin(header: Header, messages: seq<UM.Message>)      // an upload inserts its row
    | Move(session: nat, step: UM.Step)                     // an upload in progress takes a step

  function Lookup(objects: map<string, Bytes>, name: string): Option<Bytes> {
    if name in objects then Some(objects[name]) else None
  }

  function Write(objects: map<string, Bytes>, name: string, content: Option<Bytes>): map<string, Bytes> {
    match content
    case Some(b) => objects[name := b]
    case None => objects - {name}
  }

  /** The upload's next steps may still concern its object. */
  predicate Touching(x: Session) {
    UT.MayTouch(x.upload, x.state)
  }

  function NameOf(x: Session): string {
    ObjectName(x.upload.declaredHash)
  }

  /** The session as it finds the object storage. */
  function Synced(sys: System, x: Session): UM.State {
    if Touching(x) then x.state.(file := x.state.file.(content := Lookup(sys.objects, NameOf(x)))) else x.state
  }

  /** The database takes a row for h: there is none, and no open transaction has one. */
  ghost predicate DatabaseAdmits(sys: System, h: Bytes) {
    h !in sys.tables.assets &&
    forall k :: 0 <= k < |sys.sessions| && sys.sessions[k].upload.declaredHash == h ==> !sys.sessions[k].state.row.Pending?
  }

  ghost predicate Enabled(sys: System, a: Action) {
    match a
    case Call(e) => !e.AssetCommit?
    case Begin(h, _) => DatabaseAdmits(sys, h.hash)
    case Move(k, step) =>
      k < |sys.sessions| && UM.Enabled(sys.sessions[k].upload, Synced(sys, sys.sessions[k]), step)
  }

  /** Upload k has lost its row for h, but may still write or remove the object. */
  predicate Lingers(sys: System, k: nat, h: Bytes) {
    && k < |sys.sessions| && sys.sessions[k].upload.declaredHash == h
    && sys.sessions[k].state.row.RolledBack? && Touching(sys.sessions[k])
  }

  /** No upload begins while another of its hash lingers. Other than that everything may interleave. */
  ghost predicate Orderly(sys: System, a: Action) {
    a.Begin? ==> forall k: nat :: !Lingers(sys, k, a.header.hash)
  }

  ghost function Begun(digest: Digest, sys: System, h: Header, ms: seq<UM.Message>): UM.Upload {
    UM.Upload(digest, h.hash, h.contentLength, ms, Lookup(sys.objects, ObjectName(h.hash)))
  }

  ghost function Apply(p: Paths, digest: Digest, sys: System, a: Action): System
    requires Enabled(sys, a)
  {
    match a
    case Call(e) => sys.(tables := Next(p, sys.tables, e))
    case Begin(h, ms) =>
      var u := Begun(digest, sys, h, ms);
      sys.(sessions := sys.sessions + [Session(u, h.contentType, UM.Init(u))])
    case Move(k, step) =>
      var x := sys.sessions[k];
      var state := UM.Apply(x.upload, Synced(sys, x), step);
      System(
        if step.CommitOk? then AddAsset(sys.tables, x.upload.declaredHash, RowOf(x)) else sys.tables,
        if Touching(x) then Write(sys.objects, NameOf(x), state.file.content) else sys.objects,
        sys.sessions[k := x.(state := state)])
  }

  function RowOf(x: Session): Asset {
    Asset(x.contentType, x.upload.declaredLength)
  }

  // ---------- the invariant ----------

  /** The object of asset h has the hash and the length of its row. */
  ghost predicate Holds(digest: Digest, objects: map<string, Bytes>, h: Bytes, row: Asset) {
    && ObjectName(h) in objects
    && digest(objects[ObjectName(h)]) == h
    && |objects[ObjectName(h)]| == row.contentLength
  }

  /** Every committed asset has its object. */
  ghost predicate Sound(digest: Digest, assets: map<Bytes, Asset>, objects: map<string, Bytes>) {
    forall h :: h in assets ==> Holds(digest, objects, h, assets[h])
  }

  ghost predicate SessionInv(digest: Digest, sys: System, x: Session) {
    && x.upload.digest == digest
    && UI.Inv(x.upload, x.state)
    && (Touching(x) ==>
      x.state.file.content == Lookup(sys.objects, NameOf(x)) && x.upload.declaredHash !in sys.tables.assets)
  }

  ghost predicate Apart(sys: System) {
    forall j, k :: 0 <= j < k < |sys.sessions| && Touching(sys.sessions[j]) && Touching(sys.sessions[k]) ==>
      sys.sessions[j].upload.declaredHash != sys.sessions[k].upload.declaredHash
  }

  ghost predicate Inv(digest: Digest, sys: System) {
    && Valid(sys.tables)
    && Sound(digest, sys.tables.assets, sys.objects)
    && Apart(sys)
    && forall k :: 0 <= k < |sys.sessions| ==> SessionInv(digest, sys, sys.sessions[k])
  }

  /** A committed asset keeps its row and its bytes. */
  ghost predicate KeepsAssets(sys: System, sys': System) {
    forall h :: h in sys.tables.assets && ObjectName(h) in sys.objects ==>
      && h in sys'.tables.assets && sys'.tables.assets[h] == sys.tables.assets[h]
      && ObjectName(h) in sys'.objects && sys'.objects[ObjectName(h)] == sys.objects[ObjectName(h)]
  }

  /** What a commit relies on: the object is complete and has the declared hash and length. */
  lemma CommitIsSound(u: UM.Upload, s: UM.State)
    requires UI.Inv(u, s) && s.main.Committing?
    ensures s.file.content.Some? && u.digest(s.file.content.value) == u.declaredHash
    ensures |s.file.content.value| == u.declaredLength
  {
  }

  lemma CallKeeps(p: Paths, digest: Digest, sys: System, e: Event)
    requires Inv(digest, sys) && !e.AssetCommit?
    ensures Inv(digest, Apply(p, digest, sys, Call(e)))
    ensures KeepsAssets(sys, Apply(p, digest, sys, Call(e)))
  {
    var sys' := Apply(p, digest, sys, Call(e));
    NextValid(p, sys.tables, e);
    assert sys'.tables.assets == sys.tables.assets;
    forall h | h in sys'.tables.assets ensures Holds(digest, sys'.objects, h, sys'.tables.assets[h]) {
      assert Holds(digest, sys.objects, h, sys.tables.assets[h]);
    }
    forall k | 0 <= k < |sys'.sessions| ensures SessionInv(digest, sys', sys'.sessions[k]) {
      assert SessionInv(digest, sys, sys.sessions[k]);
    }
  }

  lemma BeginKeeps(p: Paths, digest: Digest, sys: System, h: Header, ms: seq<UM.Message>)
    requires Inv(digest, sys) && Enabled(sys, Begin(h, ms)) && Orderly(sys, Begin(h, ms))
    ensures Inv(digest, Apply(p, digest, sys, Begin(h, ms)))
    ensures KeepsAssets(sys, Apply(p, digest, sys, Begin(h, ms)))
  {
    var sys' := Apply(p, digest, sys, Begin(h, ms));
    var n := |sys.sessions|;
    UI.InitKeeps(sys'.sessions[n].upload);
    forall x | x in sys'.tables.assets ensures Holds(digest, sys'.objects, x, sys'.tables.assets[x]) {
      assert Holds(digest, sys.objects, x, sys.tables.assets[x]);
    }
    forall k | 0 <= k < |sys'.sessions| ensures SessionInv(digest, sys', sys'.sessions[k]) {
      if k < n { assert SessionInv(digest, sys, sys.sessions[k]); }
    }
    forall k | 0 <= k < n && Touching(sys.sessions[k]) ensures sys.sessions[k].upload.declaredHash != h.hash {
      assert SessionInv(digest, sys, sys.sessions[k]) && !Lingers(sys, k, h.hash);
    }
  }

  /** sys' is sys after session k took step a. */
  ghost predicate Moved(p: Paths, digest: Digest, sys: System, k: nat, a: UM.Step, sys': System) {
    Enabled(sys, Move(k, a)) && sys' == Apply(p, digest, sys, Move(k, a))
  }

  /** A step of a session leaves every other session's object, and every committed one, alone. */
  lemma MoveLeavesOthers(p: Paths, digest: Digest, sys: System, k: nat, a: UM.Step, sys': System, h: Bytes)
    requires Moved(p, digest, sys, k, a, sys')
    requires h != sys.sessions[k].upload.declaredHash || !Touching(sys.sessions[k])
    ensures Lookup(sys'.objects, ObjectName(h)) == Lookup(sys.objects, ObjectName(h))
    ensures h in sys'.tables.assets <==> h in sys.tables.assets
    ensures h in sys.tables.assets ==> sys'.tables.assets[h] == sys.tables.assets[h]
  {
    var x := sys.sessions[k];
    if Touching(x) {
      if ObjectName(h) == NameOf(x) { ObjectNameInjective(h, x.upload.declaredHash); }
    }
  }

  lemma SyncedIsState(sys: System, x: Session)
    requires Touching(x) ==> x.state.file.content == Lookup(sys.objects, NameOf(x))
    ensures Synced(sys, x) == x.state
  {
  }

  lemma WriteThenLookup(objects: map<string, Bytes>, name: string, content: Option<Bytes>)
    ensures Lookup(Write(objects, name, content), name) == content
  {
  }

  /** What a session's step does, seen from the session. */
  lemma MoveIsStep(p: Paths, digest: Digest, sys: System, k: nat, a: UM.Step, sys': System)
    requires Inv(digest, sys) && Moved(p, digest, sys, k, a, sys') && Touching(sys.sessions[k])
    ensures UM.Enabled(sys.sessions[k].upload, sys.sessions[k].state, a)
    ensures sys'.sessions[k] == sys.sessions[k].(state := UM.Apply(sys.sessions[k].upload, sys.sessions[k].state, a))
    ensures UI.Inv(sys'.sessions[k].upload, sys'.sessions[k].state)
    ensures Lookup(sys'.objects, NameOf(sys.sessions[k])) == sys'.sessions[k].state.file.content
  {
    var x := sys.sessions[k];
    assert SessionInv(digest, sys, x);
    SyncedIsState(sys, x);
    UI.StepKeeps(x.upload, x.state, a);
    WriteThenLookup(sys.objects, NameOf(x), sys'.sessions[k].state.file.content);
  }

  /** And from the asset it is about, which has no row yet. */
  lemma MoveOwn(p: Paths, digest: Digest, sys: System, k: nat, a: UM.Step, sys': System)
    requires Inv(digest, sys) && Moved(p, digest, sys, k, a, sys') && Touching(sys.sessions[k])
    ensures SessionInv(digest, sys', sys'.sessions[k])
    ensures var h := sys.sessions[k].upload.declaredHash;
      h !in sys.tables.assets && (h in sys'.tables.assets ==> Holds(digest, sys'.objects, h, sys'.tables.assets[h]))
  {
    var x := sys.sessions[k];
    MoveIsStep(p, digest, sys, k, a, sys');
    assert SessionInv(digest, sys, x);
    if a.CommitOk? { CommitIsSound(x.upload, x.state); }
  }

  lemma MoveKeepsAsset(p: Paths, digest: Digest, sys: System, k: nat, a: UM.Step, sys': System, h: Bytes)
    requires Inv(digest, sys) && Moved(p, digest, sys, k, a, sys')
    ensures h in sys'.tables.assets ==> Holds(digest, sys'.objects, h, sys'.tables.assets[h])
    ensures h in sys.tables.assets ==>
      && h in sys'.tables.assets && sys'.tables.assets[h] == sys.tables.assets[h]
      && Lookup(sys'.objects, ObjectName(h)) == Lookup(sys.objects, ObjectName(h))
  {
    if h in sys.tables.assets { assert Holds(digest, sys.objects, h, sys.tables.assets[h]); }
    if Touching(sys.sessions[k]) && h == sys.sessions[k].upload.declaredHash {
      MoveOwn(p, digest, sys, k, a, sys');
    } else {
      MoveLeavesOthers(p, digest, sys, k, a, sys', h);
    }
  }

  lemma MoveKeepsSound(p: Paths, digest: Digest, sys: System, k: nat, a: UM.Step, sys': System)
    requires Inv(digest, sys) && Moved(p, digest, sys, k, a, sys')
    ensures Sound(digest, sys'.tables.assets, sys'.objects)
    ensures KeepsAssets(sys, sys')
  {
    forall h | h in sys'.tables.assets ensures Holds(digest, sys'.objects, h, sys'.tables.assets[h]) {
      MoveKeepsAsset(p, digest, sys, k, a, sys', h);
    }
    forall h | h in sys.tables.assets && ObjectName(h) in sys.objects
      ensures h in sys'.tables.assets && sys'.tables.assets[h] == sys.tables.assets[h]
      ensures Lookup(sys'.objects, ObjectName(h)) == Lookup(sys.objects, ObjectName(h))
    {
      MoveKeepsAsset(p, digest, sys, k, a, sys', h);
    }
  }

  lemma MoveKeepsSessions(p: Paths, digest: Digest, sys: System, k: nat, a: UM.Step, sys': System, j: nat)
    requires Inv(digest, sys) && Moved(p, digest, sys, k, a, sys') && j < |sys.sessions|
    ensures SessionInv(digest, sys', sys'.sessions[j])
  {
    var x, y := sys.sessions[k], sys.sessions[j];
    assert SessionInv(digest, sys, x) && SessionInv(digest, sys, y);
    if j != k {
      if Touching(y) { MoveLeavesOthers(p, digest, sys, k, a, sys', y.upload.declaredHash); }
    } else if Touching(x) {
      MoveOwn(p, digest, sys, k, a, sys');
    } else {
      UI.StepKeeps(x.upload, x.state, a);
      UT.FileLeftAlone(x.upload, x.state, a);
    }
  }

  /** No upload comes to touch its object that did not before. */
  ghost predicate NoneComesBack(sys: System, sys': System) {
    && |sys'.sessions| == |sys.sessions|
    && forall j :: 0 <= j < |sys.sessions| ==>
      && sys'.sessions[j].upload == sys.sessions[j].upload
      && (Touching(sys'.sessions[j]) ==> Touching(sys.sessions[j]))
  }

  lemma StayApart(sys: System, sys': System)
    requires Apart(sys) && NoneComesBack(sys, sys')
    ensures Apart(sys')
  {
  }

  lemma MoveBringsNoneBack(p: Paths, digest: Digest, sys: System, k: nat, a: UM.Step, sys': System)
    requires Moved(p, digest, sys, k, a, sys') && SessionInv(digest, sys, sys.sessions[k])
    ensures NoneComesBack(sys, sys')
  {
    if !Touching(sys.sessions[k]) { UT.FileLeftAlone(sys.sessions[k].upload, sys.sessions[k].state, a); }
  }

  lemma MoveKeeps(p: Paths, digest: Digest, sys: System, k: nat, a: UM.Step, sys': System)
    requires Inv(digest, sys) && Moved(p, digest, sys, k, a, sys')
    ensures Inv(digest, sys') && KeepsAssets(sys, sys')
  {
    MoveKeepsSound(p, digest, sys, k, a, sys');
    MoveBringsNoneBack(p, digest, sys, k, a, sys');
    StayApart(sys, sys');
    assert |sys'.sessions| == |sys.sessions|;
    forall j: nat | j < |sys'.sessions| ensures SessionInv(digest, sys', sys'.sessions[j]) {
      MoveKeepsSessions(p, digest, sys, k, a, sys', j);
    }
  }

  lemma ActionKeeps(p: Paths, digest: Digest, sys: System, a: Action)
    requires Inv(digest, sys) && Enabled(sys, a) && Orderly(sys, a)
    ensures Inv(digest, Apply(p, digest, sys, a))
    ensures KeepsAssets(sys, Apply(p, digest, sys, a))
  {
    match a
    case Call(e) => CallKeeps(p, digest, sys, e);
    case Begin(h, ms) => BeginKeeps(p, digest, sys, h, ms);
    case Move(k, step) => MoveKeeps(p, digest, sys, k, step, Apply(p, digest, sys, a));
  }

  // ---------- over every run ----------

  /** These actions lead from sys to sys', and if `orderly`, no upload begins while another of its hash lingers. */
  ghost predicate Run(p: Paths, digest: Digest, orderly: bool, sys: System, actions: seq<Action>, sys': System)
    decreases |actions|
  {
    if actions == [] then sys == sys'
    else
      && Enabled(sys, actions[0]) && (orderly ==> Orderly(sys, actions[0]))
      && Run(p, digest, orderly, Apply(p, digest, sys, actions[0]), actions[1..], sys')
  }

  ghost const START: System := System(EMPTY, map[], [])

  /**
   Whatever uploads fail or are cancelled, and whatever clean-ups fail, every committed asset always
   has an object of its hash and length, and from its commit on neither its row nor its bytes ever change.
   */
  lemma {:induction false} CommittedAssetsEndure(
    p: Paths, digest: Digest, sys: System, actions: seq<Action>, sys': System)
    requires Inv(digest, sys) && Run(p, digest, true, sys, actions, sys')
    ensures Inv(digest, sys') && Sound(digest, sys'.tables.assets, sys'.objects)
    ensures KeepsAssets(sys, sys')
    decreases |actions|
  {
    if actions == [] {
    } else {
      var mid := Apply(p, digest, sys, actions[0]);
      ActionKeeps(p, digest, sys, actions[0]);
      CommittedAssetsEndure(p, digest, mid, actions[1..], sys');
    }
  }

  lemma StartInv(digest: Digest)
    ensures Inv(digest, START)
  {
  }
}
