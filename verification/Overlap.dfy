/**
 When an upload may begin. The rule that none begins while another of its hash lingers is what the
 store invariant needs, and no more: breaking it can cost a committed asset its object.
 */
module Overlap {
  import opened Options
  import opened ByteStrings
  import opened Store
  import opened Cms
  import UM = UploadMachine
  import UI = UploadInvariant
  import UT = UploadTheorems

  // ---------- steps do not depend on what the object holds ----------

  function With(s: UM.State, content: Option<Bytes>): UM.State {
    s.(file := s.file.(content := content))
  }

  predicate Removes(a: UM.Step) {
    a.RemoveOk? || a.DiscardOk? || a.UndoOk?
  }

  lemma WriterIgnoresContent(u: UM.Upload, s: UM.State, content: Option<Bytes>, a: UM.Step)
    requires UM.WriterEnabled(u, s, a)
    ensures UM.WriterEnabled(u, With(s, content), a)
    ensures UM.ApplyWriter(u, With(s, content), a) == With(UM.ApplyWriter(u, s, a), content)
  {
  }

  lemma PutFileIgnoresContent(u: UM.Upload, s: UM.State, content: Option<Bytes>, a: UM.Step)
    requires UM.PutFileEnabled(u, s, a)
    ensures UM.PutFileEnabled(u, With(s, content), a)
    ensures var t := UM.ApplyPutFile(u, With(s, content), a);
      && t == With(UM.ApplyPutFile(u, s, a), t.file.content)
      && (Removes(a) ==> t.file.content == None) && (a.CreateOk? ==> t.file.content == Some([]))
  {
  }

  lemma HandlerIgnoresContent(s: UM.State, content: Option<Bytes>, a: UM.Step)
    requires UM.HandlerEnabled(s, a)
    ensures UM.HandlerEnabled(With(s, content), a)
    ensures var t := UM.ApplyHandler(With(s, content), a);
      t == With(UM.ApplyHandler(s, a), t.file.content) && (Removes(a) ==> t.file.content == None)
  {
  }

  lemma StepIgnoresContent(u: UM.Upload, s: UM.State, content: Option<Bytes>, a: UM.Step)
    requires UM.Enabled(u, s, a)
    ensures UM.Enabled(u, With(s, content), a)
    ensures var t := UM.Apply(u, With(s, content), a);
      && t == With(UM.Apply(u, s, a), t.file.content)
      && (Removes(a) ==> t.file.content == None) && (a.CreateOk? ==> t.file.content == Some([]))
  {
    if UM.WriterEnabled(u, s, a) {
      WriterIgnoresContent(u, s, content, a);
    } else if UM.PutFileEnabled(u, s, a) {
      PutFileIgnoresContent(u, s, content, a);
    } else {
      HandlerIgnoresContent(s, content, a);
    }
  }

  /** Upload k stands where s does, but for what its object holds. */
  ghost predicate Tracks(sys: System, k: nat, u: UM.Upload, s: UM.State) {
    && k < |sys.sessions| && sys.sessions[k].upload == u
    && sys.sessions[k].state == With(s, sys.sessions[k].state.file.content)
  }

  /** The other uploads are where they were, and every row is. */
  ghost predicate OnlyMoved(sys: System, k: nat, sys': System) {
    && |sys'.sessions| == |sys.sessions|
    && (forall j :: 0 <= j < |sys.sessions| && j != k ==> sys'.sessions[j] == sys.sessions[j])
    && k < |sys.sessions| && sys'.sessions[k].contentType == sys.sessions[k].contentType
    && forall h :: h in sys.tables.assets ==> h in sys'.tables.assets && sys'.tables.assets[h] == sys.tables.assets[h]
  }

  /** What the upload can do on its own it can do in the system. */
  lemma LiftStep(p: Paths, digest: Digest, sys: System, k: nat, u: UM.Upload, s: UM.State, a: UM.Step)
    returns (sys': System)
    requires Tracks(sys, k, u, s) && UM.Enabled(u, s, a)
    ensures Moved(p, digest, sys, k, a, sys')
    ensures Tracks(sys', k, u, UM.Apply(u, s, a)) && OnlyMoved(sys, k, sys')
    ensures if a.CommitOk? then sys'.tables == AddAsset(sys.tables, u.declaredHash, RowOf(sys.sessions[k]))
      else sys'.tables == sys.tables
    ensures Removes(a) ==> ObjectName(u.declaredHash) !in sys'.objects
    ensures a.CreateOk? ==> Lookup(sys'.objects, ObjectName(u.declaredHash)) == Some([])
  {
    var x := sys.sessions[k];
    var before := Synced(sys, x);
    assert before == With(s, before.file.content);
    StepIgnoresContent(u, s, before.file.content, a);
    sys' := Apply(p, digest, sys, Move(k, a));
  }

  /** A row is committed by a commit, once. */
  lemma RowSteps(u: UM.Upload, s: UM.State, a: UM.Step)
    requires UM.Enabled(u, s, a)
    ensures a.CommitOk? <==> !s.row.Committed? && UM.Apply(u, s, a).row.Committed?
    ensures s.row.Committed? ==> UM.Apply(u, s, a).row.Committed?
  {
  }

  lemma RunFrom(p: Paths, digest: Digest, orderly: bool, sys: System, a: Action, mid: System, rest: seq<Action>, sys': System)
    requires Enabled(sys, a) && (orderly ==> Orderly(sys, a)) && mid == Apply(p, digest, sys, a)
    requires Run(p, digest, orderly, mid, rest, sys')
    ensures Run(p, digest, orderly, sys, [a] + rest, sys')
  {
    assert ([a] + rest)[1..] == rest;
  }

  /** These are moves of upload k, by these steps. */
  ghost predicate MovesOf(actions: seq<Action>, k: nat, steps: seq<UM.Step>) {
    forall a :: a in actions ==> a.Move? && a.session == k && a.step in steps
  }

  lemma {:induction false} LiftRun(
    p: Paths, digest: Digest, sys: System, k: nat, u: UM.Upload, s: UM.State, steps: seq<UM.Step>, t: UM.State)
    returns (actions: seq<Action>, sys': System)
    requires Tracks(sys, k, u, s) && UM.Run(u, s, steps, t)
    ensures Run(p, digest, true, sys, actions, sys') && MovesOf(actions, k, steps)
    ensures Tracks(sys', k, u, t) && OnlyMoved(sys, k, sys')
    ensures s.row.Committed? ==> t.row.Committed?
    ensures sys'.tables == if t.row.Committed? && !s.row.Committed?
      then AddAsset(sys.tables, u.declaredHash, RowOf(sys.sessions[k])) else sys.tables
    decreases |steps|
  {
    if steps == [] {
      actions, sys' := [], sys;
    } else {
      var a, next := steps[0], UM.Apply(u, s, steps[0]);
      var mid := LiftStep(p, digest, sys, k, u, s, a);
      var rest;
      rest, sys' := LiftRun(p, digest, mid, k, u, next, steps[1..], t);
      actions := [Move(k, a)] + rest;
      RunFrom(p, digest, true, sys, Move(k, a), mid, rest, sys');
      RowSteps(u, s, a);
    }
  }

  lemma HeadJoin(xs: seq<Action>, ys: seq<Action>)
    requires xs != []
    ensures xs + ys == [xs[0]] + (xs[1..] + ys)
  {
  }

  lemma {:induction false} RunsJoin(
    p: Paths, digest: Digest, orderly: bool, sys: System, before: seq<Action>, mid: System, after: seq<Action>, sys': System)
    requires Run(p, digest, orderly, sys, before, mid) && Run(p, digest, orderly, mid, after, sys')
    ensures Run(p, digest, orderly, sys, before + after, sys')
    decreases |before|
  {
    if before == [] {
      assert before + after == after;
    } else {
      var next, rest := Apply(p, digest, sys, before[0]), before[1..];
      RunsJoin(p, digest, orderly, next, rest, mid, after, sys');
      RunFrom(p, digest, orderly, sys, before[0], next, rest + after, sys');
      HeadJoin(before, after);
    }
  }

  lemma OneMore(p: Paths, digest: Digest, orderly: bool, sys: System, before: seq<Action>, mid: System, a: Action, sys': System)
    requires Run(p, digest, orderly, sys, before, mid)
    requires Enabled(mid, a) && (orderly ==> Orderly(mid, a)) && sys' == Apply(p, digest, mid, a)
    ensures Run(p, digest, orderly, sys, before + [a], sys')
  {
    assert Run(p, digest, orderly, mid, [a], sys');
    RunsJoin(p, digest, orderly, sys, before, mid, [a], sys');
  }

  // ---------- an upload that lingers ends by removing the object ----------

  /** The upload has no row, and its next steps may still concern its object. */
  predicate Rowless(u: UM.Upload, s: UM.State) {
    s.row.RolledBack? && UT.MayTouch(u, s)
  }

  /** It will create an empty file, and then hang. */
  predicate BoundToTruncate(u: UM.Upload, s: UM.State) {
    s.main.Creating? && u.declaredLength == 0 && UT.EmptyNext(u, s)
  }

  /** On the way to a removal: no fault, unless the stream could make the upload hang. */
  ghost function TowardsRemoval(u: UM.Upload, s: UM.State): UM.Step
    requires s.recv.next <= |u.messages|
  {
    if s.main.Storing? && UT.EmptyChunkWhenFull(u) then UM.StoreFails(0) else UT.SoundStep(u, s)
  }

  lemma StoringStaysRowless(u: UM.Upload, s: UM.State, a: UM.Step)
    requires UI.Inv(u, s) && Rowless(u, s) && s.main.Storing? && a == TowardsRemoval(u, s)
    ensures UM.Enabled(u, s, a) && Rowless(u, UM.Apply(u, s, a)) && !BoundToTruncate(u, UM.Apply(u, s, a))
  {
    var t := UM.Apply(u, s, a);
    UI.StepKeeps(u, s, a);
    if UT.BoundToHang(u, t) { UT.BoundNeedsEmptyChunk(u, t); }
  }

  lemma OtherwiseStaysRowless(u: UM.Upload, s: UM.State, a: UM.Step)
    requires UI.Inv(u, s) && Rowless(u, s) && !BoundToTruncate(u, s) && !s.main.Storing?
    requires UM.Enabled(u, s, a) && a == UT.SoundStep(u, s) && !Removes(a)
    ensures Rowless(u, UM.Apply(u, s, a)) && !BoundToTruncate(u, UM.Apply(u, s, a))
  {
  }

  lemma StaysRowless(u: UM.Upload, s: UM.State)
    requires UI.Inv(u, s) && Rowless(u, s) && !BoundToTruncate(u, s)
    ensures UM.Enabled(u, s, TowardsRemoval(u, s))
    ensures UM.IsFault(TowardsRemoval(u, s)) ==> UT.EmptyChunkWhenFull(u)
    ensures !Removes(TowardsRemoval(u, s)) ==>
      var t := UM.Apply(u, s, TowardsRemoval(u, s)); Rowless(u, t) && !BoundToTruncate(u, t)
  {
    assert UT.Stalled(s) ==> UT.BoundToHang(u, s);
    UT.Progress(u, s);
    if s.main.Storing? {
      StoringStaysRowless(u, s, TowardsRemoval(u, s));
    } else if !Removes(UT.SoundStep(u, s)) {
      OtherwiseStaysRowless(u, s, UT.SoundStep(u, s));
    }
  }

  /** Without a row an upload can come to remove its object; without a fault, unless its stream can hang. */
  lemma {:induction false} CanComeToRemove(u: UM.Upload, s: UM.State)
    returns (steps: seq<UM.Step>, t: UM.State, a: UM.Step)
    requires UI.Inv(u, s) && Rowless(u, s) && !BoundToTruncate(u, s)
    ensures UM.Run(u, s, steps, t) && UM.Enabled(u, t, a) && Removes(a)
    ensures UT.EmptyChunkWhenFull(u) || UT.Faultless(steps)
    decreases UT.Measure(u, s)
  {
    var first := TowardsRemoval(u, s);
    StaysRowless(u, s);
    if Removes(first) {
      steps, t, a := [], s, first;
    } else {
      UI.StepKeeps(u, s, first);
      UT.StepDecreases(u, s, first);
      var rest;
      rest, t, a := CanComeToRemove(u, UM.Apply(u, s, first));
      steps := [first] + rest;
      UT.RunStep(u, s, first, rest, t);
    }
  }

  predicate InPlay(s: UM.State) {
    s.row.RolledBack? && !s.main.Selecting? && !s.main.Returning? && !s.main.Done?
  }

  lemma PutFileStaysInPlay(u: UM.Upload, s: UM.State, a: UM.Step)
    requires InPlay(s) && UM.PutFileEnabled(u, s, a) && !UM.IsFault(a) && !Removes(a)
    ensures InPlay(UM.ApplyPutFile(u, s, a))
  {
  }

  lemma HandlerStaysInPlay(s: UM.State, a: UM.Step)
    requires InPlay(s) && UM.HandlerEnabled(s, a) && !UM.IsFault(a) && !Removes(a)
    ensures InPlay(UM.ApplyHandler(s, a))
  {
  }

  lemma StepStaysInPlay(u: UM.Upload, s: UM.State, a: UM.Step)
    requires InPlay(s) && UM.Enabled(u, s, a) && !UM.IsFault(a) && !Removes(a)
    ensures InPlay(UM.Apply(u, s, a))
  {
    if UM.WriterEnabled(u, s, a) {
    } else if UM.PutFileEnabled(u, s, a) {
      PutFileStaysInPlay(u, s, a);
    } else {
      HandlerStaysInPlay(s, a);
    }
  }

  lemma NeverBound(u: UM.Upload, s: UM.State)
    requires UI.Inv(u, s) && InPlay(s) && !UT.EmptyChunkWhenFull(u)
    ensures Rowless(u, s)
  {
    if UT.BoundToHang(u, s) { UT.BoundNeedsEmptyChunk(u, s); }
  }

  /** A faultless step of an upload without a row leads on towards the removal, or is the removal. */
  lemma FaultlessStaysRowless(u: UM.Upload, s: UM.State, a: UM.Step)
    requires UI.Inv(u, s) && Rowless(u, s) && !UT.EmptyChunkWhenFull(u)
    requires UM.Enabled(u, s, a) && !UM.IsFault(a) && !Removes(a)
    ensures Rowless(u, UM.Apply(u, s, a))
  {
    StepStaysInPlay(u, s, a);
    UI.StepKeeps(u, s, a);
    NeverBound(u, UM.Apply(u, s, a));
  }

  /** Every schedule without a fault, followed until nothing can move, removes the object. */
  lemma {:induction false} ComesToRemove(u: UM.Upload, s: UM.State, steps: seq<UM.Step>, t: UM.State)
    requires UI.Inv(u, s) && Rowless(u, s) && !UT.EmptyChunkWhenFull(u)
    requires UM.Run(u, s, steps, t) && UT.Faultless(steps) && UM.Halted(u, t)
    ensures exists a :: a in steps && Removes(a)
    decreases |steps|
  {
    if steps == [] {
      if UT.Stalled(s) { UT.StallNeedsEmptyChunk(u, s); }
      UT.Progress(u, s);
    } else if !Removes(steps[0]) {
      FaultlessStaysRowless(u, s, steps[0]);
      UI.StepKeeps(u, s, steps[0]);
      ComesToRemove(u, UM.Apply(u, s, steps[0]), steps[1..], t);
    }
  }

  // ---------- when an upload may begin ----------

  /** Whatever comes next, as long as it is orderly, every committed asset has its object. */
  ghost predicate StaysSound(p: Paths, digest: Digest, sys: System) {
    forall actions, sys' :: Run(p, digest, true, sys, actions, sys') ==> Sound(digest, sys'.tables.assets, sys'.objects)
  }

  /** The stream is one that succeeds if nothing fails. */
  ghost predicate Promising(u: UM.Upload) {
    UI.Prescribed(u) == UM.Success && !UT.EmptyChunkWhenFull(u)
  }

  lemma PromisingCanCommit(u: UM.Upload) returns (steps: seq<UM.Step>, t: UM.State)
    requires Promising(u)
    ensures UM.Run(u, UM.Init(u), steps, t) && UT.Faultless(steps) && t.main == UM.Done(UM.Success) && t.row.Committed?
  {
    UI.InitKeeps(u);
    steps, t := UT.CanHalt(u, UM.Init(u));
    UI.RunKeeps(u, UM.Init(u), steps, t);
    if UT.Stalled(t) { UT.StallNeedsEmptyChunk(u, t); }
    UT.OutcomeConfluent(u, steps, t);
  }

  /** No faults among these moves. */
  ghost predicate FaultlessMoves(actions: seq<Action>) {
    forall a :: a in actions ==> a.Move? && !UM.IsFault(a.step)
  }

  lemma MovesAreFaultless(actions: seq<Action>, k: nat, steps: seq<UM.Step>)
    requires MovesOf(actions, k, steps) && UT.Faultless(steps)
    ensures FaultlessMoves(actions)
  {
  }

  lemma BegunCanCommit(p: Paths, digest: Digest, sys: System, h: Header, ms: seq<UM.Message>)
    returns (actions: seq<Action>, sys': System)
    requires Enabled(sys, Begin(h, ms)) && Promising(Begun(digest, sys, h, ms))
    ensures Run(p, digest, true, Apply(p, digest, sys, Begin(h, ms)), actions, sys') && FaultlessMoves(actions)
    ensures h.hash in sys'.tables.assets && sys'.tables.assets[h.hash] == Asset(h.contentType, h.contentLength)
    ensures |sys'.sessions| == |sys.sessions| + 1
    ensures forall k :: 0 <= k < |sys.sessions| ==> sys'.sessions[k] == sys.sessions[k]
  {
    var u := Begun(digest, sys, h, ms);
    var steps, t := PromisingCanCommit(u);
    actions, sys' := LiftRun(p, digest, Apply(p, digest, sys, Begin(h, ms)), |sys.sessions|, u, UM.Init(u), steps, t);
    MovesAreFaultless(actions, |sys.sessions|, steps);
  }

  lemma OnlyMovedTransitive(sys: System, k: nat, mid: System, sys': System)
    requires OnlyMoved(sys, k, mid) && OnlyMoved(mid, k, sys')
    ensures OnlyMoved(sys, k, sys')
  {
  }

  lemma RemovalIsFaultless(moves: seq<Action>, k: nat, steps: seq<UM.Step>, a: UM.Step)
    requires MovesOf(moves, k, steps) && UT.Faultless(steps) && Removes(a)
    ensures FaultlessMoves(moves + [Move(k, a)])
  {
    MovesAreFaultless(moves, k, steps);
  }

  lemma RowlessCanRemove(p: Paths, digest: Digest, sys: System, k: nat, u: UM.Upload, s: UM.State)
    returns (actions: seq<Action>, sys': System)
    requires Tracks(sys, k, u, s) && UI.Inv(u, s) && Rowless(u, s) && !BoundToTruncate(u, s)
    ensures Run(p, digest, true, sys, actions, sys')
    ensures UT.EmptyChunkWhenFull(u) || FaultlessMoves(actions)
    ensures OnlyMoved(sys, k, sys') && ObjectName(u.declaredHash) !in sys'.objects
  {
    var steps, t, a := CanComeToRemove(u, s);
    var moves, mid := LiftRun(p, digest, sys, k, u, s, steps, t);
    sys' := LiftStep(p, digest, mid, k, u, t, a);
    actions := moves + [Move(k, a)];
    OneMore(p, digest, true, sys, moves, mid, Move(k, a), sys');
    OnlyMovedTransitive(sys, k, mid, sys');
    if !UT.EmptyChunkWhenFull(u) { RemovalIsFaultless(moves, k, steps, a); }
  }

  lemma LingeringCanRemove(p: Paths, digest: Digest, sys: System, k: nat, h: Bytes) returns (actions: seq<Action>, sys': System)
    requires Lingers(sys, k, h) && UI.Inv(sys.sessions[k].upload, sys.sessions[k].state)
    requires !BoundToTruncate(sys.sessions[k].upload, sys.sessions[k].state)
    ensures Run(p, digest, true, sys, actions, sys')
    ensures UT.EmptyChunkWhenFull(sys.sessions[k].upload) || FaultlessMoves(actions)
    ensures ObjectName(h) !in sys'.objects && |sys'.sessions| == |sys.sessions|
    ensures h in sys.tables.assets ==> h in sys'.tables.assets
  {
    actions, sys' := RowlessCanRemove(p, digest, sys, k, sys.sessions[k].upload, sys.sessions[k].state);
  }

  lemma LingeringCanTruncate(p: Paths, digest: Digest, sys: System, k: nat, h: Bytes) returns (actions: seq<Action>, sys': System)
    requires Lingers(sys, k, h) && BoundToTruncate(sys.sessions[k].upload, sys.sessions[k].state)
    ensures Run(p, digest, true, sys, actions, sys')
    ensures Lookup(sys'.objects, ObjectName(h)) == Some([])
    ensures h in sys.tables.assets ==> h in sys'.tables.assets && sys'.tables.assets[h] == sys.tables.assets[h]
  {
    var u, s := sys.sessions[k].upload, sys.sessions[k].state;
    sys' := LiftStep(p, digest, sys, k, u, s, UM.CreateOk);
    actions := [Move(k, UM.CreateOk)];
    assert [Move(k, UM.CreateOk)][1..] == [];
  }

  lemma NotHeldIsUnsound(p: Paths, digest: Digest, sys: System, actions: seq<Action>, end: System, h: Bytes)
    requires Run(p, digest, true, sys, actions, end) && h in end.tables.assets
    requires !Holds(digest, end.objects, h, end.tables.assets[h])
    ensures !StaysSound(p, digest, sys)
  {
  }

  /** The new upload commits, and then the one that lingers removes the object, or empties it. */
  lemma LingeringBreaks(p: Paths, digest: Digest, sys: System, h: Header, ms: seq<UM.Message>, k: nat)
    requires Enabled(sys, Begin(h, ms)) && Promising(Begun(digest, sys, h, ms))
    requires Lingers(sys, k, h.hash) && UI.Inv(sys.sessions[k].upload, sys.sessions[k].state)
    requires BoundToTruncate(sys.sessions[k].upload, sys.sessions[k].state) ==> h.contentLength != 0
    ensures !StaysSound(p, digest, Apply(p, digest, sys, Begin(h, ms)))
  {
    var begun := Apply(p, digest, sys, Begin(h, ms));
    var commits, mid := BegunCanCommit(p, digest, sys, h, ms);
    var breaks, end := LingeringHarms(p, digest, mid, k, h.hash);
    RunsJoin(p, digest, true, begun, commits, mid, breaks, end);
    NotHeldIsUnsound(p, digest, begun, commits + breaks, end, h.hash);
  }

  lemma LingeringHarms(p: Paths, digest: Digest, sys: System, k: nat, h: Bytes) returns (actions: seq<Action>, end: System)
    requires Lingers(sys, k, h) && UI.Inv(sys.sessions[k].upload, sys.sessions[k].state) && h in sys.tables.assets
    requires BoundToTruncate(sys.sessions[k].upload, sys.sessions[k].state) ==> sys.tables.assets[h].contentLength != 0
    ensures Run(p, digest, true, sys, actions, end) && h in end.tables.assets
    ensures !Holds(digest, end.objects, h, end.tables.assets[h])
  {
    if BoundToTruncate(sys.sessions[k].upload, sys.sessions[k].state) {
      actions, end := LingeringCanTruncate(p, digest, sys, k, h);
    } else {
      actions, end := LingeringCanRemove(p, digest, sys, k, h);
    }
  }

  /**
   An upload that would succeed may begin, as far as committed assets are concerned, if and only if
   no other of its hash lingers.
   */
  lemma StartIsSafeIff(p: Paths, digest: Digest, sys: System, h: Header, ms: seq<UM.Message>)
    requires Inv(digest, sys) && Enabled(sys, Begin(h, ms)) && Promising(Begun(digest, sys, h, ms))
    requires h.contentLength == 0 ==> forall k: nat :: Lingers(sys, k, h.hash) ==>
      !BoundToTruncate(sys.sessions[k].upload, sys.sessions[k].state)
    ensures StaysSound(p, digest, Apply(p, digest, sys, Begin(h, ms))) <==> Orderly(sys, Begin(h, ms))
  {
    if Orderly(sys, Begin(h, ms)) {
      var sys1 := Apply(p, digest, sys, Begin(h, ms));
      BeginKeeps(p, digest, sys, h, ms);
      forall actions, sys' | Run(p, digest, true, sys1, actions, sys')
        ensures Sound(digest, sys'.tables.assets, sys'.objects)
      {
        CommittedAssetsEndure(p, digest, sys1, actions, sys');
      }
    } else {
      var k: nat :| Lingers(sys, k, h.hash);
      assert SessionInv(digest, sys, sys.sessions[k]);
      LingeringBreaks(p, digest, sys, h, ms, k);
    }
  }

  // ---------- runs from the start that lose an object ----------

  function StreamOf(content: Bytes): seq<UM.Message> {
    if content == [] then [] else [UM.Chunk(content)]
  }

  /** An upload of this file. */
  function UploadOf(digest: Digest, content: Bytes): Action {
    Begin(Header(digest(content), "", |content|), StreamOf(content))
  }

  lemma StreamIsPromising(digest: Digest, content: Bytes, prior: Option<Bytes>)
    ensures Promising(UM.Upload(digest, digest(content), |content|, StreamOf(content), prior))
  {
    var u := UM.Upload(digest, digest(content), |content|, StreamOf(content), prior);
    assert UI.Received(u, 0) == [];
    if content != [] { assert UI.Received(u, 1) == content; }
    assert UI.Payload(u) == content;
    forall i: nat ensures !UI.FirstOffence(u, i) && !UT.EmptyChunkAt(u, i) {
    }
  }

  /** On the way to a committed row there is a commit, which might fail. */
  lemma {:induction false} CommitsSomewhere(u: UM.Upload, s: UM.State, steps: seq<UM.Step>, t: UM.State)
    returns (before: seq<UM.Step>, mid: UM.State)
    requires UM.Run(u, s, steps, t) && UT.Faultless(steps) && !s.row.Committed? && t.row.Committed?
    ensures UM.Run(u, s, before, mid) && UT.Faultless(before) && UM.Enabled(u, mid, UM.CommitFails)
    decreases |steps|
  {
    if steps[0].CommitOk? {
      before, mid := [], s;
    } else {
      var rest;
      rest, mid := CommitsSomewhere(u, UM.Apply(u, s, steps[0]), steps[1..], t);
      before := [steps[0]] + rest;
      UT.RunStep(u, s, steps[0], rest, mid);
    }
  }

  /** All that happens is that this file is uploaded, and nothing fails but in this one way. */
  ghost predicate OnlyUploads(digest: Digest, content: Bytes, fault: UM.Step, actions: seq<Action>) {
    forall a :: a in actions ==>
      a == UploadOf(digest, content) || (a.Move? && (UM.IsFault(a.step) ==> a.step == fault))
  }

  /** A run the database admits, of two uploads of one file, ends with its row committed and its object gone. */
  ghost predicate Loses(p: Paths, digest: Digest, content: Bytes, fault: UM.Step, actions: seq<Action>, sys: System) {
    && Run(p, digest, false, START, actions, sys) && |sys.sessions| == 2
    && OnlyUploads(digest, content, fault, actions)
    && digest(content) in sys.tables.assets && ObjectName(digest(content)) !in sys.objects
  }

  lemma {:induction false} NeedNotBeOrderly(p: Paths, digest: Digest, sys: System, actions: seq<Action>, sys': System)
    requires Run(p, digest, true, sys, actions, sys')
    ensures Run(p, digest, false, sys, actions, sys')
    decreases |actions|
  {
    if actions == [] {
    } else {
      NeedNotBeOrderly(p, digest, Apply(p, digest, sys, actions[0]), actions[1..], sys');
    }
  }

  /** The second upload commits, and then the first removes the object. */
  lemma SecondThenFirst(p: Paths, digest: Digest, content: Bytes, sys: System)
    returns (actions: seq<Action>, end: System)
    requires Inv(digest, sys) && Lingers(sys, 0, digest(content)) && |sys.sessions| == 1
    requires !UT.EmptyChunkWhenFull(sys.sessions[0].upload) && Enabled(sys, UploadOf(digest, content))
    ensures Run(p, digest, false, Apply(p, digest, sys, UploadOf(digest, content)), actions, end) && FaultlessMoves(actions)
    ensures |end.sessions| == 2 && digest(content) in end.tables.assets && ObjectName(digest(content)) !in end.objects
  {
    var a := UploadOf(digest, content);
    var sys1 := Apply(p, digest, sys, a);
    assert SessionInv(digest, sys, sys.sessions[0]);
    StreamIsPromising(digest, content, Lookup(sys.objects, ObjectName(digest(content))));
    TruncatingNeedsEmptyChunk(sys.sessions[0].upload, sys.sessions[0].state);
    var commits, mid := BegunCanCommit(p, digest, sys, a.header, a.messages);
    var removes;
    removes, end := LingeringCanRemove(p, digest, mid, 0, digest(content));
    RunsJoin(p, digest, true, sys1, commits, mid, removes, end);
    actions := commits + removes;
    NeedNotBeOrderly(p, digest, sys1, actions, end);
  }

  lemma TruncatingNeedsEmptyChunk(u: UM.Upload, s: UM.State)
    requires UI.Inv(u, s)
    ensures BoundToTruncate(u, s) ==> UT.EmptyChunkWhenFull(u)
  {
    if BoundToTruncate(u, s) {
      var created := UM.Apply(u, s, UM.CreateOk);
      UI.StepKeeps(u, s, UM.CreateOk);
      UT.BoundNeedsEmptyChunk(u, created);
    }
  }

  /** If the first upload lingers, a second one of the file can lose the object. */
  lemma SecondUploadLoses(p: Paths, digest: Digest, content: Bytes, fault: UM.Step, before: seq<Action>, sys: System)
    returns (actions: seq<Action>, end: System)
    requires Run(p, digest, true, START, before, sys) && OnlyUploads(digest, content, fault, before)
    requires |sys.sessions| == 1 && Lingers(sys, 0, digest(content))
    requires !UT.EmptyChunkWhenFull(sys.sessions[0].upload)
    ensures Loses(p, digest, content, fault, actions, end) && before <= actions
  {
    var a := UploadOf(digest, content);
    StartInv(digest);
    CommittedAssetsEndure(p, digest, START, before, sys);
    assert SessionInv(digest, sys, sys.sessions[0]);
    var more;
    more, end := SecondThenFirst(p, digest, content, sys);
    NeedNotBeOrderly(p, digest, START, before, sys);
    OneMore(p, digest, false, START, before, sys, a, Apply(p, digest, sys, a));
    RunsJoin(p, digest, false, START, before + [a], Apply(p, digest, sys, a), more, end);
    actions := before + [a] + more;
  }

  lemma FirstUpload(p: Paths, digest: Digest, content: Bytes) returns (sys: System, u: UM.Upload)
    ensures Run(p, digest, true, START, [UploadOf(digest, content)], sys)
    ensures |sys.sessions| == 1 && Tracks(sys, 0, u, UM.Init(u))
    ensures u.declaredHash == digest(content) && Promising(u)
  {
    var a := UploadOf(digest, content);
    sys := Apply(p, digest, START, a);
    u := sys.sessions[0].upload;
    StreamIsPromising(digest, content, None);
    assert [a][1..] == [];
  }

  lemma CommitCanFail(p: Paths, digest: Digest, content: Bytes)
    returns (actions: seq<Action>, sys: System, u: UM.Upload, s: UM.State)
    ensures Run(p, digest, true, START, actions, sys) && |sys.sessions| == 1
    ensures OnlyUploads(digest, content, UM.CommitFails, actions) && Move(0, UM.CommitFails) in actions
    ensures UM.Enabled(u, s, UM.CommitFails) && Tracks(sys, 0, u, UM.Apply(u, s, UM.CommitFails))
    ensures Promising(u) && u.declaredHash == digest(content)
  {
    var sys1;
    sys1, u := FirstUpload(p, digest, content);
    var steps, t := PromisingCanCommit(u);
    var before;
    before, s := CommitsSomewhere(u, UM.Init(u), steps, t);
    var moves, sys2 := LiftRun(p, digest, sys1, 0, u, UM.Init(u), before, s);
    sys := LiftStep(p, digest, sys2, 0, u, s, UM.CommitFails);
    RunsJoin(p, digest, true, START, [UploadOf(digest, content)], sys1, moves, sys2);
    actions := [UploadOf(digest, content)] + moves + [Move(0, UM.CommitFails)];
    OneMore(p, digest, true, START, [UploadOf(digest, content)] + moves, sys2, Move(0, UM.CommitFails), sys);
  }

  /**
   Any file uploaded twice can lose its object: the commit of the first upload fails, which ends its
   transaction, the second is committed, and then the first one's clean-up removes what both named.
   Nothing else fails, and nothing else happens.
   */
  lemma LateCleanupLosesObject(p: Paths, digest: Digest, content: Bytes)
    ensures exists actions, sys ::
      Loses(p, digest, content, UM.CommitFails, actions, sys) && Move(0, UM.CommitFails) in actions
  {
    var before, mid, u, s := CommitCanFail(p, digest, content);
    FailedCommitLingers(mid, u, s);
    var actions, sys := SecondUploadLoses(p, digest, content, UM.CommitFails, before, mid);
    assert Move(0, UM.CommitFails) in actions;
  }

  lemma FailedCommitLingers(sys: System, u: UM.Upload, s: UM.State)
    requires UM.Enabled(u, s, UM.CommitFails) && Tracks(sys, 0, u, UM.Apply(u, s, UM.CommitFails))
    ensures Lingers(sys, 0, u.declaredHash)
  {
  }

  lemma UploadCanBeCancelled(p: Paths, digest: Digest, content: Bytes)
    returns (actions: seq<Action>, sys: System, u: UM.Upload)
    ensures Run(p, digest, true, START, actions, sys) && |sys.sessions| == 1
    ensures OnlyUploads(digest, content, UM.Cancel, actions) && Move(0, UM.Cancel) in actions
    ensures Tracks(sys, 0, u, UM.Apply(u, UM.Init(u), UM.Cancel))
    ensures Promising(u) && u.declaredHash == digest(content)
  {
    var sys1;
    sys1, u := FirstUpload(p, digest, content);
    sys := LiftStep(p, digest, sys1, 0, u, UM.Init(u), UM.Cancel);
    actions := [UploadOf(digest, content)] + [Move(0, UM.Cancel)];
    OneMore(p, digest, true, START, [UploadOf(digest, content)], sys1, Move(0, UM.Cancel), sys);
  }

  lemma CancelledLingers(sys: System, u: UM.Upload)
    requires Tracks(sys, 0, u, UM.Apply(u, UM.Init(u), UM.Cancel))
    ensures Lingers(sys, 0, u.declaredHash)
  {
  }

  /** Nor need a commit fail: a client that only gives up and tries again can lose the object too. */
  lemma RetryLosesObject(p: Paths, digest: Digest, content: Bytes)
    ensures exists actions, sys ::
      Loses(p, digest, content, UM.Cancel, actions, sys) && Move(0, UM.Cancel) in actions
  {
    var before, mid, u := UploadCanBeCancelled(p, digest, content);
    CancelledLingers(mid, u);
    var actions, sys := SecondUploadLoses(p, digest, content, UM.Cancel, before, mid);
    assert Move(0, UM.Cancel) in actions;
  }
}
