/** Safety, termination, freedom from deadlock, and the outcome of an upload, over all schedules. */
module UploadTheorems {
  import opened Options
  import opened ByteStrings
  import opened UploadMachine
  import opened UploadInvariant

  // ---------- safety ----------

  /**
   A successful upload, under any schedule and any faults, leaves under its name exactly the
   bytes of the stream, of the declared length and hash, and its row committed.
   */
  lemma SuccessIsSound(u: Upload, s: State)
    requires Reachable(u, s) && s.main == Done(Success)
    ensures s.file.content == Some(Payload(u)) && s.row.Committed?
    ensures |Payload(u)| == u.declaredLength && u.digest(Payload(u)) == u.declaredHash
    ensures forall m :: m in u.messages ==> m.Chunk?
  {
    ReachableInv(u, s);
    assert Prescribed(u) == Success;
    forall i: nat | i < |u.messages| ensures u.messages[i].Chunk? {
      if Offends(u, i) { OffenceHasFirst(u, i); }
    }
  }

  /**
   A failed upload commits no row; unless a removal failed too, its object is gone or is
   what it was before the call.
   */
  lemma FailureLeavesNothing(u: Upload, s: State)
    requires Reachable(u, s) && s.main.Done? && s.main.outcome != Success
    ensures s.row.RolledBack?
    ensures s.cleanupFailed || s.file.content == None || s.file.content == u.prior
  {
    ReachableInv(u, s);
  }

  lemma RunOfThree(u: Upload, a: Step, b: Step, c: Step)
    requires Enabled(u, Init(u), a) && Enabled(u, Apply(u, Init(u), a), b)
    requires Enabled(u, Apply(u, Apply(u, Init(u), a), b), c)
    ensures Reachable(u, Apply(u, Apply(u, Apply(u, Init(u), a), b), c))
  {
    var s1 := Apply(u, Init(u), a);
    var s2 := Apply(u, s1, b);
    var s3 := Apply(u, s2, c);
    assert Run(u, s3, [], s3);
    RunStep(u, s2, c, [], s3);
    RunStep(u, s1, b, [c] + [], s3);
    RunStep(u, Init(u), a, [b] + ([c] + []), s3);
  }

  /** What was there before may stay: creating the file can fail, for any upload. */
  lemma CreationCanFail(u: Upload)
    ensures exists s :: Reachable(u, s) && s.main == Done(Internal) && s.row.RolledBack? && s.file.content == u.prior
  {
    var s1 := Apply(u, Init(u), CreateFails);
    var s2 := Apply(u, s1, Select);
    RunOfThree(u, CreateFails, Select, Return);
    assert Apply(u, s2, Return).main == Done(Internal);
  }

  /** A copy that has begun. */
  lemma CopyCanBegin(u: Upload) returns (steps: seq<Step>, s: State)
    requires u.messages != [] && u.messages[0].Chunk? && 0 < |u.messages[0].data| <= u.declaredLength
    ensures Run(u, Init(u), steps, s) && s.main.Storing? && s.file.content == Some([]) && s.row.Pending?
    ensures s.shared.slot.None?
  {
    var s1 := Apply(u, Init(u), Receive);
    var s2 := Apply(u, s1, CreateOk);
    s := Apply(u, s2, Transfer(1));
    RunOfThree(u, Receive, CreateOk, Transfer(1));
    steps :| Run(u, Init(u), steps, s);
  }

  /** If the disk then refuses a write, and also the removal, a part of the file stays, with no row. */
  lemma RefusedCopyStays(u: Upload, steps: seq<Step>, s: State) returns (more: seq<Step>, t: State)
    requires Run(u, Init(u), steps, s) && s.main.Storing? && s.file.content == Some([]) && s.row.Pending?
    requires s.shared.slot.None?
    ensures Run(u, Init(u), more, t) && t.main == Selecting && t.file.content == Some([]) && t.row.Pending?
    ensures t.shared.slot.None?
  {
    var s1 := Apply(u, s, StoreFails(0));
    assert s.file.content.value + s.main.buffer[..0] == [];
    var s2 := Apply(u, s1, Check);
    OneMoreStep(u, Init(u), steps, s, StoreFails(0));
    OneMoreStep(u, Init(u), steps + [StoreFails(0)], s1, Check);
    OneMoreStep(u, Init(u), steps + [StoreFails(0)] + [Check], s2, RemoveFails);
    more, t := steps + [StoreFails(0)] + [Check] + [RemoveFails], Apply(u, s2, RemoveFails);
  }

  /** So a removal that fails can leave a part of a file that was never committed. */
  lemma RemovalCanFail(u: Upload)
    requires u.messages != [] && u.messages[0].Chunk? && 0 < |u.messages[0].data| <= u.declaredLength
    ensures exists s :: Reachable(u, s) && s.main == Done(Internal) && s.row.RolledBack? && s.file.content == Some([])
  {
    var begun, s := CopyCanBegin(u);
    var steps, t := RefusedCopyStays(u, begun, s);
    var t1 := Apply(u, t, Select);
    OneMoreStep(u, Init(u), steps, t, Select);
    OneMoreStep(u, Init(u), steps + [Select], t1, Return);
    assert Apply(u, t1, Return).main == Done(Internal);
  }

  /** A read can take any part of what a write offers, within the limit. */
  lemma AnyPartCanBeRead(u: Upload, s: State, n: nat)
    requires Inv(u, s) && s.main.Reading? && s.recv.pc.Writing?
    requires 0 < n <= |s.recv.pc.rest| && s.file.taken + n <= u.declaredLength
    ensures Enabled(u, s, Transfer(n))
    ensures var t := Apply(u, Apply(u, s, Transfer(n)), StoreOk);
      t.main.Reading? && t.file.content == Some(s.file.content.value + s.recv.pc.rest[..n])
  {
  }

  /** Whatever fails, the handler answers `Internal` or what the stream prescribes. */
  lemma OutcomeIsPrescribedOrInternal(u: Upload, s: State)
    requires Reachable(u, s) && s.main.Done?
    ensures s.main.outcome == Internal || s.main.outcome == Prescribed(u)
  {
    ReachableInv(u, s);
  }

  /**
   The handler never sees a pipe-write failure: the channel holds one only after the handler
   has returned. And once PutFile has succeeded, the file is every byte that was accepted.
   */
  lemma PipeFailureNeverSeen(u: Upload, s: State)
    requires Reachable(u, s)
    ensures s.shared.slot == Some(PipeBroken) || s.recv.pc == Reporting(PipeBroken) ==> s.main.Done?
    ensures s.main.Waiting? ==> s.file.content == Some(s.recv.hashed) && |s.recv.hashed| == u.declaredLength
    ensures s.main.Discarding? ==> !s.main.verdict.PipeBroken?
  {
    ReachableInv(u, s);
  }

  /** The channel never holds up the receiver, which puts in it at most once. */
  lemma ReportNeverBlocks(u: Upload, s: State)
    requires Reachable(u, s)
    ensures s.recv.pc.Reporting? ==> Enabled(u, s, Report)
    ensures s.shared.puts <= 1 && (s.recv.pc.Exited? ==> s.shared.puts == 1)
  {
    ReachableInv(u, s);
  }

  lemma {:induction false} OffenceHasFirst(u: Upload, i: nat)
    requires i < |u.messages| && Offends(u, i)
    ensures exists j: nat :: FirstOffence(u, j)
  {
    if !Clean(u, i) {
      var j :| 0 <= j < i && Offends(u, j);
      OffenceHasFirst(u, j);
    } else {
      assert FirstOffence(u, i);
    }
  }

  // ---------- termination ----------

  function WriterRank(w: WriterPc): nat {
    match w
    case Receiving => 3
    case Writing(rest) => 4 + 2 * |rest|
    case Reporting(_) => 2
    case Closing => 1
    case Exited => 0
  }

  function MainRank(m: MainPc): nat {
    match m
    case Creating => 12
    case Reading => 10
    case Storing(_) => 11
    case Checking => 9
    case Removing => 8
    case Selecting => 7
    case Waiting => 6
    case Discarding(_) => 5
    case Committing => 5
    case Undoing => 4
    case Returning(_) => 3
    case Done(_) => 0
  }

  /** What messages from the n-th on can still cost. */
  function StreamRank(u: Upload, n: nat): nat
    requires n <= |u.messages|
    decreases |u.messages| - n
  {
    if n == |u.messages| then 0 else 3 + 2 * |Data(u.messages[n])| + StreamRank(u, n + 1)
  }

  function Measure(u: Upload, s: State): nat
    requires s.recv.next <= |u.messages|
  {
    StreamRank(u, s.recv.next) + WriterRank(s.recv.pc) + MainRank(s.main) + if s.row.Pending? then 1 else 0
  }

  lemma WriterDecreases(u: Upload, s: State, a: Step)
    requires s.recv.next <= |u.messages| && WriterEnabled(u, s, a)
    ensures ApplyWriter(u, s, a).recv.next <= |u.messages|
    ensures Measure(u, ApplyWriter(u, s, a)) < Measure(u, s)
  {
  }

  lemma PutFileDecreases(u: Upload, s: State, a: Step)
    requires s.recv.next <= |u.messages| && PutFileEnabled(u, s, a)
    ensures var t := ApplyPutFile(u, s, a); t.recv.next == s.recv.next && Measure(u, t) < Measure(u, s)
  {
  }

  lemma HandlerDecreases(u: Upload, s: State, a: Step)
    requires s.recv.next <= |u.messages| && HandlerEnabled(s, a)
    ensures var t := ApplyHandler(s, a); t.recv.next == s.recv.next && Measure(u, t) < Measure(u, s)
  {
  }

  /** Every step of every task, fault or not, brings the end nearer. */
  lemma StepDecreases(u: Upload, s: State, a: Step)
    requires s.recv.next <= |u.messages| && Enabled(u, s, a)
    ensures Apply(u, s, a).recv.next <= |u.messages|
    ensures Measure(u, Apply(u, s, a)) < Measure(u, s)
  {
    if WriterEnabled(u, s, a) {
      WriterDecreases(u, s, a);
    } else if PutFileEnabled(u, s, a) {
      PutFileDecreases(u, s, a);
    } else {
      HandlerDecreases(u, s, a);
    }
  }

  /** So no schedule is longer than a bound known from the stream. */
  lemma {:induction false} RunsAreBounded(u: Upload, s: State, steps: seq<Step>, t: State)
    requires s.recv.next <= |u.messages| && Run(u, s, steps, t)
    ensures t.recv.next <= |u.messages| && |steps| + Measure(u, t) <= Measure(u, s)
    decreases |steps|
  {
    if steps == [] {
    } else {
      StepDecreases(u, s, steps[0]);
      RunsAreBounded(u, Apply(u, s, steps[0]), steps[1..], t);
    }
  }

  // ---------- freedom from deadlock ----------

  /** The receiver waits to write an empty chunk nobody reads, the handler waits for the receiver. */
  predicate Stalled(s: State) {
    s.recv.pc == Writing([]) && s.main.Waiting? && s.shared.slot.None?
  }

  /** A step that is no fault, when there is one. */
  function SoundStep(u: Upload, s: State): Step
    requires s.recv.next <= |u.messages|
  {
    match s.main
    case Creating => CreateOk
    case Reading => if u.declaredLength <= s.file.taken then LimitReached else if s.shared.writerClosed then PipeEof else WriterStep(u, s)
    case Storing(_) => StoreOk
    case Checking => Check
    case Removing => RemoveOk
    case Selecting => Select
    case Waiting => if s.shared.slot.Some? then Take else WriterStep(u, s)
    case Discarding(_) => DiscardOk
    case Committing => if s.row.Pending? then CommitOk else CommitTooLate
    case Undoing => UndoOk
    case Returning(_) => Return
    case Done(_) => WriterStep(u, s)
  }

  function WriterStep(u: Upload, s: State): Step
    requires s.recv.next <= |u.messages|
  {
    match s.recv.pc
    case Receiving => if s.recv.next < |u.messages| then Receive else StreamEnd
    case Writing(rest) =>
      if s.shared.readerClosed then WriteFails
      else if s.file.taken < u.declaredLength && rest != [] then Transfer(1)
      else Transfer(0)
    case Reporting(_) => Report
    case Closing => CloseWriter
    case Exited => CloseWriter
  }

  lemma ReadingCanMove(u: Upload, s: State)
    requires Inv(u, s) && s.main.Reading?
    ensures Enabled(u, s, SoundStep(u, s)) && !IsFault(SoundStep(u, s))
  {
  }

  lemma WaitingCanMove(u: Upload, s: State)
    requires Inv(u, s) && s.main.Waiting? && !Stalled(s)
    ensures Enabled(u, s, SoundStep(u, s)) && !IsFault(SoundStep(u, s))
  {
  }

  lemma WriterCanMove(u: Upload, s: State)
    requires Inv(u, s) && s.main.Done? && !s.recv.pc.Exited?
    ensures WriterEnabled(u, s, WriterStep(u, s)) && !IsFault(WriterStep(u, s))
  {
  }

  /** As long as the call is neither over nor stalled, some task can move without a fault. */
  lemma Progress(u: Upload, s: State)
    requires Inv(u, s) && !Finished(s) && !Stalled(s)
    ensures Enabled(u, s, SoundStep(u, s)) && !IsFault(SoundStep(u, s))
  {
    match s.main
    case Reading => ReadingCanMove(u, s);
    case Waiting => WaitingCanMove(u, s);
    case Done(_) => WriterCanMove(u, s);
    case _ =>
  }

  lemma StalledIsHalted(u: Upload, s: State)
    requires Inv(u, s) && (Stalled(s) || Finished(s))
    ensures Halted(u, s)
  {
  }

  /** The streams that stall: an empty chunk after chunks of exactly the declared length. */
  ghost predicate EmptyChunkAt(u: Upload, i: nat) {
    && i < |u.messages| && u.messages[i] == Chunk([])
    && (forall j :: 0 <= j < i ==> u.messages[j].Chunk?)
    && |Received(u, i)| == u.declaredLength
  }

  ghost predicate EmptyChunkWhenFull(u: Upload) {
    exists i: nat :: EmptyChunkAt(u, i)
  }

  lemma StallNeedsEmptyChunk(u: Upload, s: State)
    requires Inv(u, s) && Stalled(s)
    ensures EmptyChunkAt(u, s.recv.next - 1)
  {
    forall j | 0 <= j < s.recv.next - 1 ensures u.messages[j].Chunk? {
      assert !Offends(u, j);
    }
  }

  /** Once a stream stalls it: without faults the receiver never gets past message i. */
  ghost predicate HeldUp(s: State, i: nat) {
    && !s.faulted && s.recv.next <= i + 1
    && (s.recv.pc.Receiving? || s.recv.pc.Writing?)
    && (s.recv.next == i + 1 ==> s.recv.pc == Writing([]))
  }

  lemma {:induction false} ReceivedGrows(u: Upload, i: nat, j: nat)
    requires i <= j <= |u.messages|
    ensures |Received(u, i)| <= |Received(u, j)|
  {
    if i == j {
    } else {
      ReceivedGrows(u, i, j - 1);
    }
  }

  lemma ReceiveHeldUp(u: Upload, s: State, i: nat)
    requires Inv(u, s) && WriterEnabled(u, s, Receive)
    requires EmptyChunkAt(u, i) && HeldUp(s, i)
    ensures HeldUp(ApplyWriter(u, s, Receive), i)
  {
    ReceivedGrows(u, s.recv.next + 1, i + 1);
  }

  /** Nobody but the reader moves the receiver on from a write, and not from an empty one when full. */
  lemma TransferHeldUp(u: Upload, s: State, n: nat, i: nat)
    requires Inv(u, s) && PutFileEnabled(u, s, Transfer(n))
    requires EmptyChunkAt(u, i) && HeldUp(s, i)
    ensures HeldUp(ApplyTransfer(s, n), i)
  {
  }

  lemma StepHeldUp(u: Upload, s: State, a: Step, i: nat)
    requires Inv(u, s) && Enabled(u, s, a) && !IsFault(a)
    requires EmptyChunkAt(u, i) && HeldUp(s, i)
    ensures HeldUp(Apply(u, s, a), i)
  {
    match a
    case Receive => ReceiveHeldUp(u, s, i);
    case Transfer(n) => TransferHeldUp(u, s, n, i);
    case _ =>
  }

  ghost predicate Faultless(steps: seq<Step>) {
    forall a :: a in steps ==> !IsFault(a)
  }

  lemma {:induction false} RunHeldUp(u: Upload, s: State, steps: seq<Step>, t: State, i: nat)
    requires Inv(u, s) && Run(u, s, steps, t) && Faultless(steps)
    requires EmptyChunkAt(u, i) && HeldUp(s, i)
    ensures HeldUp(t, i)
    decreases |steps|
  {
    if steps == [] {
    } else {
      StepKeeps(u, s, steps[0]);
      StepHeldUp(u, s, steps[0], i);
      RunHeldUp(u, Apply(u, s, steps[0]), steps[1..], t, i);
    }
  }

  /** From any reachable state some faultless schedule runs until nothing can move. */
  lemma {:induction false} CanHalt(u: Upload, s: State) returns (steps: seq<Step>, t: State)
    requires Inv(u, s)
    ensures Run(u, s, steps, t) && Faultless(steps) && (Finished(t) || Stalled(t))
    decreases Measure(u, s)
  {
    if Finished(s) || Stalled(s) {
      steps, t := [], s;
    } else {
      var a := SoundStep(u, s);
      Progress(u, s);
      StepKeeps(u, s, a);
      StepDecreases(u, s, a);
      var rest, t' := CanHalt(u, Apply(u, s, a));
      steps, t := [a] + rest, t';
    }
  }

  /** Every schedule, with any faults, can only come to rest with both tasks ended. */
  ghost predicate AlwaysEnds(u: Upload) {
    forall steps, t :: Run(u, Init(u), steps, t) && Halted(u, t) ==> Finished(t)
  }

  /** A call can hang exactly when its stream has an empty chunk after the declared length. */
  lemma EndsIffNoEmptyChunkWhenFull(u: Upload)
    ensures AlwaysEnds(u) <==> !EmptyChunkWhenFull(u)
  {
    InitKeeps(u);
    forall steps, t | Run(u, Init(u), steps, t) && Halted(u, t) && !Finished(t)
      ensures EmptyChunkWhenFull(u)
    {
      RunKeeps(u, Init(u), steps, t);
      if !Stalled(t) { Progress(u, t); }
      StallNeedsEmptyChunk(u, t);
    }
    if EmptyChunkWhenFull(u) {
      var i: nat :| EmptyChunkAt(u, i);
      var steps, t := CanHalt(u, Init(u));
      RunKeeps(u, Init(u), steps, t);
      RunHeldUp(u, Init(u), steps, t, i);
      StalledIsHalted(u, t);
    }
  }

  /** The smallest such stream: nothing declared, and one empty chunk. */
  lemma CanHang(digest: Digest, hash: Bytes)
    ensures !AlwaysEnds(Upload(digest, hash, 0, [Chunk([])], None))
  {
    var u := Upload(digest, hash, 0, [Chunk([])], None);
    assert EmptyChunkAt(u, 0);
    EndsIffNoEmptyChunkWhenFull(u);
  }

  /** Without faults such a stream hangs the call under every schedule. */
  lemma EmptyChunkAlwaysStalls(u: Upload, steps: seq<Step>, t: State)
    requires EmptyChunkWhenFull(u)
    requires Run(u, Init(u), steps, t) && Faultless(steps) && Halted(u, t)
    ensures Stalled(t)
  {
    var i: nat :| EmptyChunkAt(u, i);
    InitKeeps(u);
    RunKeeps(u, Init(u), steps, t);
    RunHeldUp(u, Init(u), steps, t, i);
    if !Stalled(t) { Progress(u, t); }
  }

  // ---------- when the object is left alone ----------

  /** What the receiver comes to next is an empty chunk to write. */
  predicate EmptyNext(u: Upload, s: State) {
    || s.recv.pc == Writing([])
    || (s.recv.pc.Receiving? && s.recv.next < |u.messages| && u.messages[s.recv.next] == Chunk([]))
  }

  /** The file is complete, and nothing but an empty chunk is left that the handler could wait for. */
  predicate BoundToHang(u: Upload, s: State) {
    && s.file.taken == u.declaredLength && EmptyNext(u, s)
    && (s.main.Reading? || (s.main.Checking? && !s.file.copyFailed) || s.main.Waiting?)
  }

  /** The next steps may still concern the object. */
  predicate MayTouch(u: Upload, s: State) {
    !s.main.Selecting? && !s.main.Returning? && !s.main.Done? && !BoundToHang(u, s)
  }

  lemma BoundStaysBound(u: Upload, s: State, a: Step)
    requires Inv(u, s) && Enabled(u, s, a) && BoundToHang(u, s)
    ensures Apply(u, s, a).file == s.file && BoundToHang(u, Apply(u, s, a))
  {
    if a.Check? {
      assert s.file.content.value + [] == s.file.content.value == TakenBytes(s);
      assert |TakenBytes(s)| == s.file.taken;
    }
  }

  /** Once an upload no longer touches its object it never does again. */
  lemma FileLeftAlone(u: Upload, s: State, a: Step)
    requires Inv(u, s) && Enabled(u, s, a) && !MayTouch(u, s)
    ensures Apply(u, s, a).file == s.file && !MayTouch(u, Apply(u, s, a))
  {
    if BoundToHang(u, s) { BoundStaysBound(u, s, a); }
  }

  lemma BoundNeedsEmptyChunk(u: Upload, s: State)
    requires Inv(u, s) && BoundToHang(u, s)
    ensures EmptyChunkWhenFull(u)
  {
    var i := if s.recv.pc.Receiving? then s.recv.next else s.recv.next - 1;
    forall j | 0 <= j < i ensures u.messages[j].Chunk? {
      assert !Offends(u, j);
    }
    assert EmptyChunkAt(u, i);
  }

  // ---------- the outcome does not depend on the schedule ----------

  /** `o` is what the handler answers under some faultless schedule. */
  ghost predicate Possible(u: Upload, o: Outcome) {
    exists steps, t :: Run(u, Init(u), steps, t) && Faultless(steps) && Finished(t) && t.main == Done(o)
  }

  lemma {:induction false} FaultlessRun(u: Upload, s: State, steps: seq<Step>, t: State)
    requires Run(u, s, steps, t) && Faultless(steps) && !s.faulted && !s.cleanupFailed
    ensures !t.faulted && !t.cleanupFailed
    decreases |steps|
  {
    if steps == [] {
    } else {
      assert !IsFault(steps[0]);
      FaultlessRun(u, Apply(u, s, steps[0]), steps[1..], t);
    }
  }

  /** Where a faultless schedule ends: stalled with its row pending exactly on a stream that stalls. */
  lemma FaultlessEnd(u: Upload, steps: seq<Step>, t: State)
    requires Run(u, Init(u), steps, t) && Faultless(steps) && (Finished(t) || Stalled(t))
    ensures Stalled(t) <==> EmptyChunkWhenFull(u)
    ensures Stalled(t) ==> t.row.Pending?
    ensures t.main.Done? && t.main.outcome != Success ==> t.file.content == None
    ensures t.main.Done? && 0 <= u.declaredLength ==> t.main.outcome == Prescribed(u)
  {
    InitKeeps(u);
    RunKeeps(u, Init(u), steps, t);
    FaultlessRun(u, Init(u), steps, t);
    StalledIsHalted(u, t);
    if Stalled(t) { StallNeedsEmptyChunk(u, t); }
    if EmptyChunkWhenFull(u) { EmptyChunkAlwaysStalls(u, steps, t); }
  }

  lemma OneMoreStep(u: Upload, s: State, steps: seq<Step>, t: State, a: Step)
    requires Run(u, s, steps, t) && Enabled(u, t, a)
    ensures Run(u, s, steps + [a], Apply(u, t, a))
  {
    assert Run(u, t, [a], Apply(u, t, a));
    RunJoin(u, s, steps, t, [a], Apply(u, t, a));
  }

  /**
   For a length that is not negative, all faultless schedules end alike: the same answer, read
   off the stream, the same object and the same row.
   */
  lemma OutcomeConfluent(u: Upload, steps: seq<Step>, t: State)
    requires 0 <= u.declaredLength
    requires Run(u, Init(u), steps, t) && Faultless(steps) && t.main.Done?
    ensures t.main.outcome == Prescribed(u)
    ensures Prescribed(u) == Success ==> t.file.content == Some(Payload(u)) && t.row.Committed?
    ensures Prescribed(u) != Success ==> t.file.content == None && t.row.RolledBack?
  {
    InitKeeps(u);
    RunKeeps(u, Init(u), steps, t);
    FaultlessRun(u, Init(u), steps, t);
  }

  lemma {:induction false} RunJoin(u: Upload, s: State, p: seq<Step>, m: State, q: seq<Step>, t: State)
    requires Run(u, s, p, m) && Run(u, m, q, t)
    ensures Run(u, s, p + q, t)
    decreases |p|
  {
    if p == [] {
      assert p + q == q;
    } else {
      RunJoin(u, Apply(u, s, p[0]), p[1..], m, q, t);
      assert (p + q)[1..] == p[1..] + q;
    }
  }

  lemma {:induction false} DoneStays(u: Upload, s: State, steps: seq<Step>, t: State)
    requires Run(u, s, steps, t) && s.main.Done?
    ensures t.main == s.main
    decreases |steps|
  {
    if steps == [] {
    } else {
      DoneStays(u, Apply(u, s, steps[0]), steps[1..], t);
    }
  }

  /** A schedule on which the handler has returned `o` can be completed to one that ends. */
  lemma ReturnedIsPossible(u: Upload, steps: seq<Step>, t: State, o: Outcome)
    requires Run(u, Init(u), steps, t) && Faultless(steps) && t.main == Done(o)
    ensures Possible(u, o)
  {
    InitKeeps(u);
    RunKeeps(u, Init(u), steps, t);
    var more, end := CanHalt(u, t);
    RunJoin(u, Init(u), steps, t, more, end);
    DoneStays(u, t, more, end);
  }

  lemma RunStep(u: Upload, s: State, a: Step, steps: seq<Step>, t: State)
    requires Enabled(u, s, a) && Run(u, Apply(u, s, a), steps, t)
    ensures Run(u, s, [a] + steps, t)
  {
    assert ([a] + steps)[1..] == steps;
  }

  function Answer(slot: Option<Verdict>): Outcome {
    if slot.Some? then VerdictOutcome(slot.value) else Internal
  }

  lemma FailsAfterPutFile(u: Upload, s: State) returns (steps: seq<Step>, t: State)
    requires s.main.Removing?
    ensures Run(u, s, steps, t) && Faultless(steps) && t.main == Done(Answer(s.shared.slot))
  {
    var s1 := Apply(u, s, RemoveOk);
    var s2 := Apply(u, s1, Select);
    t := Apply(u, s2, Return);
    RunStep(u, s2, Return, [], t);
    RunStep(u, s1, Select, [Return], t);
    steps := [RemoveOk] + ([Select] + [Return]);
    RunStep(u, s, RemoveOk, [Select] + [Return], t);
  }

  /** With a negative length PutFile copies nothing, and fails without waiting for the receiver. */
  lemma FailsAtOnce(u: Upload, s: State) returns (steps: seq<Step>, t: State)
    requires u.declaredLength < 0 && s.main.Creating? && s.file.copied == 0
    ensures Run(u, s, steps, t) && Faultless(steps) && t.main == Done(Answer(s.shared.slot))
  {
    var s1 := Apply(u, s, CreateOk);
    var s2 := Apply(u, s1, LimitReached);
    var s3 := Apply(u, s2, Check);
    var rest, t' := FailsAfterPutFile(u, s3);
    t := t';
    RunStep(u, s2, Check, rest, t);
    RunStep(u, s1, LimitReached, [Check] + rest, t);
    steps := [CreateOk] + ([LimitReached] + ([Check] + rest));
    RunStep(u, s, CreateOk, [LimitReached] + ([Check] + rest), t);
  }

  lemma NegativeLengthInternal(u: Upload)
    requires u.declaredLength < 0
    ensures Possible(u, Internal)
  {
    var steps, t := FailsAtOnce(u, Init(u));
    ReturnedIsPossible(u, steps, t, Internal);
  }

  /** But if the receiver is quicker, the handler answers what the stream prescribes. */
  lemma NegativeLengthPrescribed(u: Upload)
    requires u.declaredLength < 0
    ensures Possible(u, Prescribed(u))
  {
    InitKeeps(u);
    var first := if u.messages == [] then StreamEnd else Receive;
    var s0 := Init(u);
    var s1 := Apply(u, s0, first);
    var s2 := Apply(u, s1, Report);
    StepKeeps(u, s0, first);
    JustifiedOutcome(u, s1.recv.pc.verdict);
    var rest, t := FailsAtOnce(u, s2);
    RunStep(u, s1, Report, rest, t);
    var steps := [first] + ([Report] + rest);
    RunStep(u, s0, first, [Report] + rest, t);
    ReturnedIsPossible(u, steps, t, Prescribed(u));
  }

  /** One answer, whatever the schedule. */
  ghost predicate Deterministic(u: Upload) {
    forall o, o' :: Possible(u, o) && Possible(u, o') ==> o == o'
  }

  /**
   The answer is independent of the schedule exactly when the declared length is not negative,
   or the stream is empty and the declared hash that of no bytes.
   */
  lemma DeterministicIff(u: Upload)
    ensures Deterministic(u) <==>
      0 <= u.declaredLength || (u.messages == [] && u.digest([]) == u.declaredHash)
  {
    forall o | Possible(u, o)
      ensures 0 <= u.declaredLength ==> o == Prescribed(u)
      ensures o == Internal || o == Prescribed(u)
    {
      var steps, t :| Run(u, Init(u), steps, t) && Faultless(steps) && Finished(t) && t.main == Done(o);
      if 0 <= u.declaredLength { OutcomeConfluent(u, steps, t); }
      OutcomeIsPrescribedOrInternal(u, t);
    }
    if u.declaredLength < 0 {
      NegativeLengthInternal(u);
      NegativeLengthPrescribed(u);
      if u.messages == [] {
        assert Clean(u, 0);
      } else {
        assert FirstOffence(u, 0);
        var i: nat :| FirstOffence(u, i);
        FirstOffenceUnique(u, 0, i);
        assert Prescribed(u) != Internal;
      }
    }
  }
}
