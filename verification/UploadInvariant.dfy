/** What every step of an upload keeps, over every schedule and with every fault. */
module UploadInvariant {
  import opened Options
  import opened ByteStrings
  import opened UploadMachine

  function Data(m: Message): Bytes {
    match m
    case Chunk(d) => d
    case NotChunk => []
  }

  /** The bytes the first n messages carry. */
  function Received(u: Upload, n: nat): Bytes
    requires n <= |u.messages|
  {
    if n == 0 then [] else Received(u, n - 1) + Data(u.messages[n - 1])
  }

  /** The bytes the whole stream carries. */
  function Payload(u: Upload): Bytes {
    Received(u, |u.messages|)
  }

  /** Message i is no chunk, or brings the bytes received above the declared length. */
  ghost predicate Offends(u: Upload, i: nat)
    requires i < |u.messages|
  {
    u.messages[i].NotChunk? || |Received(u, i + 1)| > u.declaredLength
  }

  ghost predicate Clean(u: Upload, n: nat)
    requires n <= |u.messages|
  {
    forall i :: 0 <= i < n ==> !Offends(u, i)
  }

  ghost predicate FirstOffence(u: Upload, i: nat) {
    i < |u.messages| && Offends(u, i) && Clean(u, i)
  }

  lemma FirstOffenceUnique(u: Upload, i: nat, j: nat)
    requires FirstOffence(u, i) && FirstOffence(u, j)
    ensures i == j
  {
  }

  /** The outcome as a function of the header and the messages alone. */
  ghost function Prescribed(u: Upload): Outcome {
    if exists i: nat :: FirstOffence(u, i) then
      var i: nat :| FirstOffence(u, i);
      if u.messages[i].NotChunk? then ProtocolViolation else SizeMismatch
    else if u.digest(Payload(u)) != u.declaredHash then HashMismatch
    else if |Payload(u)| != u.declaredLength then Internal
    else Success
  }

  /** What the receiver's verdict says about the stream. */
  ghost predicate Justified(u: Upload, v: Verdict) {
    match v
    case Violation => exists i: nat :: FirstOffence(u, i) && u.messages[i].NotChunk?
    case TooLong => exists i: nat :: FirstOffence(u, i) && u.messages[i].Chunk?
    case WrongHash => Clean(u, |u.messages|) && u.digest(Payload(u)) != u.declaredHash
    case Accepted => Clean(u, |u.messages|) && u.digest(Payload(u)) == u.declaredHash
    case PipeBroken => true
  }

  lemma JustifiedOutcome(u: Upload, v: Verdict)
    requires Justified(u, v)
    ensures v.Violation? || v.TooLong? || v.WrongHash? ==> VerdictOutcome(v) == Prescribed(u)
    ensures v.Accepted? ==>
      Prescribed(u) == if |Payload(u)| == u.declaredLength then Success else Internal
  {
    if v.Violation? || v.TooLong? {
      var i: nat :| FirstOffence(u, i) && (u.messages[i].NotChunk? <==> v.Violation?);
      forall j: nat | FirstOffence(u, j) ensures j == i { FirstOffenceUnique(u, i, j); }
    }
  }

  // ---------- the invariant, by component ----------

  /** Where the receiver stands in the stream, and how much of it the reader has. */
  ghost predicate WriterInv(u: Upload, s: State) {
    && s.recv.next <= |u.messages|
    && s.file.taken <= |s.recv.hashed|
    && (s.recv.pc.Receiving? || s.recv.pc.Writing? ==>
      && Clean(u, s.recv.next)
      && s.recv.hashed == Received(u, s.recv.next)
      && s.recv.counter == |s.recv.hashed|
      && (0 < s.recv.next ==> s.recv.counter <= u.declaredLength))
    && (s.recv.pc.Writing? ==>
      && s.recv.pc.rest == s.recv.hashed[s.file.taken..]
      && 0 < s.recv.next
      && (s.recv.pc.rest == [] ==> u.messages[s.recv.next - 1] == Chunk([])))
    && (s.recv.pc.Receiving? || (!s.recv.pc.Writing? && !s.shared.readerClosed) ==> s.file.taken == |s.recv.hashed|)
    && |s.recv.hashed| <= (if u.declaredLength < 0 then 0 else u.declaredLength)
  }

  /** A verdict reached by the receiver is justified; if it read to the end, so is what it hashed. */
  ghost predicate VerdictInv(u: Upload, s: State, v: Verdict) {
    && Justified(u, v)
    && (v.PipeBroken? ==> s.shared.readerClosed)
    && (v.Accepted? || v.WrongHash? ==> s.recv.hashed == Payload(u))
  }

  predicate BeforeVerdict(w: WriterPc) {
    w.Receiving? || w.Writing? || w.Reporting?
  }

  /** The result channel: one value ever, put before the pipe is closed. */
  ghost predicate ChannelInv(u: Upload, s: State) {
    && s.shared.puts == (if BeforeVerdict(s.recv.pc) then 0 else 1)
    && (s.shared.slot.Some? ==> s.shared.puts == 1 && VerdictInv(u, s, s.shared.slot.value))
    && (s.recv.pc.Reporting? ==> VerdictInv(u, s, s.recv.pc.verdict))
    && (s.shared.writerClosed <==> s.recv.pc.Exited?)
    && (s.shared.readerClosed <==> s.main.Done?)
    && (PutFileRuns(s.main) || s.main.Selecting? || s.main.Waiting? ==> (s.shared.slot.Some? <==> s.shared.puts == 1))
    && (s.main.Discarding? || s.main.Committing? || s.main.Undoing? ==> s.shared.puts == 1)
  }

  predicate PutFileRuns(m: MainPc) {
    m.Creating? || m.Reading? || m.Storing? || m.Checking? || m.Removing?
  }

  /** The bytes read from the pipe. */
  function TakenBytes(s: State): Bytes {
    if s.file.taken <= |s.recv.hashed| then s.recv.hashed[..s.file.taken] else s.recv.hashed
  }

  function InHand(m: MainPc): Bytes {
    if m.Storing? then m.buffer else []
  }

  /** The file is what was taken from the pipe, but for what the main task holds. */
  ghost predicate FileInv(u: Upload, s: State) {
    && (s.main.Creating? ==>
      s.file.taken == 0 && s.file.copied == 0 && !s.file.copyFailed && s.file.content == u.prior)
    && (s.main.Reading? || s.main.Storing? ==> !s.file.copyFailed && s.file.content.Some?)
    && ((s.main.Reading? || s.main.Storing? || s.main.Checking?) && !s.file.copyFailed ==>
      && s.file.content.Some?
      && s.file.content.value + InHand(s.main) == TakenBytes(s)
      && s.file.copied == |s.file.content.value|)
    && (s.main.Checking? ==> s.file.content.Some?)
    && (s.main.Checking? && !s.file.copyFailed ==> u.declaredLength <= s.file.taken || s.shared.writerClosed)
    && (s.file.copyFailed ==> s.faulted)
  }

  ghost predicate Copied(u: Upload, s: State) {
    && |s.recv.hashed| == u.declaredLength == s.file.taken
    && s.file.content == Some(s.recv.hashed)
  }

  /** After PutFile, and what an outcome rests on. */
  ghost predicate HandlerInv(u: Upload, s: State) {
    && (s.main.Waiting? || s.main.Discarding? ==> Copied(u, s))
    && (s.main.Discarding? ==>
      && Justified(u, s.main.verdict)
      && !s.main.verdict.Accepted? && !s.main.verdict.PipeBroken?)
    && (s.main.Committing? || s.main.Undoing? ==>
      && Copied(u, s) && s.recv.hashed == Payload(u)
      && Justified(u, Accepted))
    && ((s.main.Removing? || s.main.Selecting?) && !s.faulted && 0 <= u.declaredLength ==>
      && s.shared.puts == 1 && |s.recv.hashed| != u.declaredLength)
    && (s.main.Selecting? && !s.cleanupFailed ==> s.file.content == None || s.file.content == u.prior)
    && (s.main.Selecting? && !s.faulted ==> s.file.content == None)
    && (s.main.Undoing? ==> s.faulted)
    && (s.main.Undoing? ==> s.row.RolledBack?)
    && (!s.main.Returning? && !s.main.Done? ==> !s.row.Committed? && (s.row.RolledBack? ==> s.faulted))
  }

  function Decided(m: MainPc): Option<Outcome> {
    match m
    case Returning(o) => Some(o)
    case Done(o) => Some(o)
    case _ => None
  }

  /** What a decided outcome says. */
  ghost predicate OutcomeInv(u: Upload, s: State, o: Outcome) {
    && (o == Internal || o == Prescribed(u))
    && (!s.faulted && 0 <= u.declaredLength ==> o == Prescribed(u) && s.shared.puts == 1)
    && (o.Success? ==> s.file.content == Some(Payload(u)) && s.row.Committed?)
    && (!o.Success? ==> !s.row.Committed?)
    && (!o.Success? && !s.cleanupFailed ==> s.file.content == None || s.file.content == u.prior)
    && (!o.Success? && !s.faulted ==> s.file.content == None)
    && (s.main.Done? ==> !s.row.Pending?)
  }

  ghost predicate Inv(u: Upload, s: State) {
    && WriterInv(u, s)
    && ChannelInv(u, s)
    && FileInv(u, s)
    && HandlerInv(u, s)
    && (Decided(s.main).Some? ==> OutcomeInv(u, s, Decided(s.main).value))
  }

  // ---------- it holds at the start and every step keeps it ----------

  lemma InitKeeps(u: Upload)
    ensures Inv(u, Init(u))
  {
  }

  /** A message that offends is reported. */
  lemma OffenceKeeps(u: Upload, s: State, t: State)
    requires Inv(u, s) && WriterEnabled(u, s, Receive) && t == ApplyWriter(u, s, Receive) && t.recv.pc.Reporting?
    ensures Inv(u, t)
  {
    assert FirstOffence(u, s.recv.next);
  }

  /** A chunk goes to the hasher, and to the pipe. */
  lemma ChunkKeepsWriter(u: Upload, s: State, t: State)
    requires Inv(u, s) && WriterEnabled(u, s, Receive) && t == ApplyWriter(u, s, Receive) && t.recv.pc.Writing?
    ensures WriterInv(u, t) && TakenBytes(t) == TakenBytes(s)
    ensures |s.recv.hashed| == u.declaredLength ==> t.recv.hashed == s.recv.hashed
  {
    var c := t.recv.pc.rest;
    assert Clean(u, s.recv.next + 1);
    assert (s.recv.hashed + c)[s.file.taken..] == c;
    assert c == [] ==> s.recv.hashed + c == s.recv.hashed;
  }

  /** Only the receiver moved, before its verdict. */
  lemma ChunkKeeps(u: Upload, s: State, t: State)
    requires Inv(u, s) && s.recv.pc.Receiving? && t == s.(recv := t.recv) && t.recv.pc.Writing?
    requires WriterInv(u, t) && TakenBytes(t) == TakenBytes(s)
    requires |s.recv.hashed| == u.declaredLength ==> t.recv.hashed == s.recv.hashed
    ensures Inv(u, t)
  {
  }

  lemma ReceiveKeeps(u: Upload, s: State, t: State)
    requires Inv(u, s) && WriterEnabled(u, s, Receive) && t == ApplyWriter(u, s, Receive)
    ensures Inv(u, t)
  {
    if t.recv.pc.Reporting? {
      OffenceKeeps(u, s, t);
    } else {
      ChunkKeepsWriter(u, s, t);
      ChunkKeeps(u, s, t);
    }
  }

  lemma WriterKeeps(u: Upload, s: State, a: Step, t: State)
    requires Inv(u, s) && WriterEnabled(u, s, a) && t == ApplyWriter(u, s, a)
    ensures Inv(u, t)
  {
    if a.Receive? {
      ReceiveKeeps(u, s, t);
    }
  }

  lemma TransferKeepsFile(u: Upload, s: State, n: nat)
    requires Inv(u, s) && PutFileEnabled(u, s, Transfer(n))
    ensures FileInv(u, ApplyTransfer(s, n))
  {
    assert s.recv.hashed[..s.file.taken] + s.recv.pc.rest[..n] == s.recv.hashed[..s.file.taken + n];
  }

  lemma TransferKeepsWriter(u: Upload, s: State, n: nat)
    requires Inv(u, s) && PutFileEnabled(u, s, Transfer(n))
    ensures WriterInv(u, ApplyTransfer(s, n))
  {
    assert s.recv.pc.rest[n..] == s.recv.hashed[s.file.taken + n..];
  }

  lemma TransferKeeps(u: Upload, s: State, n: nat)
    requires Inv(u, s) && PutFileEnabled(u, s, Transfer(n))
    ensures Inv(u, ApplyTransfer(s, n))
  {
    TransferKeepsFile(u, s, n);
    TransferKeepsWriter(u, s, n);
  }

  lemma StoreKeepsFile(u: Upload, s: State, a: Step)
    requires Inv(u, s) && PutFileEnabled(u, s, a) && (a.StoreOk? || a.StoreFails?)
    ensures FileInv(u, ApplyPutFile(u, s, a))
  {
    if a.StoreOk? {
      assert (s.file.content.value + s.main.buffer) + [] == TakenBytes(s);
    }
  }

  /** Only the copying went on. */
  ghost predicate OnlyCopied(s: State, t: State) {
    && t.recv == s.recv && t.shared == s.shared && t.row == s.row && t.cleanupFailed == s.cleanupFailed
    && t.file.taken == s.file.taken && s.main.Storing? && (t.main.Reading? || t.main.Checking?)
  }

  lemma CopyingKeeps(u: Upload, s: State, t: State)
    requires Inv(u, s) && OnlyCopied(s, t) && FileInv(u, t) && (s.faulted ==> t.faulted)
    ensures Inv(u, t)
  {
  }

  lemma StoreKeeps(u: Upload, s: State, a: Step)
    requires Inv(u, s) && PutFileEnabled(u, s, a) && (a.StoreOk? || a.StoreFails?)
    ensures Inv(u, ApplyPutFile(u, s, a))
  {
    StoreKeepsFile(u, s, a);
    CopyingKeeps(u, s, ApplyPutFile(u, s, a));
  }

  /** A file of the declared length is everything the receiver accepted; any other is too short. */
  lemma CheckedFile(u: Upload, s: State)
    requires Inv(u, s) && s.main.Checking? && !s.file.copyFailed
    ensures s.file.copied == u.declaredLength ==> Copied(u, s)
    ensures s.file.copied != u.declaredLength && 0 <= u.declaredLength ==>
      s.shared.writerClosed && |s.recv.hashed| != u.declaredLength
  {
    assert s.file.content.value + [] == s.file.content.value == TakenBytes(s);
    assert |TakenBytes(s)| == s.file.taken;
    if s.file.copied == u.declaredLength { assert TakenBytes(s) == s.recv.hashed; }
  }

  lemma CheckKeeps(u: Upload, s: State)
    requires Inv(u, s) && s.main.Checking?
    ensures Inv(u, ApplyPutFile(u, s, Check))
  {
    if !s.file.copyFailed { CheckedFile(u, s); }
  }

  lemma CreateKeeps(u: Upload, s: State, a: Step)
    requires Inv(u, s) && s.main.Creating? && (a.CreateOk? || a.CreateFails?)
    ensures Inv(u, ApplyPutFile(u, s, a))
  {
  }

  lemma EndOfReadKeeps(u: Upload, s: State, a: Step)
    requires Inv(u, s) && PutFileEnabled(u, s, a) && (a.LimitReached? || a.PipeEof?)
    ensures Inv(u, ApplyPutFile(u, s, a))
  {
  }

  lemma RemoveKeeps(u: Upload, s: State, a: Step)
    requires Inv(u, s) && s.main.Removing? && (a.RemoveOk? || a.RemoveFails?)
    ensures Inv(u, ApplyPutFile(u, s, a))
  {
  }

  lemma PutFileKeeps(u: Upload, s: State, a: Step)
    requires Inv(u, s) && PutFileEnabled(u, s, a)
    ensures Inv(u, ApplyPutFile(u, s, a))
  {
    match a
    case CreateOk => CreateKeeps(u, s, a);
    case CreateFails => CreateKeeps(u, s, a);
    case LimitReached => EndOfReadKeeps(u, s, a);
    case PipeEof => EndOfReadKeeps(u, s, a);
    case Transfer(n) => TransferKeeps(u, s, n);
    case StoreOk => StoreKeeps(u, s, a);
    case StoreFails(_) => StoreKeeps(u, s, a);
    case Check => CheckKeeps(u, s);
    case RemoveOk => RemoveKeeps(u, s, a);
    case RemoveFails => RemoveKeeps(u, s, a);
    case _ =>
  }

  lemma SelectKeeps(u: Upload, s: State)
    requires Inv(u, s) && s.main.Selecting?
    ensures Inv(u, ApplyHandler(s, Select))
  {
    if s.shared.slot.Some? { JustifiedOutcome(u, s.shared.slot.value); }
  }

  lemma TakeKeeps(u: Upload, s: State)
    requires Inv(u, s) && HandlerEnabled(s, Take)
    ensures Inv(u, ApplyHandler(s, Take))
  {
    JustifiedOutcome(u, s.shared.slot.value);
  }

  lemma DiscardKeeps(u: Upload, s: State, a: Step)
    requires Inv(u, s) && s.main.Discarding? && (a.DiscardOk? || a.DiscardFails?)
    ensures Inv(u, ApplyHandler(s, a))
  {
    JustifiedOutcome(u, s.main.verdict);
  }

  lemma CommitKeeps(u: Upload, s: State, a: Step)
    requires Inv(u, s) && HandlerEnabled(s, a) && (a.CommitOk? || a.CommitFails? || a.CommitTooLate?)
    ensures Inv(u, ApplyHandler(s, a))
  {
    JustifiedOutcome(u, Accepted);
  }

  lemma UndoKeeps(u: Upload, s: State, a: Step)
    requires Inv(u, s) && s.main.Undoing? && (a.UndoOk? || a.UndoFails?)
    ensures Inv(u, ApplyHandler(s, a))
  {
  }

  lemma ReturnKeeps(u: Upload, s: State, t: State)
    requires Inv(u, s) && s.main.Returning? && t == ApplyHandler(s, Return)
    ensures Inv(u, t)
  {
    assert WriterInv(u, t);
    assert ChannelInv(u, t);
  }

  lemma CancelKeeps(u: Upload, s: State)
    requires Inv(u, s) && s.row.Pending?
    ensures Inv(u, ApplyHandler(s, Cancel))
  {
  }

  lemma HandlerKeeps(u: Upload, s: State, a: Step)
    requires Inv(u, s) && HandlerEnabled(s, a)
    ensures Inv(u, ApplyHandler(s, a))
  {
    match a
    case Select => SelectKeeps(u, s);
    case Take => TakeKeeps(u, s);
    case DiscardOk => DiscardKeeps(u, s, a);
    case DiscardFails => DiscardKeeps(u, s, a);
    case CommitOk => CommitKeeps(u, s, a);
    case CommitFails => CommitKeeps(u, s, a);
    case CommitTooLate => CommitKeeps(u, s, a);
    case UndoOk => UndoKeeps(u, s, a);
    case UndoFails => UndoKeeps(u, s, a);
    case Return => ReturnKeeps(u, s, ApplyHandler(s, a));
    case Cancel => CancelKeeps(u, s);
    case _ =>
  }

  /** Every step of every schedule, faulty or not, keeps the invariant. */
  lemma StepKeeps(u: Upload, s: State, a: Step)
    requires Inv(u, s) && Enabled(u, s, a)
    ensures Inv(u, Apply(u, s, a))
  {
    if WriterEnabled(u, s, a) {
      WriterKeeps(u, s, a, Apply(u, s, a));
    } else if PutFileEnabled(u, s, a) {
      PutFileKeeps(u, s, a);
    } else {
      HandlerKeeps(u, s, a);
    }
  }

  lemma {:induction false} RunKeeps(u: Upload, s: State, steps: seq<Step>, t: State)
    requires Inv(u, s) && Run(u, s, steps, t)
    ensures Inv(u, t)
    decreases |steps|
  {
    if steps == [] {
    } else {
      StepKeeps(u, s, steps[0]);
      RunKeeps(u, Apply(u, s, steps[0]), steps[1..], t);
    }
  }

  lemma ReachableInv(u: Upload, s: State)
    requires Reachable(u, s)
    ensures Inv(u, s)
  {
    var steps :| Run(u, Init(u), steps, s);
    RunKeeps(u, Init(u), steps, s);
  }
}
