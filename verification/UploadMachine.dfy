/**
 One call of `PushAsset` after its row was inserted: the receiver goroutine and
 the main task, which runs `LocalFSStore.PutFile`, as a machine whose steps
 interleave freely. A step is one action on something the two tasks share (the
 pipe, the result channel), on the disk, or on the transaction.
 */
module UploadMachine {
  import opened Options
  import opened ByteStrings

  /** A message after the header: a chunk, or anything else. */
  datatype Message = Chunk(data: Bytes) | NotChunk

  /** What a call is given: `prior` is what its object name held before. */
  datatype Upload = Upload(
    digest: Digest,
    declaredHash: Bytes,
    declaredLength: int,
    messages: seq<Message>,
    prior: Option<Bytes>
  )

  /** The values the receiver puts in the result channel. */
  datatype Verdict = Accepted | Violation | TooLong | WrongHash | PipeBroken

  /** What the handler returns. */
  datatype Outcome = Success | ProtocolViolation | SizeMismatch | HashMismatch | Internal

  datatype WriterPc =
    | Receiving
    | Writing(rest: Bytes)        // inside the pipe write, `rest` not yet read
    | Reporting(verdict: Verdict) // sending to the result channel
    | Closing                     // running the deferred close of the pipe
    | Exited

  datatype MainPc =
    | Creating
    | Reading
    | Storing(buffer: Bytes)      // read from the pipe, not yet in the file
    | Checking
    | Removing
    | Selecting                   // PutFile failed: non-blocking look at the channel
    | Waiting                     // PutFile succeeded: blocking receive
    | Discarding(verdict: Verdict)
    | Committing
    | Undoing                     // clean-up after a failed commit
    | Returning(outcome: Outcome)
    | Done(outcome: Outcome)

  datatype Row = Pending | Committed | RolledBack

  datatype Receiver = Receiver(
    pc: WriterPc,
    next: nat,      // messages received
    counter: int,   // byteCounter
    hashed: Bytes   // what the hasher has been fed
  )

  datatype Shared = Shared(
    slot: Option<Verdict>,  // the one-slot result channel
    puts: nat,              // values ever put in it
    writerClosed: bool,     // the two ends of the pipe
    readerClosed: bool
  )

  datatype File = File(
    taken: nat,             // bytes read through the limiter
    copied: nat,            // bytes written to the file
    copyFailed: bool,
    content: Option<Bytes>  // what the object name holds now
  )

  datatype State = State(
    recv: Receiver,
    shared: Shared,
    main: MainPc,
    file: File,
    row: Row,
    faulted: bool,          // history: some disk or commit fault occurred
    cleanupFailed: bool     // history: some removal failed
  )

  function Init(u: Upload): State {
    State(Receiver(Receiving, 0, 0, []), Shared(None, 0, false, false),
          Creating, File(0, 0, false, u.prior), Pending, false, false)
  }

  datatype Step =
    // receiver goroutine
    | Receive
    | StreamEnd
    | WriteFails
    | Report
    | CloseWriter
    // PutFile
    | CreateOk
    | CreateFails
    | LimitReached
    | Transfer(count: nat)  // a read meets a write
    | PipeEof
    | StoreOk
    | StoreFails(written: nat)
    | Check
    | RemoveOk
    | RemoveFails
    // PushAsset
    | Select
    | Take
    | DiscardOk
    | DiscardFails
    | CommitOk
    | CommitFails
    | CommitTooLate  // the transaction has ended already
    | UndoOk
    | UndoFails
    | Return
    // the request's context ends, and the transaction with it
    | Cancel

  predicate IsFault(a: Step) {
    a.CreateFails? || a.StoreFails? || a.RemoveFails? || a.DiscardFails? || a.CommitFails? || a.UndoFails? || a.Cancel?
  }

  predicate WriterEnabled(u: Upload, s: State, a: Step) {
    match a
    case Receive => s.recv.pc.Receiving? && s.recv.next < |u.messages|
    case StreamEnd => s.recv.pc.Receiving? && s.recv.next == |u.messages|
    case WriteFails => s.recv.pc.Writing? && s.shared.readerClosed
    case Report => s.recv.pc.Reporting? && s.shared.slot.None?
    case CloseWriter => s.recv.pc.Closing?
    case _ => false
  }

  predicate PutFileEnabled(u: Upload, s: State, a: Step) {
    match a
    case CreateOk => s.main.Creating?
    case CreateFails => s.main.Creating?
    case LimitReached => s.main.Reading? && u.declaredLength <= s.file.taken
    case Transfer(n) =>
      // A read takes part of what the write offers, but never nothing of something.
      && s.main.Reading? && s.file.taken < u.declaredLength
      && s.recv.pc.Writing? && !s.shared.readerClosed
      && n <= |s.recv.pc.rest| && s.file.taken + n <= u.declaredLength
      && (n == 0 ==> s.recv.pc.rest == [])
    case PipeEof => s.main.Reading? && s.file.taken < u.declaredLength && s.shared.writerClosed
    case StoreOk => s.main.Storing?
    case StoreFails(n) => s.main.Storing? && n <= |s.main.buffer|
    case Check => s.main.Checking?
    case RemoveOk => s.main.Removing?
    case RemoveFails => s.main.Removing?
    case _ => false
  }

  predicate HandlerEnabled(s: State, a: Step) {
    match a
    case Select => s.main.Selecting?
    case Take => s.main.Waiting? && s.shared.slot.Some?
    case DiscardOk => s.main.Discarding?
    case DiscardFails => s.main.Discarding?
    case CommitOk => s.main.Committing? && s.row.Pending?
    case CommitFails => s.main.Committing? && s.row.Pending?
    case CommitTooLate => s.main.Committing? && !s.row.Pending?
    case UndoOk => s.main.Undoing?
    case UndoFails => s.main.Undoing?
    case Return => s.main.Returning?
    case Cancel => s.row.Pending?
    case _ => false
  }

  predicate Enabled(u: Upload, s: State, a: Step) {
    WriterEnabled(u, s, a) || PutFileEnabled(u, s, a) || HandlerEnabled(s, a)
  }

  function VerdictOutcome(v: Verdict): Outcome {
    match v
    case Violation => ProtocolViolation
    case TooLong => SizeMismatch
    case WrongHash => HashMismatch
    case PipeBroken => Internal
    case Accepted => Internal
  }

  function ReceiveNext(u: Upload, r: Receiver): Receiver
    requires r.next < |u.messages|
  {
    match u.messages[r.next]
    case NotChunk => r.(next := r.next + 1, pc := Reporting(Violation))
    case Chunk(c) =>
      var counter := r.counter + |c|;
      if counter > u.declaredLength then
        r.(next := r.next + 1, counter := counter, pc := Reporting(TooLong))
      else
        r.(next := r.next + 1, counter := counter, hashed := r.hashed + c, pc := Writing(c))
  }

  function ApplyWriter(u: Upload, s: State, a: Step): State
    requires WriterEnabled(u, s, a)
  {
    match a
    case Receive => s.(recv := ReceiveNext(u, s.recv))
    case StreamEnd =>
      var verdict := if u.digest(s.recv.hashed) == u.declaredHash then Accepted else WrongHash;
      s.(recv := s.recv.(pc := Reporting(verdict)))
    case WriteFails => s.(recv := s.recv.(pc := Reporting(PipeBroken)))
    case Report =>
      s.(recv := s.recv.(pc := Closing),
         shared := s.shared.(slot := Some(s.recv.pc.verdict), puts := s.shared.puts + 1))
    case CloseWriter =>
      s.(recv := s.recv.(pc := Exited), shared := s.shared.(writerClosed := true))
  }

  function ApplyTransfer(s: State, n: nat): State
    requires s.recv.pc.Writing? && n <= |s.recv.pc.rest|
  {
    var rest := s.recv.pc.rest;
    s.(recv := s.recv.(pc := if n == |rest| then Receiving else Writing(rest[n..])),
       file := s.file.(taken := s.file.taken + n),
       main := if n == 0 then Reading else Storing(rest[..n]))
  }

  /** The file with more bytes at its end. */
  function Append(f: File, more: Bytes): File {
    f.(content := Some((if f.content.Some? then f.content.value else []) + more), copied := f.copied + |more|)
  }

  function Remove(f: File): File {
    f.(content := None)
  }

  function ApplyPutFile(u: Upload, s: State, a: Step): State
    requires PutFileEnabled(u, s, a)
  {
    match a
    case CreateOk => s.(main := Reading, file := s.file.(content := Some([])))
    case CreateFails => s.(main := Selecting, faulted := true)
    case LimitReached => s.(main := Checking)
    case Transfer(n) => ApplyTransfer(s, n)
    case PipeEof => s.(main := Checking)
    case StoreOk => s.(main := Reading, file := Append(s.file, s.main.buffer))
    case StoreFails(n) =>
      s.(main := Checking, file := Append(s.file, s.main.buffer[..n]).(copyFailed := true), faulted := true)
    case Check =>
      s.(main := if s.file.copied != u.declaredLength || s.file.copyFailed then Removing else Waiting)
    case RemoveOk => s.(main := Selecting, file := Remove(s.file))
    case RemoveFails => s.(main := Selecting, faulted := true, cleanupFailed := true)
  }

  function ApplyHandler(s: State, a: Step): State
    requires HandlerEnabled(s, a)
  {
    match a
    case Select =>
      var outcome := if s.shared.slot.Some? then VerdictOutcome(s.shared.slot.value) else Internal;
      s.(main := Returning(outcome), shared := s.shared.(slot := None))
    case Take =>
      var v := s.shared.slot.value;
      s.(main := if v.Accepted? then Committing else Discarding(v), shared := s.shared.(slot := None))
    case DiscardOk => s.(main := Returning(VerdictOutcome(s.main.verdict)), file := Remove(s.file))
    case DiscardFails =>
      s.(main := Returning(VerdictOutcome(s.main.verdict)), faulted := true, cleanupFailed := true)
    case CommitOk => s.(main := Returning(Success), row := Committed)
    // A failed commit has ended the transaction.
    case CommitFails => s.(main := Undoing, row := RolledBack, faulted := true)
    case CommitTooLate => s.(main := Undoing)
    case UndoOk => s.(main := Returning(Internal), file := Remove(s.file))
    case UndoFails => s.(main := Returning(Internal), faulted := true, cleanupFailed := true)
    // The deferred calls: close the reader, roll back unless committed.
    case Return =>
      s.(main := Done(s.main.outcome), shared := s.shared.(readerClosed := true),
         row := if s.row.Committed? then Committed else RolledBack)
    case Cancel => s.(row := RolledBack, faulted := true)
  }

  function Apply(u: Upload, s: State, a: Step): State
    requires Enabled(u, s, a)
  {
    if WriterEnabled(u, s, a) then ApplyWriter(u, s, a)
    else if PutFileEnabled(u, s, a) then ApplyPutFile(u, s, a)
    else ApplyHandler(s, a)
  }

  /** `steps` is a schedule that leads from `s` to `t`. */
  ghost predicate Run(u: Upload, s: State, steps: seq<Step>, t: State)
    decreases |steps|
  {
    if steps == [] then s == t
    else Enabled(u, s, steps[0]) && Run(u, Apply(u, s, steps[0]), steps[1..], t)
  }

  /** Both tasks have ended. */
  predicate Finished(s: State) {
    s.main.Done? && s.recv.pc.Exited?
  }

  /** No task can move; only a cancellation may still come. */
  ghost predicate Halted(u: Upload, s: State) {
    forall a :: Enabled(u, s, a) ==> a.Cancel?
  }

  ghost predicate Reachable(u: Upload, s: State) {
    exists steps :: Run(u, Init(u), steps, s)
  }
}
