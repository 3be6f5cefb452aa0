/** The CLI's side of the key exchange, composed with the server over one stream in each direction. */
module SshExchange {
  import opened Options
  import opened ByteStrings
  import opened SshKeys

  /** Who takes part: the server's keys, and the keys of the client's agent with what it signs. */
  datatype Parties = Parties(
    crypto: Crypto,
    table: seq<KeyRow>,
    keys: seq<Key>,
    sign: (Key, Bytes) -> Signature
  )

  datatype ClientResult = GotToken(token: Token) | NoKeysAccepted | ClientViolation | StreamFailed

  datatype Client =
    | Presenting(i: nat)       // about to offer key i
    | AwaitingVerdict(i: nat)
    | AwaitingToken(i: nat)
    | Ended(result: ClientResult)

  datatype World = World(
    client: Client,
    server: Server,
    toServer: seq<ClientMessage>,
    toClient: seq<ServerMessage>,
    open: bool  // the handler has not returned
  )

  datatype Step = ClientMove | ServerMove(nonce: Bytes) | HandlerReturns | TimesOut

  const START: World := World(Presenting(0), Offering(0), [], [], true)

  predicate ClientCanMove(w: World) {
    w.client.Presenting? || (!w.client.Ended? && (w.toClient != [] || !w.open))
  }

  predicate ServerCanMove(w: World) {
    !w.server.Stopped? && w.toServer != []
  }

  /** The timeout is long enough for the messages: it strikes only when nobody has anything to do. */
  predicate Enabled(w: World, a: Step) {
    match a
    case ClientMove => ClientCanMove(w)
    case ServerMove(_) => ServerCanMove(w)
    case HandlerReturns => w.open && w.server.Stopped? && w.server.report.Some?
    case TimesOut => w.open && !ClientCanMove(w) && !ServerCanMove(w) && !(w.server.Stopped? && w.server.report.Some?)
  }

  /** AuthenticateSSH, from one blocking call to the next. */
  function ClientStep(p: Parties, w: World): World
    requires ClientCanMove(w)
  {
    match w.client
    case Presenting(i) =>
      if i >= |p.keys| then w.(client := Ended(NoKeysAccepted))
      else if !w.open then w.(client := Ended(StreamFailed))
      else
        w.(client := AwaitingVerdict(i), toServer := w.toServer + [Fingerprint(p.crypto.fingerprint(p.keys[i]))])
    case AwaitingVerdict(i) =>
      if w.toClient == [] then w.(client := Ended(StreamFailed))
      else
        var w' := w.(toClient := w.toClient[1..]);
        (match w.toClient[0]
         case Approved(nonce) =>
           if i >= |p.keys| then w'.(client := Ended(ClientViolation))
           else w'.(client := AwaitingToken(i), toServer := w.toServer + [Signed(p.sign(p.keys[i], nonce))])
         case Rejected => w'.(client := Presenting(i + 1))
         case Granted(_) => w'.(client := Ended(ClientViolation)))
    case AwaitingToken(i) =>
      if w.toClient == [] then w.(client := Ended(StreamFailed))
      else
        var result := if w.toClient[0].Granted? then GotToken(w.toClient[0].token) else ClientViolation;
        w.(client := Ended(result), toClient := w.toClient[1..])
  }

  function Apply(p: Parties, w: World, a: Step): World
    requires Enabled(w, a)
  {
    match a
    case ClientMove => ClientStep(p, w)
    case ServerMove(nonce) =>
      var (s, reply) := React(p.crypto, p.table, w.server, Input(Some(w.toServer[0]), nonce, NoFault));
      w.(server := s, toServer := w.toServer[1..],
         toClient := w.toClient + if reply.Some? then [reply.value] else [])
    case HandlerReturns => w.(open := false)
    case TimesOut => w.(open := false)
  }

  ghost predicate Run(p: Parties, w: World, steps: seq<Step>, w': World)
    decreases |steps|
  {
    if steps == [] then w == w'
    else Enabled(w, steps[0]) && Run(p, Apply(p, w, steps[0]), steps[1..], w')
  }

  /** The agent's signatures verify, and no registered key shares a fingerprint with another of its keys. */
  ghost predicate Honest(p: Parties) {
    && TableInv(p.crypto, p.table)
    && (forall k, nonce :: p.crypto.verifies(k, nonce, p.sign(k, nonce)))
    && (forall i, j :: 0 <= i < |p.keys| && 0 <= j < |p.table| && SamePrint(p, i, j) ==>
      p.crypto.parse(p.table[j].publicKey) == Some(p.keys[i]))
  }

  predicate SamePrint(p: Parties, i: nat, j: nat)
    requires i < |p.keys| && j < |p.table|
  {
    p.table[j].fingerprint == p.crypto.fingerprint(p.keys[i])
  }

  function RowOf(p: Parties, i: nat): Option<KeyRow>
    requires i < |p.keys|
  {
    UserByFingerprint(p.table, p.crypto.fingerprint(p.keys[i]))
  }

  /** None of the first n keys is registered. */
  ghost predicate NoneBefore(p: Parties, n: nat)
    requires n <= |p.keys|
  {
    forall j :: 0 <= j < n ==> RowOf(p, j).None?
  }

  /** Key i is the first registered one, and among those the server will look at. */
  ghost predicate FirstRegistered(p: Parties, i: nat) {
    i < |p.keys| && i < MAX_KEY_OFFERINGS && NoneBefore(p, i) && RowOf(p, i).Some?
  }

  /** What the exchange comes to, as a function of the keys alone. */
  ghost predicate Right(p: Parties, r: ClientResult) {
    match r
    case GotToken(token) =>
      exists i: nat :: FirstRegistered(p, i) &&
        token == Token(RowOf(p, i).value.user, p.crypto.fingerprint(p.keys[i]))
    case NoKeysAccepted => |p.keys| <= MAX_KEY_OFFERINGS && NoneBefore(p, |p.keys|)
    case StreamFailed => |p.keys| > MAX_KEY_OFFERINGS && NoneBefore(p, MAX_KEY_OFFERINGS)
    case ClientViolation => false
  }

  function Expecting(round: nat): Server {
    if round < MAX_KEY_OFFERINGS then Offering(round) else Stopped(None)
  }

  /** The server has answered the offer of key i. */
  ghost predicate Answered(p: Parties, w: World, i: nat)
    requires i < |p.keys|
  {
    i < MAX_KEY_OFFERINGS && w.toServer == [] && |w.toClient| == 1 &&
    match RowOf(p, i)
    case None => w.toClient[0] == Rejected && w.server == Expecting(i + 1)
    case Some(row) =>
      w.toClient[0].Approved? &&
      w.server == Challenging(i, p.crypto.fingerprint(p.keys[i]), row, w.toClient[0].nonce)
  }

  ghost predicate Inv(p: Parties, w: World) {
    match w.client
    case Presenting(i) =>
      && i <= |p.keys| && i <= MAX_KEY_OFFERINGS && NoneBefore(p, i)
      && w.open && w.toServer == [] && w.toClient == [] && w.server == Expecting(i)
    case AwaitingVerdict(i) =>
      && i < |p.keys| && i <= MAX_KEY_OFFERINGS && NoneBefore(p, i)
      && (!w.open ==> i == MAX_KEY_OFFERINGS)
      && ((w.toServer == [Fingerprint(p.crypto.fingerprint(p.keys[i]))] && w.toClient == [] && w.server == Expecting(i))
          || Answered(p, w, i))
    case AwaitingToken(i) =>
      && FirstRegistered(p, i)
      && (w.server.Challenging? ==>
        && w.open && w.toClient == []
        && w.server.row == RowOf(p, i).value && w.server.fingerprint == p.crypto.fingerprint(p.keys[i])
        && w.toServer == [Signed(p.sign(p.keys[i], w.server.nonce))])
      && (!w.server.Challenging? ==>
        && w.server == Stopped(Some(Finished)) && w.toServer == []
        && w.toClient == [Granted(Token(RowOf(p, i).value.user, p.crypto.fingerprint(p.keys[i])))])
    case Ended(r) => Right(p, r)
  }

  lemma ClientKeeps(p: Parties, w: World)
    requires Honest(p) && Inv(p, w) && ClientCanMove(w)
    ensures Inv(p, ClientStep(p, w))
  {
  }

  lemma ServerKeeps(p: Parties, w: World, nonce: Bytes)
    requires Honest(p) && Inv(p, w) && ServerCanMove(w)
    ensures Inv(p, Apply(p, w, ServerMove(nonce)))
  {
    if w.client.AwaitingToken? {
      ApprovedKeyIsOwn(p, w.client.i);
    }
  }

  /** The row found for an own key holds that key. */
  lemma ApprovedKeyIsOwn(p: Parties, i: nat)
    requires Honest(p) && i < |p.keys| && RowOf(p, i).Some?
    ensures p.crypto.parse(RowOf(p, i).value.publicKey) == Some(p.keys[i])
  {
    var j :| 0 <= j < |p.table| && p.table[j] == RowOf(p, i).value && p.table[j].fingerprint == p.crypto.fingerprint(p.keys[i]);
    assert SamePrint(p, i, j);
  }

  lemma StepKeeps(p: Parties, w: World, a: Step)
    requires Honest(p) && Inv(p, w) && Enabled(w, a)
    ensures Inv(p, Apply(p, w, a))
  {
    match a
    case ClientMove => ClientKeeps(p, w);
    case ServerMove(nonce) => ServerKeeps(p, w, nonce);
    case _ =>
  }

  // ---------- the exchange ends ----------

  function ClientRank(p: Parties, cl: Client): int {
    match cl
    case Presenting(i) => 6 * (|p.keys| - i) + 5
    case AwaitingVerdict(i) => 6 * (|p.keys| - i) + 2
    case AwaitingToken(i) => 6 * (|p.keys| - i) - 2
    case Ended(_) => 0
  }

  function Measure(p: Parties, w: World): int {
    ClientRank(p, w.client) + 2 * |w.toServer| + |w.toClient| + if w.open then 1 else 0
  }

  lemma StepDecreases(p: Parties, w: World, a: Step)
    requires Honest(p) && Inv(p, w) && Enabled(w, a)
    ensures 0 <= Measure(p, Apply(p, w, a)) < Measure(p, w)
  {
    if a.ServerMove? && w.client.AwaitingToken? { ApprovedKeyIsOwn(p, w.client.i); }
  }

  lemma {:induction false} RunsAreRight(p: Parties, w: World, steps: seq<Step>, w': World)
    requires Honest(p) && Inv(p, w) && Run(p, w, steps, w')
    ensures Inv(p, w') && |steps| + Measure(p, w') <= Measure(p, w)
    decreases |steps|
  {
    if steps == [] {
    } else {
      StepKeeps(p, w, steps[0]);
      StepDecreases(p, w, steps[0]);
      RunsAreRight(p, Apply(p, w, steps[0]), steps[1..], w');
    }
  }

  /**
   However the two sides interleave and whatever nonces are drawn, once nothing can move the
   client has a token exactly when one of its first 15 keys is registered: for the first such key
   and its owner. Otherwise it has run out of keys, or after 15 rejections waited for the timeout.
   */
  lemma ExchangeOutcome(p: Parties, steps: seq<Step>, w: World)
    requires Honest(p) && Run(p, START, steps, w)
    requires forall a :: !Enabled(w, a)
    ensures w.client.Ended? && Right(p, w.client.result)
    ensures w.client.result.GotToken? <==> exists i: nat :: FirstRegistered(p, i)
    ensures |steps| <= 6 * |p.keys| + 6
  {
    RunsAreRight(p, START, steps, w);
    assert !Enabled(w, ClientMove) && !Enabled(w, ServerMove([])) && !Enabled(w, HandlerReturns) && !Enabled(w, TimesOut);
    RightIsUnique(p, w.client.result);
  }

  lemma RightIsUnique(p: Parties, r: ClientResult)
    requires Right(p, r)
    ensures r.GotToken? <==> exists i: nat :: FirstRegistered(p, i)
  {
    if !r.GotToken? {
      forall i: nat ensures !FirstRegistered(p, i) {
        if i < |p.keys| && i < MAX_KEY_OFFERINGS { assert RowOf(p, i).None?; }
      }
    }
  }
}
