/** The table of registered SSH keys, and the server's side of the key exchange. */
module SshKeys {
  import opened Options
  import opened ByteStrings
  import Store

  type User = Store.User
  type Key = string

  datatype Signature = Signature(format: string, blob: Bytes)

  /** Stands for key parsing, fingerprints and signature checks. */
  datatype Crypto = Crypto(
    parse: string -> Option<Key>,
    fingerprint: Key -> string,
    verifies: (Key, Bytes, Signature) -> bool
  )

  // ---------- the key table ----------

  datatype KeyRow = KeyRow(user: User, publicKey: string, fingerprint: string)

  /** Adding a key to a profile: an unreadable or already registered key adds nothing. */
  function AddKey(c: Crypto, t: seq<KeyRow>, user: User, text: string): seq<KeyRow> {
    match c.parse(text)
    case None => t
    case Some(key) =>
      var row := KeyRow(user, text, c.fingerprint(key));
      if exists i :: 0 <= i < |t| && (t[i].publicKey == text || t[i].fingerprint == row.fingerprint) then t
      else t + [row]
  }

  /** Removing a key from a profile: only the owner's own rows go. */
  function RemoveKey(t: seq<KeyRow>, user: User, id: nat): seq<KeyRow> {
    if id < |t| && t[id].user == user then t[..id] + t[id + 1..] else t
  }

  predicate Fits(c: Crypto, row: KeyRow) {
    c.parse(row.publicKey).Some? && row.fingerprint == c.fingerprint(c.parse(row.publicKey).value)
  }

  /** The fingerprint column is that of the key column, and no fingerprint is there twice. */
  ghost predicate TableInv(c: Crypto, t: seq<KeyRow>) {
    && (forall i :: 0 <= i < |t| ==> Fits(c, t[i]))
    && (forall i, j :: 0 <= i < j < |t| ==> t[i].fingerprint != t[j].fingerprint)
  }

  /** GetUserBySshKey. */
  function UserByFingerprint(t: seq<KeyRow>, fingerprint: string): (r: Option<KeyRow>)
    ensures r.Some? ==> r.value in t && r.value.fingerprint == fingerprint
    ensures r.None? ==> forall row :: row in t ==> row.fingerprint != fingerprint
  {
    var i := Find(t, (r: KeyRow) => r.fingerprint == fingerprint);
    if i.Some? then Some(t[i.value]) else None
  }

  /** The key the text holds is not in the table yet, under this text or any other. */
  ghost predicate NewKey(c: Crypto, t: seq<KeyRow>, text: string) {
    c.parse(text).Some? &&
    forall row :: row in t ==> row.publicKey != text && row.fingerprint != c.fingerprint(c.parse(text).value)
  }

  /** A readable new key is added with its fingerprint and user, and then found by it; any other adds nothing. */
  lemma AddKeepsTable(c: Crypto, t: seq<KeyRow>, user: User, text: string)
    requires TableInv(c, t)
    ensures TableInv(c, AddKey(c, t, user, text))
    ensures NewKey(c, t, text) ==>
      var row := KeyRow(user, text, c.fingerprint(c.parse(text).value));
      AddKey(c, t, user, text) == t + [row] && UserByFingerprint(AddKey(c, t, user, text), row.fingerprint) == Some(row)
    ensures !NewKey(c, t, text) ==> AddKey(c, t, user, text) == t
  {
    var t' := AddKey(c, t, user, text);
    if |t'| > |t| {
      assert t'[|t|] == KeyRow(user, text, c.fingerprint(c.parse(text).value));
      assert forall i :: 0 <= i < |t| ==> t'[i] == t[i];
    }
    assert NewKey(c, t, text) ==> forall i :: 0 <= i < |t| ==> t[i] in t;
  }

  /** Removing takes the named row if it is the user's own, and no other. */
  lemma RemoveKeepsTable(c: Crypto, t: seq<KeyRow>, user: User, id: nat)
    requires TableInv(c, t)
    ensures TableInv(c, RemoveKey(t, user, id))
    ensures forall row :: row in RemoveKey(t, user, id) <==>
      row in t && !(id < |t| && t[id].user == user && row == t[id])
  {
    if id < |t| && t[id].user == user {
      RemovedRow(c, t, t[..id] + t[id + 1..], id);
    }
  }

  lemma RemovedRow(c: Crypto, t: seq<KeyRow>, t': seq<KeyRow>, id: nat)
    requires TableInv(c, t) && id < |t| && t' == t[..id] + t[id + 1..]
    ensures TableInv(c, t')
    ensures forall row :: row in t' <==> row in t && row != t[id]
  {
    assert forall i :: 0 <= i < |t'| ==> t'[i] == if i < id then t[i] else t[i + 1];
    forall row ensures row in t' <==> row in t && row != t[id] {
      if row in t && row != t[id] {
        var i :| 0 <= i < |t| && t[i] == row;
        assert t'[if i < id then i else i - 1] == row;
      }
    }
  }

  // ---------- the server automaton ----------

  const MAX_KEY_OFFERINGS: nat := 15

  datatype ClientMessage = Fingerprint(fingerprint: string) | Signed(signature: Signature) | Empty

  datatype Token = Token(subject: User, fingerprint: string)

  datatype ServerMessage = Rejected | Approved(nonce: Bytes) | Granted(token: Token)

  datatype Finish = Finished | ProtocolViolation | AuthenticationFailed | InternalError

  /** `report` is what went into the result channel; a goroutine may also end without putting anything. */
  datatype Server =
    | Offering(round: nat)
    | Challenging(round: nat, fingerprint: string, row: KeyRow, nonce: Bytes)
    | Stopped(report: Option<Finish>)

  datatype Fault = NoFault | DatabaseFails | SendFails

  /** One receive: the message, None if it failed; the nonce drawn should one be needed; and what else goes wrong. */
  datatype Input = Input(message: Option<ClientMessage>, nonce: Bytes, fault: Fault)

  datatype Event = Got(message: ClientMessage) | Sent(reply: ServerMessage)

  /** What the server does with what it receives in an offering. */
  function Offer(t: seq<KeyRow>, round: nat, x: Input): (Server, Option<ServerMessage>) {
    if x.message.None? then (Stopped(Some(InternalError)), None)
    else if !x.message.value.Fingerprint? then (Stopped(Some(ProtocolViolation)), None)
    else if x.fault.DatabaseFails? then (Stopped(Some(InternalError)), None)
    else
      match UserByFingerprint(t, x.message.value.fingerprint)
      case None =>
        if x.fault.SendFails? then (Stopped(None), None)
        else (if round + 1 < MAX_KEY_OFFERINGS then Offering(round + 1) else Stopped(None), Some(Rejected))
      case Some(row) =>
        if x.fault.SendFails? then (Stopped(None), None)
        else (Challenging(round, x.message.value.fingerprint, row, x.nonce), Some(Approved(x.nonce)))
  }

  /** And after its challenge. */
  function Answer(c: Crypto, s: Server, x: Input): (Server, Option<ServerMessage>)
    requires s.Challenging?
  {
    if x.message.None? then (Stopped(None), None)
    else if !x.message.value.Signed? then (Stopped(Some(ProtocolViolation)), None)
    else
      match c.parse(s.row.publicKey)
      case None => (Stopped(Some(ProtocolViolation)), None)
      case Some(key) =>
        if !c.verifies(key, s.nonce, x.message.value.signature) then (Stopped(Some(AuthenticationFailed)), None)
        else if !x.fault.NoFault? then (Stopped(Some(InternalError)), None)
        else (Stopped(Some(Finished)), Some(Granted(Token(s.row.user, s.fingerprint))))
  }

  function React(c: Crypto, t: seq<KeyRow>, s: Server, x: Input): (Server, Option<ServerMessage>)
    requires !s.Stopped?
  {
    if s.Offering? then Offer(t, s.round, x) else Answer(c, s, x)
  }

  function Record(x: Input, reply: Option<ServerMessage>): seq<Event> {
    (if x.message.Some? then [Got(x.message.value)] else []) + (if reply.Some? then [Sent(reply.value)] else [])
  }

  /** What passes over the stream, from the server's side, while it reads these inputs. */
  function Trace(c: Crypto, t: seq<KeyRow>, s: Server, inputs: seq<Input>): seq<Event>
    decreases |inputs|
  {
    if inputs == [] || s.Stopped? then []
    else
      var (s', reply) := React(c, t, s, inputs[0]);
      Record(inputs[0], reply) + Trace(c, t, s', inputs[1..])
  }

  function End(c: Crypto, t: seq<KeyRow>, s: Server, inputs: seq<Input>): Server
    decreases |inputs|
  {
    if inputs == [] || s.Stopped? then s else End(c, t, React(c, t, s, inputs[0]).0, inputs[1..])
  }

  function Reported(s: Server): Option<Finish> {
    if s.Stopped? then s.report else None
  }

  lemma OneStep(c: Crypto, t: seq<KeyRow>, s: Server, inputs: seq<Input>, n: nat)
    requires n < |inputs| && !s.Stopped?
    ensures var (s', reply) := React(c, t, s, inputs[n]);
      && Trace(c, t, s, inputs[n..]) == Record(inputs[n], reply) + Trace(c, t, s', inputs[n + 1..])
      && End(c, t, s, inputs[n..]) == End(c, t, s', inputs[n + 1..])
  {
    assert inputs[n..][1..] == inputs[n + 1..];
  }

  lemma NoMoreSteps(c: Crypto, t: seq<KeyRow>, s: Server, inputs: seq<Input>)
    requires s.Stopped? || inputs == []
    ensures Trace(c, t, s, inputs) == [] && End(c, t, s, inputs) == s
  {
  }

  lemma ChallengeEnds(c: Crypto, t: seq<KeyRow>, s: Server, inputs: seq<Input>, n: nat)
    requires n < |inputs| && s.Challenging?
    ensures Trace(c, t, s, inputs[n..]) == Record(inputs[n], Answer(c, s, inputs[n]).1)
    ensures End(c, t, s, inputs[n..]) == Answer(c, s, inputs[n]).0 && Answer(c, s, inputs[n]).0.Stopped?
  {
    OneStep(c, t, s, inputs, n);
    NoMoreSteps(c, t, Answer(c, s, inputs[n]).0, inputs[n + 1..]);
  }

  // ---------- the exchange in terms of what the server receives ----------

  ghost predicate Registered(t: seq<KeyRow>, fingerprint: string) {
    exists row :: row in t && row.fingerprint == fingerprint
  }

  /** An offer of a key that is not registered, and nothing fails. */
  ghost predicate TurnedAway(t: seq<KeyRow>, x: Input) {
    && x.message.Some? && x.message.value.Fingerprint? && x.fault.NoFault?
    && !Registered(t, x.message.value.fingerprint)
  }

  /** What n such offers leave on the stream. */
  function Rejections(inputs: seq<Input>, n: nat): (trace: seq<Event>)
    requires n <= |inputs| && forall i :: 0 <= i < n ==> inputs[i].message.Some?
    ensures |trace| == 2 * n
    ensures forall i :: 0 <= i < n ==> trace[2 * i] == Got(inputs[i].message.value) && trace[2 * i + 1] == Sent(Rejected)
  {
    if n == 0 then [] else Rejections(inputs, n - 1) + [Got(inputs[n - 1].message.value), Sent(Rejected)]
  }

  /** A round that is not turned away, from its offer x, and what follows it, to the report. */
  ghost predicate Concludes(
    c: Crypto, t: seq<KeyRow>, x: Input, y: Option<Input>, tail: seq<Event>, report: Option<Finish>)
  {
    if x.message.None? then tail == [] && report == Some(InternalError)
    else if !x.message.value.Fingerprint? then tail == [Got(x.message.value)] && report == Some(ProtocolViolation)
    else if x.fault.DatabaseFails? then tail == [Got(x.message.value)] && report == Some(InternalError)
    else if x.fault.SendFails? then tail == [Got(x.message.value)] && report == None
    else exists row :: row in t && row.fingerprint == x.message.value.fingerprint && Approves(c, row, x, y, tail, report)
  }

  /** The challenge is the nonce drawn for the round, and the signature must be good over it. */
  ghost predicate Approves(c: Crypto, row: KeyRow, x: Input, y: Option<Input>, tail: seq<Event>, report: Option<Finish>)
    requires x.message.Some?
  {
    var challenge := [Got(x.message.value), Sent(Approved(x.nonce))];
    if y.None? || y.value.message.None? then tail == challenge && report == None
    else
      var m := y.value.message.value;
      var key := c.parse(row.publicKey);
      if !m.Signed? || key.None? then tail == challenge + [Got(m)] && report == Some(ProtocolViolation)
      else if !c.verifies(key.value, x.nonce, m.signature) then
        tail == challenge + [Got(m)] && report == Some(AuthenticationFailed)
      else if !y.value.fault.NoFault? then tail == challenge + [Got(m)] && report == Some(InternalError)
      else
        && tail == challenge + [Got(m), Sent(Granted(Token(row.user, row.fingerprint)))]
        && report == Some(Finished)
  }

  /** n offers are turned away, of `left` at most; then the inputs are at an end, or a round concludes. */
  ghost predicate Follows(
    c: Crypto, t: seq<KeyRow>, left: nat, inputs: seq<Input>, n: nat, trace: seq<Event>, report: Option<Finish>)
  {
    && n <= left && n <= |inputs| && (forall i :: 0 <= i < n ==> TurnedAway(t, inputs[i]))
    && 2 * n <= |trace| && trace[..2 * n] == Rejections(inputs, n)
    && if n == left || n == |inputs| then |trace| == 2 * n && report == None
       else
         && !TurnedAway(t, inputs[n])
         && Concludes(c, t, inputs[n], if n + 1 < |inputs| then Some(inputs[n + 1]) else None, trace[2 * n..], report)
  }

  lemma {:induction false} RejectionsFirst(inputs: seq<Input>, n: nat)
    requires 0 < n <= |inputs| && forall i :: 0 <= i < n ==> inputs[i].message.Some?
    ensures Rejections(inputs, n) == [Got(inputs[0].message.value), Sent(Rejected)] + Rejections(inputs[1..], n - 1)
  {
    if n == 1 {
    } else {
      RejectionsFirst(inputs, n - 1);
    }
  }

  lemma TurnedAwayFirst(t: seq<KeyRow>, inputs: seq<Input>, n: nat)
    requires inputs != [] && TurnedAway(t, inputs[0]) && n < |inputs|
    requires forall i :: 0 <= i < n ==> TurnedAway(t, inputs[1..][i])
    ensures forall i :: 0 <= i < n + 1 ==> TurnedAway(t, inputs[i])
  {
    forall i | 0 <= i < n + 1 ensures TurnedAway(t, inputs[i]) {
      if i > 0 { assert inputs[i] == inputs[1..][i - 1]; }
    }
  }

  /** One more offer turned away, before the others. */
  lemma FollowsOneMore(
    c: Crypto, t: seq<KeyRow>, left: nat, inputs: seq<Input>, n: nat, two: seq<Event>, trace: seq<Event>, report: Option<Finish>)
    requires inputs != [] && TurnedAway(t, inputs[0]) && Follows(c, t, left, inputs[1..], n, trace, report)
    requires two == [Got(inputs[0].message.value), Sent(Rejected)]
    ensures Follows(c, t, left + 1, inputs, n + 1, two + trace, report)
  {
    TurnedAwayFirst(t, inputs, n);
    RejectionsFirst(inputs, n + 1);
    AfterTwo(two, trace, 2 * n);
  }

  lemma AfterTwo(two: seq<Event>, trace: seq<Event>, k: nat)
    requires |two| == 2 && k <= |trace|
    ensures (two + trace)[..k + 2] == two + trace[..k] && (two + trace)[k + 2..] == trace[k..]
  {
  }

  lemma OfferConcludes(c: Crypto, t: seq<KeyRow>, round: nat, inputs: seq<Input>)
    requires inputs != [] && !TurnedAway(t, inputs[0])
    ensures Concludes(c, t, inputs[0], if 1 < |inputs| then Some(inputs[1]) else None,
                      Trace(c, t, Offering(round), inputs), Reported(End(c, t, Offering(round), inputs)))
  {
    var (s, reply) := Offer(t, round, inputs[0]);
    assert inputs[0..] == inputs;
    OneStep(c, t, Offering(round), inputs, 0);
    if s.Challenging? && 1 < |inputs| {
      ChallengeEnds(c, t, s, inputs, 1);
    } else {
      NoMoreSteps(c, t, s, inputs[1..]);
    }
  }

  lemma TurnedAwayStep(c: Crypto, t: seq<KeyRow>, round: nat, inputs: seq<Input>, s: Server)
    requires round < 15 && inputs != [] && TurnedAway(t, inputs[0])
    requires s == if round + 1 < 15 then Offering(round + 1) else Stopped(None)
    ensures Trace(c, t, Offering(round), inputs)
      == [Got(inputs[0].message.value), Sent(Rejected)] + Trace(c, t, s, inputs[1..])
    ensures End(c, t, Offering(round), inputs) == End(c, t, s, inputs[1..])
  {
    assert inputs[0..] == inputs;
    OneStep(c, t, Offering(round), inputs, 0);
  }

  lemma StoppedFollows(c: Crypto, t: seq<KeyRow>, left: nat, s: Server, inputs: seq<Input>)
    requires (left == 0 && s == Stopped(None)) || (inputs == [] && s.Offering?)
    ensures Follows(c, t, left, inputs, 0, Trace(c, t, s, inputs), Reported(End(c, t, s, inputs)))
  {
    NoMoreSteps(c, t, s, inputs);
  }

  /** The automaton's exchange, told by its inputs. */
  lemma {:induction false} AutomatonFollows(c: Crypto, t: seq<KeyRow>, round: nat, s: Server, inputs: seq<Input>) returns (n: nat)
    requires round <= 15 && s == if round < 15 then Offering(round) else Stopped(None)
    ensures Follows(c, t, 15 - round, inputs, n, Trace(c, t, s, inputs), Reported(End(c, t, s, inputs)))
    decreases |inputs|
  {
    if inputs == [] || round == 15 {
      StoppedFollows(c, t, 15 - round, s, inputs);
      n := 0;
    } else if TurnedAway(t, inputs[0]) {
      var s' := if round + 1 < 15 then Offering(round + 1) else Stopped(None);
      TurnedAwayStep(c, t, round, inputs, s');
      var k := AutomatonFollows(c, t, round + 1, s', inputs[1..]);
      FollowsOneMore(c, t, 14 - round, inputs, k, [Got(inputs[0].message.value), Sent(Rejected)],
                     Trace(c, t, s', inputs[1..]), Reported(End(c, t, s', inputs[1..])));
      n := k + 1;
    } else {
      OfferConcludes(c, t, round, inputs);
      n := 0;
    }
  }

  lemma {:induction false} OnlyRejections(inputs: seq<Input>, n: nat)
    requires n <= |inputs| && forall i :: 0 <= i < n ==> inputs[i].message.Some?
    ensures forall k :: 0 <= k < 2 * n ==> Rejections(inputs, n)[k].Got? || Rejections(inputs, n)[k] == Sent(Rejected)
  {
    if n == 0 {
    } else {
      OnlyRejections(inputs, n - 1);
    }
  }

  /** Whatever else the server sent it sent after the rejections. */
  lemma SentLater(c: Crypto, t: seq<KeyRow>, left: nat, inputs: seq<Input>, n: nat, trace: seq<Event>, report: Option<Finish>, k: nat)
    requires Follows(c, t, left, inputs, n, trace, report) && k < |trace| && trace[k].Sent? && trace[k] != Sent(Rejected)
    ensures 2 * n <= k && trace[k] == trace[2 * n..][k - 2 * n]
  {
    OnlyRejections(inputs, n);
    assert forall i :: 0 <= i < 2 * n ==> trace[i] == trace[..2 * n][i];
  }

  /** A token for this row, in a round whose signature is good under the row's key and over its nonce. */
  ghost predicate Earned(c: Crypto, t: seq<KeyRow>, fingerprint: string, nonce: Bytes, signature: Signature, token: Token) {
    exists i :: 0 <= i < |t| && t[i].fingerprint == fingerprint && token == Token(t[i].user, fingerprint)
      && c.parse(t[i].publicKey).Some?
      && c.verifies(c.parse(t[i].publicKey).value, nonce, signature)
      && c.fingerprint(c.parse(t[i].publicKey).value) == fingerprint
  }

  /** A challenge is always the nonce drawn for its round. */
  lemma ChallengeIsNonce(
    c: Crypto, t: seq<KeyRow>, inputs: seq<Input>, n: nat, trace: seq<Event>, report: Option<Finish>, k: nat, nonce: Bytes)
    requires Follows(c, t, 15, inputs, n, trace, report) && k < |trace| && trace[k] == Sent(Approved(nonce))
    ensures k == 2 * n + 1 && n < |inputs| && nonce == inputs[n].nonce && trace[2 * n] == Got(inputs[n].message.value)
  {
    SentLater(c, t, 15, inputs, n, trace, report, k);
  }

  /** And a token is granted only for a signature over that nonce, under the key whose fingerprint was offered. */
  lemma TokenIsForNonce(
    c: Crypto, t: seq<KeyRow>, inputs: seq<Input>, n: nat, trace: seq<Event>, report: Option<Finish>, k: nat, token: Token)
    requires TableInv(c, t) && Follows(c, t, 15, inputs, n, trace, report)
    requires k < |trace| && trace[k] == Sent(Granted(token))
    ensures k == 2 * n + 3 == |trace| - 1 && n + 1 < |inputs| && report == Some(Finished)
    ensures inputs[n].message.Some? && inputs[n].message.value.Fingerprint?
    ensures inputs[n + 1].message.Some? && inputs[n + 1].message.value.Signed?
    ensures Earned(c, t, inputs[n].message.value.fingerprint, inputs[n].nonce, inputs[n + 1].message.value.signature, token)
  {
    SentLater(c, t, 15, inputs, n, trace, report, k);
  }

  /**
   The exchange: its goroutine reads the inputs in order, at most 15 offerings of them, and stops early
   if the stream is given no further.
   */
  method ExchangeSSHKey(c: Crypto, t: seq<KeyRow>, inputs: seq<Input>) returns (trace: seq<Event>, finished: Option<Finish>)
    ensures exists n :: Follows(c, t, 15, inputs, n, trace, finished)
    ensures trace == Trace(c, t, Offering(0), inputs) && finished == Reported(End(c, t, Offering(0), inputs))
  {
    trace, finished := TakeOfferings(c, t, inputs);
    ghost var n := AutomatonFollows(c, t, 0, Offering(0), inputs);
  }

  lemma JoinedThrice(xs: seq<Event>, ys: seq<Event>, zs: seq<Event>)
    ensures xs + ys + zs == xs + (ys + zs)
  {
  }

  /** The goroutine's loop. */
  method TakeOfferings(c: Crypto, t: seq<KeyRow>, inputs: seq<Input>) returns (trace: seq<Event>, finished: Option<Finish>)
    ensures trace == Trace(c, t, Offering(0), inputs)
    ensures finished == Reported(End(c, t, Offering(0), inputs))
  {
    trace, finished := [], None;
    var n, round := 0, 0;
    ghost var s := Offering(0);
    ghost var whole, last := Trace(c, t, s, inputs), End(c, t, s, inputs);
    assert inputs[0..] == inputs;
    while round < MAX_KEY_OFFERINGS && n < |inputs|
      invariant 0 <= n <= |inputs| && 0 <= round <= MAX_KEY_OFFERINGS
      invariant s == if round < MAX_KEY_OFFERINGS then Offering(round) else Stopped(None)
      invariant whole == trace + Trace(c, t, s, inputs[n..])
      invariant last == End(c, t, s, inputs[n..])
    {
      // Receive an offering, look it up, and send the verdict
      OneStep(c, t, s, inputs, n);
      JoinedThrice(trace, Record(inputs[n], Offer(t, round, inputs[n]).1), Trace(c, t, Offer(t, round, inputs[n]).0, inputs[n + 1..]));
      var (state, reply) := Offer(t, round, inputs[n]);
      trace := trace + Record(inputs[n], reply);
      n := n + 1;
      s := state;
      assert whole == trace + Trace(c, t, s, inputs[n..]);
      if state.Stopped? && reply.None? {
        NoMoreSteps(c, t, s, inputs[n..]);
        return trace, state.report;
      }
      if state.Challenging? {
        if n == |inputs| {
          NoMoreSteps(c, t, s, inputs[n..]);
          return trace, None;
        }
        // Receive the signature, check it, and send the token
        ChallengeEnds(c, t, s, inputs, n);
        var (end, answer) := Answer(c, state, inputs[n]);
        return trace + Record(inputs[n], answer), end.report;
      }
      round := round + 1;
    }
    NoMoreSteps(c, t, s, inputs[n..]);
  }

  // ---------- what any client can bring about ----------

  /** The last round: an approval, and a token only if it is earned. */
  ghost predicate LastRound(c: Crypto, t: seq<KeyRow>, trace: seq<Event>) {
    && 2 <= |trace| <= 4
    && trace[0].Got? && trace[0].message.Fingerprint?
    && trace[1].Sent? && trace[1].reply.Approved?
    && UserByFingerprint(t, trace[0].message.fingerprint).Some?
    && (3 <= |trace| ==> trace[2].Got?)
    && (4 <= |trace| ==>
      && trace[2].message.Signed?
      && trace[3].Sent? && trace[3].reply.Granted?
      && Earned(c, t, trace[0].message.fingerprint, trace[1].reply.nonce, trace[2].message.signature, trace[3].reply.token))
  }

  /** At most `left` rounds: rejections of unregistered keys, then at most one other message or a last round. */
  ghost predicate Exchange(c: Crypto, t: seq<KeyRow>, left: nat, trace: seq<Event>)
    decreases left
  {
    || trace == []
    || (left > 0 && |trace| == 1 && trace[0].Got?)
    || (left > 0 && LastRound(c, t, trace))
    || (left > 0 && |trace| >= 2 && trace[0].Got? && trace[0].message.Fingerprint?
        && UserByFingerprint(t, trace[0].message.fingerprint).None?
        && trace[1] == Sent(Rejected)
        && Exchange(c, t, left - 1, trace[2..]))
  }

  lemma AnswerIsEarned(c: Crypto, t: seq<KeyRow>, s: Server, x: Input)
    requires TableInv(c, t) && s.Challenging? && UserByFingerprint(t, s.fingerprint) == Some(s.row)
    ensures Answer(c, s, x).0.Stopped?
    ensures Answer(c, s, x).1.Some? ==>
      x.message.Some? && x.message.value.Signed? && Answer(c, s, x).1.value.Granted? &&
      Earned(c, t, s.fingerprint, s.nonce, x.message.value.signature, Answer(c, s, x).1.value.token)
  {
  }

  /** A round that approves a key ends the exchange, one way or another. */
  lemma ApprovedIsLast(c: Crypto, t: seq<KeyRow>, round: nat, inputs: seq<Input>)
    requires TableInv(c, t) && inputs != [] && Offer(t, round, inputs[0]).0.Challenging?
    ensures LastRound(c, t, Trace(c, t, Offering(round), inputs))
  {
    var (s, reply) := Offer(t, round, inputs[0]);
    assert Record(inputs[0], reply) == [Got(inputs[0].message.value), Sent(Approved(s.nonce))];
    assert inputs[0..] == inputs;
    OneStep(c, t, Offering(round), inputs, 0);
    if 1 < |inputs| {
      AnswerIsEarned(c, t, s, inputs[1]);
      ChallengeEnds(c, t, s, inputs, 1);
    } else {
      NoMoreSteps(c, t, s, inputs[1..]);
    }
  }

  /**
   Against any client, and with any faults: the server rejects unregistered keys, at most 15 of
   them, and sends at most one token, as its last message, to a client whose signature verified
   over that round's nonce under the stored key whose fingerprint it had offered.
   */
  lemma {:induction false} ServerIsSafe(c: Crypto, t: seq<KeyRow>, round: nat, inputs: seq<Input>)
    requires TableInv(c, t) && round < MAX_KEY_OFFERINGS
    ensures Exchange(c, t, MAX_KEY_OFFERINGS - round, Trace(c, t, Offering(round), inputs))
    decreases |inputs|
  {
    if inputs == [] {
    } else {
      var (s, reply) := Offer(t, round, inputs[0]);
      var trace := Trace(c, t, Offering(round), inputs);
      if s.Challenging? {
        ApprovedIsLast(c, t, round, inputs);
      } else if reply == Some(Rejected) {
        assert trace[2..] == Trace(c, t, s, inputs[1..]);
        if s.Offering? { ServerIsSafe(c, t, round + 1, inputs[1..]); }
      } else {
        assert Trace(c, t, s, inputs[1..]) == [];
      }
    }
  }

  /** In such an exchange a token is the last event, and closes an earned round. */
  lemma {:induction false} TokenIsEarned(c: Crypto, t: seq<KeyRow>, left: nat, trace: seq<Event>, k: nat)
    requires Exchange(c, t, left, trace) && k < |trace| && trace[k].Sent? && trace[k].reply.Granted?
    ensures k == |trace| - 1 && k >= 3 && LastRound(c, t, trace[k - 3..])
    decreases left
  {
    if trace[1] == Sent(Rejected) {
      TokenIsEarned(c, t, left - 1, trace[2..], k - 2);
      assert trace[2..][k - 5..] == trace[k - 3..];
    } else {
      assert trace[0..] == trace;
    }
  }
}
