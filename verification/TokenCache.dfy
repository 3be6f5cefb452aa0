/** The CLI's token cache against the server's expiry. Times are in nanoseconds. */
module TokenCache {
  import opened Options

  const SECOND: int := 1_000_000_000
  const MINUTE: int := 60 * SECOND
  const TOKEN_EXPIRATION: int := 10 * MINUTE  // the client's
  const TOKEN_LIFETIME: int := 15 * MINUTE    // the server's

  /** The `exp` claim of section 4.1.4 of RFC 7519, which the JWT library cuts to whole seconds. */
  datatype Token = Token(id: nat, expiresAtSecond: int)

  /** FillRegistered, at this reading of the server's clock. */
  function Issue(id: nat, now: int): Token {
    Token(id, (now + TOKEN_LIFETIME) / SECOND)
  }

  /** The `exp` check of section 4.1.4 of RFC 7519, at this reading of the server's clock. */
  predicate Unexpired(token: Token, now: int) {
    now < token.expiresAtSecond * SECOND
  }

  /**
   A successful exchange: the token's number and the server's clock when it was issued, and both
   clocks when it reached the client.
   */
  datatype Grant = Grant(id: nat, issuedAt: int, arrivedServer: int, arrivedClient: int)

  function TokenOf(g: Grant): Token {
    Issue(g.id, g.issuedAt)
  }

  /** A call: both clocks at that moment, and what an exchange would bring. */
  datatype Call = Call(client: int, server: int, exchange: Option<Grant>)

  datatype Cache = Cache(token: Option<Token>, expiration: int)

  /** The cache a successful exchange leaves. */
  function CacheOf(g: Grant): Cache {
    Cache(Some(TokenOf(g)), g.arrivedClient + TOKEN_EXPIRATION)
  }

  /** The zero time.Time, long before any reading. */
  const ZERO_TIME: int := -62_135_596_800 * SECOND

  const EMPTY: Cache := Cache(None, ZERO_TIME)

  /** One call of `Authenticate`: the cache after it and the token returned. */
  function Authenticate(c: Cache, call: Call): (Cache, Option<Token>) {
    if c.expiration < call.client then
      match call.exchange
      case None => (c, None)
      case Some(g) => (CacheOf(g), Some(TokenOf(g)))
    else (c, c.token)
  }

  // ---------- over any sequence of calls ----------

  function CacheAfter(calls: seq<Call>): Cache {
    if calls == [] then EMPTY else Authenticate(CacheAfter(calls[..|calls| - 1]), calls[|calls| - 1]).0
  }

  /** What the k-th call returns. */
  function Returned(calls: seq<Call>, k: nat): Option<Token>
    requires k < |calls|
  {
    Authenticate(CacheAfter(calls[..k]), calls[k]).1
  }

  predicate FromCache(calls: seq<Call>, k: nat)
    requires k < |calls|
  {
    CacheAfter(calls[..k]).expiration >= calls[k].client
  }

  /** The server's clock when the k-th call returns: that of the call, or of the grant's arrival. */
  function ServerClock(calls: seq<Call>, k: nat): int
    requires k < |calls|
  {
    if FromCache(calls, k) || calls[k].exchange.None? then calls[k].server else calls[k].exchange.value.arrivedServer
  }

  /** The k-th call does not return a token that has expired at the server. */
  predicate ReturnsUnexpired(calls: seq<Call>, k: nat) {
    k < |calls| && Returned(calls, k).Some? ==> Unexpired(Returned(calls, k).value, ServerClock(calls, k))
  }

  /** Delivery takes at most `delay`, and afterwards the server's clock gains at most `drift` on the client's. */
  ghost predicate Clocks(calls: seq<Call>, delay: int, drift: int) {
    && (forall i :: 0 <= i < |calls| ==> ZERO_TIME < calls[i].client)
    && (forall i :: 0 <= i < |calls| && calls[i].exchange.Some? ==>
      calls[i].exchange.value.arrivedServer - calls[i].exchange.value.issuedAt <= delay)
    && (forall i, j :: 0 <= i < j < |calls| && calls[i].exchange.Some? ==>
      Gain(calls[i].exchange.value, calls[j]) <= drift)
  }

  function Gain(g: Grant, call: Call): int {
    (call.server - g.arrivedServer) - (call.client - g.arrivedClient)
  }

  /** The cached token is that of some earlier call, and the client's expiry counts from its arrival. */
  lemma {:induction false} CacheIsGrant(calls: seq<Call>)
    ensures CacheAfter(calls) == EMPTY || exists k ::
      0 <= k < |calls| && calls[k].exchange.Some? &&
      CacheAfter(calls) == CacheOf(calls[k].exchange.value)
  {
    if calls == [] {
    } else {
      var n := |calls| - 1;
      CacheIsGrant(calls[..n]);
      if CacheAfter(calls) == CacheAfter(calls[..n]) && CacheAfter(calls[..n]) != EMPTY {
        var k :| 0 <= k < n && calls[..n][k].exchange.Some? &&
          CacheAfter(calls[..n]) == CacheOf(calls[..n][k].exchange.value);
        assert calls[k] == calls[..n][k];
      }
    }
  }

  /** No token is returned past its expiry, if delay and drift leave a second of the five minutes. */
  lemma TokenIsUnexpired(calls: seq<Call>, delay: int, drift: int, k: nat)
    requires Clocks(calls, delay, drift) && 0 <= drift && delay + drift <= 5 * MINUTE - SECOND
    ensures ReturnsUnexpired(calls, k)
  {
    if k < |calls| && FromCache(calls, k) {
      CacheIsGrant(calls[..k]);
      var i :| 0 <= i < k && calls[..k][i].exchange.Some? &&
        CacheAfter(calls[..k]) == CacheOf(calls[..k][i].exchange.value);
      assert calls[..k][i] == calls[i];
      assert Gain(calls[i].exchange.value, calls[k]) <= drift;
    }
  }

  /** No token handed out, over any such sequence of calls, has passed the server's expiry. */
  ghost predicate AlwaysUnexpired(delay: int, drift: int) {
    forall calls, k: nat :: Clocks(calls, delay, drift) ==> ReturnsUnexpired(calls, k)
  }

  /**
   The two lifetimes and the truncation to seconds leave exactly this margin: a token
   is always live if and only if delay and drift together stay within five minutes less one second.
   */
  lemma CacheMargin(delay: int, drift: int)
    requires 0 <= delay && 0 <= drift
    ensures AlwaysUnexpired(delay, drift) <==> delay + drift <= 5 * MINUTE - SECOND
  {
    if delay + drift <= 5 * MINUTE - SECOND {
      forall calls, k: nat | Clocks(calls, delay, drift) ensures ReturnsUnexpired(calls, k) {
        TokenIsUnexpired(calls, delay, drift, k);
      }
    } else {
      LateReturn(delay, drift);
    }
  }

  /** Issued just before a second ticks over, and returned at the last moment the client allows. */
  lemma LateReturn(delay: int, drift: int)
    requires 0 <= delay && 0 <= drift && delay + drift > 5 * MINUTE - SECOND
    ensures !AlwaysUnexpired(delay, drift)
  {
    var g := Grant(0, SECOND - 1, SECOND - 1 + delay, 0);
    var first := Call(0, 0, Some(g));
    var second := Call(TOKEN_EXPIRATION, SECOND - 1 + delay + TOKEN_EXPIRATION + drift, None);
    var calls := [first, second];
    assert calls[..1][..0] == [] && calls[..0] == [];
    assert CacheAfter(calls[..1]) == Cache(Some(TokenOf(g)), TOKEN_EXPIRATION);
    assert Returned(calls, 1) == Some(TokenOf(g));
    assert Clocks(calls, delay, drift);
    assert FromCache(calls, 1) && !Unexpired(TokenOf(g), second.server);
    assert !ReturnsUnexpired(calls, 1);
  }

  // ---------- which token a call returns ----------

  /** Call i did an exchange, as it had to, and got a token. */
  ghost predicate Refreshes(calls: seq<Call>, i: nat)
    decreases i, 1
  {
    i < |calls| && calls[i].exchange.Some? && !exists j :: Covers(calls, j, i)
  }

  /** The token of call i is the latest one before call k, and it reached the client ten minutes before at most. */
  ghost predicate Covers(calls: seq<Call>, i: nat, k: nat)
    decreases k, 0
  {
    && i < k < |calls| && Refreshes(calls, i) && (forall j: nat :: i < j < k ==> !Refreshes(calls, j))
    && calls[k].client <= calls[i].exchange.value.arrivedClient + 10 * MINUTE
  }

  /** The token an exchange brought: its own, good for fifteen minutes, counted in whole seconds, from its issue. */
  predicate IsTokenOf(token: Token, g: Grant) {
    && token.id == g.id
    && token.expiresAtSecond * SECOND <= g.issuedAt + 15 * MINUTE < (token.expiresAtSecond + 1) * SECOND
  }

  /** Call k returns the token that covers it; if there is none, just what its own exchange brings. */
  ghost predicate Answers(calls: seq<Call>, k: nat, result: Option<Token>) {
    && k < |calls|
    && (forall i: nat :: Covers(calls, i, k) ==>
      calls[i].exchange.Some? && result.Some? && IsTokenOf(result.value, calls[i].exchange.value))
    && ((forall i: nat :: !Covers(calls, i, k)) ==>
      match calls[k].exchange
      case None => result == None
      case Some(g) => result.Some? && IsTokenOf(result.value, g))
  }

  /** The cache after some calls is that of the latest refresh. */
  ghost predicate CacheIs(calls: seq<Call>, c: Cache) {
    && (forall i: nat :: LatestRefresh(calls, i) ==> calls[i].exchange.Some? && c == CacheOf(calls[i].exchange.value))
    && ((forall i: nat :: !LatestRefresh(calls, i)) ==> c == EMPTY)
  }

  ghost predicate LatestRefresh(calls: seq<Call>, i: nat) {
    Refreshes(calls, i) && forall j: nat :: i < j < |calls| ==> !Refreshes(calls, j)
  }

  /** Only the calls before it decide whether a call refreshes. */
  lemma {:induction false} RefreshesOfPrefix(calls: seq<Call>, n: nat, i: nat)
    requires n <= |calls| && i < n
    ensures Refreshes(calls[..n], i) <==> Refreshes(calls, i)
    decreases i, 1
  {
    forall j: nat ensures Covers(calls[..n], j, i) <==> Covers(calls, j, i) {
      if j < i { CoversOfPrefix(calls, n, j, i); }
    }
  }

  lemma {:induction false} CoversOfPrefix(calls: seq<Call>, n: nat, i: nat, k: nat)
    requires n <= |calls| && i < k < n
    ensures Covers(calls[..n], i, k) <==> Covers(calls, i, k)
    decreases k, 0
  {
    forall j: nat | j < k ensures Refreshes(calls[..n], j) <==> Refreshes(calls, j) {
      RefreshesOfPrefix(calls, n, j);
    }
  }

  lemma LatestRefreshUnique(calls: seq<Call>, i: nat, j: nat)
    requires LatestRefresh(calls, i) && LatestRefresh(calls, j)
    ensures i == j
  {
  }

  /** What the cache says about the next call, and what the call says about the cache. */
  lemma CoveredIff(calls: seq<Call>, n: nat, i: nat)
    requires n < |calls|
    ensures Covers(calls, i, n) <==>
      LatestRefresh(calls[..n], i) && calls[n].client <= calls[i].exchange.value.arrivedClient + 10 * MINUTE
  {
    forall j: nat | j < n ensures Refreshes(calls[..n], j) <==> Refreshes(calls, j) {
      RefreshesOfPrefix(calls, n, j);
    }
  }

  lemma {:induction false} CacheIsLatest(calls: seq<Call>)
    requires forall i :: 0 <= i < |calls| ==> ZERO_TIME < calls[i].client
    ensures CacheIs(calls, CacheAfter(calls))
    decreases |calls|
  {
    if calls == [] {
    } else {
      var n := |calls| - 1;
      CacheIsLatest(calls[..n]);
      OneMoreCall(calls, n);
    }
  }

  /** A call that is covered, or whose exchange fails, leaves the cache alone. */
  lemma NoRefreshKeepsCache(calls: seq<Call>, n: nat)
    requires |calls| == n + 1 && CacheIs(calls[..n], CacheAfter(calls[..n])) && !Refreshes(calls, n)
    ensures CacheAfter(calls) == CacheAfter(calls[..n])
  {
    if calls[n].exchange.Some? {
      var i: nat :| Covers(calls, i, n);
      CoveredIff(calls, n, i);
      assert CacheAfter(calls[..n]) == CacheOf(calls[..n][i].exchange.value);
    }
  }

  /** A call that refreshes found the cache expired. */
  lemma RefreshFillsCache(calls: seq<Call>, n: nat)
    requires |calls| == n + 1 && CacheIs(calls[..n], CacheAfter(calls[..n])) && Refreshes(calls, n)
    requires ZERO_TIME < calls[n].client
    ensures CacheAfter(calls) == CacheOf(calls[n].exchange.value)
  {
    if exists i: nat :: LatestRefresh(calls[..n], i) {
      var i: nat :| LatestRefresh(calls[..n], i);
      CoveredIff(calls, n, i);
      assert !Covers(calls, i, n);
    }
  }

  /** One call more, and the cache is again that of the latest refresh. */
  lemma OneMoreCall(calls: seq<Call>, n: nat)
    requires |calls| == n + 1 && ZERO_TIME < calls[n].client && CacheIs(calls[..n], CacheAfter(calls[..n]))
    ensures CacheIs(calls, CacheAfter(calls))
  {
    forall i: nat | i < n ensures Refreshes(calls[..n], i) <==> Refreshes(calls, i) {
      RefreshesOfPrefix(calls, n, i);
    }
    if Refreshes(calls, n) {
      RefreshFillsCache(calls, n);
      assert LatestRefresh(calls, n);
      forall i: nat | LatestRefresh(calls, i) ensures i == n { LatestRefreshUnique(calls, i, n); }
    } else {
      NoRefreshKeepsCache(calls, n);
      forall i: nat ensures LatestRefresh(calls, i) <==> LatestRefresh(calls[..n], i) {
        assert LatestRefresh(calls, i) ==> i < n;
      }
    }
  }

  /** Over any sequence of calls, each returns the token the calls before it call for. */
  lemma ReturnedAnswers(calls: seq<Call>, k: nat)
    requires k < |calls| && forall i :: 0 <= i < |calls| ==> ZERO_TIME < calls[i].client
    ensures Answers(calls, k, Returned(calls, k))
  {
    CacheIsLatest(calls[..k]);
    forall i: nat ensures Covers(calls, i, k) <==>
      LatestRefresh(calls[..k], i) && calls[k].client <= calls[i].exchange.value.arrivedClient + 10 * MINUTE
    {
      CoveredIff(calls, k, i);
    }
    forall i: nat, j: nat | LatestRefresh(calls[..k], i) && LatestRefresh(calls[..k], j) ensures i == j {
      LatestRefreshUnique(calls[..k], i, j);
    }
  }

  /** The client's clock never shows the zero time. */
  predicate AfterZero(calls: seq<Call>) {
    forall i :: 0 <= i < |calls| ==> ZERO_TIME < calls[i].client
  }

  lemma LastAnswers(calls: seq<Call>)
    requires calls != []
    ensures AfterZero(calls) ==> Answers(calls, |calls| - 1, Returned(calls, |calls| - 1))
  {
    if AfterZero(calls) { ReturnedAnswers(calls, |calls| - 1); }
  }

  // ---------- the authenticator ----------

  /** Whatever its calls so far, the k-th returns no expired token if delay and drift leave the margin. */
  ghost predicate Dependable(calls: seq<Call>, k: nat) {
    forall delay, drift :: 0 <= drift && delay + drift <= 5 * MINUTE - SECOND && Clocks(calls, delay, drift) ==>
      ReturnsUnexpired(calls, k)
  }

  lemma AlwaysDependable(calls: seq<Call>, k: nat)
    ensures Dependable(calls, k)
  {
    forall delay, drift | 0 <= drift && delay + drift <= 5 * MINUTE - SECOND && Clocks(calls, delay, drift)
      ensures ReturnsUnexpired(calls, k)
    {
      TokenIsUnexpired(calls, delay, drift, k);
    }
  }

  class Authenticator {
    var token: Option<Token>
    var expiration: int
    ghost var calls: seq<Call>  // made so far

    constructor ()
      ensures Valid() && calls == []
    {
      token, expiration, calls := None, ZERO_TIME, [];
    }

    function View(): Cache
      reads this
    {
      Cache(token, expiration)
    }

    /** The cache is what the calls so far have made it. */
    ghost predicate Valid()
      reads this
    {
      View() == CacheAfter(calls)
    }

    method AuthenticateSSH(exchange: Option<Grant>) returns (result: Option<Token>)
      modifies this`token, this`expiration
      ensures exchange.None? ==> View() == old(View()) && result == None
      ensures exchange.Some? ==> View() == CacheOf(exchange.value) && result == Some(TokenOf(exchange.value))
    {
      if exchange.None? { return None; }
      token := Some(TokenOf(exchange.value));
      expiration := exchange.value.arrivedClient + TOKEN_EXPIRATION;
      return token;
    }

    /**
     A call returns the token of the latest exchange while that is fresh, and else what a new exchange
     brings; and, within the margin, no expired token.
     */
    method Authenticate(call: Call) returns (result: Option<Token>)
      requires Valid()
      modifies this
      ensures Valid() && calls == old(calls) + [call]
      ensures AfterZero(calls) ==> Answers(calls, |calls| - 1, result)
      ensures result == Returned(calls, |calls| - 1) && Dependable(calls, |calls| - 1)
    {
      assert (calls + [call])[..|calls|] == calls;
      if expiration < call.client {
        result := AuthenticateSSH(call.exchange);
      } else {
        result := token;
      }
      calls := calls + [call];
      AlwaysDependable(calls, |calls| - 1);
      LastAnswers(calls);
    }
  }
}
