/**
 The loop of `resolveSecrets` over one object. A Go map is ranged over in any order; an entry made
 during the loop may be produced or skipped, and one deleted before it is reached is not produced.
 */
module SecretScan {
  import opened Options
  import opened Secrets

  /** The object as it stands, the original entries still to come, and those made since that may still come. */
  datatype Scan = Scan(cur: Fields, todo: set<string>, extra: set<string>)

  /** An entry the range produces, and what came of descending into its value, None if an error. */
  datatype Entry = Entry(key: string, value: Value, nested: Option<Value>)

  function Start(m: Fields): Scan {
    Scan(m, m.Keys, {})
  }

  predicate CanVisit(s: Scan, k: string) {
    (k in s.todo || k in s.extra) && k in s.cur
  }

  predicate Produces(s: Scan, x: Entry) {
    CanVisit(s, x.key) && s.cur[x.key] == x.value
  }

  /** Key k gives way to field `base`; if there was none, its entry is new. */
  function Replace(s: Scan, k: string, base: string, v: Value): Scan {
    Scan(s.cur[base := v] - {k}, s.todo - {k}, s.extra - {k} + if base in s.cur then {} else {base})
  }

  /** Key k has a new value. */
  function Update(s: Scan, k: string, v: Value): Scan {
    Scan(s.cur[k := v], s.todo - {k}, s.extra - {k})
  }

  /** The body of the loop, None when it returns an error. */
  function Visit(env: Environment, s: Scan, x: Entry): Option<Scan> {
    if IsSecret(x.key) then
      match Secret(env, x.key, x.value)
      case None => None
      case Some(text) => Some(Replace(s, x.key, Base(x.key), Text(text)))
    else
      match x.nested
      case None => None
      case Some(v) => Some(Update(s, x.key, v))
  }

  /** The loop, given these entries in this order, ends with this object, or with an error. */
  ghost predicate Leads(env: Environment, s: Scan, xs: seq<Entry>, r: Option<Value>)
    decreases |xs|
  {
    if xs == [] then s.todo == {} && r == Some(Object(s.cur))
    else
      Produces(s, xs[0]) &&
      match Visit(env, s, xs[0])
      case None => |xs| == 1 && r == None
      case Some(s') => Leads(env, s', xs[1..], r)
  }

  /**
   A possible result of resolving v: for some order of the entries of every object in it, and some
   choice of the made ones to produce.
   */
  ghost predicate Outcome(env: Environment, v: Value, r: Option<Value>)
    decreases v, 1
  {
    match v
    case Text(_) => r == Some(v)
    case Scalar(_) => r == Some(v)
    case Items(xs) =>
      (match r
       case Some(w) =>
         && w.Items? && |w.items| == |xs|
         && (forall i :: 0 <= i < |xs| ==> Outcome(env, xs[i], Some(w.items[i])))
       case None =>
         exists i :: 0 <= i < |xs| && Outcome(env, xs[i], None)
                     && forall j :: 0 <= j < i ==> CanSucceed(env, xs[j]))
    case Object(m) =>
      if NoConflicts(m) then exists xs :: Leads(env, Start(m), xs, r) && Faithful(env, m, xs)
      else r == None
  }

  ghost predicate CanSucceed(env: Environment, v: Value)
    decreases v, 2
  {
    exists w :: Outcome(env, v, Some(w))
  }

  /** What came of descending into the literal entries is possible; a string has nothing nested in it. */
  ghost predicate Faithful(env: Environment, m: Fields, xs: seq<Entry>)
    decreases Object(m), 0
  {
    forall i :: 0 <= i < |xs| && !IsSecret(xs[i].key) ==>
      || (xs[i].value.Text? && xs[i].nested == Some(xs[i].value))
      || (xs[i].key in m && xs[i].value == m[xs[i].key] && Outcome(env, m[xs[i].key], xs[i].nested))
  }

  function Meant(env: Environment, v: Value): Option<Value> {
    if Resolvable(env, v) then Some(Resolved(env, v)) else None
  }

  // ---------- the invariant of the loop ----------

  /** `c` holds, for each literal entry that can be descended into, what comes of it. */
  predicate KeyResolvable(env: Environment, m: Fields, c: Fields, k: string)
    requires k in m
  {
    if IsSecret(k) then Secret(env, k, m[k]).Some? else k in c
  }

  function Final(env: Environment, m: Fields, c: Fields, k: string): Value
    requires k in m && KeyResolvable(env, m, c, k)
  {
    if IsSecret(k) then Text(Secret(env, k, m[k]).value) else c[k]
  }

  /** What descending into the literal entries comes to when it comes to what is meant. */
  function MeantFields(env: Environment, m: Fields): Fields {
    map k | k in m && Resolvable(env, m[k]) :: Resolved(env, m[k])
  }

  /** The entry was descended into as c says, if it is an original one. */
  predicate Agrees(m: Fields, c: Fields, x: Entry) {
    !IsSecret(x.key) ==>
      if x.key in m && x.value == m[x.key] then x.nested == (if x.key in c then Some(c[x.key]) else None)
      else x.value.Text? && x.nested == Some(x.value)
  }

  ghost predicate ScanInv(env: Environment, m: Fields, c: Fields, s: Scan) {
    && NoConflicts(m)
    && s.todo <= m.Keys
    && (forall k :: k in s.todo ==> k in s.cur && s.cur[k] == m[k])
    && (forall k :: k in m && k !in s.todo ==>
      KeyResolvable(env, m, c, k) && Target(k) in s.cur && s.cur[Target(k)] == Final(env, m, c, k))
    && (forall t :: t in s.cur ==> t in s.todo || Reached(m, s.todo, t))
    && (forall e :: e in s.extra ==> MadeFrom(m, s.todo, e))
  }

  /** Field t comes from a key already visited. */
  ghost predicate Reached(m: Fields, todo: set<string>, t: string) {
    exists k :: k in m && k !in todo && Target(k) == t
  }

  ghost predicate MadeFrom(m: Fields, todo: set<string>, e: string) {
    exists k :: k in m && k !in todo && IsSecret(k) && Target(k) == e
  }

  lemma StartInv(env: Environment, m: Fields, c: Fields)
    requires NoConflicts(m)
    ensures ScanInv(env, m, c, Start(m))
  {
  }

  lemma Smaller(m: Fields, todo: set<string>, k: string, t: string)
    requires k in todo && k in m
    ensures Reached(m, todo, t) ==> Reached(m, todo - {k}, t)
    ensures MadeFrom(m, todo, t) ==> MadeFrom(m, todo - {k}, t)
    ensures Reached(m, todo - {k}, Target(k))
    ensures IsSecret(k) ==> MadeFrom(m, todo - {k}, Target(k))
  {
  }

  /** The target of a key still to come is no field made so far, nor another key to come. */
  lemma TargetIsNew(env: Environment, m: Fields, c: Fields, s: Scan, k: string)
    requires ScanInv(env, m, c, s) && k in s.todo && IsSecret(k)
    ensures Target(k) !in s.cur
  {
    assert !Conflicts(m, k);
    if Reached(m, s.todo, Target(k)) {
      var j :| j in m && j !in s.todo && Target(j) == Target(k);
      TargetInjective(m, j, k);
    }
  }

  /** What the fields of a visited key need to stay right when k is visited. */
  lemma OtherTargets(env: Environment, m: Fields, c: Fields, s: Scan, k: string, j: string)
    requires ScanInv(env, m, c, s) && k in s.todo && j in m && j !in s.todo
    ensures Target(j) != Target(k) && Target(j) != k
  {
    if Target(j) == Target(k) { TargetInjective(m, j, k); }
    assert !Conflicts(m, j);
  }

  /** Key k of the original object has become field b, its target. */
  ghost predicate Becomes(env: Environment, m: Fields, c: Fields, s: Scan, k: string, b: string, s': Scan) {
    && k in s.todo && k in m && KeyResolvable(env, m, c, k) && Target(k) == b && (IsSecret(k) || k == b)
    && s'.cur == (s.cur - {k})[b := Final(env, m, c, k)] && s'.todo == s.todo - {k}
    && s'.extra == s.extra - {k} + if IsSecret(k) then {b} else {}
  }

  lemma OtherAsBefore(env: Environment, m: Fields, c: Fields, s: Scan, k: string, b: string, s': Scan, j: string)
    requires ScanInv(env, m, c, s) && Becomes(env, m, c, s, k, b, s') && j in m && j !in s.todo
    ensures KeyResolvable(env, m, c, j) && Target(j) in s'.cur && s'.cur[Target(j)] == Final(env, m, c, j)
  {
    OtherTargets(env, m, c, s, k, j);
  }

  lemma ToComeAsBefore(env: Environment, m: Fields, c: Fields, s: Scan, k: string, b: string, s': Scan)
    requires ScanInv(env, m, c, s) && Becomes(env, m, c, s, k, b, s')
    ensures forall j :: j in s'.todo ==> j in s'.cur && s'.cur[j] == m[j]
  {
    if IsSecret(k) { TargetIsNew(env, m, c, s, k); }
  }

  lemma OthersAsBefore(env: Environment, m: Fields, c: Fields, s: Scan, k: string, b: string, s': Scan)
    requires ScanInv(env, m, c, s) && Becomes(env, m, c, s, k, b, s')
    ensures forall j :: j in s'.todo ==> j in s'.cur && s'.cur[j] == m[j]
    ensures forall j :: j in m && j !in s'.todo ==>
      KeyResolvable(env, m, c, j) && Target(j) in s'.cur && s'.cur[Target(j)] == Final(env, m, c, j)
  {
    ToComeAsBefore(env, m, c, s, k, b, s');
    forall j | j in m && j !in s'.todo
      ensures KeyResolvable(env, m, c, j) && Target(j) in s'.cur && s'.cur[Target(j)] == Final(env, m, c, j)
    {
      if j != k { OtherAsBefore(env, m, c, s, k, b, s', j); }
    }
  }

  lemma FieldsStayReached(m: Fields, todo: set<string>, fields: set<string>, k: string, b: string)
    requires k in todo && k in m && Target(k) == b
    requires forall t :: t in fields ==> t in todo || Reached(m, todo, t)
    ensures forall t :: t in fields - {k} + {b} ==> t in todo - {k} || Reached(m, todo - {k}, t)
  {
    forall t | t in fields - {k} + {b} ensures t in todo - {k} || Reached(m, todo - {k}, t) {
      Smaller(m, todo, k, t);
    }
  }

  lemma ExtrasStayMade(m: Fields, todo: set<string>, extra: set<string>, k: string, b: string)
    requires k in todo && k in m && Target(k) == b
    requires forall e :: e in extra ==> MadeFrom(m, todo, e)
    ensures forall e :: e in extra - {k} ==> MadeFrom(m, todo - {k}, e)
    ensures IsSecret(k) ==> MadeFrom(m, todo - {k}, b)
  {
    forall e | e in extra - {k} ensures MadeFrom(m, todo - {k}, e) {
      Smaller(m, todo, k, e);
    }
    Smaller(m, todo, k, b);
  }

  /** Then the invariant holds again. */
  lemma BecomesKeeps(env: Environment, m: Fields, c: Fields, s: Scan, k: string, b: string, s': Scan)
    requires ScanInv(env, m, c, s) && Becomes(env, m, c, s, k, b, s')
    ensures ScanInv(env, m, c, s')
  {
    OthersAsBefore(env, m, c, s, k, b, s');
    FieldsStayReached(m, s.todo, s.cur.Keys, k, b);
    ExtrasStayMade(m, s.todo, s.extra, k, b);
  }

  lemma ReplaceBecomes(env: Environment, m: Fields, c: Fields, s: Scan, k: string, b: string, v: Value)
    requires ScanInv(env, m, c, s) && k in s.todo && IsSecret(k) && Target(k) == b && b !in s.cur
    requires KeyResolvable(env, m, c, k) && Final(env, m, c, k) == v
    ensures Becomes(env, m, c, s, k, b, Replace(s, k, b, v))
  {
    ReplaceCur(s.cur, k, b, v);
  }

  lemma ReplaceCur(cur: Fields, k: string, b: string, v: Value)
    requires k in cur && b !in cur
    ensures cur[b := v] - {k} == (cur - {k})[b := v]
  {
  }

  lemma UpdateBecomes(env: Environment, m: Fields, c: Fields, s: Scan, k: string)
    requires ScanInv(env, m, c, s) && k in s.todo && !IsSecret(k) && k in c
    ensures Becomes(env, m, c, s, k, k, Update(s, k, c[k]))
  {
    assert s.cur[k := c[k]] == (s.cur - {k})[k := c[k]];
  }

  lemma VisitBecomes(env: Environment, m: Fields, c: Fields, s: Scan, x: Entry, s': Scan)
    requires ScanInv(env, m, c, s) && x.key in s.todo && Produces(s, x) && Agrees(m, c, x)
    requires Visit(env, s, x) == Some(s')
    ensures Becomes(env, m, c, s, x.key, Target(x.key), s')
  {
    if IsSecret(x.key) {
      TargetIsNew(env, m, c, s, x.key);
      ReplaceBecomes(env, m, c, s, x.key, Target(x.key), Final(env, m, c, x.key));
    } else {
      UpdateBecomes(env, m, c, s, x.key);
    }
  }

  /** Visiting an original entry succeeds exactly if its key is resolvable, and keeps the invariant. */
  lemma TodoKeeps(env: Environment, m: Fields, c: Fields, s: Scan, x: Entry)
    requires ScanInv(env, m, c, s) && x.key in s.todo && Produces(s, x) && Agrees(m, c, x)
    ensures Visit(env, s, x).Some? <==> KeyResolvable(env, m, c, x.key)
    ensures Visit(env, s, x).Some? ==>
      && ScanInv(env, m, c, Visit(env, s, x).value)
      && Visit(env, s, x).value.todo == s.todo - {x.key}
      && Visit(env, s, x).value.extra == s.extra - {x.key} + if IsSecret(x.key) then {Target(x.key)} else {}
  {
    match Visit(env, s, x)
    case None =>
    case Some(s') =>
      VisitBecomes(env, m, c, s, x, s');
      BecomesKeeps(env, m, c, s, x.key, Target(x.key), s');
  }

  lemma NoBaseIsKey(m: Fields, k: string)
    requires NoConflicts(m) && k in m && IsSecret(k)
    ensures Base(k) !in m
  {
    assert !Conflicts(m, k);
  }

  /** An entry made by the loop holds its string, under no original key. */
  lemma ExtraIsFinal(env: Environment, m: Fields, c: Fields, s: Scan, e: string)
    requires ScanInv(env, m, c, s) && e in s.extra
    ensures e in s.cur && s.cur[e].Text? && e !in m
  {
    var j :| j in m && j !in s.todo && IsSecret(j) && Target(j) == e;
    assert s.cur[Target(j)] == Final(env, m, c, j);
    NoBaseIsKey(m, j);
  }

  /** Visiting an entry made by the loop, if it is no secret key, changes nothing. */
  lemma ExtraKeeps(env: Environment, m: Fields, c: Fields, s: Scan, x: Entry)
    requires ScanInv(env, m, c, s) && Produces(s, x) && Agrees(m, c, x)
    requires x.key !in s.todo && !IsSecret(x.key)
    ensures Visit(env, s, x) == Some(Scan(s.cur, s.todo, s.extra - {x.key}))
    ensures ScanInv(env, m, c, Scan(s.cur, s.todo, s.extra - {x.key}))
  {
    ExtraIsFinal(env, m, c, s, x.key);
    assert s.cur[x.key := x.value] == s.cur;
    assert s.todo - {x.key} == s.todo;
  }

  /** At the end each key has become its field, and there is no other. */
  lemma EndOfScan(env: Environment, m: Fields, c: Fields, s: Scan)
    requires ScanInv(env, m, c, s) && s.todo == {}
    ensures forall k :: k in m ==>
      KeyResolvable(env, m, c, k) && Target(k) in s.cur && s.cur[Target(k)] == Final(env, m, c, k)
    ensures forall t :: t in s.cur <==> t in Targets(m)
  {
  }

  lemma EndIsMeant(env: Environment, m: Fields, s: Scan)
    requires ScanInv(env, m, MeantFields(env, m), s) && s.todo == {}
    ensures Meant(env, Object(m)) == Some(Object(s.cur))
  {
    EndOfScan(env, m, MeantFields(env, m), s);
    forall k | k in m ensures if IsSecret(k) then Secret(env, k, m[k]).Some? else Resolvable(env, m[k]) {
      assert KeyResolvable(env, m, MeantFields(env, m), k);
    }
    var r := Resolved(env, Object(m)).fields;
    forall t | t in s.cur ensures t in r && r[t] == s.cur[t] {
      ResolvedField(env, m, Source(m, t));
    }
    assert s.cur == r;
  }

  // ---------- the order does not matter, as long as no base is a secret key ----------

  lemma FaultyIsNotMeant(env: Environment, m: Fields, k: string)
    requires k in m && !KeyResolvable(env, m, MeantFields(env, m), k)
    ensures Meant(env, Object(m)) == None
  {
  }

  lemma MadeIsPlain(m: Fields, todo: set<string>, e: string)
    requires MadeFrom(m, todo, e) && PlainKeys(m)
    ensures !IsSecret(e)
  {
  }

  lemma VisitKeeps(env: Environment, m: Fields, s: Scan, x: Entry)
    requires ScanInv(env, m, MeantFields(env, m), s) && PlainKeys(m)
    requires Produces(s, x) && Agrees(m, MeantFields(env, m), x)
    ensures Visit(env, s, x).Some? ==> ScanInv(env, m, MeantFields(env, m), Visit(env, s, x).value)
    ensures Visit(env, s, x).None? ==> Meant(env, Object(m)) == None
  {
    if x.key in s.todo {
      TodoKeeps(env, m, MeantFields(env, m), s, x);
      if Visit(env, s, x).None? { FaultyIsNotMeant(env, m, x.key); }
    } else {
      MadeIsPlain(m, s.todo, x.key);
      ExtraKeeps(env, m, MeantFields(env, m), s, x);
    }
  }

  lemma {:induction false} EveryOrderIsMeant(env: Environment, m: Fields, s: Scan, xs: seq<Entry>, r: Option<Value>)
    requires ScanInv(env, m, MeantFields(env, m), s) && PlainKeys(m)
    requires Leads(env, s, xs, r) && forall i :: 0 <= i < |xs| ==> Agrees(m, MeantFields(env, m), xs[i])
    ensures r == Meant(env, Object(m))
    decreases |xs|
  {
    if xs == [] {
      EndIsMeant(env, m, s);
    } else {
      VisitKeeps(env, m, s, xs[0]);
      match Visit(env, s, xs[0])
      case None =>
      case Some(s') => EveryOrderIsMeant(env, m, s', xs[1..], r);
    }
  }

  /** When no base is a secret key, at any depth, no order has any other result than the one meant. */
  lemma {:induction false} PlainOutcomeIsMeant(env: Environment, v: Value, r: Option<Value>)
    requires Plain(v) && Outcome(env, v, r)
    ensures r == Meant(env, v)
    decreases v
  {
    match v
    case Items(xs) =>
      forall i, y | 0 <= i < |xs| && Outcome(env, xs[i], y) ensures y == Meant(env, xs[i]) {
        PlainOutcomeIsMeant(env, xs[i], y);
      }
      if r.Some? { assert r.value.items == Resolved(env, v).items; }
    case Object(m) =>
      if NoConflicts(m) {
        var xs: seq<Entry> :| Leads(env, Start(m), xs, r) && Faithful(env, m, xs);
        forall i | 0 <= i < |xs| ensures Agrees(m, MeantFields(env, m), xs[i]) {
          var x: Entry := xs[i];
          if !IsSecret(x.key) && x.key in m && Outcome(env, m[x.key], x.nested) {
            PlainOutcomeIsMeant(env, m[x.key], x.nested);
          }
        }
        StartInv(env, m, MeantFields(env, m));
        EveryOrderIsMeant(env, m, Start(m), xs, r);
      }
    case _ =>
  }

  // ---------- orders that exist ----------

  /** These entries take the loop from s to s' without an error. */
  ghost predicate Reaches(env: Environment, s: Scan, xs: seq<Entry>, s': Scan)
    decreases |xs|
  {
    if xs == [] then s == s'
    else
      && Produces(s, xs[0]) && Visit(env, s, xs[0]).Some?
      && Reaches(env, Visit(env, s, xs[0]).value, xs[1..], s')
  }

  lemma {:induction false} ReachThenLead(
    env: Environment, s: Scan, before: seq<Entry>, s': Scan, after: seq<Entry>, r: Option<Value>)
    requires Reaches(env, s, before, s') && Leads(env, s', after, r)
    ensures Leads(env, s, before + after, r)
    decreases |before|
  {
    if before == [] {
      assert before + after == after;
    } else {
      ReachThenLead(env, Visit(env, s, before[0]).value, before[1..], s', after, r);
      assert (before + after)[1..] == before[1..] + after;
    }
  }

  lemma {:induction false} ReachOneMore(env: Environment, s: Scan, xs: seq<Entry>, s': Scan, x: Entry)
    requires Reaches(env, s, xs, s') && Produces(s', x) && Visit(env, s', x).Some?
    ensures Reaches(env, s, xs + [x], Visit(env, s', x).value)
    decreases |xs|
  {
    if xs == [] {
    } else {
      ReachOneMore(env, Visit(env, s, xs[0]).value, xs[1..], s', x);
      assert (xs + [x])[1..] == xs[1..] + [x];
    }
  }

  /** Every key can be resolved, its literal entries to what c says. */
  ghost predicate Choice(env: Environment, m: Fields, c: Fields) {
    forall k :: k in m ==> KeyResolvable(env, m, c, k) && (!IsSecret(k) ==> Outcome(env, m[k], Some(c[k])))
  }

  /** No made entry is lost, but for those that share a name with an original one. */
  predicate KeepsMade(m: Fields, s: Scan, s': Scan) {
    forall e :: e in s.extra && e !in m ==> e in s'.extra
  }

  lemma ReachFirst(env: Environment, s: Scan, x: Entry, s': Scan, rest: seq<Entry>, end: Scan)
    requires Produces(s, x) && Visit(env, s, x) == Some(s') && Reaches(env, s', rest, end)
    ensures Reaches(env, s, [x] + rest, end)
  {
    assert ([x] + rest)[1..] == rest;
  }

  lemma OriginalStep(env: Environment, m: Fields, c: Fields, s: Scan, k: string) returns (x: Entry, s': Scan)
    requires ScanInv(env, m, c, s) && Choice(env, m, c) && k in s.todo
    ensures Produces(s, x) && Visit(env, s, x) == Some(s') && Faithful(env, m, [x])
    ensures ScanInv(env, m, c, s') && s'.todo == s.todo - {k}
    ensures KeepsMade(m, s, s') && (IsSecret(k) ==> Base(k) in s'.extra && Base(k) !in m)
  {
    x := Entry(k, m[k], if k in c then Some(c[k]) else None);
    TodoKeeps(env, m, c, s, x);
    if IsSecret(k) { NoBaseIsKey(m, k); }
    s' := Visit(env, s, x).value;
  }

  /** Visiting just the original entries, in some order, leaves the made ones to come. */
  lemma {:induction false} CanScanOriginals(env: Environment, m: Fields, c: Fields, s: Scan)
    returns (xs: seq<Entry>, end: Scan)
    requires ScanInv(env, m, c, s) && Choice(env, m, c)
    ensures Reaches(env, s, xs, end) && Faithful(env, m, xs) && ScanInv(env, m, c, end) && end.todo == {}
    ensures KeepsMade(m, s, end)
    decreases |s.todo|
  {
    if s.todo == {} {
      xs, end := [], s;
    } else {
      var k :| k in s.todo;
      var x, s' := OriginalStep(env, m, c, s, k);
      var rest;
      rest, end := CanScanOriginals(env, m, c, s');
      xs := [x] + rest;
      ReachFirst(env, s, x, s', rest, end);
      FaithfulJoin(env, m, [x], rest);
    }
  }

  lemma ScanIsOutcome(env: Environment, m: Fields, xs: seq<Entry>, end: Scan)
    requires NoConflicts(m) && Reaches(env, Start(m), xs, end) && Faithful(env, m, xs) && end.todo == {}
    ensures Outcome(env, Object(m), Some(Object(end.cur)))
  {
    ReachThenLead(env, Start(m), xs, end, [], Some(Object(end.cur)));
    assert xs + [] == xs;
  }

  lemma FailedVisitIsOutcome(env: Environment, m: Fields, xs: seq<Entry>, s: Scan, x: Entry)
    requires NoConflicts(m) && Reaches(env, Start(m), xs, s) && Faithful(env, m, xs + [x])
    requires Produces(s, x) && Visit(env, s, x).None?
    ensures Outcome(env, Object(m), None)
  {
    assert Leads(env, s, [x], None);
    ReachThenLead(env, Start(m), xs, s, [x], None);
  }

  lemma FaithfulJoin(env: Environment, m: Fields, xs: seq<Entry>, ys: seq<Entry>)
    requires Faithful(env, m, xs) && Faithful(env, m, ys)
    ensures Faithful(env, m, xs + ys)
  {
  }

  /** Some order has the meant result, if there is one. */
  lemma {:induction false} MeantIsOutcome(env: Environment, v: Value)
    requires Resolvable(env, v)
    ensures Outcome(env, v, Some(Resolved(env, v)))
    decreases v
  {
    match v
    case Items(xs) =>
      forall i | 0 <= i < |xs| ensures Outcome(env, xs[i], Some(Resolved(env, xs[i]))) { MeantIsOutcome(env, xs[i]); }
    case Object(m) =>
      var c := MeantFields(env, m);
      MeantIsChoice(env, m);
      StartInv(env, m, c);
      var xs, end := CanScanOriginals(env, m, c, Start(m));
      EndIsMeant(env, m, end);
      ScanIsOutcome(env, m, xs, end);
    case _ =>
  }

  lemma {:induction false} MeantIsChoice(env: Environment, m: Fields)
    requires Resolvable(env, Object(m))
    ensures Choice(env, m, MeantFields(env, m))
    decreases Object(m), 0
  {
    forall k | k in m && !IsSecret(k) ensures Outcome(env, m[k], Some(Resolved(env, m[k]))) {
      MeantIsOutcome(env, m[k]);
    }
  }

  lemma FaultyEntryFails(env: Environment, m: Fields, k: string)
    requires NoConflicts(m) && k in m
    requires if IsSecret(k) then Secret(env, k, m[k]).None? else Outcome(env, m[k], None)
    ensures Outcome(env, Object(m), None)
  {
    var x := Entry(k, m[k], None);
    assert Produces(Start(m), x) && Visit(env, Start(m), x).None?;
    assert [] + [x] == [x];
    assert Reaches(env, Start(m), [], Start(m)) && Faithful(env, m, [x]);
    FailedVisitIsOutcome(env, m, [], Start(m), x);
  }

  lemma FaultyKey(env: Environment, m: Fields) returns (k: string)
    requires NoConflicts(m) && !Resolvable(env, Object(m))
    ensures k in m && if IsSecret(k) then Secret(env, k, m[k]).None? else !Resolvable(env, m[k])
  {
    k :| k in m && !(if IsSecret(k) then Secret(env, k, m[k]).Some? else Resolvable(env, m[k]));
  }

  /** And some order fails if there is none: the one that comes to a faulty field first. */
  lemma {:induction false} UnresolvableCanFail(env: Environment, v: Value)
    requires !Resolvable(env, v)
    ensures Outcome(env, v, None)
    decreases v
  {
    match v
    case Items(xs) => FirstUnresolvable(env, xs, |xs|);
    case Object(m) =>
      if NoConflicts(m) {
        var k := FaultyKey(env, m);
        if !IsSecret(k) { UnresolvableCanFail(env, m[k]); }
        FaultyEntryFails(env, m, k);
      }
  }

  lemma {:induction false} FirstUnresolvable(env: Environment, xs: seq<Value>, n: nat)
    requires n <= |xs| && exists i :: 0 <= i < n && !Resolvable(env, xs[i])
    ensures Outcome(env, Items(xs), None)
    decreases Items(xs), 0, n
  {
    var i :| 0 <= i < n && !Resolvable(env, xs[i]);
    if exists j :: 0 <= j < i && !Resolvable(env, xs[j]) {
      FirstUnresolvable(env, xs, i);
    } else {
      UnresolvableCanFail(env, xs[i]);
      forall j | 0 <= j < i ensures CanSucceed(env, xs[j]) { MeantIsOutcome(env, xs[j]); }
    }
  }

  /** When no base is a secret key, at any depth, the one and only outcome is the one meant. */
  lemma PlainOutcomeIff(env: Environment, v: Value, r: Option<Value>)
    requires Plain(v)
    ensures Outcome(env, v, r) <==> r == Meant(env, v)
  {
    if Outcome(env, v, r) { PlainOutcomeIsMeant(env, v, r); }
    if Resolvable(env, v) { MeantIsOutcome(env, v); } else { UnresolvableCanFail(env, v); }
  }

  // ---------- orders that disagree ----------

  /** All orders give the same result. */
  ghost predicate OrderIndependent(env: Environment, v: Value) {
    forall r, r' :: Outcome(env, v, r) && Outcome(env, v, r') ==> r == r'
  }

  /** If a base is a secret key, producing the entry the loop made for it is an error, or deletes it. */
  lemma SecretBaseDiffers(env: Environment, m: Fields, k: string) returns (r: Option<Value>)
    requires Resolvable(env, Object(m)) && k in m && IsSecret(k) && IsSecret(Base(k))
    ensures Outcome(env, Object(m), r) && r != Meant(env, Object(m))
  {
    var c := MeantFields(env, m);
    MeantIsChoice(env, m);
    StartInv(env, m, c);
    var x, s := OriginalStep(env, m, c, Start(m), k);
    var rest, end := CanScanOriginals(env, m, c, s);
    ReachFirst(env, Start(m), x, s, rest, end);
    FaithfulJoin(env, m, [x], rest);
    EndIsMeant(env, m, end);
    assert Target(k) in end.cur;
    r := AnotherOutcome(env, m, [x] + rest, end, Base(k));
  }

  lemma AnotherOutcome(env: Environment, m: Fields, xs: seq<Entry>, end: Scan, b: string) returns (r: Option<Value>)
    requires NoConflicts(m) && Reaches(env, Start(m), xs, end) && Faithful(env, m, xs)
    requires end.todo == {} && CanVisit(end, b) && IsSecret(b)
    ensures Outcome(env, Object(m), r) && r != Some(Object(end.cur))
  {
    KeyParts(b);
    var x := Entry(b, end.cur[b], None);
    var visited := Visit(env, end, x);
    r := if visited.Some? then Some(Object(visited.value.cur)) else None;
    assert visited.Some? ==> b !in visited.value.cur && Leads(env, visited.value, [x][1..], r);
    ReachThenLead(env, Start(m), xs, end, [x], r);
  }

  /** If descending into entry k can come to something else, so can the loop. */
  lemma NestedDiffers(env: Environment, m: Fields, k: string, y: Option<Value>) returns (r: Option<Value>)
    requires Resolvable(env, Object(m)) && k in m && !IsSecret(k)
    requires Outcome(env, m[k], y) && y != Meant(env, m[k])
    ensures Outcome(env, Object(m), r) && r != Meant(env, Object(m))
  {
    if y.None? {
      r := None;
      assert Leads(env, Start(m), [Entry(k, m[k], None)], r);
    } else {
      var c := MeantFields(env, m)[k := y.value];
      MeantIsChoice(env, m);
      StartInv(env, m, c);
      var xs, end := CanScanOriginals(env, m, c, Start(m));
      r := Some(Object(end.cur));
      EndOfScan(env, m, c, end);
      ScanIsOutcome(env, m, xs, end);
      ResolvedField(env, m, k);
    }
  }

  lemma ItemDiffers(env: Environment, xs: seq<Value>, i: nat, y: Option<Value>) returns (r: Option<Value>)
    requires Resolvable(env, Items(xs)) && i < |xs|
    requires Outcome(env, xs[i], y) && y != Meant(env, xs[i])
    ensures Outcome(env, Items(xs), r) && r != Meant(env, Items(xs))
  {
    forall j | 0 <= j < |xs| ensures Outcome(env, xs[j], Some(Resolved(env, xs[j]))) { MeantIsOutcome(env, xs[j]); }
    var ys := Resolved(env, Items(xs)).items;
    r := if y.Some? then Some(Items(ys[i := y.value])) else None;
    assert r.Some? ==> r.value.items[i] != ys[i];
  }

  /** If anywhere in the tree a base is a secret key, some order has another result. */
  lemma {:induction false} SomeOrderDiffers(env: Environment, v: Value) returns (r: Option<Value>)
    requires Resolvable(env, v) && !Plain(v)
    ensures Outcome(env, v, r) && r != Meant(env, v)
    decreases v
  {
    match v
    case Items(xs) =>
      var i :| 0 <= i < |xs| && !Plain(xs[i]);
      var y := SomeOrderDiffers(env, xs[i]);
      r := ItemDiffers(env, xs, i, y);
    case Object(m) =>
      if PlainKeys(m) {
        var k :| k in m && !Plain(m[k]);
        var y := SomeOrderDiffers(env, m[k]);
        r := NestedDiffers(env, m, k, y);
      } else {
        var k :| k in m && IsSecret(k) && IsSecret(Base(k));
        r := SecretBaseDiffers(env, m, k);
      }
  }

  /** For a tree that resolves, the order is immaterial exactly when nowhere in it a base is a secret key. */
  lemma OrderIndependentIff(env: Environment, v: Value)
    requires Resolvable(env, v)
    ensures OrderIndependent(env, v) <==> Plain(v)
  {
    if Plain(v) {
      forall r | Outcome(env, v, r) ensures r == Meant(env, v) {
        PlainOutcomeIsMeant(env, v, r);
      }
    } else {
      var r := SomeOrderDiffers(env, v);
      MeantIsOutcome(env, v);
    }
  }

  /** The smallest such object: one file reference whose base is an environment reference. */
  lemma OrderCanMatter(env: Environment)
    requires "p" in env.files
    ensures !OrderIndependent(env, Object(map["x" + ENV_SUFFIX + FILE_SUFFIX := Text("p")]))
  {
    var b := "x" + ENV_SUFFIX;
    var k := b + FILE_SUFFIX;
    EnvKey("x");
    FileKey(b);
    LoneSecretMatters(env, k);
  }

  lemma LoneSecretMatters(env: Environment, k: string)
    requires IsSecret(k) && IsSecret(Base(k)) && Secret(env, k, Text("p")).Some?
    ensures !OrderIndependent(env, Object(map[k := Text("p")]))
  {
    var m := map[k := Text("p")];
    LoneKeyHasNoConflict(m, k);
    assert k in m && !PlainKeys(m);
    assert Resolvable(env, Object(m));
    OrderIndependentIff(env, Object(m));
  }

  lemma LoneKeyHasNoConflict(m: Fields, k: string)
    requires IsSecret(k) && m.Keys == {k}
    ensures NoConflicts(m)
  {
    KeyParts(k);
    EnvKey(Base(k));
    FileKey(Base(k));
    assert !Conflicts(m, k);
    forall j | j in m ensures !Conflicts(m, j) { assert j in m.Keys; }
  }

  // ---------- a tree that does not resolve ----------

  lemma ThreeSteps(m: Fields, k: string, b: string, x: string, v: Value, w: Value, s1: Scan, s2: Scan, s3: Scan)
    requires m.Keys == {k, x} && k != x && b != x && b != k
    requires s1 == Replace(Start(m), k, b, v) && s2 == Replace(s1, b, x, w) && s3 == Update(s2, x, w)
    ensures CanVisit(Start(m), k) && CanVisit(s1, b) && s1.cur[b] == v && CanVisit(s2, x) && s2.cur[x] == w
    ensures s3.todo == {} && s3.cur == map[x := w]
  {
    assert k in m && x in m;
  }

  /** Three visits: k makes b, which is produced in its turn and overwrites x before x is reached. */
  lemma OverwrittenInTime(env: Environment, m: Fields, k: string, b: string, x: string, name: string, text: string)
    requires NoConflicts(m) && m.Keys == {k, x} && k != x && b != x && b != k
    requires IsSecret(k) && Base(k) == b && Secret(env, k, m[k]) == Some(name)
    requires IsSecret(b) && Base(b) == x && Secret(env, b, Text(name)) == Some(text)
    requires !IsSecret(x)
    ensures Outcome(env, Object(m), Some(Object(map[x := Text(text)])))
  {
    var e1, e2, e3 := Entry(k, m[k], None), Entry(b, Text(name), None), Entry(x, Text(text), Some(Text(text)));
    var s0 := Start(m);
    var s1 := Replace(s0, k, b, Text(name));
    var s2 := Replace(s1, b, x, Text(text));
    var s3 := Update(s2, x, Text(text));
    ThreeSteps(m, k, b, x, Text(name), Text(text), s1, s2, s3);
    assert Reaches(env, s3, [], s3);
    ReachFirst(env, s2, e3, s3, [], s3);
    ReachFirst(env, s1, e2, s2, [e3] + [], s3);
    ReachFirst(env, s0, e1, s1, [e2] + ([e3] + []), s3);
    ScanIsOutcome(env, m, [e1] + ([e2] + ([e3] + [])), s3);
  }

  /** k is a file reference to b, b an environment reference to x, and x a literal. */
  predicate Chain(k: string, b: string, x: string) {
    && IsSecret(k) && !IsEnv(k) && Base(k) == b
    && IsEnv(b) && Base(b) == x
    && !IsSecret(x) && |x| < |b| < |k|
  }

  lemma ChainKeys(x: string)
    requires !IsSecret(x)
    ensures Chain(x + ENV_SUFFIX + FILE_SUFFIX, x + ENV_SUFFIX, x)
  {
    EnvKey(x);
    FileKey(x + ENV_SUFFIX);
  }

  lemma ChainHasNoConflicts(m: Fields, k: string, b: string, x: string)
    requires Chain(k, b, x) && m.Keys == {k, x}
    ensures NoConflicts(m)
  {
    EnvKey(b);
    assert b !in m.Keys && b + ENV_SUFFIX !in m.Keys;
    assert !Conflicts(m, k) && !Conflicts(m, x);
    forall j | j in m ensures !Conflicts(m, j) { assert j in m.Keys; }
  }

  lemma ChainRescues(env: Environment, m: Fields, k: string, b: string, x: string, path: string, name: string)
    requires Chain(k, b, x) && m.Keys == {k, x} && m[k] == Text(path) && !Resolvable(env, m[x])
    requires path != "" && path in env.files && TrimNewlines(env.files[path]) == name && name != "" && name in env.vars
    ensures !Resolvable(env, Object(m)) && !OrderIndependent(env, Object(m))
  {
    assert x in m;
    ChainHasNoConflicts(m, k, b, x);
    UnresolvableCanFail(env, Object(m));
    OverwrittenInTime(env, m, k, b, x, name, env.vars[name]);
  }

  /**
   So the order can matter for a tree with a field that cannot be resolved, too: if that field is
   reached in time the loop fails, but here it can be overwritten first.
   */
  lemma OverwriteCanRescue(env: Environment, x: string, bad: Value, path: string, name: string)
    requires !IsSecret(x) && !Resolvable(env, bad)
    requires path != "" && path in env.files && TrimNewlines(env.files[path]) == name && name != "" && name in env.vars
    ensures var m := map[x + ENV_SUFFIX + FILE_SUFFIX := Text(path), x := bad];
      !Resolvable(env, Object(m)) && !OrderIndependent(env, Object(m))
  {
    var b := x + ENV_SUFFIX;
    var k := b + FILE_SUFFIX;
    ChainKeys(x);
    ChainRescues(env, map[k := Text(path), x := bad], k, b, x, path, name);
  }

  /** Taking suffixes off j, once or more, gives x. */
  predicate Makes(j: string, x: string)
    decreases |j|
  {
    IsSecret(j) && (Base(j) == x || Makes(Base(j), x))
  }

  ghost predicate MadeFromSome(m: Fields, x: string) {
    exists j :: j in m && Makes(j, x)
  }

  lemma {:induction false} MakesOneMore(j: string, k: string)
    requires Makes(j, k) && IsSecret(k)
    ensures Makes(j, Base(k))
    decreases |j|
  {
    if Base(j) == k {
      assert Makes(k, Base(k));
    } else {
      MakesOneMore(Base(j), k);
    }
  }

  /** What is still to come is as it was, or has been made by some chain. */
  ghost predicate ChainInv(m: Fields, s: Scan) {
    && s.todo <= m.Keys
    && (forall k :: k in s.todo ==> k in s.cur && (s.cur[k] == m[k] || MadeFromSome(m, k)))
    && (forall e :: e in s.extra ==> MadeFromSome(m, e))
  }

  lemma BaseIsMade(m: Fields, s: Scan, k: string)
    requires ChainInv(m, s) && (k in s.todo || k in s.extra) && IsSecret(k)
    ensures MadeFromSome(m, Base(k))
  {
    if k in s.todo {
      assert Makes(k, Base(k));
    } else {
      var j :| j in m && Makes(j, k);
      MakesOneMore(j, k);
    }
  }

  lemma ReplaceKeepsChains(m: Fields, s: Scan, k: string, b: string, v: Value)
    requires ChainInv(m, s) && MadeFromSome(m, b)
    ensures ChainInv(m, Replace(s, k, b, v))
  {
  }

  lemma VisitKeepsChains(env: Environment, m: Fields, s: Scan, x: Entry, s': Scan)
    requires ChainInv(m, s) && Produces(s, x) && Visit(env, s, x) == Some(s')
    ensures ChainInv(m, s') && s'.todo == s.todo - {x.key}
  {
    if IsSecret(x.key) {
      BaseIsMade(m, s, x.key);
      ReplaceKeepsChains(m, s, x.key, Base(x.key), Text(Secret(env, x.key, x.value).value));
    }
  }

  /** The entry cannot be got over as it was. */
  ghost predicate Faulty(env: Environment, m: Fields, k: string)
    requires k in m
  {
    if IsSecret(k) then Secret(env, k, m[k]).None? else !CanSucceed(env, m[k])
  }

  lemma GotOverAsItWas(env: Environment, m: Fields, x: Entry, s: Scan)
    requires x.key in m && x.value == m[x.key] && Visit(env, s, x).Some? && Faithful(env, m, [x])
    ensures !Faulty(env, m, x.key)
  {
    assert [x][0] == x;
    if !IsSecret(x.key) {
      assert Outcome(env, m[x.key], Some(x.nested.value));
    }
  }

  lemma GotOverIsMade(env: Environment, m: Fields, s: Scan, x: Entry)
    requires ChainInv(m, s) && Produces(s, x) && Visit(env, s, x).Some? && Faithful(env, m, [x]) && x.key in s.todo
    ensures Faulty(env, m, x.key) ==> MadeFromSome(m, x.key)
  {
    if x.value == m[x.key] { GotOverAsItWas(env, m, x, s); }
  }

  lemma {:induction false} SuccessMeansMade(env: Environment, m: Fields, s: Scan, xs: seq<Entry>, r: Value)
    requires ChainInv(m, s) && Leads(env, s, xs, Some(r)) && Faithful(env, m, xs)
    ensures forall k :: k in s.todo && Faulty(env, m, k) ==> MadeFromSome(m, k)
    decreases |xs|
  {
    if xs == [] {
    } else {
      var s' := Visit(env, s, xs[0]).value;
      VisitKeepsChains(env, m, s, xs[0], s');
      SuccessMeansMade(env, m, s', xs[1..], r);
      if xs[0].key in s.todo { GotOverIsMade(env, m, s, xs[0]); }
    }
  }

  /** If some order accepts an object, each faulty field is made by a chain that starts at another of its keys. */
  lemma RescueNeedsChain(env: Environment, m: Fields, k: string)
    requires CanSucceed(env, Object(m)) && k in m && Faulty(env, m, k)
    ensures NoConflicts(m) && exists j :: j in m && j != k && Makes(j, k)
  {
    var w :| Outcome(env, Object(m), Some(w));
    var xs: seq<Entry> :| Leads(env, Start(m), xs, Some(w)) && Faithful(env, m, xs);
    SuccessMeansMade(env, m, Start(m), xs, w);
    var j :| j in m && Makes(j, k);
    MakesShorter(j, k);
  }

  lemma {:induction false} MakesShorter(j: string, x: string)
    requires Makes(j, x)
    ensures |x| < |j|
    decreases |j|
  {
    if Base(j) == x {
    } else {
      MakesShorter(Base(j), x);
    }
  }
}
