/** `resolveSecrets` and `resolveNested`, which rewrite the configuration tree in place. */
module Config {
  import opened Options
  import opened Secrets
  import opened SecretScan
  import opened SecretSpec

  /** The letters of a set of keys, which bound how often made entries can be produced. */
  ghost function Letters(keys: set<string>): nat {
    if keys == {} then 0
    else
      var k :| k in keys;
      1 + |k| + Letters(keys - {k})
  }

  lemma {:induction false} LettersWithout(keys: set<string>, k: string)
    requires k in keys
    ensures Letters(keys) == 1 + |k| + Letters(keys - {k})
    decreases |keys|
  {
    var j :| j in keys && Letters(keys) == 1 + |j| + Letters(keys - {j});
    if j != k {
      LettersWithout(keys - {j}, k);
      LettersWithout(keys - {k}, j);
      assert keys - {j} - {k} == keys - {k} - {j};
    }
  }

  lemma MadeEntriesRunOut(extra: set<string>, k: string, base: string)
    requires k in extra && |base| < |k|
    ensures Letters(extra - {k}) < Letters(extra)
    ensures Letters(extra - {k} + {base}) < Letters(extra)
  {
    LettersWithout(extra, k);
    var more := extra - {k} + {base};
    if base in extra - {k} {
      assert more == extra - {k};
    } else {
      LettersWithout(more, base);
      assert more - {base} == extra - {k};
    }
  }

  /** The first loop: no key may conflict with another definition of its field. */
  method CheckConflicts(m: Fields) returns (ok: bool)
    ensures ok <==> NoConflicts(m)
    ensures ok <==> forall t: string :: OneDefinition(m, t)
  {
    NoConflictsIff(m);
    var todo := m.Keys;
    while todo != {}
      invariant todo <= m.Keys
      invariant forall k :: k in m && k !in todo ==> !Conflicts(m, k)
      decreases todo
    {
      var key :| key in todo;
      if Conflicts(m, key) { return false; }
      todo := todo - {key};
    }
    ok := true;
  }

  /**
   Rewrites an object in whatever order the range produces its entries, revisiting made entries or
   not. What it comes to is one of the object's outcomes; when no key has two suffixes, at any depth,
   it succeeds exactly for a well-defined tree, and leaves what that resolves to.
   */
  method ResolveSecrets(env: Environment, m: Fields) returns (ok: bool, cur: Fields)
    ensures Outcome(env, Object(m), if ok then Some(Object(cur)) else None)
    ensures SinglySuffixed(Object(m)) ==> (ok <==> WellDefined(env, Object(m)))
    ensures SinglySuffixed(Object(m)) && ok ==> ResolvesTo(env, Object(m), Object(cur))
    decreases Object(m), 2
  {
    cur := m;
    ok := CheckConflicts(m);
    if ok { ok, cur := ReplaceSecrets(env, m); }
    if SinglySuffixed(Object(m)) { OutcomeResolves(env, Object(m), if ok then Some(Object(cur)) else None); }
  }

  /** The outcome for a tree whose keys have one suffix at most. */
  lemma OutcomeResolves(env: Environment, v: Value, r: Option<Value>)
    requires SinglySuffixed(v) && Outcome(env, v, r)
    ensures r.Some? <==> WellDefined(env, v)
    ensures r.Some? ==> ResolvesTo(env, v, r.value)
  {
    PlainIff(v);
    PlainOutcomeIsMeant(env, v, r);
    ResolvableIff(env, v);
    if r.Some? { MeantIsResolved(env, v); }
  }

  /** The second loop. */
  method ReplaceSecrets(env: Environment, m: Fields) returns (ok: bool, cur: Fields)
    requires NoConflicts(m)
    ensures Outcome(env, Object(m), if ok then Some(Object(cur)) else None)
    decreases Object(m), 1
  {
    ok := true;
    var s := Start(m);
    ghost var xs: seq<Entry> := [];
    while s.todo + s.extra != {}
      invariant Untouched(m, s.cur, s.todo, s.extra)
      invariant Reaches(env, Start(m), xs, s) && Faithful(env, m, xs)
      decreases |s.todo|, Letters(s.extra)
    {
      // Entries made during the range may be skipped.
      if s.todo == {} {
        if * { break; }
      }
      var key :| key in s.todo + s.extra;
      ghost var x;
      ghost var before := s;
      ok, s, x := VisitKey(env, m, s, key);
      FaithfulJoin(env, m, xs, [x]);
      if !ok {
        FailedVisitIsOutcome(env, m, xs, before, x);
        return false, m;
      }
      ReachOneMore(env, Start(m), xs, before, x);
      xs := xs + [x];
    }
    ScanIsOutcome(env, m, xs, s);
    cur := s.cur;
  }

  /** What is still to come is as it was, or a string. */
  predicate Untouched(m: Fields, cur: Fields, todo: set<string>, extra: set<string>) {
    && todo <= m.Keys && todo <= cur.Keys && extra <= cur.Keys
    && (forall k :: k in todo ==> cur[k] == m[k] || cur[k].Text?)
    && (forall k :: k in extra ==> cur[k].Text?)
  }

  /** Fewer original entries to come, or as many and fewer made ones. */
  ghost predicate Closer(todo: set<string>, extra: set<string>, todo': set<string>, extra': set<string>) {
    |todo'| < |todo| || (todo' == todo && Letters(extra') < Letters(extra))
  }

  lemma VisitIsCloser(todo: set<string>, extra: set<string>, key: string)
    requires key in todo + extra
    ensures Closer(todo, extra, todo - {key}, extra - {key})
    ensures forall base: string :: |base| < |key| ==> Closer(todo, extra, todo - {key}, extra - {key} + {base})
  {
    if key in todo {
      TodoShrinks(todo, key);
    } else {
      assert todo - {key} == todo;
      LettersWithout(extra, key);
      forall base: string | |base| < |key| ensures Letters(extra - {key} + {base}) < Letters(extra) {
        MadeEntriesRunOut(extra, key, base);
      }
    }
  }

  /** Replacing key by the string made for it, under a shorter name. */
  lemma SecretVisit(m: Fields, s: Scan, key: string, base: string, v: Value, s': Scan)
    requires Untouched(m, s.cur, s.todo, s.extra) && key in s.todo + s.extra && |base| < |key| && v.Text?
    requires s' == Replace(s, key, base, v)
    ensures Untouched(m, s'.cur, s'.todo, s'.extra) && Closer(s.todo, s.extra, s'.todo, s'.extra)
  {
    VisitIsCloser(s.todo, s.extra, key);
    ReplacedExtra(s, key, base, v);
    ReplacedUntouched(m, s.cur, s.todo, s.extra, key, base, v);
  }

  lemma ReplacedExtra(s: Scan, key: string, base: string, v: Value)
    ensures var extra := Replace(s, key, base, v).extra;
      extra == s.extra - {key} || extra == s.extra - {key} + {base}
  {
    assert s.extra - {key} + {} == s.extra - {key};
  }

  lemma ReplacedUntouched(m: Fields, cur: Fields, todo: set<string>, extra: set<string>, key: string, base: string, v: Value)
    requires Untouched(m, cur, todo, extra) && key != base && v.Text?
    ensures Untouched(m, cur[base := v] - {key}, todo - {key}, extra - {key})
    ensures Untouched(m, cur[base := v] - {key}, todo - {key}, extra - {key} + {base})
  {
  }

  lemma LiteralVisit(m: Fields, s: Scan, key: string, v: Value)
    requires Untouched(m, s.cur, s.todo, s.extra) && key in s.todo + s.extra
    ensures var s' := Update(s, key, v);
      Untouched(m, s'.cur, s'.todo, s'.extra) && Closer(s.todo, s.extra, s'.todo, s'.extra)
  {
    VisitIsCloser(s.todo, s.extra, key);
  }

  lemma LiteralIsFaithful(env: Environment, m: Fields, x: Entry)
    requires if x.value.Text? then x.nested == Some(x.value)
      else x.key in m && x.value == m[x.key] && Outcome(env, m[x.key], x.nested)
    ensures Faithful(env, m, [x])
  {
  }

  /** The body of the second loop. */
  method VisitKey(env: Environment, m: Fields, s: Scan, key: string) returns (ok: bool, s': Scan, ghost x: Entry)
    requires Untouched(m, s.cur, s.todo, s.extra) && key in s.todo + s.extra
    ensures ok ==> Untouched(m, s'.cur, s'.todo, s'.extra) && Closer(s.todo, s.extra, s'.todo, s'.extra)
    ensures x.key == key && Produces(s, x) && Faithful(env, m, [x])
    ensures Visit(env, s, x) == if ok then Some(s') else None
    decreases Object(m), 0
  {
    ok, s' := true, s;
    if IsSecret(key) {
      x := Entry(key, s.cur[key], None);
      var secret := Secret(env, key, s.cur[key]);
      if secret.None? { return false, s, x; }
      KeyParts(key);
      s' := Replace(s, key, Base(key), Text(secret.value));
      SecretVisit(m, s, key, Base(key), Text(secret.value), s');
    } else {
      var val := s.cur[key];
      // A string has nothing nested in it.
      if !val.Text? { ok, val := ResolveNested(env, val); }
      x := Entry(key, s.cur[key], if ok then Some(val) else None);
      LiteralIsFaithful(env, m, x);
      if ok {
        LiteralVisit(m, s, key, val);
        s' := Update(s, key, val);
      }
    }
  }

  lemma TodoShrinks(todo: set<string>, k: string)
    requires k in todo
    ensures |todo - {k}| < |todo|
  {
  }

  /** Descends into objects and lists. */
  method ResolveNested(env: Environment, v: Value) returns (ok: bool, v': Value)
    ensures Outcome(env, v, if ok then Some(v') else None)
    ensures SinglySuffixed(v) ==> (ok <==> WellDefined(env, v)) && (ok ==> ResolvesTo(env, v, v'))
    decreases v, 4
  {
    ok, v' := true, v;
    match v {
      case Object(m) =>
        var fields;
        ok, fields := ResolveSecrets(env, m);
        v' := Object(fields);
      case Items(xs) =>
        var items;
        ok, items := ResolveItems(env, xs);
        v' := Items(items);
      case _ =>
    }
    if SinglySuffixed(v) { OutcomeResolves(env, v, if ok then Some(v') else None); }
  }

  /** The items of a list in turn, up to the first error. */
  method ResolveItems(env: Environment, xs: seq<Value>) returns (ok: bool, items: seq<Value>)
    ensures Outcome(env, Items(xs), if ok then Some(Items(items)) else None)
    decreases Items(xs), 3
  {
    items := [];
    var i := 0;
    while i < |xs|
      invariant 0 <= i <= |xs| && |items| == i
      invariant forall j :: 0 <= j < i ==> Outcome(env, xs[j], Some(items[j]))
    {
      var item;
      ok, item := ResolveNested(env, xs[i]);
      if !ok {
        forall j | 0 <= j < i ensures CanSucceed(env, xs[j]) {
          assert Outcome(env, xs[j], Some(items[j]));
        }
        return;
      }
      items := items + [item];
      i := i + 1;
    }
    ok := true;
  }
}
