/**
 What the author of a configuration can check: which trees resolve, and to what, in terms of its
 keys, the environment and the files alone.
 */
module SecretSpec {
  import opened Options
  import opened Secrets

  /** No suffix. */
  ghost predicate Literal(k: string) {
    forall t: string :: k != t + ENV_SUFFIX && k != t + FILE_SUFFIX
  }

  /** Field t is defined in one way at most. */
  ghost predicate OneDefinition(m: Fields, t: string) {
    && !(t in m && t + ENV_SUFFIX in m)
    && !(t in m && t + FILE_SUFFIX in m)
    && !(t + ENV_SUFFIX in m && t + FILE_SUFFIX in m)
  }

  /** A reference for field t is a non-empty string that names a variable which is set, or a file which can be read. */
  ghost predicate ReferencesHold(env: Environment, m: Fields, t: string) {
    && (t + ENV_SUFFIX in m ==>
      m[t + ENV_SUFFIX].Text? && m[t + ENV_SUFFIX].text != "" && m[t + ENV_SUFFIX].text in env.vars)
    && (t + FILE_SUFFIX in m ==>
      m[t + FILE_SUFFIX].Text? && m[t + FILE_SUFFIX].text != "" && m[t + FILE_SUFFIX].text in env.files)
  }

  /** At every depth each field has one definition, and each reference holds. */
  ghost predicate WellDefined(env: Environment, v: Value) {
    match v
    case Text(_) => true
    case Scalar(_) => true
    case Items(xs) => forall i :: 0 <= i < |xs| ==> WellDefined(env, xs[i])
    case Object(m) =>
      && (forall t: string :: OneDefinition(m, t) && ReferencesHold(env, m, t))
      && (forall k :: k in m && Literal(k) ==> WellDefined(env, m[k]))
  }

  /** No key of the object has two suffixes or more. */
  ghost predicate NoDoubleSuffix(m: Fields) {
    forall t: string ::
      && t + ENV_SUFFIX + ENV_SUFFIX !in m && t + ENV_SUFFIX + FILE_SUFFIX !in m
      && t + FILE_SUFFIX + ENV_SUFFIX !in m && t + FILE_SUFFIX + FILE_SUFFIX !in m
  }

  /** Nor has any at any depth. */
  ghost predicate SinglySuffixed(v: Value) {
    match v
    case Text(_) => true
    case Scalar(_) => true
    case Items(xs) => forall i :: 0 <= i < |xs| ==> SinglySuffixed(xs[i])
    case Object(m) => NoDoubleSuffix(m) && forall k :: k in m ==> SinglySuffixed(m[k])
  }

  /** The field t of r is what m defines it to be, if it does at all. */
  ghost predicate FieldOf(env: Environment, m: Fields, r: Fields, t: string) {
    && (t in r <==> (t in m && Literal(t)) || t + ENV_SUFFIX in m || t + FILE_SUFFIX in m)
    && (t + ENV_SUFFIX in m && m[t + ENV_SUFFIX].Text? && m[t + ENV_SUFFIX].text in env.vars ==>
      t in r && r[t] == Text(env.vars[m[t + ENV_SUFFIX].text]))
    && (t + FILE_SUFFIX in m && m[t + FILE_SUFFIX].Text? && m[t + FILE_SUFFIX].text in env.files ==>
      t in r && r[t] == Text(TrimNewlines(env.files[m[t + FILE_SUFFIX].text])))
  }

  /** w is what v resolves to. */
  ghost predicate ResolvesTo(env: Environment, v: Value, w: Value) {
    match v
    case Text(_) => w == v
    case Scalar(_) => w == v
    case Items(xs) => w.Items? && |w.items| == |xs| && forall i :: 0 <= i < |xs| ==> ResolvesTo(env, xs[i], w.items[i])
    case Object(m) =>
      && w.Object?
      && (forall t: string :: FieldOf(env, m, w.fields, t))
      && (forall k :: k in m && Literal(k) && k in w.fields ==> ResolvesTo(env, m[k], w.fields[k]))
  }

  lemma LiteralIff(k: string)
    ensures Literal(k) <==> !IsSecret(k)
  {
    KeyParts(k);
    forall t: string ensures k == t + ENV_SUFFIX ==> IsSecret(k) {
      EnvKey(t);
    }
    forall t: string ensures k == t + FILE_SUFFIX ==> IsSecret(k) {
      FileKey(t);
    }
  }

  /** The conflict check refuses an object exactly if some field has two definitions. */
  lemma NoConflictsIff(m: Fields)
    ensures NoConflicts(m) <==> forall t: string :: OneDefinition(m, t)
  {
    forall t: string ensures NoConflicts(m) ==> OneDefinition(m, t) {
      EnvKey(t);
      FileKey(t);
    }
    forall k | k in m ensures (forall t: string :: OneDefinition(m, t)) ==> !Conflicts(m, k) {
      KeyParts(k);
      if IsSecret(k) { assert OneDefinition(m, Base(k)) ==> !Conflicts(m, k); }
    }
  }

  lemma SecretIff(env: Environment, m: Fields, t: string)
    ensures ReferencesHold(env, m, t) <==>
      && (t + ENV_SUFFIX in m ==> Secret(env, t + ENV_SUFFIX, m[t + ENV_SUFFIX]).Some?)
      && (t + FILE_SUFFIX in m ==> Secret(env, t + FILE_SUFFIX, m[t + FILE_SUFFIX]).Some?)
  {
    EnvKey(t);
    FileKey(t);
  }

  lemma ReferencesIff(env: Environment, m: Fields)
    ensures (forall t: string :: ReferencesHold(env, m, t)) <==>
      forall k :: k in m && IsSecret(k) ==> Secret(env, k, m[k]).Some?
  {
    forall t: string
      ensures (forall k :: k in m && IsSecret(k) ==> Secret(env, k, m[k]).Some?) ==> ReferencesHold(env, m, t)
    {
      EnvKey(t);
      FileKey(t);
      SecretIff(env, m, t);
    }
    forall k | k in m && IsSecret(k)
      ensures (forall t: string :: ReferencesHold(env, m, t)) ==> Secret(env, k, m[k]).Some?
    {
      KeyParts(k);
      SecretIff(env, m, Base(k));
      assert ReferencesHold(env, m, Base(k)) ==> Secret(env, k, m[k]).Some?;
    }
  }

  /** So the trees that resolve are the well-defined ones. */
  lemma {:induction false} ResolvableIff(env: Environment, v: Value)
    ensures Resolvable(env, v) <==> WellDefined(env, v)
    decreases v
  {
    match v
    case Items(xs) =>
      forall i | 0 <= i < |xs| ensures Resolvable(env, xs[i]) <==> WellDefined(env, xs[i]) { ResolvableIff(env, xs[i]); }
    case Object(m) =>
      forall k | k in m ensures Resolvable(env, m[k]) <==> WellDefined(env, m[k]) { ResolvableIff(env, m[k]); }
      forall k ensures Literal(k) <==> !IsSecret(k) { LiteralIff(k); }
      ObjectResolvableIff(env, m);
    case _ =>
  }

  lemma ObjectResolvableIff(env: Environment, m: Fields)
    ensures Resolvable(env, Object(m)) <==>
      && (forall t: string :: OneDefinition(m, t)) && (forall t: string :: ReferencesHold(env, m, t))
      && (forall k :: k in m && !IsSecret(k) ==> Resolvable(env, m[k]))
  {
    NoConflictsIff(m);
    ReferencesIff(env, m);
  }

  lemma KeyWithSuffix(t: string)
    ensures IsSecret(t + ENV_SUFFIX) && Base(t + ENV_SUFFIX) == t
    ensures IsSecret(t + FILE_SUFFIX) && Base(t + FILE_SUFFIX) == t
  {
    EnvKey(t);
    FileKey(t);
  }

  lemma NoDoubleSuffixIff(m: Fields)
    ensures PlainKeys(m) <==> NoDoubleSuffix(m)
  {
    forall t: string ensures PlainKeys(m) ==>
      && t + ENV_SUFFIX + ENV_SUFFIX !in m && t + ENV_SUFFIX + FILE_SUFFIX !in m
      && t + FILE_SUFFIX + ENV_SUFFIX !in m && t + FILE_SUFFIX + FILE_SUFFIX !in m
    {
      KeyWithSuffix(t);
      KeyWithSuffix(t + ENV_SUFFIX);
      KeyWithSuffix(t + FILE_SUFFIX);
    }
    forall k | k in m && IsSecret(k) && IsSecret(Base(k)) ensures !NoDoubleSuffix(m) {
      KeyParts(k);
      KeyParts(Base(k));
    }
  }

  /** And those for which the order is immaterial the singly suffixed ones. */
  lemma {:induction false} PlainIff(v: Value)
    ensures Plain(v) <==> SinglySuffixed(v)
    decreases v
  {
    match v
    case Items(xs) =>
      forall i | 0 <= i < |xs| ensures Plain(xs[i]) <==> SinglySuffixed(xs[i]) { PlainIff(xs[i]); }
    case Object(m) =>
      forall k | k in m ensures Plain(m[k]) <==> SinglySuffixed(m[k]) { PlainIff(m[k]); }
      NoDoubleSuffixIff(m);
    case _ =>
  }

  lemma TargetsAre(m: Fields, t: string)
    ensures t in Targets(m) <==> (t in m && Literal(t)) || t + ENV_SUFFIX in m || t + FILE_SUFFIX in m
  {
    LiteralIff(t);
    KeyWithSuffix(t);
    if t in m && Literal(t) { assert Target(t) == t; }
    if t + ENV_SUFFIX in m { assert Target(t + ENV_SUFFIX) == t; }
    if t + FILE_SUFFIX in m { assert Target(t + FILE_SUFFIX) == t; }
    if t in Targets(m) {
      var k :| k in m && Target(k) == t;
      KeyParts(k);
      LiteralIff(k);
    }
  }

  lemma ResolvedFieldOf(env: Environment, m: Fields, t: string)
    requires Resolvable(env, Object(m))
    ensures FieldOf(env, m, Resolved(env, Object(m)).fields, t)
  {
    TargetsAre(m, t);
    if t + ENV_SUFFIX in m && m[t + ENV_SUFFIX].Text? { FieldsHoldTheirSource(env, m, t, m[t + ENV_SUFFIX].text); }
    if t + FILE_SUFFIX in m && m[t + FILE_SUFFIX].Text? { FieldsHoldTheirSource(env, m, t, m[t + FILE_SUFFIX].text); }
  }

  /** What is meant by a tree is what it resolves to. */
  lemma {:induction false} MeantIsResolved(env: Environment, v: Value)
    requires Resolvable(env, v)
    ensures ResolvesTo(env, v, Resolved(env, v))
    decreases v
  {
    match v
    case Items(xs) =>
      forall i | 0 <= i < |xs| ensures ResolvesTo(env, xs[i], Resolved(env, xs[i])) { MeantIsResolved(env, xs[i]); }
    case Object(m) =>
      var r := Resolved(env, v).fields;
      forall t: string ensures FieldOf(env, m, r, t) { ResolvedFieldOf(env, m, t); }
      forall k | k in m && Literal(k) ensures k in r && ResolvesTo(env, m[k], r[k]) {
        LiteralIff(k);
        ResolvedField(env, m, k);
        MeantIsResolved(env, m[k]);
      }
    case _ =>
  }

  lemma SameField(env: Environment, m: Fields, r: Fields, r': Fields, t: string)
    requires ReferencesHold(env, m, t) && FieldOf(env, m, r, t) && FieldOf(env, m, r', t)
    ensures t in r <==> t in r'
    ensures t in r && !(t in m && Literal(t)) ==> r[t] == r'[t]
  {
  }

  /** And it resolves to nothing else. */
  lemma {:induction false} ResolvesToOne(env: Environment, v: Value, w: Value, w': Value)
    requires WellDefined(env, v) && ResolvesTo(env, v, w) && ResolvesTo(env, v, w')
    ensures w == w'
    decreases v
  {
    match v
    case Items(xs) =>
      forall i | 0 <= i < |xs| ensures w.items[i] == w'.items[i] { ResolvesToOne(env, xs[i], w.items[i], w'.items[i]); }
      assert w.items == w'.items;
    case Object(m) =>
      forall t: string
        ensures t in w.fields <==> t in w'.fields
        ensures t in w.fields ==> w.fields[t] == w'.fields[t]
      {
        assert ReferencesHold(env, m, t) && FieldOf(env, m, w.fields, t) && FieldOf(env, m, w'.fields, t);
        SameField(env, m, w.fields, w'.fields, t);
        if t in m && Literal(t) { ResolvesToOne(env, m[t], w.fields[t], w'.fields[t]); }
      }
      assert w.fields == w'.fields;
    case _ =>
  }

  /** Two references in one object, for different fields, are no conflict. */
  lemma OrdinaryReferences(env: Environment, csrf: string, jwt: string)
    requires csrf != "" && jwt != "" && csrf in env.vars && jwt in env.files
    ensures var v := Object(map["csrf_secret_fromenv" := Text(csrf), "jwt_secret_fromfile" := Text(jwt)]);
      && SinglySuffixed(v) && WellDefined(env, v)
      && ResolvesTo(env, v, Object(map["csrf_secret" := Text(env.vars[csrf]), "jwt_secret" := Text(TrimNewlines(env.files[jwt]))]))
  {
    var k, l := "csrf_secret_fromenv", "jwt_secret_fromfile";
    assert k == "csrf_secret" + ENV_SUFFIX && l == "jwt_secret" + FILE_SUFFIX;
    TwoReferences(env, "csrf_secret", "jwt_secret", csrf, jwt);
  }

  lemma SuffixesApart(t: string, a: string, b: string)
    ensures t + ENV_SUFFIX == a + ENV_SUFFIX <==> t == a
    ensures t + FILE_SUFFIX == b + FILE_SUFFIX <==> t == b
    ensures t + ENV_SUFFIX != b + FILE_SUFFIX && t + FILE_SUFFIX != a + ENV_SUFFIX
  {
    EnvKey(t);
    EnvKey(a);
    FileKey(t);
    FileKey(b);
  }

  /** The object defines field a by variable, b by path, and nothing else. */
  ghost predicate Defines(m: Fields, a: string, b: string, variable: string, path: string) {
    && (forall t: string :: t + ENV_SUFFIX in m <==> t == a)
    && (forall t: string :: t + FILE_SUFFIX in m <==> t == b)
    && a + ENV_SUFFIX in m && m[a + ENV_SUFFIX] == Text(variable)
    && b + FILE_SUFFIX in m && m[b + FILE_SUFFIX] == Text(path)
    && (forall t :: t in m ==> t == a + ENV_SUFFIX || t == b + FILE_SUFFIX)
  }

  lemma TwoKeys(m: Fields, a: string, b: string, variable: string, path: string)
    requires m == map[a + ENV_SUFFIX := Text(variable), b + FILE_SUFFIX := Text(path)]
    ensures Defines(m, a, b, variable, path)
  {
    forall t: string ensures (t + ENV_SUFFIX in m <==> t == a) && (t + FILE_SUFFIX in m <==> t == b) {
      SuffixesApart(t, a, b);
    }
    SuffixesApart(a, a, b);
  }

  lemma TwoAreDefinedOnce(env: Environment, m: Fields, a: string, b: string, variable: string, path: string, t: string)
    requires Defines(m, a, b, variable, path) && a != b && Literal(a) && Literal(b)
    requires variable != "" && path != "" && variable in env.vars && path in env.files
    ensures OneDefinition(m, t) && ReferencesHold(env, m, t)
  {
  }

  lemma TwoFields(env: Environment, m: Fields, r: Fields, a: string, b: string, variable: string, path: string, t: string)
    requires Defines(m, a, b, variable, path) && a != b && variable in env.vars && path in env.files
    requires r == map[a := Text(env.vars[variable]), b := Text(TrimNewlines(env.files[path]))]
    ensures FieldOf(env, m, r, t)
  {
  }

  lemma TwoReferences(env: Environment, a: string, b: string, variable: string, path: string)
    requires a != b && !IsSecret(a) && !IsSecret(b)
    requires variable != "" && path != "" && variable in env.vars && path in env.files
    ensures var v := Object(map[a + ENV_SUFFIX := Text(variable), b + FILE_SUFFIX := Text(path)]);
      && SinglySuffixed(v) && WellDefined(env, v)
      && ResolvesTo(env, v, Object(map[a := Text(env.vars[variable]), b := Text(TrimNewlines(env.files[path]))]))
  {
    var k, l := a + ENV_SUFFIX, b + FILE_SUFFIX;
    var m := map[k := Text(variable), l := Text(path)];
    TwoKeys(m, a, b, variable, path);
    KeyWithSuffix(a);
    KeyWithSuffix(b);
    SinglySuffixedPair(m, k, l);
    TwoResolve(env, m, map[a := Text(env.vars[variable]), b := Text(TrimNewlines(env.files[path]))], a, b, variable, path);
  }

  lemma TwoResolve(env: Environment, m: Fields, r: Fields, a: string, b: string, variable: string, path: string)
    requires Defines(m, a, b, variable, path) && a != b && !IsSecret(a) && !IsSecret(b)
    requires variable != "" && path != "" && variable in env.vars && path in env.files
    requires r == map[a := Text(env.vars[variable]), b := Text(TrimNewlines(env.files[path]))]
    ensures WellDefined(env, Object(m)) && ResolvesTo(env, Object(m), Object(r))
  {
    LiteralIff(a);
    LiteralIff(b);
    forall t: string ensures OneDefinition(m, t) && ReferencesHold(env, m, t) && FieldOf(env, m, r, t) {
      TwoAreDefinedOnce(env, m, a, b, variable, path, t);
      TwoFields(env, m, r, a, b, variable, path, t);
    }
    assert !Literal(a + ENV_SUFFIX) && !Literal(b + FILE_SUFFIX);
  }

  lemma SinglySuffixedPair(m: Fields, k: string, l: string)
    requires m.Keys == {k, l} && m[k].Text? && m[l].Text?
    requires IsSecret(k) && IsSecret(l) && !IsSecret(Base(k)) && !IsSecret(Base(l))
    ensures SinglySuffixed(Object(m))
  {
    forall j | j in m ensures j == k || j == l { assert j in m.Keys; }
    NoDoubleSuffixIff(m);
  }
}
