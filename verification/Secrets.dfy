/** Secret references in the configuration tree, and the tree they resolve to. */
module Secrets {
  import opened Options

  datatype Value =
    | Text(text: string)
    | Scalar(repr: string)  // a number, a boolean or null
    | Items(items: seq<Value>)
    | Object(fields: map<string, Value>)

  type Fields = map<string, Value>

  /** Environment variables that are set, and files that can be read. */
  datatype Environment = Environment(vars: map<string, string>, files: map<string, string>)

  const ENV_SUFFIX: string := "_fromenv"
  const FILE_SUFFIX: string := "_fromfile"

  predicate HasSuffix(s: string, suffix: string) {
    |suffix| <= |s| && s[|s| - |suffix|..] == suffix
  }

  predicate IsEnv(key: string) {
    HasSuffix(key, ENV_SUFFIX)
  }

  predicate IsFile(key: string) {
    HasSuffix(key, FILE_SUFFIX)
  }

  predicate IsSecret(key: string) {
    IsEnv(key) || IsFile(key)
  }

  function Base(key: string): string
    requires IsSecret(key)
  {
    if IsEnv(key) then key[..|key| - |ENV_SUFFIX|] else key[..|key| - |FILE_SUFFIX|]
  }

  /** The field a key ends up as. */
  function Target(key: string): string {
    if IsSecret(key) then Base(key) else key
  }

  predicate IsNewline(c: char) {
    c == '\r' || c == '\n'
  }

  /** The string without its trailing newline characters, and with all others. */
  function TrimNewlines(s: string): (r: string)
    ensures r <= s
    ensures forall i :: |r| <= i < |s| ==> s[i] == '\r' || s[i] == '\n'
    ensures r != "" ==> r[|r| - 1] != '\r' && r[|r| - 1] != '\n'
  {
    if s != "" && IsNewline(s[|s| - 1]) then TrimNewlines(s[..|s| - 1]) else s
  }

  /** What a secret key stands for, None if that cannot be had. */
  function Secret(env: Environment, key: string, v: Value): Option<string> {
    if !v.Text? || v.text == "" then None
    else if IsEnv(key) then
      if v.text in env.vars then Some(env.vars[v.text]) else None
    else
      if v.text in env.files then Some(TrimNewlines(env.files[v.text])) else None
  }

  /** checkSecretConflict. */
  predicate Conflicts(m: Fields, key: string) {
    IsSecret(key) &&
    (Base(key) in m || Base(key) + (if IsEnv(key) then FILE_SUFFIX else ENV_SUFFIX) in m)
  }

  predicate NoConflicts(m: Fields) {
    forall k :: k in m ==> !Conflicts(m, k)
  }

  // ---------- the tree that is meant ----------

  /** Every field of the tree, at every depth, can be resolved. */
  predicate Resolvable(env: Environment, v: Value) {
    match v
    case Text(_) => true
    case Scalar(_) => true
    case Items(xs) => forall i :: 0 <= i < |xs| ==> Resolvable(env, xs[i])
    case Object(m) =>
      NoConflicts(m) &&
      forall k :: k in m ==> if IsSecret(k) then Secret(env, k, m[k]).Some? else Resolvable(env, m[k])
  }

  function Targets(m: Fields): set<string> {
    set k | k in m :: Target(k)
  }

  /** The key of m that becomes field t. */
  function Source(m: Fields, t: string): (k: string)
    requires t in Targets(m)
    ensures k in m && Target(k) == t
  {
    if t in m && !IsSecret(t) then t
    else
      SuffixedKeys(m, t);
      if t + ENV_SUFFIX in m then t + ENV_SUFFIX else t + FILE_SUFFIX
  }

  function Resolved(env: Environment, v: Value): Value {
    match v
    case Text(_) => v
    case Scalar(_) => v
    case Items(xs) => Items(seq(|xs|, i requires 0 <= i < |xs| => Resolved(env, xs[i])))
    case Object(m) =>
      Object(map t | t in Targets(m) ::
        var k := Source(m, t);
        if IsSecret(k) then Text(Secret(env, k, m[k]).GetOr("")) else Resolved(env, m[k]))
  }

  lemma SuffixedKeys(m: Fields, t: string)
    requires t in Targets(m) && !(t in m && !IsSecret(t))
    ensures t + ENV_SUFFIX in m || t + FILE_SUFFIX in m
    ensures Target(t + ENV_SUFFIX) == t && Target(t + FILE_SUFFIX) == t
  {
    var k :| k in m && Target(k) == t;
    KeyParts(k);
    EnvKey(t);
    FileKey(t);
  }

  lemma SuffixSplit(s: string, suffix: string)
    requires HasSuffix(s, suffix)
    ensures s == s[..|s| - |suffix|] + suffix
  {
  }

  lemma SuffixJoin(t: string, suffix: string)
    ensures HasSuffix(t + suffix, suffix) && (t + suffix)[..|t|] == t
  {
  }

  /** A secret key is its base and one of the suffixes. */
  lemma KeyParts(k: string)
    ensures IsEnv(k) ==> k == Base(k) + ENV_SUFFIX
    ensures IsFile(k) && !IsEnv(k) ==> k == Base(k) + FILE_SUFFIX
    ensures IsSecret(k) ==> |Base(k)| < |k|
  {
    if IsEnv(k) {
      SuffixSplit(k, ENV_SUFFIX);
    } else if IsFile(k) {
      SuffixSplit(k, FILE_SUFFIX);
    }
  }

  lemma EnvKey(t: string)
    ensures IsEnv(t + ENV_SUFFIX) && Base(t + ENV_SUFFIX) == t
  {
    SuffixJoin(t, ENV_SUFFIX);
  }

  lemma FileKey(t: string)
    ensures IsFile(t + FILE_SUFFIX) && !IsEnv(t + FILE_SUFFIX) && Base(t + FILE_SUFFIX) == t
  {
    var f := t + FILE_SUFFIX;
    SuffixJoin(t, FILE_SUFFIX);
    assert f[|f| - 1] == 'e';
    EnvEndsInV(f);
  }

  lemma EnvEndsInV(s: string)
    ensures IsEnv(s) ==> s[|s| - 1] == 'v'
  {
    if IsEnv(s) {
      SuffixSplit(s, ENV_SUFFIX);
    }
  }

  // ---------- what the resolved tree is like ----------

  /** No key at any depth is a secret reference. */
  predicate NoSecrets(v: Value) {
    match v
    case Text(_) => true
    case Scalar(_) => true
    case Items(xs) => forall i :: 0 <= i < |xs| ==> NoSecrets(xs[i])
    case Object(m) => forall k :: k in m ==> !IsSecret(k) && NoSecrets(m[k])
  }

  /** No key of this object has a base that is itself a secret key. */
  predicate PlainKeys(m: Fields) {
    forall k :: k in m && IsSecret(k) ==> !IsSecret(Base(k))
  }

  /** And so at every depth. */
  predicate Plain(v: Value) {
    match v
    case Text(_) => true
    case Scalar(_) => true
    case Items(xs) => forall i :: 0 <= i < |xs| ==> Plain(xs[i])
    case Object(m) => PlainKeys(m) && forall k :: k in m ==> Plain(m[k])
  }

  /** Without conflicts no two keys become the same field. */
  lemma TargetInjective(m: Fields, j: string, k: string)
    requires NoConflicts(m) && j in m && k in m && Target(j) == Target(k)
    ensures j == k
  {
    KeyParts(j);
    KeyParts(k);
    assert !Conflicts(m, j) && !Conflicts(m, k);
  }

  /** After resolution no secret reference is left anywhere. */
  lemma {:induction false} ResolvedHasNoSecrets(env: Environment, v: Value)
    requires Plain(v)
    ensures NoSecrets(Resolved(env, v))
    decreases v
  {
    match v
    case Items(xs) =>
      forall i | 0 <= i < |xs| ensures NoSecrets(Resolved(env, xs[i])) { ResolvedHasNoSecrets(env, xs[i]); }
    case Object(m) =>
      forall t | t in Targets(m) ensures !IsSecret(t) && NoSecrets(Resolved(env, v).fields[t]) {
        var k := Source(m, t);
        if !IsSecret(k) { ResolvedHasNoSecrets(env, m[k]); }
      }
    case _ =>
  }

  /** What field a key becomes, and with what value. */
  lemma ResolvedField(env: Environment, m: Fields, k: string)
    requires NoConflicts(m) && k in m
    ensures var r := Resolved(env, Object(m)).fields;
      && Target(k) in r
      && r[Target(k)] == (if IsSecret(k) then Text(Secret(env, k, m[k]).GetOr("")) else Resolved(env, m[k]))
  {
    assert Target(k) in Targets(m);
    TargetInjective(m, Source(m, Target(k)), k);
  }

  /** A literal field stays under its name; a reference is replaced, under its base, by what its own source holds. */
  lemma FieldsHoldTheirSource(env: Environment, m: Fields, base: string, name: string)
    requires Resolvable(env, Object(m))
    ensures var r := Resolved(env, Object(m)).fields;
      && (base in m && !IsSecret(base) ==> base in r && r[base] == Resolved(env, m[base]))
      && (base + ENV_SUFFIX in m && m[base + ENV_SUFFIX] == Text(name) ==>
        name in env.vars && base in r && r[base] == Text(env.vars[name]))
      && (base + FILE_SUFFIX in m && m[base + FILE_SUFFIX] == Text(name) ==>
        name in env.files && base in r && r[base] == Text(TrimNewlines(env.files[name])))
  {
    EnvKey(base);
    FileKey(base);
    if base in m { ResolvedField(env, m, base); }
    if base + ENV_SUFFIX in m { ResolvedField(env, m, base + ENV_SUFFIX); }
    if base + FILE_SUFFIX in m { ResolvedField(env, m, base + FILE_SUFFIX); }
  }

  /** One field per key: none is lost and no two fall together. */
  lemma {:induction false} ResolvedKeepsCount(m: Fields, keys: set<string>)
    requires NoConflicts(m) && keys <= m.Keys
    ensures |set k | k in keys :: Target(k)| == |keys|
  {
    if keys == {} {
    } else {
      var k :| k in keys;
      var rest := keys - {k};
      ResolvedKeepsCount(m, rest);
      forall j | j in rest ensures Target(j) != Target(k) {
        if Target(j) == Target(k) { TargetInjective(m, j, k); }
      }
      assert (set j | j in keys :: Target(j)) == (set j | j in rest :: Target(j)) + {Target(k)};
    }
  }

  lemma NothingIsSecretTarget(m: Fields)
    requires forall k :: k in m ==> !IsSecret(k)
    ensures Targets(m) == m.Keys
    ensures forall t :: t in Targets(m) ==> Source(m, t) == t
  {
    forall k | k in m ensures k in Targets(m) { assert Target(k) == k; }
  }

  /** A second pass, whatever its environment, succeeds and changes nothing. */
  lemma {:induction false} SecondPassIsIdentity(env: Environment, v: Value)
    requires NoSecrets(v)
    ensures Resolvable(env, v) && Resolved(env, v) == v
    decreases v
  {
    match v
    case Items(xs) =>
      forall i | 0 <= i < |xs| ensures Resolvable(env, xs[i]) && Resolved(env, xs[i]) == xs[i] {
        SecondPassIsIdentity(env, xs[i]);
      }
    case Object(m) =>
      NothingIsSecretTarget(m);
      forall k | k in m ensures Resolvable(env, m[k]) && Resolved(env, m[k]) == m[k] {
        SecondPassIsIdentity(env, m[k]);
      }
      assert Resolved(env, v).fields == m;
    case _ =>
  }
}
