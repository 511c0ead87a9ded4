/**
 * Sensitive environment variables of provider instances: split into the settings file and the
 * secret store when settings are updated, rejoined when they are read, blanked for clients
 * (apps/server/src/serverSettings.ts:65-92, 310-433, 530-554).
 *
 * Updates run one at a time (a semaphore of one permit) and store effects succeed. The fields
 * of an instance beside its environment are carried along as `config`.
 */
module SettingsSecrets {
  import opened Prelude

  datatype Variable = Variable(name: string, value: string, sensitive: bool, valueRedacted: Option<bool>)

  datatype Instance = Instance(id: string, config: string, environment: Option<seq<Variable>>)

  type Settings = seq<Instance>

  // A variable together with the instance it belongs to.
  datatype Entry = Entry(id: string, variable: Variable)

  type Store = map<string, string>

  // The name under which the store keeps the secret of an (instance, variable) pair.
  type Naming = (string, string) -> string

  predicate Redacted(v: Variable) {
    v.valueRedacted == Some(true)
  }

  // ----- one variable -----

  function RedactVariable(v: Variable): Variable {
    if !v.sensitive then v.(valueRedacted := None)
    else if |v.value| > 0 || Redacted(v) then v.(value := "", valueRedacted := Some(true))
    else v.(value := "")
  }

  /** What the settings file keeps of a variable. */
  function PersistVariable(v: Variable): Variable {
    if !v.sensitive then RedactVariable(v)
    else if !Redacted(v) then
      if |v.value| > 0 then v.(value := "", valueRedacted := Some(true)) else v.(valueRedacted := None)
    else RedactVariable(v)
  }

  datatype StoreEffect = SetSecret(value: string) | RemoveSecret | LeaveSecret

  /** What persisting a variable does to its secret. */
  function EffectOf(v: Variable): StoreEffect {
    if !v.sensitive then RemoveSecret
    else if !Redacted(v) then (if |v.value| > 0 then SetSecret(v.value) else RemoveSecret)
    else LeaveSecret
  }

  function ApplyEffect(store: Store, key: string, effect: StoreEffect): Store {
    match effect
    case SetSecret(value) => store[key := value]
    case RemoveSecret => store - {key}
    case LeaveSecret => store
  }

  function MaterializeVariable(nameOf: Naming, store: Store, id: string, v: Variable): Variable {
    if !v.sensitive || !Redacted(v) then v
    else
      var key := nameOf(id, v.name);
      v.(value := if key in store then store[key] else "")
  }

  // ----- whole settings -----

  type Rewrite = (string, Variable) -> Variable

  function MapEnvironment(id: string, env: seq<Variable>, f: Rewrite): (r: seq<Variable>)
    ensures |r| == |env|
  {
    seq(|env|, j requires 0 <= j < |env| => f(id, env[j]))
  }

  function MapInstance(x: Instance, f: Rewrite): Instance {
    match x.environment
    case None => x
    case Some(env) => x.(environment := Some(MapEnvironment(x.id, env, f)))
  }

  function MapSettings(s: Settings, f: Rewrite): (r: Settings)
    ensures |r| == |s|
  {
    seq(|s|, i requires 0 <= i < |s| => MapInstance(s[i], f))
  }

  function Persisting(): Rewrite {
    (_, v) => PersistVariable(v)
  }

  function Redacting(): Rewrite {
    (_, v) => RedactVariable(v)
  }

  function Materializing(nameOf: Naming, store: Store): Rewrite {
    (id, v) => MaterializeVariable(nameOf, store, id, v)
  }

  function EnvironmentEntries(id: string, env: seq<Variable>): (r: seq<Entry>)
    ensures |r| == |env|
  {
    seq(|env|, j requires 0 <= j < |env| => Entry(id, env[j]))
  }

  function InstanceEntries(x: Instance): seq<Entry> {
    if x.environment.Some? then EnvironmentEntries(x.id, x.environment.value) else []
  }

  /** All variables, instance by instance. */
  function Entries(s: Settings): seq<Entry> {
    if s == [] then [] else Entries(s[..|s| - 1]) + InstanceEntries(s[|s| - 1])
  }

  function Key(nameOf: Naming, e: Entry): string {
    nameOf(e.id, e.variable.name)
  }

  function PersistStore(nameOf: Naming, store: Store, es: seq<Entry>): Store {
    if es == [] then store
    else
      var last := es[|es| - 1];
      ApplyEffect(PersistStore(nameOf, store, es[..|es| - 1]), Key(nameOf, last), EffectOf(last.variable))
  }

  function SensitiveKeys(nameOf: Naming, es: seq<Entry>): set<string> {
    if es == [] then {}
    else
      var last := es[|es| - 1];
      SensitiveKeys(nameOf, es[..|es| - 1]) + if last.variable.sensitive then {Key(nameOf, last)} else {}
  }

  /** Drops the secrets of sensitive variables that are gone. */
  function SweepStore(nameOf: Naming, store: Store, es: seq<Entry>, keep: set<string>): Store {
    if es == [] then store
    else
      var last := es[|es| - 1];
      var swept := SweepStore(nameOf, store, es[..|es| - 1], keep);
      if last.variable.sensitive && Key(nameOf, last) !in keep then swept - {Key(nameOf, last)} else swept
  }

  datatype State = State(settings: Settings, store: Store)

  function UpdateStore(nameOf: Naming, s: State, next: Settings): Store {
    SweepStore(nameOf, PersistStore(nameOf, s.store, Entries(next)), Entries(s.settings),
               SensitiveKeys(nameOf, Entries(next)))
  }

  function Update(nameOf: Naming, s: State, next: Settings): State {
    State(MapSettings(next, Persisting()), UpdateStore(nameOf, s, next))
  }

  /** What reading the settings returns. */
  function Read(nameOf: Naming, s: State): Settings {
    MapSettings(s.settings, Materializing(nameOf, s.store))
  }

  // ----- the service -----

  lemma MapEnvironmentStep(id: string, env: seq<Variable>, j: nat, f: Rewrite)
    requires j < |env|
    ensures MapEnvironment(id, env[..j + 1], f) == MapEnvironment(id, env[..j], f) + [f(id, env[j])]
  {
  }

  lemma MapSettingsStep(s: Settings, i: nat, f: Rewrite)
    requires i < |s|
    ensures MapSettings(s[..i + 1], f) == MapSettings(s[..i], f) + [MapInstance(s[i], f)]
  {
  }

  lemma EntriesStep(s: Settings, i: nat)
    requires i < |s|
    ensures Entries(s[..i + 1]) == Entries(s[..i]) + InstanceEntries(s[i])
  {
    assert s[..i + 1][..i] == s[..i];
  }

  lemma EntriesPush(before: seq<Entry>, id: string, env: seq<Variable>, j: nat)
    requires j < |env|
    ensures before + EnvironmentEntries(id, env[..j + 1]) == before + EnvironmentEntries(id, env[..j]) + [Entry(id, env[j])]
  {
    assert EnvironmentEntries(id, env[..j + 1]) == EnvironmentEntries(id, env[..j]) + [Entry(id, env[j])];
  }

  lemma PersistStorePush(nameOf: Naming, store: Store, es: seq<Entry>, e: Entry)
    ensures PersistStore(nameOf, store, es + [e])
         == ApplyEffect(PersistStore(nameOf, store, es), Key(nameOf, e), EffectOf(e.variable))
    ensures SensitiveKeys(nameOf, es + [e])
         == SensitiveKeys(nameOf, es) + if e.variable.sensitive then {Key(nameOf, e)} else {}
  {
    assert (es + [e])[..|es|] == es;
  }

  /** What the store and the keys become with the `j`-th variable of an environment. */
  lemma PersistStep(nameOf: Naming, store: Store, before: seq<Entry>, id: string, env: seq<Variable>, j: nat)
    requires j < |env|
    ensures var es, next := before + EnvironmentEntries(id, env[..j]), before + EnvironmentEntries(id, env[..j + 1]);
      && PersistStore(nameOf, store, next)
         == ApplyEffect(PersistStore(nameOf, store, es), nameOf(id, env[j].name), EffectOf(env[j]))
      && SensitiveKeys(nameOf, next)
         == SensitiveKeys(nameOf, es) + if env[j].sensitive then {nameOf(id, env[j].name)} else {}
  {
    EntriesPush(before, id, env, j);
    PersistStorePush(nameOf, store, before + EnvironmentEntries(id, env[..j]), Entry(id, env[j]));
  }

  lemma SweepStorePush(nameOf: Naming, store: Store, es: seq<Entry>, e: Entry, keep: set<string>)
    ensures var swept := SweepStore(nameOf, store, es, keep);
      SweepStore(nameOf, store, es + [e], keep)
      == if e.variable.sensitive && Key(nameOf, e) !in keep then swept - {Key(nameOf, e)} else swept
  {
    assert (es + [e])[..|es|] == es;
  }

  class SettingsService {
    const nameOf: Naming
    var settings: Settings
    var store: Store

    constructor (nameOf: Naming, store: Store)
      ensures this.nameOf == nameOf && Value() == State([], store)
    {
      this.nameOf, this.settings, this.store := nameOf, [], store;
    }

    function Value(): State
      reads this
    {
      State(settings, store)
    }

    /** Persists the variables of one instance. */
    method PersistEnvironment(id: string, env: seq<Variable>, ghost before: seq<Entry>, ghost initial: Store, keys: set<string>)
      returns (environment: seq<Variable>, nextKeys: set<string>)
      requires store == PersistStore(nameOf, initial, before) && keys == SensitiveKeys(nameOf, before)
      modifies this`store
      ensures environment == MapEnvironment(id, env, Persisting())
      ensures store == PersistStore(nameOf, initial, before + EnvironmentEntries(id, env))
      ensures nextKeys == SensitiveKeys(nameOf, before + EnvironmentEntries(id, env))
    {
      environment, nextKeys := [], keys;
      assert before + [] == before;
      for j := 0 to |env|
        invariant environment == MapEnvironment(id, env[..j], Persisting())
        invariant store == PersistStore(nameOf, initial, before + EnvironmentEntries(id, env[..j]))
        invariant nextKeys == SensitiveKeys(nameOf, before + EnvironmentEntries(id, env[..j]))
      {
        var variable := env[j];
        var secretName := nameOf(id, variable.name);
        PersistStep(nameOf, initial, before, id, env, j);
        MapEnvironmentStep(id, env, j, Persisting());
        if !variable.sensitive {
          store := store - {secretName};
          environment := environment + [RedactVariable(variable)];
        } else {
          nextKeys := nextKeys + {secretName};
          if !Redacted(variable) {
            if |variable.value| > 0 {
              store := store[secretName := variable.value];
              environment := environment + [variable.(value := "", valueRedacted := Some(true))];
            } else {
              store := store - {secretName};
              environment := environment + [variable.(valueRedacted := None)];
            }
          } else {
            environment := environment + [RedactVariable(variable)];
          }
        }
      }
      assert env[..|env|] == env;
    }

    method SweepStale(current: Settings, keep: set<string>)
      modifies this`store
      ensures store == SweepStore(nameOf, old(store), Entries(current), keep)
    {
      for i := 0 to |current|
        invariant store == SweepStore(nameOf, old(store), Entries(current[..i]), keep)
      {
        var env := if current[i].environment.Some? then current[i].environment.value else [];
        ghost var before := Entries(current[..i]);
        EntriesStep(current, i);
        assert before + EnvironmentEntries(current[i].id, env[..0]) == before;
        for j := 0 to |env|
          invariant store == SweepStore(nameOf, old(store), before + EnvironmentEntries(current[i].id, env[..j]), keep)
        {
          EntriesPush(before, current[i].id, env, j);
          SweepStorePush(nameOf, old(store), before + EnvironmentEntries(current[i].id, env[..j]),
                         Entry(current[i].id, env[j]), keep);
          var secretName := nameOf(current[i].id, env[j].name);
          if env[j].sensitive && secretName !in keep {
            store := store - {secretName};
          }
        }
        assert env[..|env|] == env;
      }
      assert current[..|current|] == current;
    }

    method Persist(current: Settings, next: Settings) returns (persisted: Settings)
      modifies this`store
      ensures persisted == MapSettings(next, Persisting())
      ensures store == UpdateStore(nameOf, State(current, old(store)), next)
    {
      persisted := [];
      var nextSecretKeys: set<string> := {};
      for i := 0 to |next|
        invariant persisted == MapSettings(next[..i], Persisting())
        invariant store == PersistStore(nameOf, old(store), Entries(next[..i]))
        invariant nextSecretKeys == SensitiveKeys(nameOf, Entries(next[..i]))
      {
        EntriesStep(next, i);
        MapSettingsStep(next, i, Persisting());
        match next[i].environment
        case None =>
          persisted := persisted + [next[i]];
          assert Entries(next[..i]) + [] == Entries(next[..i]);
        case Some(env) =>
          var environment;
          environment, nextSecretKeys :=
            PersistEnvironment(next[i].id, env, Entries(next[..i]), old(store), nextSecretKeys);
          persisted := persisted + [next[i].(environment := Some(environment))];
      }
      assert next[..|next|] == next;
      SweepStale(current, nextSecretKeys);
    }

    method Materialize(current: Settings) returns (r: Settings)
      ensures r == MapSettings(current, Materializing(nameOf, store))
    {
      r := [];
      for i := 0 to |current|
        invariant r == MapSettings(current[..i], Materializing(nameOf, store))
      {
        MapSettingsStep(current, i, Materializing(nameOf, store));
        match current[i].environment
        case None => r := r + [current[i]];
        case Some(env) =>
          var environment: seq<Variable> := [];
          for j := 0 to |env|
            invariant environment == MapEnvironment(current[i].id, env[..j], Materializing(nameOf, store))
          {
            var variable := env[j];
            MapEnvironmentStep(current[i].id, env, j, Materializing(nameOf, store));
            if !variable.sensitive || !Redacted(variable) {
              environment := environment + [variable];
            } else {
              var key := nameOf(current[i].id, variable.name);
              environment := environment + [variable.(value := if key in store then store[key] else "")];
            }
          }
          assert env[..|env|] == env;
          r := r + [current[i].(environment := Some(environment))];
      }
      assert current[..|current|] == current;
    }

    /** An update, given the patched settings; returns what a reader then sees. */
    method UpdateSettings(next: Settings) returns (r: Settings)
      modifies this
      ensures Value() == Update(nameOf, old(Value()), next)
      ensures r == Read(nameOf, Value())
    {
      settings := Persist(settings, next);
      r := Materialize(settings);
    }

    method GetSettings() returns (r: Settings)
      ensures r == Read(nameOf, Value())
    {
      r := Materialize(settings);
    }
  }

  // ----- the store, key by key -----

  ghost function Lookup(store: Store, key: string): Option<string> {
    if key in store then Some(store[key]) else None
  }

  ghost function After(previous: Option<string>, effect: StoreEffect): Option<string> {
    match effect
    case SetSecret(value) => Some(value)
    case RemoveSecret => None
    case LeaveSecret => previous
  }

  ghost predicate DistinctKeys(nameOf: Naming, es: seq<Entry>) {
    forall a, b :: 0 <= a < b < |es| ==> Key(nameOf, es[a]) != Key(nameOf, es[b])
  }

  ghost predicate HasKey(nameOf: Naming, es: seq<Entry>, key: string) {
    exists k :: 0 <= k < |es| && Key(nameOf, es[k]) == key
  }

  lemma {:induction false} PersistElsewhere(nameOf: Naming, store: Store, es: seq<Entry>, key: string)
    requires !HasKey(nameOf, es, key)
    ensures Lookup(PersistStore(nameOf, store, es), key) == Lookup(store, key)
  {
    if es != [] {
      var front := es[..|es| - 1];
      assert forall k :: 0 <= k < |front| ==> front[k] == es[k];
      assert Key(nameOf, es[|es| - 1]) != key;
      PersistElsewhere(nameOf, store, front, key);
    }
  }

  lemma {:induction false} PersistAt(nameOf: Naming, store: Store, es: seq<Entry>, k: nat)
    requires k < |es| && DistinctKeys(nameOf, es)
    ensures var key := Key(nameOf, es[k]);
      Lookup(PersistStore(nameOf, store, es), key) == After(Lookup(store, key), EffectOf(es[k].variable))
  {
    var front := es[..|es| - 1];
    assert forall j :: 0 <= j < |front| ==> front[j] == es[j];
    if k < |front| {
      PersistAt(nameOf, store, front, k);
    } else {
      PersistElsewhere(nameOf, store, front, Key(nameOf, es[k]));
    }
  }

  ghost predicate HasSensitive(nameOf: Naming, es: seq<Entry>, key: string) {
    exists k :: 0 <= k < |es| && Key(nameOf, es[k]) == key && es[k].variable.sensitive
  }

  lemma {:induction false} SensitiveKeysMember(nameOf: Naming, es: seq<Entry>, key: string)
    ensures key in SensitiveKeys(nameOf, es) <==> HasSensitive(nameOf, es, key)
  {
    if es != [] {
      var front, last := es[..|es| - 1], es[|es| - 1];
      SensitiveKeysMember(nameOf, front, key);
      assert forall j :: 0 <= j < |front| ==> front[j] == es[j];
      if HasSensitive(nameOf, front, key) {
        var k :| 0 <= k < |front| && Key(nameOf, front[k]) == key && front[k].variable.sensitive;
        assert es[k] == front[k];
      }
    }
  }

  lemma {:induction false} SweepLookup(nameOf: Naming, store: Store, es: seq<Entry>, keep: set<string>, key: string)
    ensures Lookup(SweepStore(nameOf, store, es, keep), key)
         == if key in SensitiveKeys(nameOf, es) && key !in keep then None else Lookup(store, key)
  {
    if es != [] {
      SweepLookup(nameOf, store, es[..|es| - 1], keep, key);
    }
  }

  /** The secret of a variable of the new settings after an update. */
  lemma UpdateAt(nameOf: Naming, s: State, next: Settings, k: nat)
    requires k < |Entries(next)| && DistinctKeys(nameOf, Entries(next))
    ensures var e := Entries(next)[k]; var key := Key(nameOf, e);
      Lookup(UpdateStore(nameOf, s, next), key) == After(Lookup(s.store, key), EffectOf(e.variable))
  {
    var es := Entries(next);
    var key := Key(nameOf, es[k]);
    PersistAt(nameOf, s.store, es, k);
    SensitiveKeysMember(nameOf, es, key);
    SweepLookup(nameOf, PersistStore(nameOf, s.store, es), Entries(s.settings), SensitiveKeys(nameOf, es), key);
  }

  /** Any other key after an update: swept if it held a sensitive variable's secret. */
  lemma UpdateElsewhere(nameOf: Naming, s: State, next: Settings, key: string)
    requires !HasKey(nameOf, Entries(next), key)
    ensures Lookup(UpdateStore(nameOf, s, next), key)
         == if HasSensitive(nameOf, Entries(s.settings), key) then None else Lookup(s.store, key)
  {
    var es := Entries(next);
    PersistElsewhere(nameOf, s.store, es, key);
    SensitiveKeysMember(nameOf, es, key);
    SensitiveKeysMember(nameOf, Entries(s.settings), key);
    SweepLookup(nameOf, PersistStore(nameOf, s.store, es), Entries(s.settings), SensitiveKeys(nameOf, es), key);
  }

  // ----- settings, variable by variable -----

  ghost function MapEntry(e: Entry, f: Rewrite): Entry {
    Entry(e.id, f(e.id, e.variable))
  }

  lemma {:induction false} EntriesOfMap(s: Settings, f: Rewrite)
    ensures |Entries(MapSettings(s, f))| == |Entries(s)|
    ensures forall k :: 0 <= k < |Entries(s)| ==> Entries(MapSettings(s, f))[k] == MapEntry(Entries(s)[k], f)
  {
    if s != [] {
      var front, last := s[..|s| - 1], s[|s| - 1];
      EntriesOfMap(front, f);
      assert MapSettings(s, f)[..|s| - 1] == MapSettings(front, f);
      assert MapSettings(s, f)[|s| - 1] == MapInstance(last, f);
      assert Entries(MapSettings(s, f)) == Entries(MapSettings(front, f)) + InstanceEntries(MapInstance(last, f));
    }
  }

  ghost predicate EveryVariable(es: seq<Entry>, p: Variable -> bool) {
    forall k :: 0 <= k < |es| ==> p(es[k].variable)
  }

  ghost predicate Fixes(f: Rewrite, es: seq<Entry>) {
    forall k :: 0 <= k < |es| ==> f(es[k].id, es[k].variable) == es[k].variable
  }

  lemma InstanceFixedIff(x: Instance, f: Rewrite)
    ensures MapInstance(x, f) == x <==> Fixes(f, InstanceEntries(x))
  {
    if x.environment.Some? {
      var env := x.environment.value;
      var es := InstanceEntries(x);
      assert forall j :: 0 <= j < |env| ==> es[j] == Entry(x.id, env[j]);
      if MapInstance(x, f) == x {
        assert MapEnvironment(x.id, env, f) == env;
        assert forall j :: 0 <= j < |env| ==> f(x.id, env[j]) == env[j];
      }
      if Fixes(f, es) {
        assert forall j :: 0 <= j < |env| ==> f(es[j].id, es[j].variable) == env[j];
        assert MapEnvironment(x.id, env, f) == env;
      }
    }
  }

  lemma FixesConcat(f: Rewrite, a: seq<Entry>, b: seq<Entry>)
    ensures Fixes(f, a + b) <==> Fixes(f, a) && Fixes(f, b)
  {
    assert forall k :: 0 <= k < |a| ==> (a + b)[k] == a[k];
    assert forall k :: 0 <= k < |b| ==> (a + b)[|a| + k] == b[k];
  }

  /** Rewriting leaves the settings as they are exactly when it leaves every variable. */
  lemma {:induction false} MapFixedIff(s: Settings, f: Rewrite)
    ensures MapSettings(s, f) == s <==> Fixes(f, Entries(s))
  {
    if s != [] {
      var front, last := s[..|s| - 1], s[|s| - 1];
      MapFixedIff(front, f);
      InstanceFixedIff(last, f);
      FixesConcat(f, Entries(front), InstanceEntries(last));
      MapSettingsStep(s, |s| - 1, f);
      assert s[..|s| - 1 + 1] == s == front + [last];
      assert MapSettings(s, f)[..|s| - 1] == MapSettings(front, f);
    }
  }

  function RedactAfter(nameOf: Naming, store: Store): Rewrite {
    (id, v) => RedactVariable(MaterializeVariable(nameOf, store, id, v))
  }

  lemma MapTwice(s: Settings, nameOf: Naming, store: Store)
    ensures MapSettings(MapSettings(s, Materializing(nameOf, store)), Redacting()) == MapSettings(s, RedactAfter(nameOf, store))
  {
    var once := MapSettings(s, Materializing(nameOf, store));
    forall i | 0 <= i < |s|
      ensures MapInstance(once[i], Redacting()) == MapInstance(s[i], RedactAfter(nameOf, store))
    {
      if s[i].environment.Some? {
        var env := s[i].environment.value;
        assert MapEnvironment(s[i].id, MapEnvironment(s[i].id, env, Materializing(nameOf, store)), Redacting())
            == MapEnvironment(s[i].id, env, RedactAfter(nameOf, store));
      }
    }
  }

  /** Nothing of the variable is secret, and no plain variable is marked redacted. */
  predicate Clean(v: Variable) {
    if v.sensitive then v.value == "" else v.valueRedacted.None?
  }

  /** What a client sees of the settings read back is the settings file itself, exactly when
      the file is clean, whatever the store holds. */
  lemma RedactedReadIff(nameOf: Naming, s: State)
    ensures MapSettings(Read(nameOf, s), Redacting()) == s.settings <==> EveryVariable(Entries(s.settings), Clean)
  {
    MapTwice(s.settings, nameOf, s.store);
    MapFixedIff(s.settings, RedactAfter(nameOf, s.store));
    var es := Entries(s.settings);
    forall k | 0 <= k < |es|
      ensures RedactAfter(nameOf, s.store)(es[k].id, es[k].variable) == es[k].variable <==> Clean(es[k].variable)
    {
    }
  }

  /** What a client is shown holds no secret: a sensitive variable is blank, and marked exactly
      when it has a value; a plain one is as it is, without a mark. */
  lemma ClientSeesNoSecret(s: Settings, k: nat)
    requires k < |Entries(s)|
    ensures |Entries(MapSettings(s, Redacting()))| == |Entries(s)|
    ensures var e, shown := Entries(s)[k], Entries(MapSettings(s, Redacting()))[k];
      && shown.id == e.id && shown.variable.name == e.variable.name && shown.variable.sensitive == e.variable.sensitive
      && (e.variable.sensitive ==>
            && shown.variable.value == ""
            && (shown.variable.valueRedacted == Some(true) <==> e.variable.value != "" || Redacted(e.variable)))
      && (!e.variable.sensitive ==> shown.variable.value == e.variable.value && shown.variable.valueRedacted.None?)
  {
    EntriesOfMap(s, Redacting());
    assert Entries(MapSettings(s, Redacting()))[k] == MapEntry(Entries(s)[k], Redacting());
  }

  // ----- reading back -----

  function OrEmpty(secret: Option<string>): string {
    if secret.Some? then secret.value else ""
  }

  ghost function ValueReadBack(previous: Option<string>, v: Variable): string {
    if !v.sensitive || !Redacted(v) then v.value else OrEmpty(previous)
  }

  lemma ReadVariable(nameOf: Naming, s: State, k: nat)
    requires k < |Entries(s.settings)|
    ensures |Entries(Read(nameOf, s))| == |Entries(s.settings)|
    ensures var e := Entries(s.settings)[k];
      Entries(Read(nameOf, s))[k] == Entry(e.id, MaterializeVariable(nameOf, s.store, e.id, e.variable))
  {
    EntriesOfMap(s.settings, Materializing(nameOf, s.store));
  }

  lemma PersistedEntry(next: Settings, k: nat)
    requires k < |Entries(next)|
    ensures |Entries(MapSettings(next, Persisting()))| == |Entries(next)|
    ensures var e := Entries(next)[k];
      Entries(MapSettings(next, Persisting()))[k] == Entry(e.id, PersistVariable(e.variable))
  {
    EntriesOfMap(next, Persisting());
  }

  /** After an update, a plain or newly typed variable reads back as given, and one left
      redacted as the value that the store held for it before. */
  lemma ReadBack(nameOf: Naming, s: State, next: Settings, k: nat)
    requires k < |Entries(next)| && DistinctKeys(nameOf, Entries(next))
    ensures var after := Update(nameOf, s, next);
      var e := Entries(next)[k];
      && |Entries(Read(nameOf, after))| == |Entries(next)|
      && Entries(Read(nameOf, after))[k].variable.name == e.variable.name
      && Entries(Read(nameOf, after))[k].variable.value == ValueReadBack(Lookup(s.store, Key(nameOf, e)), e.variable)
  {
    PersistedEntry(next, k);
    ReadVariable(nameOf, Update(nameOf, s, next), k);
    UpdateAt(nameOf, s, next, k);
  }

  // ----- every run of updates -----

  // Which (instance, variable) names the settings schema admits.
  type Validity = (string, string) -> bool

  /** Names are injective on valid pairs and never meet the other secrets, `other`. */
  ghost predicate SoundNaming(nameOf: Naming, valid: Validity, other: Store) {
    && (forall i, n, i', n' :: valid(i, n) && valid(i', n') && nameOf(i, n) == nameOf(i', n') ==> i == i' && n == n')
    && (forall i, n :: valid(i, n) ==> nameOf(i, n) !in other)
  }

  /** Valid names, and no (instance, variable) pair twice. */
  ghost predicate WellNamed(valid: Validity, es: seq<Entry>) {
    && (forall k :: 0 <= k < |es| ==> valid(es[k].id, es[k].variable.name))
    && (forall a, b :: 0 <= a < b < |es| ==> es[a].id != es[b].id || es[a].variable.name != es[b].variable.name)
  }

  lemma WellNamedHasDistinctKeys(nameOf: Naming, valid: Validity, other: Store, es: seq<Entry>)
    requires SoundNaming(nameOf, valid, other) && WellNamed(valid, es)
    ensures DistinctKeys(nameOf, es)
    ensures forall k :: 0 <= k < |es| ==> Key(nameOf, es[k]) !in other
  {
  }

  /** Clean, and never marked "not redacted". */
  predicate Persisted(v: Variable) {
    Clean(v) && v.valueRedacted != Some(false)
  }

  /** A sensitive variable marked redacted has this key. */
  ghost predicate HoldsSecret(nameOf: Naming, es: seq<Entry>, key: string) {
    exists k :: 0 <= k < |es| && Key(nameOf, es[k]) == key && es[k].variable.sensitive && Redacted(es[k].variable)
  }

  ghost predicate StoreMatches(nameOf: Naming, other: Store, s: State) {
    && (forall key :: key in s.store && key !in other ==> HoldsSecret(nameOf, Entries(s.settings), key))
    && (forall key :: key in other ==> Lookup(s.store, key) == Some(other[key]))
  }

  ghost predicate Inv(nameOf: Naming, valid: Validity, other: Store, s: State) {
    && WellNamed(valid, Entries(s.settings))
    && EveryVariable(Entries(s.settings), Persisted)
    && StoreMatches(nameOf, other, s)
  }

  lemma PersistedSettings(valid: Validity, next: Settings)
    requires WellNamed(valid, Entries(next))
    ensures WellNamed(valid, Entries(MapSettings(next, Persisting())))
    ensures EveryVariable(Entries(MapSettings(next, Persisting())), Persisted)
  {
    EntriesOfMap(next, Persisting());
    var es, ps := Entries(next), Entries(MapSettings(next, Persisting()));
    forall k | 0 <= k < |ps|
      ensures ps[k].id == es[k].id && ps[k].variable.name == es[k].variable.name && Persisted(ps[k].variable)
    {
      assert ps[k] == MapEntry(es[k], Persisting());
    }
  }

  lemma NewSecretIsHeld(nameOf: Naming, s: State, next: Settings, k: nat)
    requires k < |Entries(next)| && DistinctKeys(nameOf, Entries(next))
    requires Lookup(UpdateStore(nameOf, s, next), Key(nameOf, Entries(next)[k])).Some?
    ensures HoldsSecret(nameOf, Entries(MapSettings(next, Persisting())), Key(nameOf, Entries(next)[k]))
  {
    UpdateAt(nameOf, s, next, k);
    PersistedEntry(next, k);
    var p := Entries(MapSettings(next, Persisting()))[k];
    assert Key(nameOf, p) == Key(nameOf, Entries(next)[k]) && p.variable.sensitive && Redacted(p.variable);
  }

  lemma UpdateKeepsStore(nameOf: Naming, valid: Validity, other: Store, s: State, next: Settings)
    requires SoundNaming(nameOf, valid, other) && Inv(nameOf, valid, other, s) && WellNamed(valid, Entries(next))
    ensures StoreMatches(nameOf, other, Update(nameOf, s, next))
  {
    var es := Entries(next);
    var after := Update(nameOf, s, next);
    WellNamedHasDistinctKeys(nameOf, valid, other, es);
    WellNamedHasDistinctKeys(nameOf, valid, other, Entries(s.settings));
    forall key | key in after.store && key !in other
      ensures HoldsSecret(nameOf, Entries(after.settings), key)
    {
      if HasKey(nameOf, es, key) {
        var k :| 0 <= k < |es| && Key(nameOf, es[k]) == key;
        assert Lookup(after.store, key).Some?;
        NewSecretIsHeld(nameOf, s, next, k);
      } else {
        UpdateElsewhere(nameOf, s, next, key);
      }
    }
    forall key | key in other ensures Lookup(after.store, key) == Some(other[key]) {
      UpdateElsewhere(nameOf, s, next, key);
    }
  }

  lemma UpdateKeepsInv(nameOf: Naming, valid: Validity, other: Store, s: State, next: Settings)
    requires SoundNaming(nameOf, valid, other) && Inv(nameOf, valid, other, s) && WellNamed(valid, Entries(next))
    ensures Inv(nameOf, valid, other, Update(nameOf, s, next))
  {
    PersistedSettings(valid, next);
    UpdateKeepsStore(nameOf, valid, other, s, next);
  }

  function Run(nameOf: Naming, s: State, updates: seq<Settings>): State {
    if updates == [] then s
    else Update(nameOf, Run(nameOf, s, updates[..|updates| - 1]), updates[|updates| - 1])
  }

  lemma RunPush(nameOf: Naming, s: State, updates: seq<Settings>, next: Settings)
    ensures Run(nameOf, s, updates + [next]) == Update(nameOf, Run(nameOf, s, updates), next)
  {
    assert (updates + [next])[..|updates|] == updates;
  }

  /** In every run of updates from empty settings beside any other secrets: the settings hold
      no sensitive value, the store holds those other secrets unchanged and otherwise only
      secrets of sensitive redacted variables of the current settings. */
  lemma {:induction false} EveryRunKeepsInv(nameOf: Naming, valid: Validity, other: Store, updates: seq<Settings>)
    requires SoundNaming(nameOf, valid, other)
    requires forall i :: 0 <= i < |updates| ==> WellNamed(valid, Entries(updates[i]))
    ensures Inv(nameOf, valid, other, Run(nameOf, State([], other), updates))
  {
    if updates != [] {
      var front := updates[..|updates| - 1];
      EveryRunKeepsInv(nameOf, valid, other, front);
      UpdateKeepsInv(nameOf, valid, other, Run(nameOf, State([], other), front), updates[|updates| - 1]);
    }
  }

  // ----- what a reader gets for a variable left redacted -----

  ghost predicate SamePair(a: Entry, b: Entry) {
    a.id == b.id && a.variable.name == b.variable.name
  }

  /** The entry of the current settings that holds the secret of `e`. */
  ghost predicate HolderOf(es: seq<Entry>, m: nat, e: Entry) {
    m < |es| && SamePair(es[m], e) && es[m].variable.sensitive && Redacted(es[m].variable)
  }

  lemma HolderReads(nameOf: Naming, s: State, m: nat, e: Entry)
    requires HolderOf(Entries(s.settings), m, e)
    ensures |Entries(Read(nameOf, s))| == |Entries(s.settings)|
    ensures Entries(Read(nameOf, s))[m].variable.value == OrEmpty(Lookup(s.store, Key(nameOf, e)))
  {
    ReadVariable(nameOf, s, m);
  }

  lemma SecretHasHolder(nameOf: Naming, valid: Validity, other: Store, s: State, e: Entry)
    requires SoundNaming(nameOf, valid, other) && Inv(nameOf, valid, other, s) && valid(e.id, e.variable.name)
    requires Key(nameOf, e) in s.store
    ensures exists m: nat :: HolderOf(Entries(s.settings), m, e)
  {
    var cs, key := Entries(s.settings), Key(nameOf, e);
    assert HoldsSecret(nameOf, cs, key);
    var m: nat :| m < |cs| && Key(nameOf, cs[m]) == key && cs[m].variable.sensitive && Redacted(cs[m].variable);
    assert HolderOf(cs, m, e);
  }

  /** A variable left redacted keeps what it read as before, if the settings held its secret;
      otherwise it reads as empty: no older secret comes back. */
  lemma RedactedKeepsValue(nameOf: Naming, valid: Validity, other: Store, s: State, next: Settings, k: nat)
    requires SoundNaming(nameOf, valid, other) && Inv(nameOf, valid, other, s) && WellNamed(valid, Entries(next))
    requires k < |Entries(next)| && Entries(next)[k].variable.sensitive && Redacted(Entries(next)[k].variable)
    ensures |Entries(Read(nameOf, Update(nameOf, s, next)))| == |Entries(next)|
    ensures |Entries(Read(nameOf, s))| == |Entries(s.settings)|
    ensures var read := Entries(Read(nameOf, Update(nameOf, s, next)))[k].variable.value;
      && (forall m: nat :: HolderOf(Entries(s.settings), m, Entries(next)[k])
            ==> read == Entries(Read(nameOf, s))[m].variable.value)
      && ((forall m: nat :: !HolderOf(Entries(s.settings), m, Entries(next)[k])) ==> read == "")
  {
    var e := Entries(next)[k];
    EntriesOfMap(s.settings, Materializing(nameOf, s.store));
    WellNamedHasDistinctKeys(nameOf, valid, other, Entries(next));
    ReadBack(nameOf, s, next, k);
    forall m: nat | HolderOf(Entries(s.settings), m, e)
      ensures Entries(Read(nameOf, s))[m].variable.value == OrEmpty(Lookup(s.store, Key(nameOf, e)))
    {
      HolderReads(nameOf, s, m, e);
    }
    if Key(nameOf, e) in s.store {
      SecretHasHolder(nameOf, valid, other, s, e);
    }
  }

  // ----- echoing what a client was shown -----

  lemma PersistedVariableIsFixed(v: Variable)
    requires Persisted(v)
    ensures PersistVariable(v) == v
  {
    match v.valueRedacted
    case None =>
    case Some(redacted) =>
      assert redacted;
  }

  lemma PersistedIsFixed(s: Settings)
    requires EveryVariable(Entries(s), Persisted)
    ensures MapSettings(s, Persisting()) == s
  {
    var es := Entries(s);
    forall k | 0 <= k < |es| ensures Persisting()(es[k].id, es[k].variable) == es[k].variable {
      PersistedVariableIsFixed(es[k].variable);
    }
    MapFixedIff(s, Persisting());
  }

  lemma SensitiveHasKey(nameOf: Naming, es: seq<Entry>, key: string)
    ensures HasSensitive(nameOf, es, key) ==> HasKey(nameOf, es, key)
  {
  }

  lemma EchoKeepsStore(nameOf: Naming, valid: Validity, other: Store, s: State, key: string)
    requires SoundNaming(nameOf, valid, other) && Inv(nameOf, valid, other, s)
    ensures Lookup(UpdateStore(nameOf, s, s.settings), key) == Lookup(s.store, key)
  {
    var es := Entries(s.settings);
    WellNamedHasDistinctKeys(nameOf, valid, other, es);
    if HasKey(nameOf, es, key) {
      var k :| 0 <= k < |es| && Key(nameOf, es[k]) == key;
      UpdateAt(nameOf, s, s.settings, k);
      assert Persisted(es[k].variable);
      if key in s.store {
        assert HoldsSecret(nameOf, es, key);
        var m :| 0 <= m < |es| && Key(nameOf, es[m]) == key && es[m].variable.sensitive && Redacted(es[m].variable);
        assert m == k;
      }
    } else {
      UpdateElsewhere(nameOf, s, s.settings, key);
      SensitiveHasKey(nameOf, es, key);
    }
  }

  /** Sending back the settings that a client was shown changes neither the settings nor the
      store. */
  lemma EchoChangesNothing(nameOf: Naming, valid: Validity, other: Store, s: State)
    requires SoundNaming(nameOf, valid, other) && Inv(nameOf, valid, other, s)
    ensures Update(nameOf, s, MapSettings(Read(nameOf, s), Redacting())) == s
  {
    RedactedReadIff(nameOf, s);
    PersistedIsFixed(s.settings);
    var after := UpdateStore(nameOf, s, s.settings);
    forall key ensures key in after <==> key in s.store
      ensures key in after ==> after[key] == s.store[key]
    {
      EchoKeepsStore(nameOf, valid, other, s, key);
    }
    assert after == s.store;
  }

  // ----- without distinct pairs -----

  /** The secret under `key` once all these entries were persisted, in their order. */
  ghost function SecretAfter(nameOf: Naming, previous: Option<string>, es: seq<Entry>, key: string): Option<string> {
    if es == [] then previous
    else
      var last, before := es[|es| - 1], SecretAfter(nameOf, previous, es[..|es| - 1], key);
      if Key(nameOf, last) == key then After(before, EffectOf(last.variable)) else before
  }

  lemma {:induction false} PersistLookup(nameOf: Naming, store: Store, es: seq<Entry>, key: string)
    ensures Lookup(PersistStore(nameOf, store, es), key) == SecretAfter(nameOf, Lookup(store, key), es, key)
  {
    if es != [] {
      PersistLookup(nameOf, store, es[..|es| - 1], key);
    }
  }

  lemma SensitiveKeepsSecret(nameOf: Naming, s: State, next: Settings, k: nat)
    requires k < |Entries(next)| && Entries(next)[k].variable.sensitive
    ensures var key := Key(nameOf, Entries(next)[k]);
      Lookup(UpdateStore(nameOf, s, next), key) == SecretAfter(nameOf, Lookup(s.store, key), Entries(next), key)
  {
    var es := Entries(next);
    var key := Key(nameOf, es[k]);
    PersistLookup(nameOf, s.store, es, key);
    SensitiveKeysMember(nameOf, es, key);
    SweepLookup(nameOf, PersistStore(nameOf, s.store, es), Entries(s.settings), SensitiveKeys(nameOf, es), key);
  }

  /** Typed: a new secret was given. */
  predicate Typed(v: Variable) {
    v.sensitive && !Redacted(v) && v.value != ""
  }

  /** The value a variable reads back as, of its own and of the secret under its key. */
  ghost function ReadsAs(v: Variable, secret: Option<string>): string {
    if Typed(v) || (v.sensitive && Redacted(v)) then OrEmpty(secret) else v.value
  }

  lemma MaterializedPersisted(nameOf: Naming, store: Store, id: string, v: Variable)
    ensures MaterializeVariable(nameOf, store, id, PersistVariable(v)).value == ReadsAs(v, Lookup(store, nameOf(id, v.name)))
  {
  }

  /** For any settings, names repeated or not: after an update a variable without a secret reads
      back as given, and one that is typed or left redacted as what all the entries of its key
      leave in the store. */
  lemma ReadBackAny(nameOf: Naming, s: State, next: Settings, k: nat)
    requires k < |Entries(next)|
    ensures var after := Update(nameOf, s, next);
      var e := Entries(next)[k]; var key := Key(nameOf, e);
      && |Entries(Read(nameOf, after))| == |Entries(next)|
      && Entries(Read(nameOf, after))[k].variable.value
         == ReadsAs(e.variable, SecretAfter(nameOf, Lookup(s.store, key), Entries(next), key))
  {
    var after, e := Update(nameOf, s, next), Entries(next)[k];
    PersistedEntry(next, k);
    ReadVariable(nameOf, after, k);
    MaterializedPersisted(nameOf, after.store, e.id, e.variable);
    if e.variable.sensitive {
      SensitiveKeepsSecret(nameOf, s, next, k);
    }
  }

  /** The `m`-th entry is the last under `key` to touch the secret, and sets it to `value`. */
  ghost predicate SetsLast(nameOf: Naming, es: seq<Entry>, key: string, m: nat, value: string) {
    && m < |es| && Key(nameOf, es[m]) == key && EffectOf(es[m].variable) == SetSecret(value)
    && forall j :: m < j < |es| && Key(nameOf, es[j]) == key ==> EffectOf(es[j].variable) == LeaveSecret
  }

  lemma SetsLastInFront(nameOf: Naming, es: seq<Entry>, key: string, m: nat, value: string)
    requires es != [] && m < |es| - 1
    requires Key(nameOf, es[|es| - 1]) == key ==> EffectOf(es[|es| - 1].variable) == LeaveSecret
    ensures SetsLast(nameOf, es, key, m, value) <==> SetsLast(nameOf, es[..|es| - 1], key, m, value)
  {
    var front := es[..|es| - 1];
    assert forall j :: 0 <= j < |front| ==> front[j] == es[j];
    if SetsLast(nameOf, front, key, m, value) {
      forall j | m < j < |es| && Key(nameOf, es[j]) == key ensures EffectOf(es[j].variable) == LeaveSecret {
        assert j < |front| ==> front[j] == es[j];
      }
    }
  }

  lemma {:induction false} SecretAfterIs(nameOf: Naming, previous: Option<string>, es: seq<Entry>, key: string, k: nat, value: string)
    requires k < |es| && Key(nameOf, es[k]) == key && EffectOf(es[k].variable) != LeaveSecret
    ensures SecretAfter(nameOf, previous, es, key) == Some(value)
       <==> exists m: nat :: k <= m && SetsLast(nameOf, es, key, m, value)
    decreases |es|
  {
    var n := |es| - 1;
    if Key(nameOf, es[n]) == key && EffectOf(es[n].variable) != LeaveSecret {
      forall m: nat | SetsLast(nameOf, es, key, m, value) ensures m == n {
      }
      if EffectOf(es[n].variable) == SetSecret(value) {
        assert SetsLast(nameOf, es, key, n, value);
      }
    } else {
      SecretAfterIs(nameOf, previous, es[..n], key, k, value);
      forall m: nat | m < n ensures SetsLast(nameOf, es, key, m, value) <==> SetsLast(nameOf, es[..n], key, m, value) {
        SetsLastInFront(nameOf, es, key, m, value);
      }
    }
  }

  /** A typed value reads back as typed exactly when, from its entry on, the last entry of its
      key that is not left redacted sets that same value. */
  lemma TypedReadsBackIff(nameOf: Naming, s: State, next: Settings, k: nat)
    requires k < |Entries(next)| && Typed(Entries(next)[k].variable)
    ensures |Entries(Read(nameOf, Update(nameOf, s, next)))| == |Entries(next)|
    ensures var es := Entries(next);
      Entries(Read(nameOf, Update(nameOf, s, next)))[k].variable.value == es[k].variable.value
      <==> exists m: nat :: k <= m && SetsLast(nameOf, es, Key(nameOf, es[k]), m, es[k].variable.value)
  {
    var e, es := Entries(next)[k], Entries(next);
    ReadBackAny(nameOf, s, next, k);
    SecretAfterIs(nameOf, Lookup(s.store, Key(nameOf, e)), es, Key(nameOf, e), k, e.variable.value);
  }

  /** A plain variable of the same name wipes the secret typed before it. */
  lemma DuplicateNameLosesSecret(nameOf: Naming)
    ensures var next := [Instance("a", "", Some([Variable("n", "secret", true, None), Variable("n", "", false, None)]))];
      var read := Entries(Read(nameOf, Update(nameOf, State([], map[]), next)));
      |read| == 2 && read[0].variable.sensitive && read[0].variable.value == ""
  {
    var typed, plain := Variable("n", "secret", true, None), Variable("n", "", false, None);
    var next := [Instance("a", "", Some([typed, plain]))];
    var es := Entries(next);
    assert Entries([]) + InstanceEntries(next[0]) == es && next[..0] == [];
    assert es == [Entry("a", typed), Entry("a", plain)];
    var s := State([], map[]);
    var key := nameOf("a", "n");
    PersistStorePush(nameOf, s.store, [Entry("a", typed)], Entry("a", plain));
    assert [Entry("a", typed)] + [Entry("a", plain)] == es;
    var after := Update(nameOf, s, next);
    assert Entries(s.settings) == [] && key !in after.store;
    EntriesOfMap(next, Persisting());
    var kept := Entries(after.settings)[0];
    assert kept == Entry("a", PersistVariable(typed)) by {
      assert kept == MapEntry(es[0], Persisting());
    }
    ReadVariable(nameOf, after, 0);
    assert MaterializeVariable(nameOf, after.store, "a", kept.variable).value == "";
  }
}
