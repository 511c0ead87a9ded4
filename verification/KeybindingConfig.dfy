/**
 * The keybindings file and its one-entry cache under upserts, removals, the startup sync and
 * revalidation (apps/server/src/keybindings.ts:105-146, 216-233, 337-574, 647-707), over the
 * compiler of packages/shared/src/keybindings.ts:250-281.
 *
 * The service runs one operation at a time (a semaphore of one permit), so an operation is
 * one step. An entry of the file is a rule, or `None` where the rule schema rejects it.
 */
module KeybindingConfig {
  import opened Prelude
  import Shortcuts = ShortcutEncoding
  import Resolution = ShortcutResolution

  type Rule = Shortcuts.Rule
  type ResolvedRule = Shortcuts.ResolvedRule

  // MAX_KEYBINDINGS_COUNT (packages/contracts/src/keybindings.ts:7)
  const MAX_COUNT: nat := 256

  datatype File = Absent | Malformed | Entries(entries: seq<Option<Rule>>)

  datatype Issue = MalformedConfig | InvalidEntry(index: nat)

  datatype Config = Config(bindings: seq<ResolvedRule>, issues: seq<Issue>)

  datatype State = State(file: File, cache: Option<Config>)

  datatype ConfigError = ExpectedArray | TooMany

  // The default rules, the compiler of one rule, the schema's check of a compiled rule, and
  // the test whether two rules share a shortcut context. Nothing below depends on what these
  // are; `SourceRules` gives the ones of the source.
  datatype Rules =
    Rules(defaults: seq<Rule>, compile: Rule -> Option<ResolvedRule>, schema: ResolvedRule -> bool,
          sameContext: (Rule, Rule) -> bool)

  function SourceRules(defaults: seq<Rule>, schema: ResolvedRule -> bool): Rules {
    Rules(defaults, Shortcuts.Compile, schema, Shortcuts.HasSameShortcutContext)
  }

  function Filter<T>(s: seq<T>, keep: T -> bool): (r: seq<T>)
    ensures |r| <= |s|
  {
    if s == [] then [] else Filter(s[..|s| - 1], keep) + if keep(s[|s| - 1]) then [s[|s| - 1]] else []
  }

  function LastMax<T>(s: seq<T>): (r: seq<T>)
    ensures |r| <= MAX_COUNT
  {
    if |s| > MAX_COUNT then s[|s| - MAX_COUNT..] else s
  }

  predicate SameRule(left: Rule, right: Rule) {
    left.command == right.command && left.key == right.key && left.condition == right.condition
  }

  function OtherThan(target: Rule): Rule -> bool {
    entry => !SameRule(entry, target)
  }

  // ----- reading the file -----

  predicate Accepted(rules: Rules, rule: Rule) {
    rules.compile(rule).Some? && rules.schema(rules.compile(rule).value)
  }

  function IsAccepted(rules: Rules): Rule -> bool {
    rule => Accepted(rules, rule)
  }

  function AcceptedRules(rules: Rules, entries: seq<Option<Rule>>): seq<Rule> {
    if entries == [] then []
    else
      var last := entries[|entries| - 1];
      AcceptedRules(rules, entries[..|entries| - 1])
      + if last.Some? && Accepted(rules, last.value) then [last.value] else []
  }

  function EntryIssues(rules: Rules, entries: seq<Option<Rule>>): seq<Issue> {
    if entries == [] then []
    else
      var last := entries[|entries| - 1];
      EntryIssues(rules, entries[..|entries| - 1])
      + if last.Some? && Accepted(rules, last.value) then [] else [InvalidEntry(|entries| - 1)]
  }

  function CustomRules(rules: Rules, file: File): seq<Rule> {
    if file.Entries? then AcceptedRules(rules, file.entries) else []
  }

  function Issues(rules: Rules, file: File): seq<Issue> {
    match file
    case Absent => []
    case Malformed => [MalformedConfig]
    case Entries(entries) => EntryIssues(rules, entries)
  }

  function CompileEach(rules: Rules, config: seq<Rule>): seq<ResolvedRule> {
    if config == [] then []
    else
      var last := rules.compile(config[|config| - 1]);
      CompileEach(rules, config[..|config| - 1]) + if last.Some? then [last.value] else []
  }

  function CompileConfig(rules: Rules, config: seq<Rule>): (r: seq<ResolvedRule>)
    ensures |r| <= MAX_COUNT
  {
    LastMax(CompileEach(rules, config))
  }

  predicate Customized(custom: seq<ResolvedRule>, command: string) {
    exists i :: 0 <= i < |custom| && custom[i].command == command
  }

  function Uncustomized(custom: seq<ResolvedRule>): ResolvedRule -> bool {
    (binding: ResolvedRule) => !Customized(custom, binding.command)
  }

  function RetainedDefaults(rules: Rules, custom: seq<ResolvedRule>): seq<ResolvedRule> {
    Filter(CompileConfig(rules, rules.defaults), Uncustomized(custom))
  }

  function Merge(rules: Rules, custom: seq<ResolvedRule>): seq<ResolvedRule> {
    if custom == [] then CompileConfig(rules, rules.defaults)
    else LastMax(RetainedDefaults(rules, custom) + custom)
  }

  /** The state that reading the file gives. */
  function Load(rules: Rules, file: File): Config {
    Config(Merge(rules, CompileConfig(rules, CustomRules(rules, file))), Issues(rules, file))
  }

  method LoadRuntimeCustomConfig(rules: Rules, file: File) returns (config: seq<Rule>, issues: seq<Issue>)
    ensures config == CustomRules(rules, file) && issues == Issues(rules, file)
  {
    config, issues := [], [];
    match file
    case Absent =>
    case Malformed => issues := [MalformedConfig];
    case Entries(entries) =>
      for index := 0 to |entries|
        invariant config == AcceptedRules(rules, entries[..index])
        invariant issues == EntryIssues(rules, entries[..index])
      {
        assert entries[..index + 1][..index] == entries[..index];
        if entries[index].Some? && Accepted(rules, entries[index].value) {
          config := config + [entries[index].value];
        } else {
          issues := issues + [InvalidEntry(index)];
        }
      }
      assert entries[..|entries|] == entries;
  }

  method CompileResolvedConfig(rules: Rules, config: seq<Rule>) returns (r: seq<ResolvedRule>)
    ensures r == CompileConfig(rules, config)
  {
    var compiled: seq<ResolvedRule> := [];
    for i := 0 to |config|
      invariant compiled == CompileEach(rules, config[..i])
    {
      assert config[..i + 1][..i] == config[..i];
      var result := rules.compile(config[i]);
      if result.Some? {
        compiled := compiled + [result.value];
      }
    }
    assert config[..|config|] == config;
    r := if |compiled| > MAX_COUNT then compiled[|compiled| - MAX_COUNT..] else compiled;
  }

  // ----- the operations -----

  function Written(config: seq<Rule>): File {
    Entries(seq(|config|, i requires 0 <= i < |config| => Some(config[i])))
  }

  /** The state once `config` was written and its compilation cached. */
  function Installed(rules: Rules, config: seq<Rule>): State {
    State(Written(config), Some(Config(Merge(rules, CompileConfig(rules, config)), [])))
  }

  function Upserted(custom: seq<Rule>, rule: Rule, replace: Option<Rule>): seq<Rule> {
    var target := if replace.Some? then replace.value else rule;
    LastMax(Filter(custom, OtherThan(target)) + [rule])
  }

  function Removed(custom: seq<Rule>, target: Rule): seq<Rule> {
    Filter(custom, OtherThan(target))
  }

  predicate HasCommand(config: seq<Rule>, command: string) {
    exists i :: 0 <= i < |config| && config[i].command == command
  }

  predicate HasContext(rules: Rules, config: seq<Rule>, rule: Rule) {
    exists i :: 0 <= i < |config| && rules.sameContext(config[i], rule)
  }

  /** A default that the startup sync adds: its command is absent and its keys are free. */
  predicate Missing(rules: Rules, custom: seq<Rule>, rule: Rule) {
    !HasCommand(custom, rule.command) && !HasContext(rules, custom, rule)
  }

  function MissingFrom(rules: Rules, custom: seq<Rule>): Rule -> bool {
    rule => Missing(rules, custom, rule)
  }

  function MissingDefaults(rules: Rules, custom: seq<Rule>): seq<Rule> {
    Filter(rules.defaults, MissingFrom(rules, custom))
  }

  function SyncedOver(file: File, custom: seq<Rule>, issues: seq<Issue>, missing: seq<Rule>): File {
    if issues != [] || missing == [] then file else Written(LastMax(custom + missing))
  }

  function Synced(rules: Rules, file: File): File {
    if file.Absent? then Written(rules.defaults)
    else
      var custom := CustomRules(rules, file);
      SyncedOver(file, custom, Issues(rules, file), MissingDefaults(rules, custom))
  }

  datatype Action =
    | Upsert(rule: Rule, replace: Option<Rule>)
    | Remove(target: Rule)
    | SyncDefaults
    | Revalidate
    | GetSnapshot

  function Apply(rules: Rules, s: State, action: Action): State {
    var custom := CustomRules(rules, s.file);
    match action
    case Upsert(rule, replace) =>
      if s.file.Malformed? then s else Installed(rules, Upserted(custom, rule, replace))
    case Remove(target) =>
      if s.file.Malformed? || |Removed(custom, target)| > MAX_COUNT then s
      else Installed(rules, Removed(custom, target))
    case SyncDefaults =>
      if s.file.Absent? && |rules.defaults| > MAX_COUNT then s else State(Synced(rules, s.file), None)
    case Revalidate => s.(cache := Some(Load(rules, s.file)))
    case GetSnapshot => if s.cache.Some? then s else s.(cache := Some(Load(rules, s.file)))
  }

  function Run(rules: Rules, s: State, actions: seq<Action>): State
    decreases |actions|
  {
    if actions == [] then s else Run(rules, Apply(rules, s, actions[0]), actions[1..])
  }

  class Keybindings {
    const rules: Rules
    var file: File
    var cache: Option<Config>

    constructor (rules: Rules, file: File)
      ensures this.rules == rules && Value() == State(file, None)
    {
      this.rules, this.file, this.cache := rules, file, None;
    }

    function Value(): State
      reads this
    {
      State(file, cache)
    }

    method LoadWritableConfig() returns (r: Result<seq<Rule>, ConfigError>)
      ensures r == if file.Malformed? then Err(ExpectedArray) else Ok(CustomRules(rules, file))
    {
      if file.Malformed? {
        return Err(ExpectedArray);
      }
      var config, _ := LoadRuntimeCustomConfig(rules, file);
      return Ok(config);
    }

    /** Encoding checks the length of the list; a failed write leaves the file alone. */
    method WriteConfig(config: seq<Rule>) returns (r: Result<(), ConfigError>)
      modifies this`file
      ensures r == if |config| > MAX_COUNT then Err(TooMany) else Ok(())
      ensures file == if |config| > MAX_COUNT then old(file) else Written(config)
    {
      if |config| > MAX_COUNT {
        return Err(TooMany);
      }
      file := Written(config);
      return Ok(());
    }

    method LoadConfigState() returns (config: Config)
      modifies this`cache
      ensures Value() == Apply(rules, old(Value()), GetSnapshot)
      ensures cache == Some(config)
    {
      if cache.None? {
        var custom, issues := LoadRuntimeCustomConfig(rules, file);
        var compiled := CompileResolvedConfig(rules, custom);
        cache := Some(Config(Merge(rules, compiled), issues));
      }
      return cache.value;
    }

    method RevalidateAndEmit() returns (config: Config)
      modifies this`cache
      ensures Value() == Apply(rules, old(Value()), Revalidate)
      ensures config == Load(rules, file)
    {
      cache := None;
      config := LoadConfigState();
    }

    method UpsertRule(rule: Rule, replace: Option<Rule>) returns (r: Result<seq<ResolvedRule>, ConfigError>)
      modifies this
      ensures Value() == Apply(rules, old(Value()), Upsert(rule, replace))
      ensures r.Ok? <==> !old(file).Malformed?
      ensures r.Ok? ==> cache == Some(Config(r.value, []))
    {
      var custom :- LoadWritableConfig();
      var target := if replace.Some? then replace.value else rule;
      var nextConfig := Filter(custom, OtherThan(target)) + [rule];
      var capped := if |nextConfig| > MAX_COUNT then nextConfig[|nextConfig| - MAX_COUNT..] else nextConfig;
      assert capped == Upserted(custom, rule, replace);
      // A capped list always encodes.
      var _ := WriteConfig(capped);
      var compiled := CompileResolvedConfig(rules, capped);
      var next := Merge(rules, compiled);
      cache := Some(Config(next, []));
      return Ok(next);
    }

    method RemoveRule(target: Rule) returns (r: Result<seq<ResolvedRule>, ConfigError>)
      modifies this
      ensures Value() == Apply(rules, old(Value()), Remove(target))
      ensures r.Ok? ==> cache == Some(Config(r.value, []))
      ensures r.Err? ==> Value() == old(Value())
    {
      var custom :- LoadWritableConfig();
      var nextConfig := Filter(custom, OtherThan(target));
      assert nextConfig == Removed(custom, target);
      var _ :- WriteConfig(nextConfig);
      var compiled := CompileResolvedConfig(rules, nextConfig);
      var next := Merge(rules, compiled);
      cache := Some(Config(next, []));
      return Ok(next);
    }

    method CollectMissingDefaults(custom: seq<Rule>) returns (missing: seq<Rule>)
      ensures missing == MissingDefaults(rules, custom)
    {
      missing := [];
      var defaults := rules.defaults;
      for i := 0 to |defaults|
        invariant missing == Filter(defaults[..i], MissingFrom(rules, custom))
      {
        assert defaults[..i + 1][..i] == defaults[..i];
        if !HasCommand(custom, defaults[i].command) && !HasContext(rules, custom, defaults[i]) {
          missing := missing + [defaults[i]];
        }
      }
      assert defaults[..|defaults|] == defaults;
    }

    method SyncDefaultsOnStartup() returns (r: Result<(), ConfigError>)
      modifies this
      ensures Value() == Apply(rules, old(Value()), SyncDefaults)
      ensures r.Err? ==> Value() == old(Value())
    {
      if file.Absent? {
        var _ :- WriteConfig(rules.defaults);
        cache := None;
        return Ok(());
      }
      SyncExisting();
      return Ok(());
    }

    method SyncExisting()
      requires !file.Absent?
      modifies this
      ensures Value() == State(Synced(rules, old(file)), None)
    {
      var custom, issues := LoadRuntimeCustomConfig(rules, file);
      var missing := CollectMissingDefaults(custom);
      if |issues| == 0 && |missing| > 0 {
        var nextConfig := custom + missing;
        var capped := if |nextConfig| > MAX_COUNT then nextConfig[|nextConfig| - MAX_COUNT..] else nextConfig;
        // A capped list always encodes.
        var _ := WriteConfig(capped);
      }
      cache := None;
    }
  }

  // ----- lists -----

  lemma {:induction false} FilterMembers<T(!new)>(s: seq<T>, keep: T -> bool)
    ensures forall x :: x in Filter(s, keep) <==> x in s && keep(x)
  {
    if s != [] {
      var front, last := s[..|s| - 1], s[|s| - 1];
      FilterMembers(front, keep);
      assert s == front + [last];
    }
  }

  lemma {:induction false} FilterKeepsAll<T(!new)>(s: seq<T>, keep: T -> bool)
    requires forall x :: x in s ==> keep(x)
    ensures Filter(s, keep) == s
  {
    if s != [] {
      var front, last := s[..|s| - 1], s[|s| - 1];
      assert s == front + [last];
      FilterKeepsAll(front, keep);
    }
  }

  lemma {:induction false} AcceptedRulesMembers(rules: Rules, entries: seq<Option<Rule>>)
    ensures forall r :: r in AcceptedRules(rules, entries) <==> Accepted(rules, r) && Some(r) in entries
  {
    if entries != [] {
      var front, last := entries[..|entries| - 1], entries[|entries| - 1];
      assert entries == front + [last];
      AcceptedRulesMembers(rules, front);
    }
  }

  /** A written list is read back without its rejected rules, each of which is an issue. */
  lemma {:induction false} ReadWritten(rules: Rules, config: seq<Rule>)
    ensures CustomRules(rules, Written(config)) == Filter(config, IsAccepted(rules))
    ensures Issues(rules, Written(config)) == [] <==> forall r :: r in config ==> Accepted(rules, r)
  {
    if config != [] {
      var front, last := config[..|config| - 1], config[|config| - 1];
      assert config == front + [last];
      assert Written(config).entries[..|config| - 1] == Written(front).entries;
      ReadWritten(rules, front);
    }
  }

  lemma ReadAccepted(rules: Rules, config: seq<Rule>)
    requires forall r :: r in config ==> Accepted(rules, r)
    ensures CustomRules(rules, Written(config)) == config && Issues(rules, Written(config)) == []
  {
    ReadWritten(rules, config);
    FilterKeepsAll(config, IsAccepted(rules));
  }

  lemma CustomRulesAccepted(rules: Rules, file: File)
    ensures forall r :: r in CustomRules(rules, file) ==> Accepted(rules, r)
  {
    if file.Entries? {
      AcceptedRulesMembers(rules, file.entries);
    }
  }

  // ----- the cache -----

  /** A cached state is what reading the file would give. */
  ghost predicate Coherent(rules: Rules, s: State) {
    s.cache.Some? ==> s.cache.value == Load(rules, s.file)
  }

  lemma InstalledCoherentIff(rules: Rules, config: seq<Rule>)
    ensures Coherent(rules, Installed(rules, config)) <==> forall r :: r in config ==> Accepted(rules, r)
  {
    ReadWritten(rules, config);
    if forall r :: r in config ==> Accepted(rules, r) {
      ReadAccepted(rules, config);
    }
  }

  lemma UpsertedMembers(custom: seq<Rule>, rule: Rule, replace: Option<Rule>)
    ensures var config := Upserted(custom, rule, replace);
      && rule in config && config[|config| - 1] == rule && forall r :: r in config ==> r in custom || r == rule
  {
    var target := if replace.Some? then replace.value else rule;
    var kept := Filter(custom, OtherThan(target));
    FilterMembers(custom, OtherThan(target));
    var all := kept + [rule];
    assert Upserted(custom, rule, replace) == LastMax(all);
    assert all[|all| - 1] == rule;
    assert forall r :: r in LastMax(all) ==> r in all;
  }

  /** The list without any `x`, the rest in order. */
  ghost function Without<T>(s: seq<T>, x: T): seq<T> {
    if s == [] then [] else (if s[0] == x then [] else [s[0]]) + Without(s[1..], x)
  }

  lemma {:induction false} WithoutPush<T(!new)>(s: seq<T>, x: T, last: T)
    ensures Without(s + [last], x) == Without(s, x) + if last == x then [] else [last]
  {
    if s == [] {
      assert s + [last] == [last] && [last][1..] == [];
    } else {
      assert (s + [last])[1..] == s[1..] + [last];
      WithoutPush(s[1..], x, last);
    }
  }

  lemma {:induction false} WithoutIsFilter(config: seq<Rule>, target: Rule)
    ensures Filter(config, OtherThan(target)) == Without(config, target)
  {
    if config != [] {
      var front, last := config[..|config| - 1], config[|config| - 1];
      assert config == front + [last];
      WithoutIsFilter(front, target);
      WithoutPush(front, target, last);
    }
  }

  lemma {:induction false} WithoutCounts<T(!new)>(s: seq<T>, x: T)
    ensures multiset(Without(s, x)) == multiset(s)[x := 0]
  {
    if s != [] {
      WithoutCounts(s[1..], x);
      assert s == [s[0]] + s[1..];
    }
  }

  /** Of a list with `x` added behind, the last ones keep `x`, and no more of them than before. */
  lemma LastMaxKeepsLast<T(!new)>(s: seq<T>, x: T)
    ensures var m := LastMax(s + [x]);
      && m != [] && m[|m| - 1] == x && multiset(m) <= multiset(s) + multiset{x}
      && (|s| < MAX_COUNT ==> m == s + [x])
  {
    var all := s + [x];
    var cut := |all| - |LastMax(all)|;
    assert LastMax(all) == all[cut..];
    assert all == all[..cut] + all[cut..];
    assert multiset(all) == multiset(all[..cut]) + multiset(all[cut..]);
  }

  /** The rules that an upsert writes: the accepted ones of the file without the rule that it
      replaces (itself, if none is named), and the new rule behind; the last 256 of them. */
  lemma UpsertWrites(rules: Rules, s: State, rule: Rule, replace: Option<Rule>)
    requires !s.file.Malformed?
    ensures var custom := CustomRules(rules, s.file);
      var target := if replace.Some? then replace.value else rule;
      var kept := Without(custom, target) + [rule];
      Apply(rules, s, Upsert(rule, replace)).file == Written(if |kept| <= MAX_COUNT then kept else kept[|kept| - MAX_COUNT..])
  {
    WithoutIsFilter(CustomRules(rules, s.file), if replace.Some? then replace.value else rule);
  }

  /** So the replaced rule is gone, the new one is last and there once, unless it was there
      already and another one was replaced, and with room left nothing else goes. */
  lemma UpsertReplaces(rules: Rules, s: State, rule: Rule, replace: Option<Rule>) returns (config: seq<Rule>)
    requires !s.file.Malformed?
    ensures Apply(rules, s, Upsert(rule, replace)).file == Written(config)
    ensures config != [] && config[|config| - 1] == rule
    ensures var custom := CustomRules(rules, s.file); var target := if replace.Some? then replace.value else rule;
      && (target in config ==> target == rule)
      && (rule !in custom || rule == target ==> multiset(config)[rule] == 1)
      && (|custom| < MAX_COUNT ==> multiset(config) == multiset(custom)[target := 0] + multiset{rule})
  {
    var custom := CustomRules(rules, s.file);
    var target := if replace.Some? then replace.value else rule;
    var kept := Without(custom, target);
    UpsertWrites(rules, s, rule, replace);
    config := LastMax(kept + [rule]);
    ReplacedCounts(custom, target, rule);
  }

  lemma ReplacedCounts(custom: seq<Rule>, target: Rule, rule: Rule)
    ensures var config := LastMax(Without(custom, target) + [rule]);
      && config != [] && config[|config| - 1] == rule
      && (target in config ==> target == rule)
      && (rule !in custom || rule == target ==> multiset(config)[rule] == 1)
      && (|custom| < MAX_COUNT ==> multiset(config) == multiset(custom)[target := 0] + multiset{rule})
  {
    var kept := Without(custom, target);
    var config := LastMax(kept + [rule]);
    WithoutCounts(custom, target);
    WithoutIsShorter(custom, target);
    LastMaxKeepsLast(kept, rule);
    assert config[|config| - 1] in multiset(config);
    assert target in config <==> target in multiset(config);
    assert multiset(config)[target] <= multiset(kept)[target] + multiset{rule}[target];
    assert multiset(config)[rule] <= multiset(kept)[rule] + 1;
    assert rule in custom <==> rule in multiset(custom);
  }

  lemma {:induction false} WithoutIsShorter<T(!new)>(s: seq<T>, x: T)
    ensures |Without(s, x)| <= |s|
  {
    if s != [] {
      WithoutIsShorter(s[1..], x);
    }
  }

  /** Removing a rule leaves the other accepted ones in order. */
  lemma RemoveWrites(rules: Rules, s: State, target: Rule)
    requires !s.file.Malformed? && |CustomRules(rules, s.file)| <= MAX_COUNT
    ensures Apply(rules, s, Remove(target)).file == Written(Without(CustomRules(rules, s.file), target))
    ensures target !in Without(CustomRules(rules, s.file), target)
  {
    WithoutIsFilter(CustomRules(rules, s.file), target);
    WithoutIsShorter(CustomRules(rules, s.file), target);
    WithoutCounts(CustomRules(rules, s.file), target);
    assert target !in multiset(Without(CustomRules(rules, s.file), target));
  }

  /** An upsert leaves the cache agreeing with the file exactly when the rule is one that
      reading the file accepts. */
  lemma UpsertCoherentIff(rules: Rules, s: State, rule: Rule, replace: Option<Rule>)
    requires !s.file.Malformed?
    ensures Coherent(rules, Apply(rules, s, Upsert(rule, replace))) <==> Accepted(rules, rule)
  {
    var custom := CustomRules(rules, s.file);
    CustomRulesAccepted(rules, s.file);
    UpsertedMembers(custom, rule, replace);
    InstalledCoherentIff(rules, Upserted(custom, rule, replace));
  }

  ghost predicate UpsertsAccepted(rules: Rules, actions: seq<Action>) {
    forall i :: 0 <= i < |actions| && actions[i].Upsert? ==> Accepted(rules, actions[i].rule)
  }

  lemma ApplyKeepsCoherent(rules: Rules, s: State, action: Action)
    requires Coherent(rules, s) && (action.Upsert? ==> Accepted(rules, action.rule))
    ensures Coherent(rules, Apply(rules, s, action))
  {
    match action
    case Upsert(rule, replace) =>
      if !s.file.Malformed? {
        UpsertCoherentIff(rules, s, rule, replace);
      }
    case Remove(target) =>
      var custom := CustomRules(rules, s.file);
      CustomRulesAccepted(rules, s.file);
      FilterMembers(custom, OtherThan(target));
      InstalledCoherentIff(rules, Removed(custom, target));
    case SyncDefaults =>
    case Revalidate =>
    case GetSnapshot =>
  }

  // ----- what the bindings hold -----

  /** The custom bindings come last and are all there; before them stand only defaults of
      commands that are not customized, and all of those if they fit. */
  ghost predicate WellMerged(rules: Rules, custom: seq<ResolvedRule>, bindings: seq<ResolvedRule>) {
    && |custom| <= |bindings| <= MAX_COUNT
    && bindings[|bindings| - |custom|..] == custom
    && (forall b :: b in bindings[..|bindings| - |custom|]
          ==> b in CompileConfig(rules, rules.defaults) && !Customized(custom, b.command))
    && (|RetainedDefaults(rules, custom)| + |custom| <= MAX_COUNT
        ==> forall b :: b in CompileConfig(rules, rules.defaults) && !Customized(custom, b.command)
              ==> b in bindings[..|bindings| - |custom|])
  }

  lemma LastMaxOfTwo<T>(front: seq<T>, back: seq<T>) returns (cut: nat)
    requires |back| <= MAX_COUNT
    ensures var m := LastMax(front + back);
      && cut <= |front| && |m| == |front| - cut + |back| && m[|m| - |back|..] == back && m[..|m| - |back|] == front[cut..]
    ensures |front| + |back| <= MAX_COUNT ==> cut == 0
  {
    var all := front + back;
    var m := LastMax(all);
    cut := |all| - |m|;
    assert m == all[cut..];
  }

  lemma RetainedMembers(rules: Rules, custom: seq<ResolvedRule>)
    ensures forall b :: b in RetainedDefaults(rules, custom)
                    <==> b in CompileConfig(rules, rules.defaults) && !Customized(custom, b.command)
  {
    FilterMembers(CompileConfig(rules, rules.defaults), Uncustomized(custom));
  }

  lemma DropMembers<T(!new)>(s: seq<T>, cut: nat)
    requires cut <= |s|
    ensures forall x :: x in s[cut..] ==> x in s
  {
  }

  lemma MergeIsWellMerged(rules: Rules, custom: seq<ResolvedRule>)
    requires |custom| <= MAX_COUNT
    ensures WellMerged(rules, custom, Merge(rules, custom))
  {
    var retained := RetainedDefaults(rules, custom);
    var m := Merge(rules, custom);
    RetainedMembers(rules, custom);
    if custom == [] {
      assert m[..|m|] == m;
    } else {
      var cut := LastMaxOfTwo(retained, custom);
      DropMembers(retained, cut);
      if cut == 0 {
        assert retained[0..] == retained;
      }
    }
  }

  lemma {:induction false} EveryRunIsCoherent(rules: Rules, s: State, actions: seq<Action>)
    requires Coherent(rules, s) && UpsertsAccepted(rules, actions)
    ensures Coherent(rules, Run(rules, s, actions))
    decreases |actions|
  {
    if actions != [] {
      ApplyKeepsCoherent(rules, s, actions[0]);
      EveryRunIsCoherent(rules, Apply(rules, s, actions[0]), actions[1..]);
    }
  }

  /** In every run from an empty cache whose upserts are acceptable, the cached bindings are
      those of the file: at most 256, the custom ones all there and last, and no default of a
      customized command among them. */
  lemma RunsServeTheFile(rules: Rules, file: File, actions: seq<Action>)
    requires UpsertsAccepted(rules, actions)
    ensures var s := Run(rules, State(file, None), actions);
      s.cache.Some? ==>
        && s.cache.value == Load(rules, s.file)
        && WellMerged(rules, CompileConfig(rules, CustomRules(rules, s.file)), s.cache.value.bindings)
  {
    var s := Run(rules, State(file, None), actions);
    EveryRunIsCoherent(rules, State(file, None), actions);
    MergeIsWellMerged(rules, CompileConfig(rules, CustomRules(rules, s.file)));
  }

  lemma LastCompiled(rules: Rules, config: seq<Rule>, resolved: ResolvedRule)
    requires config != [] && rules.compile(config[|config| - 1]) == Some(resolved)
    ensures var bindings := Merge(rules, CompileConfig(rules, config));
      bindings != [] && bindings[|bindings| - 1] == resolved
  {
    var each := CompileEach(rules, config);
    assert each[|each| - 1] == resolved;
    var custom := CompileConfig(rules, config);
    assert custom[|custom| - 1] == resolved;
    MergeIsWellMerged(rules, custom);
    var bindings := Merge(rules, custom);
    assert bindings[|bindings| - 1] == bindings[|bindings| - |custom|..][|custom| - 1];
  }

  lemma LastUpsertIsLast(rules: Rules, s: State, rule: Rule, replace: Option<Rule>, resolved: ResolvedRule)
    returns (bindings: seq<ResolvedRule>)
    requires !s.file.Malformed? && rules.compile(rule) == Some(resolved)
    ensures Apply(rules, s, Upsert(rule, replace)).cache == Some(Config(bindings, []))
    ensures bindings != [] && bindings[|bindings| - 1] == resolved
  {
    var config := Upserted(CustomRules(rules, s.file), rule, replace);
    UpsertedMembers(CustomRules(rules, s.file), rule, replace);
    LastCompiled(rules, config, resolved);
    bindings := Merge(rules, CompileConfig(rules, config));
  }

  /** The rule upserted last wins every event that it matches. */
  lemma LastUpsertWins(rules: Rules, s: State, rule: Rule, replace: Option<Rule>, resolved: ResolvedRule,
                       event: Resolution.Event, setting: Resolution.Setting)
    requires !s.file.Malformed? && rules.compile(rule) == Some(resolved)
    requires Resolution.Active(resolved, setting)
    requires Resolution.MatchesShortcut(event, resolved.shortcut, setting.mac)
    ensures var after := Apply(rules, s, Upsert(rule, replace)).cache;
      after.Some? && Resolution.Resolve(after.value.bindings, event, setting) == Some(resolved.command)
  {
    var bindings := LastUpsertIsLast(rules, s, rule, replace, resolved);
    Resolution.LastBindingWins(bindings, event, setting);
  }

  // ----- what one operation undoes -----

  lemma FilterPush<T(!new)>(s: seq<T>, x: T, keep: T -> bool)
    ensures Filter(s + [x], keep) == Filter(s, keep) + if keep(x) then [x] else []
  {
    assert (s + [x])[..|s|] == s;
  }

  lemma UpsertAdds(config: seq<Rule>, rule: Rule)
    requires |config| < MAX_COUNT && rule !in config
    ensures Upserted(config, rule, None) == config + [rule]
  {
    FilterKeepsAll(config, OtherThan(rule));
  }

  lemma RemoveDrops(rules: Rules, config: seq<Rule>, rule: Rule)
    requires rule !in config && forall r :: r in config ==> Accepted(rules, r)
    ensures Removed(CustomRules(rules, Written(config + [rule])), rule) == config
  {
    var accepted := IsAccepted(rules);
    var other := OtherThan(rule);
    ReadWritten(rules, config + [rule]);
    FilterKeepsAll(config, accepted);
    FilterPush(config, rule, accepted);
    FilterKeepsAll(config, other);
    FilterPush(config, rule, other);
    assert config + [] == config;
  }

  /** Removing a rule that was just added gives the file back. */
  lemma RemoveUndoesUpsert(rules: Rules, config: seq<Rule>, cache: Option<Config>, rule: Rule)
    requires |config| < MAX_COUNT && rule !in config && forall r :: r in config ==> Accepted(rules, r)
    ensures var added := Apply(rules, State(Written(config), cache), Upsert(rule, None));
      added.file == Written(config + [rule]) && Apply(rules, added, Remove(rule)).file == Written(config)
  {
    ReadAccepted(rules, config);
    UpsertAdds(config, rule);
    RemoveDrops(rules, config, rule);
  }

  // ----- the startup sync -----

  lemma MissingIsAntitone(rules: Rules, custom: seq<Rule>, more: seq<Rule>, rule: Rule)
    requires Missing(rules, custom + more, rule)
    ensures Missing(rules, custom, rule)
  {
    forall i | 0 <= i < |custom| ensures custom[i].command != rule.command && !rules.sameContext(custom[i], rule) {
      assert (custom + more)[i] == custom[i];
    }
  }

  lemma NoneInTheWay(rules: Rules, config: seq<Rule>, rule: Rule)
    requires forall r :: r in config ==> r.command != rule.command && !rules.sameContext(r, rule)
    ensures Missing(rules, config, rule)
  {
    forall i | 0 <= i < |config| ensures config[i].command != rule.command && !rules.sameContext(config[i], rule) {
      assert config[i] in config;
    }
  }

  lemma HasOwnCommand(config: seq<Rule>, rule: Rule)
    requires rule in config
    ensures HasCommand(config, rule.command)
  {
  }

  lemma {:induction false} FilterDropsAll<T(!new)>(s: seq<T>, keep: T -> bool)
    requires forall x :: x in s ==> !keep(x)
    ensures Filter(s, keep) == []
  {
    if s != [] {
      var front, last := s[..|s| - 1], s[|s| - 1];
      assert s == front + [last];
      FilterDropsAll(front, keep);
    }
  }

  lemma NothingMissing(rules: Rules, custom: seq<Rule>)
    requires forall d :: d in rules.defaults ==> !Missing(rules, custom, d)
    ensures MissingDefaults(rules, custom) == []
  {
    FilterDropsAll(rules.defaults, MissingFrom(rules, custom));
  }

  /** Once the missing defaults are added, none is missing. */
  lemma AddingMissingIsEnough(rules: Rules, custom: seq<Rule>)
    ensures MissingDefaults(rules, custom + MissingDefaults(rules, custom)) == []
  {
    var missing := MissingDefaults(rules, custom);
    FilterMembers(rules.defaults, MissingFrom(rules, custom));
    forall d | d in rules.defaults ensures !Missing(rules, custom + missing, d) {
      if Missing(rules, custom, d) {
        HasOwnCommand(custom + missing, d);
      } else if Missing(rules, custom + missing, d) {
        MissingIsAntitone(rules, custom, missing, d);
      }
    }
    NothingMissing(rules, custom + missing);
  }

  lemma SyncOfComplete(rules: Rules, config: seq<Rule>)
    requires MissingDefaults(rules, config) == []
    ensures Synced(rules, Written(config)) == Written(config)
  {
    ReadWritten(rules, config);
    if Issues(rules, Written(config)) == [] {
      ReadAccepted(rules, config);
    }
  }

  /** A second sync leaves the file as the first wrote it. */
  ghost predicate SyncStable(rules: Rules, s: State) {
    var once := Apply(rules, s, SyncDefaults);
    Apply(rules, once, SyncDefaults).file == once.file
  }

  /** A startup sync writes the defaults to a missing file, and leaves a malformed file alone and
      one with issues; either way the cache is dropped. */
  lemma SyncOfOddFiles(rules: Rules, s: State)
    requires s.file.Entries? ==> Issues(rules, s.file) != []
    ensures var after := Apply(rules, s, SyncDefaults);
      && (s.file.Absent? && |rules.defaults| <= MAX_COUNT ==> after == State(Written(rules.defaults), None))
      && (s.file.Absent? && |rules.defaults| > MAX_COUNT ==> after == s)
      && (!s.file.Absent? ==> after == State(s.file, None))
  {
  }

  /** To a readable file it adds, behind what is there, the defaults whose command and context
      nothing in the file has; the last 256 of all stay. */
  lemma SyncAdds(rules: Rules, s: State)
    requires s.file.Entries? && Issues(rules, s.file) == []
    ensures var after, custom := Apply(rules, s, SyncDefaults), CustomRules(rules, s.file);
      var missing := MissingDefaults(rules, custom);
      && after == State(if missing == [] then s.file else Written(LastMax(custom + missing)), None)
      && (forall d :: d in missing ==> d in rules.defaults)
      && (forall d :: d in missing ==> forall i :: 0 <= i < |custom| ==> custom[i].command != d.command && !rules.sameContext(custom[i], d))
      && (forall d :: d in rules.defaults && d !in missing
            ==> exists i :: 0 <= i < |custom| && (custom[i].command == d.command || rules.sameContext(custom[i], d)))
  {
    FilterMembers(rules.defaults, MissingFrom(rules, CustomRules(rules, s.file)));
  }

  /** The file as a first sync of these entries writes it. */
  ghost function FirstSynced(rules: Rules, custom: seq<Rule>): seq<Rule> {
    LastMax(custom + MissingDefaults(rules, custom))
  }

  lemma SyncOfAbsent(rules: Rules, s: State)
    requires s.file.Absent?
    ensures SyncStable(rules, s)
  {
    forall d | d in rules.defaults ensures !Missing(rules, rules.defaults, d) {
      HasOwnCommand(rules.defaults, d);
    }
    NothingMissing(rules, rules.defaults);
    SyncOfComplete(rules, rules.defaults);
  }

  lemma SyncOfRejected(rules: Rules, config: seq<Rule>)
    requires !forall r :: r in config ==> Accepted(rules, r)
    ensures Synced(rules, Written(config)) == Written(config)
  {
    ReadWritten(rules, config);
  }

  lemma WrittenLast(config: seq<Rule>)
    requires config != []
    ensures var entries := Written(config).entries; entries[|entries| - 1] == Some(config[|config| - 1])
  {
  }

  lemma LastOfFirstSynced(rules: Rules, custom: seq<Rule>)
    requires MissingDefaults(rules, custom) != []
    ensures var missing := MissingDefaults(rules, custom);
      var kept := FirstSynced(rules, custom);
      kept != [] && kept[|kept| - 1] == missing[|missing| - 1]
  {
  }

  /** A list with a missing default is not written back as it is: what comes last is new. */
  lemma SyncOfIncomplete(rules: Rules, config: seq<Rule>)
    requires forall r :: r in config ==> Accepted(rules, r)
    requires MissingDefaults(rules, config) != []
    ensures Synced(rules, Written(config)) == Written(FirstSynced(rules, config)) != Written(config)
  {
    var missing := MissingDefaults(rules, config);
    ReadAccepted(rules, config);
    LastOfFirstSynced(rules, config);
    WrittenLast(FirstSynced(rules, config));
    FilterMembers(rules.defaults, MissingFrom(rules, config));
    var last := missing[|missing| - 1];
    assert last in missing;
    if config != [] {
      WrittenLast(config);
      if config[|config| - 1] == last {
        HasOwnCommand(config, last);
        assert false;
      }
    }
  }

  /** A second startup sync changes the file exactly when the first wrote a list that reads
      back whole and in which a default is missing again. */
  lemma SyncStableIff(rules: Rules, s: State)
    ensures SyncStable(rules, s)
       <==> (s.file.Entries? && Issues(rules, s.file) == []
             ==> var custom := CustomRules(rules, s.file);
                 var kept := FirstSynced(rules, custom);
                 || MissingDefaults(rules, custom) == []
                 || MissingDefaults(rules, kept) == []
                 || exists r :: r in kept && !Accepted(rules, r))
  {
    var custom := CustomRules(rules, s.file);
    if s.file.Absent? {
      SyncOfAbsent(rules, s);
    } else if Issues(rules, s.file) == [] && MissingDefaults(rules, custom) != [] {
      var kept := FirstSynced(rules, custom);
      assert Synced(rules, s.file) == Written(kept);
      if exists r :: r in kept && !Accepted(rules, r) {
        SyncOfRejected(rules, kept);
      } else if MissingDefaults(rules, kept) == [] {
        SyncOfComplete(rules, kept);
      } else {
        SyncOfIncomplete(rules, kept);
      }
    }
  }

  /** A second startup sync changes nothing, unless the first had to drop rules. */
  lemma SyncIsIdempotent(rules: Rules, s: State)
    requires var custom := CustomRules(rules, s.file);
      s.file.Entries? ==> |custom| + |MissingDefaults(rules, custom)| <= MAX_COUNT
    ensures SyncStable(rules, s)
  {
    SyncStableIff(rules, s);
    AddingMissingIsEnough(rules, CustomRules(rules, s.file));
  }
}
