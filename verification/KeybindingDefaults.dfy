/**
 * The default keybindings (packages/shared/src/keybindings.ts:21-44), and inputs on which the
 * operations of `KeybindingConfig` fall short under the rules of the source.
 */
module KeybindingDefaults {
  import opened Prelude
  import opened Text
  import opened KeybindingConfig
  import Shortcuts = ShortcutEncoding
  import Resolution = ShortcutResolution
  import When = WhenExpression

  function RuleOf(key: string, command: string): Rule {
    Rule.Rule(key, command, None)
  }

  function RuleWhen(key: string, command: string, condition: string): Rule {
    Rule.Rule(key, command, Some(condition))
  }

  function NamedDefaults(): seq<Rule> {
    [RuleOf("mod+j", "terminal.toggle"),
     RuleWhen("mod+d", "terminal.split", "terminalFocus"),
     RuleWhen("mod+n", "terminal.new", "terminalFocus"),
     RuleWhen("mod+w", "terminal.close", "terminalFocus"),
     RuleWhen("mod+d", "diff.toggle", "!terminalFocus"),
     RuleWhen("mod+k", "commandPalette.toggle", "!terminalFocus"),
     RuleWhen("mod+n", "chat.new", "!terminalFocus"),
     RuleWhen("mod+shift+o", "chat.new", "!terminalFocus"),
     RuleWhen("mod+shift+n", "chat.newLocal", "!terminalFocus"),
     RuleWhen("mod+shift+m", "modelPicker.toggle", "!terminalFocus"),
     RuleOf("mod+o", "editor.openFavorite"),
     RuleOf("mod+shift+[", "thread.previous"),
     RuleOf("mod+shift+]", "thread.next")]
  }

  function ThreadJump(i: nat): Rule {
    RuleOf("mod+" + Digits(i + 1), "thread.jump." + Digits(i + 1))
  }

  function ModelJump(i: nat): Rule {
    RuleWhen("mod+" + Digits(i + 1), "modelPicker.jump." + Digits(i + 1), "modelPickerOpen")
  }

  function DefaultKeybindings(): seq<Rule> {
    NamedDefaults() + seq(9, i requires 0 <= i => ThreadJump(i)) + seq(9, i requires 0 <= i => ModelJump(i))
  }

  // ----- keys of the forms "mod+x" and "mod+shift+x" -----

  function ModKey(shift: bool, c: char): Shortcuts.Shortcut {
    Shortcuts.Shortcut([c], false, false, shift, false, true)
  }

  function ModText(shift: bool, c: char): string {
    (if shift then "mod+shift+" else "mod+") + [c]
  }

  /** A character that stands for itself as a key. */
  predicate PlainKey(c: char) {
    !('A' <= c <= 'Z') && !IsSpace(c) && c != '+'
  }

  lemma PlainKeyIsOk(c: char)
    requires PlainKey(c)
    ensures Shortcuts.KeyOk([c])
  {
    assert |[c]| == 1;
  }

  lemma JoinTwo(a: string, b: string)
    ensures Join('+', [a, b]) == a + ['+'] + b
  {
    assert [a, b][1..] == [b];
  }

  lemma JoinThree(a: string, b: string, c: string)
    ensures Join('+', [a, b, c]) == a + ['+'] + (b + ['+'] + c)
  {
    assert [a, b, c][1..] == [b, c];
    JoinTwo(b, c);
  }

  lemma EncodesModKey(shift: bool, c: char)
    requires PlainKey(c)
    ensures Shortcuts.Encode(ModKey(shift, c)) == Some(ModText(shift, c))
  {
    PlainKeyIsOk(c);
    Shortcuts.OkKeysAreEncodable(ModKey(shift, c));
    assert [c][0] == c && " "[0] == ' ';
    var words := Shortcuts.ModifierWords(ModKey(shift, c)) + [Shortcuts.KeyWord([c])];
    if shift {
      assert words == ["mod", "shift", [c]];
      JoinThree("mod", "shift", [c]);
      assert "mod" + ['+'] + ("shift" + ['+'] + [c]) == "mod+shift+" + [c];
    } else {
      assert words == ["mod", [c]];
      JoinTwo("mod", [c]);
      assert "mod" + ['+'] + [c] == "mod+" + [c];
    }
  }

  lemma ReadsModKey(shift: bool, c: char)
    requires PlainKey(c)
    ensures Shortcuts.Parse(ModText(shift, c)) == Some(ModKey(shift, c))
  {
    PlainKeyIsOk(c);
    EncodesModKey(shift, c);
    Shortcuts.ParsePrinted(ModKey(shift, c));
  }

  function ModLetter(c: char): Shortcuts.Shortcut {
    ModKey(false, c)
  }

  lemma ReadsModLetter(c: char)
    requires 'a' <= c <= 'z'
    ensures Shortcuts.Parse("mod+" + [c]) == Some(ModLetter(c))
  {
    ReadsModKey(false, c);
  }

  /** Rules of such keys, without a condition, share a context exactly when they share the letter. */
  lemma LettersShareContextIff(a: char, command: string, b: char, command': string)
    requires 'a' <= a <= 'z' && 'a' <= b <= 'z'
    ensures Shortcuts.HasSameShortcutContext(RuleOf("mod+" + [a], command), RuleOf("mod+" + [b], command')) <==> a == b
  {
    ReadsModLetter(a);
    ReadsModLetter(b);
    Shortcuts.SameContextIff(RuleOf("mod+" + [a], command), RuleOf("mod+" + [b], command'));
    assert [a] == [b] <==> a == b by {
      assert [a][0] == a && [b][0] == b;
    }
  }

  // ----- a startup sync that is not stable -----

  /** A full file whose oldest rule holds the keys of `d1`, and in which of the defaults only
      `d1` and `d2` are missing: adding `d2` drops that rule, and then `d1` is added too. */
  lemma DroppedRuleFreesDefault(rules: Rules, oldest: Rule, rest: seq<Rule>, d1: Rule, d2: Rule)
    requires |rest| == MAX_COUNT - 1 && d1 in rules.defaults && d2 in rules.defaults
    requires forall r :: r in [oldest] + rest + [d2] ==> Accepted(rules, r)
    requires rules.sameContext(oldest, d1) && Missing(rules, [oldest] + rest, d2)
    requires forall d :: d in rules.defaults ==> d == d1 || d == d2 || HasCommand(rest, d.command)
    requires forall r :: r in rest + [d2] ==> r.command != d1.command && !rules.sameContext(r, d1)
    ensures !SyncStable(rules, State(Written([oldest] + rest), None))
  {
    var custom := [oldest] + rest;
    var missing, kept := MissingDefaults(rules, custom), FirstSynced(rules, custom);
    OnlyOneMissing(rules, oldest, rest, d1, d2);
    KeptRules(oldest, rest, missing, d2);
    assert kept == ([oldest] + rest + missing)[|missing|..];
    forall r | r in custom ensures Accepted(rules, r) {
      assert r in custom + [d2];
    }
    forall r | r in kept ensures Accepted(rules, r) {
      assert r in rest + [d2];
      assert r in custom + [d2];
    }
    ReadAccepted(rules, custom);
    NoneInTheWay(rules, kept, d1);
    FilterMembers(rules.defaults, MissingFrom(rules, kept));
    assert d1 in MissingDefaults(rules, kept);
    SyncStableIff(rules, State(Written(custom), None));
  }

  lemma KeptRules(oldest: Rule, rest: seq<Rule>, missing: seq<Rule>, d2: Rule)
    requires |rest| == MAX_COUNT - 1 && missing != [] && forall d :: d in missing ==> d == d2
    ensures forall r :: r in ([oldest] + rest + missing)[|missing|..] ==> r in rest + [d2]
  {
    var all := [oldest] + rest + missing;
    forall k | |missing| <= k < |all| ensures all[k] in rest + [d2] {
      if k < MAX_COUNT {
        assert all[k] == rest[k - 1];
      } else {
        assert all[k] == missing[k - MAX_COUNT];
        assert all[k] in missing && d2 == (rest + [d2])[MAX_COUNT - 1];
      }
    }
  }

  lemma OnlyOneMissing(rules: Rules, oldest: Rule, rest: seq<Rule>, d1: Rule, d2: Rule)
    requires d2 in rules.defaults && rules.sameContext(oldest, d1) && Missing(rules, [oldest] + rest, d2)
    requires forall d :: d in rules.defaults ==> d == d1 || d == d2 || HasCommand(rest, d.command)
    ensures var missing := MissingDefaults(rules, [oldest] + rest);
      missing != [] && forall d :: d in missing ==> d == d2
  {
    var custom := [oldest] + rest;
    FilterMembers(rules.defaults, MissingFrom(rules, custom));
    assert d2 in MissingDefaults(rules, custom);
    assert custom[0] == oldest;
    forall d | d in rules.defaults && HasCommand(rest, d.command) ensures !Missing(rules, custom, d) {
      var i :| 0 <= i < |rest| && rest[i].command == d.command;
      assert custom[i + 1].command == d.command;
    }
  }

  const TOGGLE := RuleOf("mod+j", "terminal.toggle")
  const OPEN := RuleOf("mod+o", "editor.openFavorite")
  const OLDEST := RuleOf("mod+j", "script.z.run")

  /** The command of the `i`-th default, but for the two, under a key of its own. */
  ghost function Filler(defaults: seq<Rule>, i: nat): Rule {
    RuleOf("mod+z",
           if i < |defaults| && defaults[i].command != TOGGLE.command && defaults[i].command != OPEN.command
           then defaults[i].command else OLDEST.command)
  }

  ghost function Full(defaults: seq<Rule>): seq<Rule> {
    seq(MAX_COUNT - 1, i requires 0 <= i => Filler(defaults, i))
  }

  lemma NamedCommands(d: Rule)
    requires d in NamedDefaults()
    ensures d.command == TOGGLE.command ==> d == TOGGLE
    ensures d.command == OPEN.command ==> d == OPEN
  {
    assert |TOGGLE.command| == 15 && TOGGLE.command[1] == 'e' && |OPEN.command| == 19;
    assert "thread.previous"[1] == 'h';
  }

  lemma JumpCommands(d: Rule, i: nat)
    requires d == ThreadJump(i) || d == ModelJump(i)
    ensures d.command != TOGGLE.command && d.command != OPEN.command
  {
    assert ("thread.jump." + Digits(i + 1))[1] == 'h' && ("modelPicker.jump." + Digits(i + 1))[0] == 'm';
    assert TOGGLE.command[1] == 'e' && OPEN.command[1] == 'd';
    assert TOGGLE.command[0] == 't' && OPEN.command[0] == 'e';
  }

  lemma DefaultCommands(d: Rule)
    requires d in DefaultKeybindings()
    ensures d.command == TOGGLE.command ==> d == TOGGLE
    ensures d.command == OPEN.command ==> d == OPEN
  {
    if d in NamedDefaults() {
      NamedCommands(d);
    } else {
      var threads, models := seq(9, i requires 0 <= i => ThreadJump(i)), seq(9, i requires 0 <= i => ModelJump(i));
      assert d in threads || d in models;
      var i: nat :| i < 9 && (threads[i] == d || models[i] == d);
      JumpCommands(d, i);
    }
  }

  // A schema of compiled rules that takes "mod" and a letter.
  ghost predicate TakesLetters(schema: Shortcuts.ResolvedRule -> bool) {
    forall command: string, c: char :: 'a' <= c <= 'z'
      ==> schema(Shortcuts.ResolvedRule.ResolvedRule(command, ModLetter(c), None))
  }

  lemma LetterAccepted(defaults: seq<Rule>, schema: Shortcuts.ResolvedRule -> bool, c: char, command: string)
    requires TakesLetters(schema) && 'a' <= c <= 'z'
    ensures Accepted(SourceRules(defaults, schema), RuleOf("mod+" + [c], command))
  {
    ReadsModLetter(c);
    assert Shortcuts.Compile(RuleOf("mod+" + [c], command))
        == Some(Shortcuts.ResolvedRule.ResolvedRule(command, ModLetter(c), None));
  }

  lemma FullMembers(defaults: seq<Rule>, r: Rule)
    requires r in Full(defaults)
    ensures r == RuleOf("mod+z", r.command) && r.command != TOGGLE.command && r.command != OPEN.command
  {
    assert OLDEST.command[0] == 's' && TOGGLE.command[0] == 't' && OPEN.command[0] == 'e';
  }

  lemma FullHasTheOthers(defaults: seq<Rule>, d: Rule)
    requires d in defaults && |defaults| < MAX_COUNT && d.command != TOGGLE.command && d.command != OPEN.command
    ensures HasCommand(Full(defaults), d.command)
  {
    var i :| 0 <= i < |defaults| && defaults[i] == d;
    assert Full(defaults)[i].command == d.command;
  }

  lemma LetterKeys()
    ensures TOGGLE.key == "mod+" + ['j'] && OLDEST.key == "mod+" + ['j'] && OPEN.key == "mod+" + ['o'] && "mod+z" == "mod+" + ['z']
  {
  }

  lemma FullContexts(rules: Rules, r: Rule)
    requires rules.sameContext == Shortcuts.HasSameShortcutContext && r == RuleOf("mod+z", r.command)
    ensures !rules.sameContext(r, TOGGLE) && !rules.sameContext(r, OPEN)
  {
    LetterKeys();
    LettersShareContextIff('z', r.command, 'j', TOGGLE.command);
    LettersShareContextIff('z', r.command, 'o', OPEN.command);
  }

  lemma OldestContexts(rules: Rules)
    requires rules.sameContext == Shortcuts.HasSameShortcutContext
    ensures rules.sameContext(OLDEST, TOGGLE) && !rules.sameContext(OLDEST, OPEN) && !rules.sameContext(OPEN, TOGGLE)
    ensures OLDEST.command != OPEN.command && OPEN.command != TOGGLE.command
  {
    LetterKeys();
    LettersShareContextIff('j', OLDEST.command, 'j', TOGGLE.command);
    LettersShareContextIff('j', OLDEST.command, 'o', OPEN.command);
    LettersShareContextIff('o', OPEN.command, 'j', TOGGLE.command);
    assert OLDEST.command[0] == 's' && TOGGLE.command[0] == 't' && OPEN.command[0] == 'e';
  }

  lemma OpenIsMissing(rules: Rules, defaults: seq<Rule>)
    requires rules.sameContext == Shortcuts.HasSameShortcutContext
    ensures Missing(rules, [OLDEST] + Full(defaults), OPEN)
  {
    forall r | r in [OLDEST] + Full(defaults) ensures r.command != OPEN.command && !rules.sameContext(r, OPEN) {
      OldestContexts(rules);
      if r in Full(defaults) {
        FullMembers(defaults, r);
        FullContexts(rules, r);
      }
    }
    NoneInTheWay(rules, [OLDEST] + Full(defaults), OPEN);
  }

  lemma DefaultsCovered(defaults: seq<Rule>)
    requires defaults == DefaultKeybindings()
    ensures forall d :: d in defaults ==> d == TOGGLE || d == OPEN || HasCommand(Full(defaults), d.command)
  {
    forall d | d in defaults && d != TOGGLE && d != OPEN ensures HasCommand(Full(defaults), d.command) {
      DefaultCommands(d);
      FullHasTheOthers(defaults, d);
    }
  }

  lemma ToggleIsFree(rules: Rules, defaults: seq<Rule>)
    requires rules.sameContext == Shortcuts.HasSameShortcutContext
    ensures forall r :: r in Full(defaults) + [OPEN] ==> r.command != TOGGLE.command && !rules.sameContext(r, TOGGLE)
  {
    OldestContexts(rules);
    forall r | r in Full(defaults) ensures r.command != TOGGLE.command && !rules.sameContext(r, TOGGLE) {
      FullMembers(defaults, r);
      FullContexts(rules, r);
    }
  }

  lemma FullAccepted(rules: Rules, defaults: seq<Rule>)
    requires forall command: string, c: char :: 'a' <= c <= 'z' ==> Accepted(rules, RuleOf("mod+" + [c], command))
    ensures forall r :: r in [OLDEST] + Full(defaults) + [OPEN] ==> Accepted(rules, r)
  {
    LetterKeys();
    forall r | r in Full(defaults) ensures Accepted(rules, r) {
      FullMembers(defaults, r);
    }
  }

  /** Under the rules of the source: the oldest of 256 rules holds the keys of the first
      default. The first sync drops it for another default, and the second adds the first. */
  lemma TruncatingSyncIsNotIdempotent(schema: Shortcuts.ResolvedRule -> bool)
    requires TakesLetters(schema)
    ensures var defaults := DefaultKeybindings();
      !SyncStable(SourceRules(defaults, schema), State(Written([OLDEST] + Full(defaults)), None))
  {
    var defaults := DefaultKeybindings();
    var rules := SourceRules(defaults, schema);
    forall command: string, c: char | 'a' <= c <= 'z' ensures Accepted(rules, RuleOf("mod+" + [c], command)) {
      LetterAccepted(defaults, schema, c, command);
    }
    FullAccepted(rules, defaults);
    OldestContexts(rules);
    OpenIsMissing(rules, defaults);
    TwoDefaultsAreThere();
    DefaultsCovered(defaults);
    ToggleIsFree(rules, defaults);
    DroppedRuleFreesDefault(rules, OLDEST, Full(defaults), TOGGLE, OPEN);
  }

  lemma TwoDefaultsAreThere()
    ensures TOGGLE in DefaultKeybindings() && OPEN in DefaultKeybindings()
  {
    assert DefaultKeybindings()[0] == TOGGLE && DefaultKeybindings()[10] == OPEN;
  }

  // ----- an upsert that the file does not read back -----

  /** A key string of a modifier alone names no key. */
  lemma ModifierAloneIsUnreadable()
    ensures Shortcuts.Parse("mod").None?
  {
    assert Join('+', ["mod"]) == "mod" && ["mod"][1..] == [];
    Shortcuts.LiteralWordsArePlain();
    SplitJoin('+', ["mod"]);
    Shortcuts.LowerIsFixed("mod");
    Shortcuts.PlainPiecesTrim(["mod"]);
    Shortcuts.FoldsToTokens([], "mod");
    assert [] + ["mod"] == ["mod"];
    var s := Shortcuts.Shortcut("", false, false, false, false, true);
    assert Shortcuts.ModifierWords(s) == ["mod"];
    Shortcuts.ScanModifierWords(s);
  }

  /** Upserting a rule whose key cannot be read leaves a cache without issues over a file that
      has one. */
  lemma UnreadableUpsertIsIncoherent(defaults: seq<Rule>, schema: Shortcuts.ResolvedRule -> bool)
    ensures var rules := SourceRules(defaults, schema);
      !Coherent(rules, Apply(rules, State(Absent, None), Upsert(RuleOf("mod", "script.z.run"), None)))
  {
    ModifierAloneIsUnreadable();
    UpsertCoherentIff(SourceRules(defaults, schema), State(Absent, None), RuleOf("mod", "script.z.run"), None);
  }

  // ----- what the defaults resolve to -----

  /** The rule is one of the forms above, and its key. */
  ghost predicate IsModRule(r: Rule, shift: bool, c: char) {
    r.key == ModText(shift, c) && PlainKey(c)
  }

  lemma NamedKeys(r: Rule)
    requires r in NamedDefaults()
    ensures IsModRule(r, |r.key| > 5, r.key[|r.key| - 1])
  {
  }

  lemma JumpKeys(j: nat)
    requires |NamedDefaults()| <= j < |DefaultKeybindings()|
    ensures exists c: char :: IsModRule(DefaultKeybindings()[j], false, c) && IsDigit(c)
  {
    var n := j - |NamedDefaults()|;
    var i := if n < 9 then n else n - 9;
    var c := ('0' as nat + i + 1) as char;
    assert DefaultKeybindings()[j] == if n < 9 then ThreadJump(i) else ModelJump(i);
    assert Digits(i + 1) == [c];
    assert IsModRule(DefaultKeybindings()[j], false, c);
  }

  /** The rule compiles to a binding that is active and matches. */
  ghost predicate Hits(rules: Rules, r: Rule, event: Resolution.Event, setting: Resolution.Setting) {
    && rules.compile(r).Some?
    && Resolution.Active(rules.compile(r).value, setting)
    && Resolution.MatchesShortcut(event, rules.compile(r).value.shortcut, setting.mac)
  }

  lemma {:induction false} LastHitResolves(rules: Rules, config: seq<Rule>, k: nat, event: Resolution.Event, setting: Resolution.Setting)
    requires k < |config| && Hits(rules, config[k], event, setting)
    requires forall j :: k < j < |config| ==> !Hits(rules, config[j], event, setting)
    ensures Resolution.Resolve(CompileEach(rules, config), event, setting) == Some(rules.compile(config[k]).value.command)
    decreases |config|
  {
    var front, last := config[..|config| - 1], config[|config| - 1];
    if rules.compile(last).Some? {
      Resolution.ResolvePush(CompileEach(rules, front), rules.compile(last).value, event, setting);
    } else {
      assert CompileEach(rules, front) + [] == CompileEach(rules, front);
    }
    if k < |front| {
      LastHitResolves(rules, front, k, event, setting);
    }
  }

  lemma {:induction false} CompileEachShorter(rules: Rules, config: seq<Rule>)
    ensures |CompileEach(rules, config)| <= |config|
  {
    if config != [] {
      CompileEachShorter(rules, config[..|config| - 1]);
    }
  }

  /** "d" with the platform's command key: Meta on a Mac, Ctrl elsewhere. */
  function PressD(mac: bool): Resolution.Event {
    Resolution.Event.Event("d", None, mac, !mac, false, false)
  }

  lemma OnlyModDMatches(mac: bool, shift: bool, c: char)
    ensures Resolution.MatchesShortcut(PressD(mac), ModKey(shift, c), mac) <==> !shift && c == 'd'
  {
    Shortcuts.LowerIsFixed("d");
    assert Resolution.ResolveEventKeys(PressD(mac)) == {"d"};
    assert [c] == "d" <==> c == 'd' by {
      assert [c][0] == c && "d"[0] == 'd';
    }
  }

  lemma OtherKeysMiss(rules: Rules, r: Rule, mac: bool, setting: Resolution.Setting, shift: bool, c: char)
    requires rules.compile == Shortcuts.Compile && setting.mac == mac && IsModRule(r, shift, c) && (shift || c != 'd')
    ensures !Hits(rules, r, PressD(mac), setting)
  {
    ReadsModKey(shift, c);
    OnlyModDMatches(mac, shift, c);
  }

  ghost predicate Focused(given: Resolution.Context) {
    "terminalFocus" in given && given["terminalFocus"]
  }

  lemma ModDRule(rules: Rules, mac: bool, given: Resolution.Context, command: string, condition: string, node: When.Node)
    requires rules.compile == Shortcuts.Compile && When.Parse(condition) == Some(node)
    ensures var r := RuleWhen("mod+d", command, condition); var binding := Shortcuts.ResolvedRule.ResolvedRule(command, ModKey(false, 'd'), Some(node));
      && rules.compile(r) == Some(binding)
      && (Hits(rules, r, PressD(mac), Resolution.SettingOf(mac, given)) <==> Resolution.Active(binding, Resolution.SettingOf(mac, given)))
  {
    assert "mod+d" == ModText(false, 'd');
    ReadsModKey(false, 'd');
    OnlyModDMatches(mac, false, 'd');
  }

  lemma ModDRules(rules: Rules, mac: bool, given: Resolution.Context)
    requires rules.compile == Shortcuts.Compile
    ensures var setting := Resolution.SettingOf(mac, given);
      && (Hits(rules, SPLIT, PressD(mac), setting) <==> Focused(given))
      && (Hits(rules, DIFF, PressD(mac), setting) <==> !Focused(given))
      && rules.compile(SPLIT).Some? && rules.compile(SPLIT).value.command == "terminal.split"
      && rules.compile(DIFF).Some? && rules.compile(DIFF).value.command == "diff.toggle"
  {
    var name, shortcut := "terminalFocus", ModKey(false, 'd');
    var focus := When.Identifier(name);
    assert "!" + name == "!terminalFocus";
    When.PlainConditionsRead(name);
    ModDRule(rules, mac, given, "terminal.split", "terminalFocus", focus);
    ModDRule(rules, mac, given, "diff.toggle", "!terminalFocus", When.Not(focus));
    FocusMeaning(mac, given, Shortcuts.ResolvedRule.ResolvedRule("terminal.split", shortcut, None));
    FocusMeaning(mac, given, Shortcuts.ResolvedRule.ResolvedRule("diff.toggle", shortcut, None));
  }

  lemma FocusMeaning(mac: bool, given: Resolution.Context, binding: Shortcuts.ResolvedRule)
    ensures var setting, focus := Resolution.SettingOf(mac, given), When.Identifier("terminalFocus");
      && (Resolution.Active(binding.(condition := Some(focus)), setting) <==> Focused(given))
      && (Resolution.Active(binding.(condition := Some(When.Not(focus))), setting) <==> !Focused(given))
  {
    var setting := Resolution.SettingOf(mac, given);
    assert "terminalFocus" in setting.context;
    assert |"terminalFocus"| == 13;
    Resolution.ConditionMeaning(binding, When.Identifier("terminalFocus"), When.Identifier(""), "terminalFocus", setting);
  }

  const SPLIT := RuleWhen("mod+d", "terminal.split", "terminalFocus")
  const DIFF := RuleWhen("mod+d", "diff.toggle", "!terminalFocus")

  /** Some other key than "mod+d". */
  ghost predicate OtherKey(r: Rule) {
    exists shift: bool, c: char :: IsModRule(r, shift, c) && (shift || c != 'd')
  }

  lemma NamedOthers(j: nat)
    requires j < |NamedDefaults()| && j != 1 && j != 4
    ensures OtherKey(NamedDefaults()[j])
  {
    var r := NamedDefaults()[j];
    NamedKeys(r);
    assert |r.key| > 5 || r.key[|r.key| - 1] != 'd';
  }

  lemma DefaultsAt(defaults: seq<Rule>)
    requires defaults == DefaultKeybindings()
    ensures |defaults| == 31 && defaults[1] == SPLIT && defaults[4] == DIFF
    ensures forall j :: 0 <= j < 31 && j != 1 && j != 4 ==> OtherKey(defaults[j])
  {
    assert defaults[1] == NamedDefaults()[1] && defaults[4] == NamedDefaults()[4];
    forall j | 0 <= j < 31 && j != 1 && j != 4 ensures OtherKey(defaults[j]) {
      if j < 13 {
        NamedOthers(j);
        assert defaults[j] == NamedDefaults()[j];
      } else {
        JumpKeys(j);
        var c: char :| IsModRule(defaults[j], false, c) && IsDigit(c);
      }
    }
  }

  lemma OthersMiss(rules: Rules, r: Rule, mac: bool, given: Resolution.Context)
    requires rules.compile == Shortcuts.Compile && OtherKey(r)
    ensures !Hits(rules, r, PressD(mac), Resolution.SettingOf(mac, given))
  {
    var shift: bool, c: char :| IsModRule(r, shift, c) && (shift || c != 'd');
    OtherKeysMiss(rules, r, mac, Resolution.SettingOf(mac, given), shift, c);
  }

  /** The default bindings, without a file: "mod+d" splits the terminal exactly under terminal
      focus, and shows the diff otherwise. */
  lemma DefaultModD(schema: Shortcuts.ResolvedRule -> bool, mac: bool, given: Resolution.Context)
    ensures var bindings := Load(SourceRules(DefaultKeybindings(), schema), Absent).bindings;
      Resolution.Resolve(bindings, PressD(mac), Resolution.SettingOf(mac, given))
      == Some(if Focused(given) then "terminal.split" else "diff.toggle")
  {
    var defaults := DefaultKeybindings();
    DefaultsAt(defaults);
    ListResolvesModD(SourceRules(defaults, schema), defaults, mac, given);
    NoFileGivesDefaults(SourceRules(defaults, schema));
  }

  lemma NoFileGivesDefaults(rules: Rules)
    requires |rules.defaults| <= MAX_COUNT
    ensures Load(rules, Absent).bindings == CompileEach(rules, rules.defaults)
  {
    CompileEachShorter(rules, rules.defaults);
  }

  lemma ListResolvesModD(rules: Rules, defaults: seq<Rule>, mac: bool, given: Resolution.Context)
    requires rules.compile == Shortcuts.Compile
    requires |defaults| == 31 && defaults[1] == SPLIT && defaults[4] == DIFF
    requires forall j :: 0 <= j < 31 && j != 1 && j != 4 ==> OtherKey(defaults[j])
    ensures Resolution.Resolve(CompileEach(rules, defaults), PressD(mac), Resolution.SettingOf(mac, given))
         == Some(if Focused(given) then "terminal.split" else "diff.toggle")
  {
    var setting := Resolution.SettingOf(mac, given);
    var k := if Focused(given) then 1 else 4;
    ModDRules(rules, mac, given);
    forall j | k < j < |defaults| ensures !Hits(rules, defaults[j], PressD(mac), setting) {
      if j != 4 {
        OthersMiss(rules, defaults[j], mac, given);
      }
    }
    LastHitResolves(rules, defaults, k, PressD(mac), setting);
  }
}
