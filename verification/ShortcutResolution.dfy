/**
 * Matching key events against the resolved keybindings, and the search for the shortcut under
 * which a command is reachable (apps/web/src/keybindings.ts:50-209).
 */
module ShortcutResolution {
  import opened Prelude
  import opened ShortcutEncoding
  import When = WhenExpression

  // A key event; the physical key code is optional.
  datatype Event = Event(key: string, code: Option<string>, metaKey: bool, ctrlKey: bool, shiftKey: bool, altKey: bool)

  type Context = map<string, bool>

  // The platform (whether it is a Mac) and the context that every search works under; names
  // that the context inherits count as true.
  datatype Setting = Setting(mac: bool, context: Context, inherited: set<string>)

  function ResolveContext(given: Context): Context {
    map["terminalFocus" := false, "terminalOpen" := false] + given
  }

  function SettingOf(mac: bool, given: Context): Setting {
    Setting(mac, ResolveContext(given), INHERITED_NAMES)
  }

  function NormalizeEventKey(key: string): string {
    var normalized := Lower(key);
    if normalized == "esc" then "escape" else normalized
  }

  /** The extra keys of a physical key: brackets and digits, whatever the layout types. */
  function CodeAliases(code: string): set<string> {
    if code == "BracketLeft" then {"["}
    else if code == "BracketRight" then {"]"}
    else if |code| == 6 && code[..5] == "Digit" && '0' <= code[5] <= '9' then {[code[5]]}
    else {}
  }

  function ResolveEventKeys(event: Event): set<string> {
    {NormalizeEventKey(event.key)} + (if event.code.Some? then CodeAliases(event.code.value) else {})
  }

  function ExpectedMeta(s: Shortcut, mac: bool): bool {
    s.metaKey || (s.modKey && mac)
  }

  function ExpectedCtrl(s: Shortcut, mac: bool): bool {
    s.ctrlKey || (s.modKey && !mac)
  }

  predicate MatchesShortcutModifiers(event: Event, s: Shortcut, mac: bool) {
    && event.metaKey == ExpectedMeta(s, mac)
    && event.ctrlKey == ExpectedCtrl(s, mac)
    && event.shiftKey == s.shiftKey
    && event.altKey == s.altKey
  }

  predicate MatchesShortcut(event: Event, s: Shortcut, mac: bool) {
    MatchesShortcutModifiers(event, s, mac) && s.key in ResolveEventKeys(event)
  }

  function EvaluateWhenNode(node: When.Node, context: Context, inherited: set<string>): bool {
    match node
    case Identifier(name) =>
      if name == "true" then true
      else if name == "false" then false
      else if name in context then context[name]
      else name in inherited
    case Not(n) => !EvaluateWhenNode(n, context, inherited)
    case And(l, r) => EvaluateWhenNode(l, context, inherited) && EvaluateWhenNode(r, context, inherited)
    case Or(l, r) => EvaluateWhenNode(l, context, inherited) || EvaluateWhenNode(r, context, inherited)
  }

  predicate Active(binding: ResolvedRule, setting: Setting) {
    binding.condition.Some? ==> EvaluateWhenNode(binding.condition.value, setting.context, setting.inherited)
  }

  /** What a condition means for a binding: names are looked up in the context, and the
      operators are those of logic. */
  lemma ConditionMeaning(binding: ResolvedRule, c: When.Node, d: When.Node, name: string, setting: Setting)
    ensures Active(binding.(condition := None), setting)
    ensures Active(binding.(condition := Some(When.Not(c))), setting) <==> !Active(binding.(condition := Some(c)), setting)
    ensures Active(binding.(condition := Some(When.And(c, d))), setting)
       <==> Active(binding.(condition := Some(c)), setting) && Active(binding.(condition := Some(d)), setting)
    ensures Active(binding.(condition := Some(When.Or(c, d))), setting)
       <==> Active(binding.(condition := Some(c)), setting) || Active(binding.(condition := Some(d)), setting)
    ensures name != "true" && name != "false" ==>
      (Active(binding.(condition := Some(When.Identifier(name))), setting)
       <==> if name in setting.context then setting.context[name] else name in setting.inherited)
    ensures Active(binding.(condition := Some(When.Identifier("true"))), setting)
    ensures !Active(binding.(condition := Some(When.Identifier("false"))), setting)
  {
    assert "true"[0] == 't' && "false"[0] == 'f';
  }

  /** The two names of the terminal are false unless given; any other name is as given. */
  lemma GivenContext(mac: bool, given: Context, name: string)
    ensures var setting := SettingOf(mac, given);
      && setting.mac == mac
      && (name in given ==> name in setting.context && setting.context[name] == given[name])
      && (name !in given && (name == "terminalFocus" || name == "terminalOpen") ==> name in setting.context && !setting.context[name])
      && (name !in given && name != "terminalFocus" && name != "terminalOpen" ==> name !in setting.context)
      && "constructor" in setting.inherited
  {
  }

  function Mark(on: bool, word: string): string {
    if on then word else ""
  }

  /** The text under which two shortcuts collide. */
  function ConflictKey(s: Shortcut, mac: bool): string {
    s.key + ['|'] + Mark(ExpectedMeta(s, mac), "meta") + ['|'] + Mark(ExpectedCtrl(s, mac), "ctrl")
    + ['|'] + Mark(s.shiftKey, "shift") + ['|'] + Mark(s.altKey, "alt")
  }

  /** Pressed by the same events that carry no key code. */
  predicate SameKeys(a: Shortcut, b: Shortcut, mac: bool) {
    && a.key == b.key
    && ExpectedMeta(a, mac) == ExpectedMeta(b, mac)
    && ExpectedCtrl(a, mac) == ExpectedCtrl(b, mac)
    && a.shiftKey == b.shiftKey
    && a.altKey == b.altKey
  }

  lemma PeelMark(word: string, a: string, on: bool, b: string, on': bool)
    requires word != "" && FreeOf(word, '|')
    requires a + ['|'] + Mark(on, word) == b + ['|'] + Mark(on', word)
    ensures a == b && on == on'
  {
    SplitAtLast('|', a, Mark(on, word), b, Mark(on', word));
  }

  /** The conflict text is unambiguous, whatever bars the key holds. */
  lemma ConflictKeyIff(a: Shortcut, b: Shortcut, mac: bool)
    ensures ConflictKey(a, mac) == ConflictKey(b, mac) <==> SameKeys(a, b, mac)
  {
    if ConflictKey(a, mac) == ConflictKey(b, mac) {
      var a1, b1 := a.key + ['|'] + Mark(ExpectedMeta(a, mac), "meta"), b.key + ['|'] + Mark(ExpectedMeta(b, mac), "meta");
      var a2, b2 := a1 + ['|'] + Mark(ExpectedCtrl(a, mac), "ctrl"), b1 + ['|'] + Mark(ExpectedCtrl(b, mac), "ctrl");
      var a3, b3 := a2 + ['|'] + Mark(a.shiftKey, "shift"), b2 + ['|'] + Mark(b.shiftKey, "shift");
      PeelMark("alt", a3, a.altKey, b3, b.altKey);
      PeelMark("shift", a2, a.shiftKey, b2, b.shiftKey);
      PeelMark("ctrl", a1, ExpectedCtrl(a, mac), b1, ExpectedCtrl(b, mac));
      PeelMark("meta", a.key, ExpectedMeta(a, mac), b.key, ExpectedMeta(b, mac));
    }
  }

  // ----- which command an event resolves to -----

  /** The last active binding that matches wins. */
  function ResolveBefore(bindings: seq<ResolvedRule>, n: nat, event: Event, setting: Setting): Option<string>
    requires n <= |bindings|
  {
    if n == 0 then None
    else if Active(bindings[n - 1], setting) && MatchesShortcut(event, bindings[n - 1].shortcut, setting.mac) then
      Some(bindings[n - 1].command)
    else ResolveBefore(bindings, n - 1, event, setting)
  }

  function Resolve(bindings: seq<ResolvedRule>, event: Event, setting: Setting): Option<string> {
    ResolveBefore(bindings, |bindings|, event, setting)
  }

  method ResolveShortcutCommand(bindings: seq<ResolvedRule>, event: Event, setting: Setting) returns (r: Option<string>)
    ensures r == Resolve(bindings, event, setting)
    ensures r.None? <==> forall i :: 0 <= i < |bindings| && Active(bindings[i], setting)
                           ==> !MatchesShortcut(event, bindings[i].shortcut, setting.mac)
  {
    var index := |bindings| - 1;
    while index >= 0
      invariant -1 <= index < |bindings|
      invariant Resolve(bindings, event, setting) == ResolveBefore(bindings, index + 1, event, setting)
      invariant forall i :: index < i < |bindings| && Active(bindings[i], setting)
                  ==> !MatchesShortcut(event, bindings[i].shortcut, setting.mac)
    {
      if Active(bindings[index], setting) && MatchesShortcut(event, bindings[index].shortcut, setting.mac) {
        return Some(bindings[index].command);
      }
      index := index - 1;
    }
    return None;
  }

  lemma LastBindingWins(bindings: seq<ResolvedRule>, event: Event, setting: Setting)
    requires bindings != [] && Active(bindings[|bindings| - 1], setting)
    requires MatchesShortcut(event, bindings[|bindings| - 1].shortcut, setting.mac)
    ensures Resolve(bindings, event, setting) == Some(bindings[|bindings| - 1].command)
  {
  }

  lemma {:induction false} ResolvePrefix(bindings: seq<ResolvedRule>, more: seq<ResolvedRule>, n: nat, event: Event, setting: Setting)
    requires n <= |bindings|
    ensures ResolveBefore(bindings + more, n, event, setting) == ResolveBefore(bindings, n, event, setting)
  {
    if n > 0 {
      assert (bindings + more)[n - 1] == bindings[n - 1];
      ResolvePrefix(bindings, more, n - 1, event, setting);
    }
  }

  /** A binding put behind the others wins where it is active and matches, and changes nothing
      elsewhere. */
  lemma ResolvePush(bindings: seq<ResolvedRule>, last: ResolvedRule, event: Event, setting: Setting)
    ensures Resolve(bindings + [last], event, setting)
         == if Active(last, setting) && MatchesShortcut(event, last.shortcut, setting.mac) then Some(last.command)
            else Resolve(bindings, event, setting)
  {
    ResolvePrefix(bindings, [last], |bindings|, event, setting);
  }

  // ----- under which shortcut a command is reachable -----

  /** Active, and no later active binding takes its keys. */
  ghost predicate Live(bindings: seq<ResolvedRule>, i: nat, setting: Setting)
    requires i < |bindings|
  {
    Active(bindings[i], setting)
    && forall j :: i < j < |bindings| && Active(bindings[j], setting)
         ==> !SameKeys(bindings[i].shortcut, bindings[j].shortcut, setting.mac)
  }

  /** The shortcut of the command's last live binding among the first `n`. */
  ghost function EffectiveBefore(bindings: seq<ResolvedRule>, n: nat, command: string, setting: Setting): Option<Shortcut>
    requires n <= |bindings|
  {
    if n == 0 then None
    else if Live(bindings, n - 1, setting) && bindings[n - 1].command == command then Some(bindings[n - 1].shortcut)
    else EffectiveBefore(bindings, n - 1, command, setting)
  }

  ghost function Effective(bindings: seq<ResolvedRule>, command: string, setting: Setting): Option<Shortcut> {
    EffectiveBefore(bindings, |bindings|, command, setting)
  }

  /** What the set of claimed texts holds once the bindings from `from` on were visited. */
  ghost predicate Claimed(claimed: set<string>, bindings: seq<ResolvedRule>, from: nat, setting: Setting)
    requires from <= |bindings|
  {
    forall text :: text in claimed
      <==> exists j :: from <= j < |bindings| && Active(bindings[j], setting) && ConflictKey(bindings[j].shortcut, setting.mac) == text
  }

  lemma ClaimedMeansDead(claimed: set<string>, bindings: seq<ResolvedRule>, i: nat, setting: Setting)
    requires i < |bindings| && Claimed(claimed, bindings, i + 1, setting) && Active(bindings[i], setting)
    ensures ConflictKey(bindings[i].shortcut, setting.mac) in claimed <==> !Live(bindings, i, setting)
  {
    var s := bindings[i].shortcut;
    forall j | i < j < |bindings|
      ensures ConflictKey(bindings[j].shortcut, setting.mac) == ConflictKey(s, setting.mac)
         <==> SameKeys(s, bindings[j].shortcut, setting.mac)
    {
      ConflictKeyIff(s, bindings[j].shortcut, setting.mac);
    }
  }

  lemma ClaimOne(claimed: set<string>, bindings: seq<ResolvedRule>, i: nat, setting: Setting)
    requires i < |bindings| && Claimed(claimed, bindings, i + 1, setting)
    ensures Claimed(if Active(bindings[i], setting) then claimed + {ConflictKey(bindings[i].shortcut, setting.mac)} else claimed,
                    bindings, i, setting)
  {
    var next := if Active(bindings[i], setting) then claimed + {ConflictKey(bindings[i].shortcut, setting.mac)} else claimed;
    forall text
      ensures text in next
         <==> exists j :: i <= j < |bindings| && Active(bindings[j], setting) && ConflictKey(bindings[j].shortcut, setting.mac) == text
    {
      if text in claimed {
        var j :| i + 1 <= j < |bindings| && Active(bindings[j], setting) && ConflictKey(bindings[j].shortcut, setting.mac) == text;
      } else if text in next {
        assert ConflictKey(bindings[i].shortcut, setting.mac) == text;
      }
    }
  }

  /** One step of the search. */
  lemma VisitOne(claimed: set<string>, bindings: seq<ResolvedRule>, i: nat, command: string, setting: Setting)
    requires i < |bindings| && Claimed(claimed, bindings, i + 1, setting)
    ensures var text := ConflictKey(bindings[i].shortcut, setting.mac);
      if Active(bindings[i], setting) && text !in claimed then
        && Claimed(claimed + {text}, bindings, i, setting)
        && EffectiveBefore(bindings, i + 1, command, setting)
           == if bindings[i].command == command then Some(bindings[i].shortcut)
              else EffectiveBefore(bindings, i, command, setting)
      else
        && Claimed(claimed, bindings, i, setting)
        && EffectiveBefore(bindings, i + 1, command, setting) == EffectiveBefore(bindings, i, command, setting)
  {
    ClaimOne(claimed, bindings, i, setting);
    if Active(bindings[i], setting) {
      ClaimedMeansDead(claimed, bindings, i, setting);
      var text := ConflictKey(bindings[i].shortcut, setting.mac);
      if text in claimed {
        assert claimed + {text} == claimed;
      }
    }
  }

  method FindEffectiveShortcutForCommand(bindings: seq<ResolvedRule>, command: string, setting: Setting) returns (r: Option<Shortcut>)
    ensures r == Effective(bindings, command, setting)
  {
    var claimed: set<string> := {};
    var index := |bindings| - 1;
    while index >= 0
      invariant -1 <= index < |bindings|
      invariant Claimed(claimed, bindings, index + 1, setting)
      invariant Effective(bindings, command, setting) == EffectiveBefore(bindings, index + 1, command, setting)
    {
      var binding := bindings[index];
      VisitOne(claimed, bindings, index, command, setting);
      if Active(binding, setting) {
        var conflictKey := ConflictKey(binding.shortcut, setting.mac);
        if conflictKey !in claimed {
          claimed := claimed + {conflictKey};
          if binding.command == command {
            return Some(binding.shortcut);
          }
        }
      }
      index := index - 1;
    }
    return None;
  }

  // ----- the two searches agree -----

  lemma {:induction false} EffectiveIsLive(bindings: seq<ResolvedRule>, n: nat, command: string, setting: Setting) returns (i: nat)
    requires n <= |bindings| && EffectiveBefore(bindings, n, command, setting).Some?
    ensures i < n && Live(bindings, i, setting) && bindings[i].command == command
    ensures EffectiveBefore(bindings, n, command, setting) == Some(bindings[i].shortcut)
  {
    if Live(bindings, n - 1, setting) && bindings[n - 1].command == command {
      i := n - 1;
    } else {
      i := EffectiveIsLive(bindings, n - 1, command, setting);
    }
  }

  lemma {:induction false} LiveIsEffective(bindings: seq<ResolvedRule>, n: nat, i: nat, setting: Setting)
    requires i < n <= |bindings| && Live(bindings, i, setting)
    ensures EffectiveBefore(bindings, n, bindings[i].command, setting).Some?
  {
    if n > i + 1 && !(Live(bindings, n - 1, setting) && bindings[n - 1].command == bindings[i].command) {
      LiveIsEffective(bindings, n - 1, i, setting);
    }
  }

  lemma {:induction false} ResolveFinds(bindings: seq<ResolvedRule>, n: nat, i: nat, event: Event, setting: Setting)
    requires i < n <= |bindings|
    requires Active(bindings[i], setting) && MatchesShortcut(event, bindings[i].shortcut, setting.mac)
    requires forall j :: i < j < n && Active(bindings[j], setting) ==> !MatchesShortcut(event, bindings[j].shortcut, setting.mac)
    ensures ResolveBefore(bindings, n, event, setting) == Some(bindings[i].command)
  {
    if n > i + 1 {
      ResolveFinds(bindings, n - 1, i, event, setting);
    }
  }

  lemma {:induction false} ResolvedBy(bindings: seq<ResolvedRule>, n: nat, event: Event, setting: Setting) returns (i: nat)
    requires n <= |bindings| && ResolveBefore(bindings, n, event, setting).Some?
    ensures i < n && ResolveBefore(bindings, n, event, setting) == Some(bindings[i].command)
    ensures Active(bindings[i], setting) && MatchesShortcut(event, bindings[i].shortcut, setting.mac)
    ensures forall j :: i < j < n && Active(bindings[j], setting) ==> !MatchesShortcut(event, bindings[j].shortcut, setting.mac)
  {
    if Active(bindings[n - 1], setting) && MatchesShortcut(event, bindings[n - 1].shortcut, setting.mac) {
      i := n - 1;
    } else {
      i := ResolvedBy(bindings, n - 1, event, setting);
    }
  }

  /** An event without a key code that matches one shortcut matches another exactly when the
      two collide. */
  lemma MatchesTogetherIff(event: Event, a: Shortcut, b: Shortcut, mac: bool)
    requires event.code.None? && MatchesShortcut(event, a, mac)
    ensures MatchesShortcut(event, b, mac) <==> SameKeys(a, b, mac)
  {
  }

  /** Pressing a command's effective shortcut resolves to that command. */
  lemma EffectiveShortcutResolves(bindings: seq<ResolvedRule>, command: string, setting: Setting, event: Event)
    requires Effective(bindings, command, setting).Some?
    requires event.code.None? && MatchesShortcut(event, Effective(bindings, command, setting).value, setting.mac)
    ensures Resolve(bindings, event, setting) == Some(command)
  {
    var i := EffectiveIsLive(bindings, |bindings|, command, setting);
    forall j | i < j < |bindings| && Active(bindings[j], setting)
      ensures !MatchesShortcut(event, bindings[j].shortcut, setting.mac)
    {
      MatchesTogetherIff(event, bindings[i].shortcut, bindings[j].shortcut, setting.mac);
    }
    ResolveFinds(bindings, |bindings|, i, event, setting);
  }

  /** Shortcuts that collide are pressed by the same events, whatever their codes. */
  lemma SameKeysMatchAlike(event: Event, a: Shortcut, b: Shortcut, mac: bool)
    requires SameKeys(a, b, mac)
    ensures MatchesShortcut(event, a, mac) == MatchesShortcut(event, b, mac)
  {
  }

  /** The binding that an event resolves to is live. */
  lemma ResolvedByLive(bindings: seq<ResolvedRule>, event: Event, setting: Setting) returns (i: nat)
    requires Resolve(bindings, event, setting).Some?
    ensures i < |bindings| && Resolve(bindings, event, setting) == Some(bindings[i].command)
    ensures Live(bindings, i, setting) && MatchesShortcut(event, bindings[i].shortcut, setting.mac)
    ensures forall j :: i < j < |bindings| && Active(bindings[j], setting) ==> !MatchesShortcut(event, bindings[j].shortcut, setting.mac)
  {
    i := ResolvedBy(bindings, |bindings|, event, setting);
    forall j | i < j < |bindings| && Active(bindings[j], setting)
      ensures !SameKeys(bindings[i].shortcut, bindings[j].shortcut, setting.mac)
    {
      if SameKeys(bindings[i].shortcut, bindings[j].shortcut, setting.mac) {
        SameKeysMatchAlike(event, bindings[i].shortcut, bindings[j].shortcut, setting.mac);
      }
    }
  }

  /** A command that some event resolves to has an effective shortcut. */
  lemma ResolvedCommandIsEffective(bindings: seq<ResolvedRule>, event: Event, setting: Setting)
    requires Resolve(bindings, event, setting).Some?
    ensures Effective(bindings, Resolve(bindings, event, setting).value, setting).Some?
  {
    var i := ResolvedByLive(bindings, event, setting);
    LiveIsEffective(bindings, |bindings|, i, setting);
  }

  /** The event that presses exactly the keys of `s`. */
  function Pressing(s: Shortcut, mac: bool): Event {
    Event(s.key, None, ExpectedMeta(s, mac), ExpectedCtrl(s, mac), s.shiftKey, s.altKey)
  }

  /** Every key that the parser makes can be pressed. */
  lemma OkKeysAreNormal(key: string)
    requires KeyOk(key)
    ensures NormalizeEventKey(key) == key
  {
    LowerIsFixed(key);
  }

  /** Over parsed keys, a command has an effective shortcut exactly when some event resolves to
      it; then one without a key code does. */
  lemma EffectiveIffReachable(bindings: seq<ResolvedRule>, command: string, setting: Setting)
    requires forall i :: 0 <= i < |bindings| ==> KeyOk(bindings[i].shortcut.key)
    ensures (exists event: Event :: Resolve(bindings, event, setting) == Some(command))
            ==> Effective(bindings, command, setting).Some?
    ensures Effective(bindings, command, setting).Some?
            ==> exists event: Event :: event.code.None? && Resolve(bindings, event, setting) == Some(command)
  {
    if Effective(bindings, command, setting).Some? {
      var i := EffectiveIsLive(bindings, |bindings|, command, setting);
      var s := bindings[i].shortcut;
      OkKeysAreNormal(s.key);
      var event := Pressing(s, setting.mac);
      EffectiveShortcutResolves(bindings, command, setting, event);
      assert event.code.None? && Resolve(bindings, event, setting) == Some(command);
    }
    if event: Event :| Resolve(bindings, event, setting) == Some(command) {
      ResolvedCommandIsEffective(bindings, event, setting);
    }
  }

  // ----- events with a key code -----

  /** The keys that a key code can add to an event. */
  predicate CodeKey(key: string) {
    key == "[" || key == "]" || (|key| == 1 && '0' <= key[0] <= '9')
  }

  function CodeOf(key: string): string
    requires CodeKey(key)
  {
    if key == "[" then "BracketLeft" else if key == "]" then "BracketRight" else "Digit" + key
  }

  lemma CodeOfAliases(key: string)
    requires CodeKey(key)
    ensures CodeAliases(CodeOf(key)) == {key}
  {
    if key != "[" && key != "]" {
      assert ("Digit" + key)[..5] == "Digit" && [("Digit" + key)[5]] == key;
      assert "BracketLeft"[0] == "BracketRight"[0] == 'B' && ("Digit" + key)[0] == 'D';
    }
  }

  lemma AliasesAreCodeKeys(code: string, key: string)
    requires key in CodeAliases(code)
    ensures CodeKey(key) && CodeAliases(code) == {key}
  {
  }

  ghost predicate SameModifiers(a: Shortcut, b: Shortcut, mac: bool) {
    && ExpectedMeta(a, mac) == ExpectedMeta(b, mac)
    && ExpectedCtrl(a, mac) == ExpectedCtrl(b, mac)
    && a.shiftKey == b.shiftKey
    && a.altKey == b.altKey
  }

  /** One event can press both: the same keys, or one of them a key that a code adds. */
  ghost predicate Together(a: Shortcut, b: Shortcut, mac: bool) {
    SameModifiers(a, b, mac) && (a.key == b.key || CodeKey(a.key) || CodeKey(b.key))
  }

  lemma PressedTogether(event: Event, a: Shortcut, b: Shortcut, mac: bool)
    requires MatchesShortcut(event, a, mac) && MatchesShortcut(event, b, mac)
    ensures Together(a, b, mac)
  {
    if event.code.Some? && a.key != b.key {
      if a.key in CodeAliases(event.code.value) {
        AliasesAreCodeKeys(event.code.value, a.key);
      } else {
        AliasesAreCodeKeys(event.code.value, b.key);
      }
    }
  }

  /** An event that presses both, and no other keys. */
  function PressingBoth(a: Shortcut, b: Shortcut, mac: bool): Event
    requires CodeKey(a.key) || CodeKey(b.key)
  {
    var (plain, coded) := if CodeKey(b.key) then (a.key, b.key) else (b.key, a.key);
    Event(plain, Some(CodeOf(coded)), ExpectedMeta(a, mac), ExpectedCtrl(a, mac), a.shiftKey, a.altKey)
  }

  lemma PressingBothKeys(a: Shortcut, b: Shortcut, mac: bool)
    requires KeyOk(a.key) && KeyOk(b.key) && (CodeKey(a.key) || CodeKey(b.key))
    ensures ResolveEventKeys(PressingBoth(a, b, mac)) == {a.key, b.key}
  {
    OkKeysAreNormal(a.key);
    OkKeysAreNormal(b.key);
    if CodeKey(b.key) {
      CodeOfAliases(b.key);
    } else {
      CodeOfAliases(a.key);
    }
  }

  /** A later live binding of another command that one event can press together with `i`. */
  ghost predicate Shadowed(bindings: seq<ResolvedRule>, i: nat, j: nat, setting: Setting)
    requires i < |bindings| && j < |bindings|
  {
    && i < j && Live(bindings, j, setting) && bindings[j].command != bindings[i].command
    && Together(bindings[i].shortcut, bindings[j].shortcut, setting.mac)
  }

  lemma ShadowedGoesAstray(bindings: seq<ResolvedRule>, i: nat, j: nat, setting: Setting) returns (event: Event)
    requires i < |bindings| && j < |bindings| && Live(bindings, i, setting) && Shadowed(bindings, i, j, setting)
    requires KeyOk(bindings[i].shortcut.key) && KeyOk(bindings[j].shortcut.key)
    ensures MatchesShortcut(event, bindings[i].shortcut, setting.mac)
    ensures Resolve(bindings, event, setting) == Some(bindings[j].command)
  {
    var a, b := bindings[i].shortcut, bindings[j].shortcut;
    assert !SameKeys(a, b, setting.mac);
    event := PressingBoth(a, b, setting.mac);
    PressingBothKeys(a, b, setting.mac);
    forall k | j < k < |bindings| && Active(bindings[k], setting)
      ensures !MatchesShortcut(event, bindings[k].shortcut, setting.mac)
    {
      assert !SameKeys(a, bindings[k].shortcut, setting.mac) && !SameKeys(b, bindings[k].shortcut, setting.mac);
    }
    ResolveFinds(bindings, |bindings|, j, event, setting);
  }

  lemma UnshadowedResolves(bindings: seq<ResolvedRule>, i: nat, event: Event, setting: Setting)
    requires i < |bindings| && Live(bindings, i, setting) && MatchesShortcut(event, bindings[i].shortcut, setting.mac)
    requires forall j: nat :: j < |bindings| ==> !Shadowed(bindings, i, j, setting)
    ensures Resolve(bindings, event, setting) == Some(bindings[i].command)
  {
    MatchedIsResolved(bindings, |bindings|, i, event, setting);
    var j := ResolvedByLive(bindings, event, setting);
    assert !Shadowed(bindings, i, j, setting);
    PressedTogether(event, bindings[i].shortcut, bindings[j].shortcut, setting.mac);
  }

  /** Every event that presses a live binding, with a key code or without, resolves to its
      command exactly when no later live binding of another command has the same modifiers and
      one of the two keys is a bracket or a digit. */
  lemma AlwaysResolvesIff(bindings: seq<ResolvedRule>, i: nat, setting: Setting)
    requires forall k :: 0 <= k < |bindings| ==> KeyOk(bindings[k].shortcut.key)
    requires i < |bindings| && Live(bindings, i, setting)
    ensures (forall event :: MatchesShortcut(event, bindings[i].shortcut, setting.mac)
                             ==> Resolve(bindings, event, setting) == Some(bindings[i].command))
       <==> !exists j: nat :: j < |bindings| && Shadowed(bindings, i, j, setting)
  {
    if j: nat :| j < |bindings| && Shadowed(bindings, i, j, setting) {
      var event := ShadowedGoesAstray(bindings, i, j, setting);
    } else {
      forall event | MatchesShortcut(event, bindings[i].shortcut, setting.mac)
        ensures Resolve(bindings, event, setting) == Some(bindings[i].command)
      {
        UnshadowedResolves(bindings, i, event, setting);
      }
    }
  }

  lemma {:induction false} MatchedIsResolved(bindings: seq<ResolvedRule>, n: nat, i: nat, event: Event, setting: Setting)
    requires i < n <= |bindings|
    requires Active(bindings[i], setting) && MatchesShortcut(event, bindings[i].shortcut, setting.mac)
    ensures ResolveBefore(bindings, n, event, setting).Some?
  {
    if n > i + 1 {
      MatchedIsResolved(bindings, n - 1, i, event, setting);
    }
  }

  /** A key code breaks the agreement: on a layout that types "!" with the digit key, pressing
      the effective shortcut of "one" reaches a later binding of "1" instead. */
  lemma KeyCodeCanShadow()
    ensures exists bindings: seq<ResolvedRule>, event: Event, setting: Setting ::
      && Effective(bindings, "one", setting).Some?
      && MatchesShortcut(event, Effective(bindings, "one", setting).value, setting.mac)
      && Resolve(bindings, event, setting) == Some("two")
  {
    var bang := Shortcut("!", false, false, true, false, false);
    var digit := Shortcut("1", false, false, true, false, false);
    var bindings := [ResolvedRule("one", bang, None), ResolvedRule("two", digit, None)];
    var setting := SettingOf(false, map[]);
    var event := Event("!", Some("Digit1"), false, false, true, false);
    assert bang.key[0] != digit.key[0];
    assert Live(bindings, 0, setting) && "one"[0] != "two"[0];
    assert EffectiveBefore(bindings, 1, "one", setting) == Some(bang);
    assert Effective(bindings, "one", setting) == Some(bang);
    assert NormalizeEventKey("!") == "!";
    assert "Digit1"[..5] == "Digit" && ['1'] == "1";
    assert Resolve(bindings, event, setting) == Some("two");
  }
}
