/**
 * Key strings: the printer and the shortcut-context test of the server
 * (apps/server/src/keybindings.ts:113-126, 148-159), the parser that reads them back and the
 * compilation of a rule (packages/shared/src/keybindings.ts:46-114, 250-268).
 */
module ShortcutEncoding {
  import opened Prelude
  import opened Text
  import When = WhenExpression

  datatype Shortcut =
    Shortcut(key: string, metaKey: bool, ctrlKey: bool, shiftKey: bool, altKey: bool, modKey: bool)

  // A rule of the file, and what it compiles to.
  datatype Rule = Rule(key: string, command: string, condition: Option<string>)
  datatype ResolvedRule = ResolvedRule(command: string, shortcut: Shortcut, condition: Option<When.Node>)

  // ----- the printer -----

  function Flagged(on: bool, word: string): seq<string> {
    if on then [word] else []
  }

  function ModifierWords(s: Shortcut): seq<string> {
    Flagged(s.modKey, "mod") + Flagged(s.metaKey, "meta") + Flagged(s.ctrlKey, "ctrl")
    + Flagged(s.altKey, "alt") + Flagged(s.shiftKey, "shift")
  }

  function KeyWord(key: string): string {
    if key == " " then "space" else key
  }

  predicate Encodable(s: Shortcut) {
    s.key != "" && (s.key == "+" || '+' !in s.key)
  }

  function Encode(s: Shortcut): Option<string> {
    if Encodable(s) then Some(Join('+', ModifierWords(s) + [KeyWord(s.key)])) else None
  }

  // ----- the parser -----

  function LowerChar(c: char): char {
    if 'A' <= c <= 'Z' then c - 'A' + 'a' else c
  }

  function Lower(s: string): string {
    Map(LowerChar, s)
  }

  function TrimAll(parts: seq<string>): seq<string> {
    Map(Trim, parts)
  }

  function DropTrailingEmpty(tokens: seq<string>): seq<string> {
    if tokens != [] && tokens[|tokens| - 1] == "" then DropTrailingEmpty(tokens[..|tokens| - 1]) else tokens
  }

  /** Empty tokens at the end stand for the plus key. */
  function FoldPlusKey(tokens: seq<string>): seq<string> {
    var kept := DropTrailingEmpty(tokens);
    if |kept| == |tokens| then tokens else kept + ["+"]
  }

  datatype Modifier = ModModifier | MetaModifier | CtrlModifier | AltModifier | ShiftModifier

  function ModifierOf(token: string): Option<Modifier> {
    if token == "cmd" || token == "meta" then Some(MetaModifier)
    else if token == "ctrl" || token == "control" then Some(CtrlModifier)
    else if token == "shift" then Some(ShiftModifier)
    else if token == "alt" || token == "option" then Some(AltModifier)
    else if token == "mod" then Some(ModModifier)
    else None
  }

  function NormalizeKeyToken(token: string): string {
    if token == "space" then " "
    else if token == "esc" then "escape"
    else token
  }

  // The parser's local variables: the key found so far and the shortcut around it.
  datatype Draft = Draft(key: Option<string>, metaKey: bool, ctrlKey: bool, shiftKey: bool, altKey: bool, modKey: bool)

  const EMPTY := Draft(None, false, false, false, false, false)

  function Press(d: Draft, m: Modifier): Draft {
    match m
    case ModModifier => d.(modKey := true)
    case MetaModifier => d.(metaKey := true)
    case CtrlModifier => d.(ctrlKey := true)
    case AltModifier => d.(altKey := true)
    case ShiftModifier => d.(shiftKey := true)
  }

  function Step(d: Draft, token: string): Option<Draft> {
    match ModifierOf(token)
    case Some(m) => Some(Press(d, m))
    case None => if d.key.Some? then None else Some(d.(key := Some(NormalizeKeyToken(token))))
  }

  type Reader = (Draft, string) -> Option<Draft>

  function Scan(step: Reader, tokens: seq<string>): Option<Draft>
    decreases |tokens|
  {
    if tokens == [] then Some(EMPTY)
    else
      match Scan(step, tokens[..|tokens| - 1])
      case None => None
      case Some(d) => step(d, tokens[|tokens| - 1])
  }

  function Finish(d: Option<Draft>): Option<Shortcut> {
    if d.Some? && d.value.key.Some? then
      var f := d.value;
      Some(Shortcut(f.key.value, f.metaKey, f.ctrlKey, f.shiftKey, f.altKey, f.modKey))
    else None
  }

  function KeyTokens(value: string): seq<string> {
    FoldPlusKey(TrimAll(Split('+', Lower(value))))
  }

  predicate HasEmptyToken(tokens: seq<string>) {
    exists k :: 0 <= k < |tokens| && tokens[k] == ""
  }

  function Parse(value: string): Option<Shortcut> {
    var tokens := KeyTokens(value);
    if HasEmptyToken(tokens) then None else Finish(Scan(Step, tokens))
  }

  lemma ScanPush(step: Reader, words: seq<string>, token: string)
    ensures Scan(step, words + [token]) == match Scan(step, words) case None => None case Some(d) => step(d, token)
  {
    assert (words + [token])[..|words|] == words;
  }

  lemma {:induction false} FailedScanStaysFailed(step: Reader, tokens: seq<string>, i: nat)
    requires i <= |tokens| && Scan(step, tokens[..i]).None?
    ensures Scan(step, tokens).None?
    decreases |tokens|
  {
    if i == |tokens| {
      assert tokens[..i] == tokens;
    } else {
      assert tokens[..|tokens| - 1][..i] == tokens[..i];
      FailedScanStaysFailed(step, tokens[..|tokens| - 1], i);
    }
  }

  lemma DropTrailingEmptyKeeps(tokens: seq<string>)
    ensures DropTrailingEmpty(tokens) == tokens || |DropTrailingEmpty(tokens)| < |tokens|
    ensures DropTrailingEmpty(tokens) <= tokens
  {
  }

  /** The parser's loop over the tokens. */
  method ReadTokens(tokens: seq<string>) returns (r: Option<Draft>)
    ensures r == Scan(Step, tokens)
  {
    var draft := EMPTY;
    for i := 0 to |tokens|
      invariant Scan(Step, tokens[..i]) == Some(draft)
    {
      assert tokens[..i + 1] == tokens[..i] + [tokens[i]];
      ScanPush(Step, tokens[..i], tokens[i]);
      match Step(draft, tokens[i])
      case None =>
        FailedScanStaysFailed(Step, tokens, i + 1);
        return None;
      case Some(next) => draft := next;
    }
    assert tokens[..|tokens|] == tokens;
    return Some(draft);
  }

  method PopTrailingEmpty(raw: seq<string>) returns (tokens: seq<string>)
    ensures tokens == FoldPlusKey(raw)
  {
    tokens := raw;
    var trailingEmptyCount := 0;
    DropTrailingEmptyKeeps(raw);
    while |tokens| > 0 && tokens[|tokens| - 1] == ""
      invariant DropTrailingEmpty(tokens) == DropTrailingEmpty(raw)
      invariant trailingEmptyCount == |raw| - |tokens| && trailingEmptyCount >= 0
      invariant trailingEmptyCount == 0 ==> tokens == raw
    {
      trailingEmptyCount := trailingEmptyCount + 1;
      tokens := tokens[..|tokens| - 1];
    }
    if trailingEmptyCount > 0 {
      tokens := tokens + ["+"];
    }
  }

  method ParseKeybindingShortcut(value: string) returns (r: Option<Shortcut>)
    ensures r == Parse(value)
  {
    var tokens := PopTrailingEmpty(TrimAll(Split('+', Lower(value))));
    if HasEmptyToken(tokens) {
      return None;
    }
    var draft := ReadTokens(tokens);
    return Finish(draft);
  }

  // ----- the pieces of a printed shortcut -----

  ghost predicate PlusFree(s: string) {
    FreeOf(s, '+')
  }

  /** The plus-free pieces of a key string; the plus key is two empty ones. */
  ghost function Pieces(s: Shortcut): seq<string> {
    ModifierWords(s) + if s.key == "+" then ["", ""] else [KeyWord(s.key)]
  }

  lemma {:induction false} JoinPlus(words: seq<string>)
    ensures Join('+', words + ["+"]) == Join('+', words + ["", ""])
  {
    if words == [] {
      assert [] + ["+"] == ["+"] && [] + ["", ""] == ["", ""];
      assert Join('+', ["", ""][1..]) == "";
    } else {
      assert (words + ["+"])[1..] == words[1..] + ["+"];
      assert (words + ["", ""])[1..] == words[1..] + ["", ""];
      JoinPlus(words[1..]);
    }
  }

  lemma EncodePieces(s: Shortcut)
    requires Encodable(s)
    ensures Encode(s) == Some(Join('+', Pieces(s))) && Split('+', Encode(s).value) == Pieces(s)
  {
    JoinPlus(ModifierWords(s));
    WordsPlusFree(s);
    SplitJoin('+', Pieces(s));
  }

  lemma WordsPlusFree(s: Shortcut)
    ensures AllFreeOf(ModifierWords(s), '+')
  {
    WordsArePlain(s);
  }

  // ----- what the modifier words say -----

  lemma WordModifiers()
    ensures ModifierOf("mod") == Some(ModModifier) && ModifierOf("meta") == Some(MetaModifier)
    ensures ModifierOf("ctrl") == Some(CtrlModifier) && ModifierOf("alt") == Some(AltModifier)
    ensures ModifierOf("shift") == Some(ShiftModifier)
  {
  }

  lemma ScanThen(a: seq<string>, mid: Draft, on: bool, word: string, m: Modifier)
    requires Scan(Step, a) == Some(mid) && ModifierOf(word) == Some(m)
    ensures Scan(Step, a + Flagged(on, word)) == Some(if on then Press(mid, m) else mid)
  {
    if on {
      ScanPush(Step, a, word);
    } else {
      assert a + [] == a;
    }
  }

  ghost function Flags(s: Shortcut): Draft {
    Draft(None, s.metaKey, s.ctrlKey, s.shiftKey, s.altKey, s.modKey)
  }

  lemma ScanModifierWords(s: Shortcut)
    ensures Scan(Step, ModifierWords(s)) == Some(Flags(s))
  {
    WordModifiers();
    var a, d := [], EMPTY;
    ScanThen(a, d, s.modKey, "mod", ModModifier);
    a, d := Flagged(s.modKey, "mod"), d.(modKey := s.modKey);
    assert [] + a == a;
    ScanThen(a, d, s.metaKey, "meta", MetaModifier);
    a, d := a + Flagged(s.metaKey, "meta"), d.(metaKey := s.metaKey);
    ScanThen(a, d, s.ctrlKey, "ctrl", CtrlModifier);
    a, d := a + Flagged(s.ctrlKey, "ctrl"), d.(ctrlKey := s.ctrlKey);
    ScanThen(a, d, s.altKey, "alt", AltModifier);
    a, d := a + Flagged(s.altKey, "alt"), d.(altKey := s.altKey);
    ScanThen(a, d, s.shiftKey, "shift", ShiftModifier);
  }

  /** Two shortcuts print alike exactly when they differ at most in writing the space key as
      " " or as "space". */
  lemma SameEncodingIff(a: Shortcut, b: Shortcut)
    requires Encodable(a)
    ensures Encode(a) == Encode(b) <==> a.(key := KeyWord(a.key)) == b.(key := KeyWord(b.key))
  {
    if Encode(a) == Encode(b) {
      EncodePieces(a);
      EncodePieces(b);
      PiecesInjective(ModifierWords(a), KeyWord(a.key), ModifierWords(b), KeyWord(b.key));
      ScanModifierWords(a);
      ScanModifierWords(b);
    } else if a.(key := KeyWord(a.key)) == b.(key := KeyWord(b.key)) {
      SameFlagsSameWords(a, b);
    }
  }

  lemma SameFlagsSameWords(a: Shortcut, b: Shortcut)
    requires Flags(a) == Flags(b)
    ensures ModifierWords(a) == ModifierWords(b)
  {
  }

  lemma PiecesInjective(a: seq<string>, x: string, b: seq<string>, y: string)
    requires x != "" && y != ""
    requires a + (if x == "+" then ["", ""] else [x]) == b + (if y == "+" then ["", ""] else [y])
    ensures a == b && x == y
  {
    var p := if x == "+" then ["", ""] else [x];
    var q := if y == "+" then ["", ""] else [y];
    assert (a + p)[|a + p| - 1] == p[|p| - 1] && (b + q)[|b + q| - 1] == q[|q| - 1];
    assert |p| == |q|;
    assert a == (a + p)[..|a|] && b == (b + q)[..|b|];
  }

  // ----- which keys the parser makes, and reads back -----

  ghost predicate IsLower(s: string) {
    forall k :: 0 <= k < |s| ==> !('A' <= s[k] <= 'Z')
  }

  ghost predicate PlainToken(s: string) {
    IsLower(s) && IsTrimmed(s) && PlusFree(s)
  }

  /** The keys that a key string can name. */
  ghost predicate KeyOk(key: string) {
    || key == " "
    || key == "+"
    || (key != "" && PlainToken(key) && ModifierOf(key).None? && key != "space" && key != "esc")
  }

  lemma {:induction false} SplitPieces(s: string)
    requires IsLower(s)
    ensures forall k :: 0 <= k < |Split('+', s)| ==> IsLower(Split('+', s)[k]) && PlusFree(Split('+', s)[k])
  {
    if s != "" {
      SplitPieces(s[1..]);
      var rest := Split('+', s[1..]);
      var r := Split('+', s);
      forall k | 0 <= k < |r| ensures IsLower(r[k]) && PlusFree(r[k]) {
        assert IsLower(rest[0]) && PlusFree(rest[0]);
        if s[0] == '+' {
          assert k > 0 ==> r[k] == rest[k - 1];
        } else {
          assert k > 0 ==> r[k] == rest[k];
        }
      }
    }
  }

  lemma {:induction false} TrimStartPlain(s: string)
    requires IsLower(s) && PlusFree(s)
    ensures var r := TrimStart(s); IsLower(r) && PlusFree(r) && (r != "" ==> !IsSpace(r[0]))
  {
    if s != "" && IsSpace(s[0]) {
      TrimStartPlain(s[1..]);
    }
  }

  lemma {:induction false} TrimEndPlain(s: string)
    requires IsLower(s) && PlusFree(s) && (s != "" ==> !IsSpace(s[0]))
    ensures PlainToken(TrimEnd(s))
  {
    if s != "" && IsSpace(s[|s| - 1]) {
      TrimEndPlain(s[..|s| - 1]);
    }
  }

  ghost predicate GoodToken(t: string) {
    t == "+" || PlainToken(t)
  }

  ghost predicate GoodTokens(tokens: seq<string>) {
    forall k :: 0 <= k < |tokens| ==> GoodToken(tokens[k])
  }

  lemma TrimmedAreGood(low: string)
    requires IsLower(low)
    ensures GoodTokens(TrimAll(Split('+', low)))
  {
    var parts := Split('+', low);
    SplitPieces(low);
    forall k | 0 <= k < |parts| ensures GoodToken(Trim(parts[k])) {
      TrimStartPlain(parts[k]);
      TrimEndPlain(TrimStart(parts[k]));
    }
  }

  lemma FoldKeepsGood(tokens: seq<string>)
    requires GoodTokens(tokens)
    ensures GoodTokens(FoldPlusKey(tokens))
  {
    DropTrailingEmptyKeeps(tokens);
  }

  lemma KeyTokensAreGood(value: string)
    ensures GoodTokens(KeyTokens(value))
  {
    TrimmedAreGood(Lower(value));
    FoldKeepsGood(TrimAll(Split('+', Lower(value))));
  }

  lemma {:induction false} ScanMakesOkKeys(tokens: seq<string>)
    requires GoodTokens(tokens) && !HasEmptyToken(tokens)
    ensures var r := Scan(Step, tokens); r.Some? && r.value.key.Some? ==> KeyOk(r.value.key.value)
    decreases |tokens|
  {
    if tokens != [] {
      ScanMakesOkKeys(tokens[..|tokens| - 1]);
      var last := tokens[|tokens| - 1];
      if ModifierOf(last).None? {
        KeyTokenIsOk(last);
      }
    }
  }

  lemma KeyTokenIsOk(t: string)
    requires GoodToken(t) && t != "" && ModifierOf(t).None?
    ensures KeyOk(NormalizeKeyToken(t))
  {
    if t == "esc" {
      assert "escape"[0] == 'e' && "escape"[5] == 'e';
      assert PlainToken("escape") && ModifierOf("escape").None?;
    }
  }

  lemma ParseMakesOkKeys(value: string)
    ensures Parse(value).Some? ==> KeyOk(Parse(value).value.key)
  {
    KeyTokensAreGood(value);
    if !HasEmptyToken(KeyTokens(value)) {
      ScanMakesOkKeys(KeyTokens(value));
    }
  }

  // ----- reading a printed shortcut -----

  lemma {:induction false} LowerJoin(parts: seq<string>)
    requires forall k :: 0 <= k < |parts| ==> IsLower(parts[k])
    ensures IsLower(Join('+', parts))
  {
    if |parts| > 1 {
      LowerJoin(parts[1..]);
    }
  }

  lemma LowerIsFixed(s: string)
    requires IsLower(s)
    ensures Lower(s) == s
  {
  }

  ghost predicate PlainWords(words: seq<string>) {
    forall k :: 0 <= k < |words| ==> PlainToken(words[k]) && words[k] != ""
  }

  lemma PlainWordsConcat(a: seq<string>, on: bool, word: string)
    requires PlainWords(a) && PlainToken(word) && word != ""
    ensures PlainWords(a + Flagged(on, word))
  {
  }

  lemma LiteralWordsArePlain()
    ensures PlainToken("mod") && PlainToken("meta") && PlainToken("ctrl") && PlainToken("alt") && PlainToken("shift")
  {
  }

  lemma WordsArePlain(s: Shortcut)
    ensures PlainWords(ModifierWords(s))
  {
    LiteralWordsArePlain();
    var a := Flagged(s.modKey, "mod");
    PlainWordsConcat(a, s.metaKey, "meta");
    a := a + Flagged(s.metaKey, "meta");
    PlainWordsConcat(a, s.ctrlKey, "ctrl");
    a := a + Flagged(s.ctrlKey, "ctrl");
    PlainWordsConcat(a, s.altKey, "alt");
    a := a + Flagged(s.altKey, "alt");
    PlainWordsConcat(a, s.shiftKey, "shift");
  }

  lemma SpaceWordIsPlain()
    ensures PlainToken("space") && ModifierOf("space").None?
  {
  }

  lemma KeyWordIsPlain(key: string)
    requires KeyOk(key) && key != "+"
    ensures PlainToken(KeyWord(key)) && KeyWord(key) != ""
    ensures ModifierOf(KeyWord(key)).None? && NormalizeKeyToken(KeyWord(key)) == key
  {
    SpaceWordIsPlain();
  }

  lemma OkKeysAreEncodable(s: Shortcut)
    requires KeyOk(s.key)
    ensures Encodable(s)
  {
  }

  lemma PlainPiecesTrim(pieces: seq<string>)
    requires forall k :: 0 <= k < |pieces| ==> PlainToken(pieces[k])
    ensures TrimAll(pieces) == pieces
  {
    forall k | 0 <= k < |pieces| ensures Trim(pieces[k]) == pieces[k] {
      TrimmedIsFixed(pieces[k]);
    }
  }

  ghost function LastToken(s: Shortcut): string {
    if s.key == "+" then "+" else KeyWord(s.key)
  }

  lemma FoldsToTokens(words: seq<string>, last: string)
    requires last != "" && PlainWords(words)
    ensures FoldPlusKey(words + [last]) == words + [last]
    ensures FoldPlusKey(words + ["", ""]) == words + ["+"]
  {
    var t := words + ["", ""];
    assert t[..|t| - 1] == words + [""];
    assert (words + [""])[..|words|] == words;
    assert DropTrailingEmpty(words) == words;
    assert DropTrailingEmpty(words + [""]) == words;
    assert DropTrailingEmpty(t) == words;
    assert |t| != |words|;
  }

  /** The same, for any words before the key. */
  lemma PrintedPieces(words: seq<string>, key: string)
    requires PlainWords(words) && KeyOk(key)
    ensures var pieces := words + if key == "+" then ["", ""] else [KeyWord(key)];
      && Lower(Join('+', pieces)) == Join('+', pieces) && TrimAll(pieces) == pieces
      && FoldPlusKey(pieces) == words + [if key == "+" then "+" else KeyWord(key)]
  {
    if key == "+" {
      FoldsToTokens(words, "+");
    } else {
      KeyWordIsPlain(key);
      FoldsToTokens(words, KeyWord(key));
    }
    var pieces := words + if key == "+" then ["", ""] else [KeyWord(key)];
    LowerJoin(pieces);
    LowerIsFixed(Join('+', pieces));
    PlainPiecesTrim(pieces);
  }

  lemma PrintedTokens(s: Shortcut)
    requires KeyOk(s.key)
    ensures Encode(s).Some? && KeyTokens(Encode(s).value) == ModifierWords(s) + [LastToken(s)]
  {
    OkKeysAreEncodable(s);
    EncodePieces(s);
    WordsArePlain(s);
    PrintedPieces(ModifierWords(s), s.key);
  }

  lemma NoEmptyToken(words: seq<string>, last: string)
    requires PlainWords(words) && last != ""
    ensures !HasEmptyToken(words + [last])
  {
  }

  lemma ParseFromTokens(value: string, words: seq<string>, last: string, flags: Draft, full: Draft)
    requires KeyTokens(value) == words + [last] && PlainWords(words) && last != ""
    requires Scan(Step, words) == Some(flags) && Step(flags, last) == Some(full)
    ensures Parse(value) == Finish(Some(full))
  {
    NoEmptyToken(words, last);
    ScanPush(Step, words, last);
  }

  lemma ParsePrinted(s: Shortcut)
    requires KeyOk(s.key)
    ensures Encode(s).Some? && Parse(Encode(s).value) == Some(s)
  {
    PrintedTokens(s);
    WordsArePlain(s);
    ScanModifierWords(s);
    StepKey(Flags(s), s.key);
    ParseFromTokens(Encode(s).value, ModifierWords(s), LastToken(s), Flags(s), Flags(s).(key := Some(s.key)));
  }

  lemma StepKey(d: Draft, key: string)
    requires KeyOk(key) && d.key.None?
    ensures Step(d, if key == "+" then "+" else KeyWord(key)) == Some(d.(key := Some(key)))
  {
    if key != "+" {
      KeyWordIsPlain(key);
    }
  }

  /** A printed shortcut is read back as itself exactly when its key can be named. */
  lemma RoundTripIff(s: Shortcut)
    ensures (Encode(s).Some? && Parse(Encode(s).value) == Some(s)) <==> KeyOk(s.key)
  {
    if KeyOk(s.key) {
      ParsePrinted(s);
    } else if Encode(s).Some? && Parse(Encode(s).value) == Some(s) {
      ParseMakesOkKeys(Encode(s).value);
    }
  }

  /** Printing what was parsed never fails and does not change what it parses to. */
  lemma ReprintParsesAlike(value: string, shortcut: Shortcut)
    requires Parse(value) == Some(shortcut)
    ensures Encode(shortcut).Some? && Parse(Encode(shortcut).value) == Some(shortcut)
  {
    ParseMakesOkKeys(value);
    ParsePrinted(shortcut);
  }

  // ----- the other words -----

  /** What each word for a modifier presses. */
  lemma ModifierWordsMean()
    ensures ModifierOf("cmd") == ModifierOf("meta") == Some(MetaModifier)
    ensures ModifierOf("ctrl") == ModifierOf("control") == Some(CtrlModifier)
    ensures ModifierOf("alt") == ModifierOf("option") == Some(AltModifier)
    ensures ModifierOf("shift") == Some(ShiftModifier) && ModifierOf("mod") == Some(ModModifier)
  {
  }

  lemma OtherWordsArePlain()
    ensures PlainToken("cmd") && PlainToken("control") && PlainToken("option")
  {
  }

  function Only(key: string, m: Modifier): Shortcut {
    Shortcut(key, m == MetaModifier, m == CtrlModifier, m == ShiftModifier, m == AltModifier, m == ModModifier)
  }

  lemma OneWordScans(word: string, m: Modifier)
    requires ModifierOf(word) == Some(m)
    ensures Scan(Step, [word]) == Some(Press(EMPTY, m))
  {
    ScanPush(Step, [], word);
    assert [] + [word] == [word];
  }

  lemma KeyBehindWord(word: string, key: string)
    requires KeyOk(key) && PlainToken(word) && word != ""
    ensures KeyTokens(Join('+', [word] + if key == "+" then ["", ""] else [KeyWord(key)]))
         == [word] + [if key == "+" then "+" else KeyWord(key)]
  {
    PrintedPieces([word], key);
    if key != "+" {
      KeyWordIsPlain(key);
    }
    SplitJoin('+', [word] + if key == "+" then ["", ""] else [KeyWord(key)]);
  }

  /** A word for a modifier before a key presses that modifier and no other. */
  lemma WordPressesModifier(word: string, m: Modifier, key: string)
    requires KeyOk(key) && ModifierOf(word) == Some(m) && PlainToken(word) && word != ""
    ensures Parse(Join('+', [word] + if key == "+" then ["", ""] else [KeyWord(key)])) == Some(Only(key, m))
  {
    KeyBehindWord(word, key);
    TwoTokensRead(Join('+', [word] + if key == "+" then ["", ""] else [KeyWord(key)]), word, m,
                  if key == "+" then "+" else KeyWord(key), key);
  }

  lemma TwoTokensRead(value: string, word: string, m: Modifier, last: string, key: string)
    requires KeyOk(key) && ModifierOf(word) == Some(m) && PlainToken(word) && word != ""
    requires last == (if key == "+" then "+" else KeyWord(key)) && KeyTokens(value) == [word] + [last]
    ensures Parse(value) == Some(Only(key, m))
  {
    OneWordScans(word, m);
    StepKey(Press(EMPTY, m), key);
    if key != "+" {
      KeyWordIsPlain(key);
    }
    ParseFromTokens(value, [word], last, Press(EMPTY, m), Press(EMPTY, m).(key := Some(key)));
  }

  // ----- shortcut contexts -----

  function ConditionText(rule: Rule): string {
    match rule.condition
    case None => ""
    case Some(text) => text
  }

  function ShortcutContext(rule: Rule): Option<string> {
    match Parse(rule.key)
    case None => None
    case Some(parsed) =>
      match Encode(parsed)
      case None => None
      case Some(encoded) => Some(encoded + ['\0'] + ConditionText(rule))
  }

  predicate HasSameShortcutContext(left: Rule, right: Rule) {
    ShortcutContext(left).Some? && ShortcutContext(left) == ShortcutContext(right)
  }

  predicate Readable(rule: Rule) {
    Parse(rule.key).Some? && (rule.condition.Some? ==> When.Parse(rule.condition.value).Some?)
  }

  /** A rule compiles when its key and its condition, if any, are readable. */
  function Compile(rule: Rule): Option<ResolvedRule> {
    if Readable(rule) then
      Some(ResolvedRule(rule.command, Parse(rule.key).value,
                        if rule.condition.Some? then When.Parse(rule.condition.value) else None))
    else None
  }

  lemma {:induction false} TokenizedIsNulFree(s: string, i: nat)
    requires i <= |s| && When.TokensFrom(s, i).Some?
    ensures forall k :: i <= k < |s| ==> s[k] != '\0'
    decreases |s| - i
  {
    if i < |s| {
      if IsSpace(s[i]) {
        TokenizedIsNulFree(s, i + 1);
      } else {
        TokenizedIsNulFree(s, When.TokenAt(s, i).value.1);
      }
    }
  }

  lemma ContextText(rule: Rule, shortcut: Shortcut, encoded: string)
    requires Parse(rule.key) == Some(shortcut) && Encode(shortcut) == Some(encoded)
    ensures ShortcutContext(rule) == Some(encoded + ['\0'] + ConditionText(rule))
  {
  }

  lemma ContextsAgree(parse: string -> Option<Shortcut>, a: Shortcut, ea: string, x: string,
                      b: Shortcut, eb: string, y: string)
    requires parse(ea) == Some(a) && parse(eb) == Some(b) && (a == b ==> ea == eb)
    requires FreeOf(x, '\0') && FreeOf(y, '\0')
    ensures ea + ['\0'] + x == eb + ['\0'] + y <==> a == b && x == y
  {
    if ea + ['\0'] + x == eb + ['\0'] + y {
      SplitAtLast('\0', ea, x, eb, y);
    }
  }

  /** Rules that compile share a shortcut context exactly when their keys parse to the same
      shortcut and their conditions are the same text. */
  lemma SameContextIff(left: Rule, right: Rule)
    requires Readable(left) && Readable(right)
    ensures HasSameShortcutContext(left, right)
       <==> Parse(left.key) == Parse(right.key) && ConditionText(left) == ConditionText(right)
  {
    var a, b := Parse(left.key).value, Parse(right.key).value;
    ReprintParsesAlike(left.key, a);
    ReprintParsesAlike(right.key, b);
    var ea, eb := Encode(a).value, Encode(b).value;
    ContextText(left, a, ea);
    ContextText(right, b, eb);
    ConditionIsNulFree(left);
    ConditionIsNulFree(right);
    ContextsAgree(Parse, a, ea, ConditionText(left), b, eb, ConditionText(right));
  }

  lemma ConditionIsNulFree(rule: Rule)
    requires rule.condition.Some? ==> When.Parse(rule.condition.value).Some?
    ensures FreeOf(ConditionText(rule), '\0')
  {
    if rule.condition.Some? {
      TokenizedIsNulFree(rule.condition.value, 0);
    }
  }
}
