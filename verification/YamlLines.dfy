/**
 * Setting scalar lines of a YAML file in place (scripts/gascity-runner.ts:470-484).
 */
module YamlLines {
  import opened Prelude
  import opened Text

  // Whether a line sets a key.
  type Setter = (string, string) -> bool

  datatype Entry = Entry(key: string, line: string)

  /** Starts, after white space, with the key and a colon. */
  predicate SetsLine(line: string, key: string) {
    key + ":" <= TrimStart(line)
  }

  function SourceSetter(): Setter {
    (line, key) => SetsLine(line, key)
  }

  function EntryOf(key: string, value: string): Entry {
    Entry(key, key + ": " + value)
  }

  /** The first line that sets the key, or the number of lines. */
  function FirstIndex(sets: Setter, lines: seq<string>, key: string): (i: nat)
    ensures i <= |lines| && (i < |lines| ==> sets(lines[i], key)) && forall k :: 0 <= k < i ==> !sets(lines[k], key)
  {
    if lines == [] || sets(lines[0], key) then 0 else 1 + FirstIndex(sets, lines[1..], key)
  }

  function SetLine(sets: Setter, lines: seq<string>, e: Entry): seq<string> {
    var i := FirstIndex(sets, lines, e.key);
    if i < |lines| then lines[i := e.line] else lines + [e.line]
  }

  function SetAll(sets: Setter, lines: seq<string>, entries: seq<Entry>): seq<string> {
    if entries == [] then lines
    else SetLine(sets, SetAll(sets, lines, entries[..|entries| - 1]), entries[|entries| - 1])
  }

  /** The lines, without an empty one at the end. */
  function ContentLines(content: string): seq<string> {
    var lines := Split('\n', content);
    if lines[|lines| - 1] == "" then lines[..|lines| - 1] else lines
  }

  /** The lines are those of the file, one line break at its end aside. */
  lemma ContentLinesJoin(content: string)
    ensures var text := Join('\n', ContentLines(content));
      content == if content != "" && content[|content| - 1] == '\n' then text + ['\n'] else text
  {
    var lines := Split('\n', content);
    JoinSplit('\n', content);
    var front, last := lines[..|lines| - 1], lines[|lines| - 1];
    assert lines == front + [last];
    if front == [] {
      assert content == last;
    } else {
      JoinPush(front, last);
      if last != "" {
        assert content[|content| - 1] == last[|last| - 1];
      }
    }
    assert last in lines && (last != "" ==> last[|last| - 1] != '\n');
  }

  function Ensure(content: string, entries: seq<Entry>): string {
    TrimEnd(Join('\n', SetAll(SourceSetter(), ContentLines(content), entries))) + ['\n']
  }

  lemma FirstIndexIs(sets: Setter, lines: seq<string>, key: string, i: nat)
    requires i <= |lines| && (i < |lines| ==> sets(lines[i], key)) && forall k :: 0 <= k < i ==> !sets(lines[k], key)
    ensures FirstIndex(sets, lines, key) == i
  {
  }

  method FindIndex(sets: Setter, lines: seq<string>, key: string) returns (i: nat)
    ensures i == FirstIndex(sets, lines, key)
  {
    i := 0;
    while i < |lines| && !sets(lines[i], key)
      invariant i <= |lines| && forall k :: 0 <= k < i ==> !sets(lines[k], key)
    {
      i := i + 1;
    }
    FirstIndexIs(sets, lines, key, i);
  }

  method EnsureYamlScalarLines(content: string, entries: seq<Entry>) returns (r: string)
    ensures r == Ensure(content, entries)
  {
    var lines := ContentLines(content);
    for j := 0 to |entries|
      invariant lines == SetAll(SourceSetter(), ContentLines(content), entries[..j])
    {
      assert entries[..j + 1][..j] == entries[..j];
      var index := FindIndex(SourceSetter(), lines, entries[j].key);
      if index < |lines| {
        lines := lines[index := entries[j].line];
      } else {
        lines := lines + [entries[j].line];
      }
    }
    assert entries[..|entries|] == entries;
    return TrimEnd(Join('\n', lines)) + ['\n'];
  }

  // ----- setting lines -----

  /** A line sets at most one of the keys, and white space at its end does not matter. */
  ghost predicate Proper(sets: Setter, keys: set<string>) {
    && (forall line, a, b :: a in keys && b in keys && sets(line, a) && sets(line, b) ==> a == b)
    && (forall line, a :: a in keys ==> sets(TrimEnd(line), a) == sets(line, a))
    && (forall a :: a in keys ==> !sets("", a))
  }

  /** What the lines say of a key. */
  ghost function Get(sets: Setter, lines: seq<string>, key: string): Option<string> {
    var i := FirstIndex(sets, lines, key);
    if i < |lines| then Some(TrimEnd(lines[i])) else None
  }

  /** The first line that sets the key is the entry's. */
  ghost predicate IsSet(sets: Setter, lines: seq<string>, e: Entry) {
    var i := FirstIndex(sets, lines, e.key); i < |lines| && lines[i] == e.line
  }

  lemma SetLineSets(sets: Setter, lines: seq<string>, e: Entry)
    requires sets(e.line, e.key)
    ensures IsSet(sets, SetLine(sets, lines, e), e)
  {
    var i := FirstIndex(sets, lines, e.key);
    FirstIndexIs(sets, SetLine(sets, lines, e), e.key, i);
  }

  lemma SetLineKeepsOthers(sets: Setter, lines: seq<string>, e: Entry, keys: set<string>, other: string)
    requires Proper(sets, keys) && e.key in keys && other in keys && other != e.key && sets(e.line, e.key)
    ensures var r := SetLine(sets, lines, e); var i := FirstIndex(sets, lines, other);
      if i < |lines| then FirstIndex(sets, r, other) == i && r[i] == lines[i]
      else FirstIndex(sets, r, other) == |r|
  {
    var r, i := SetLine(sets, lines, e), FirstIndex(sets, lines, other);
    FirstIndexIs(sets, r, other, if i < |lines| then i else |r|);
  }

  // Distinct keys, each set by its own line.
  ghost predicate GoodEntries(sets: Setter, keys: set<string>, entries: seq<Entry>) {
    && (forall j :: 0 <= j < |entries| ==> entries[j].key in keys && sets(entries[j].line, entries[j].key))
    && (forall i, j :: 0 <= i < j < |entries| ==> entries[i].key != entries[j].key)
  }

  lemma {:induction false} SetAllSets(sets: Setter, lines: seq<string>, keys: set<string>, entries: seq<Entry>, j: nat)
    requires Proper(sets, keys) && GoodEntries(sets, keys, entries) && j < |entries|
    ensures IsSet(sets, SetAll(sets, lines, entries), entries[j])
  {
    var front, last := entries[..|entries| - 1], entries[|entries| - 1];
    var before := SetAll(sets, lines, front);
    if j == |entries| - 1 {
      SetLineSets(sets, before, last);
    } else {
      assert forall k :: 0 <= k < |front| ==> front[k] == entries[k];
      SetAllSets(sets, lines, keys, front, j);
      SetLineKeepsOthers(sets, before, last, keys, entries[j].key);
    }
  }

  lemma {:induction false} SetAllKeepsOthers(sets: Setter, lines: seq<string>, keys: set<string>, entries: seq<Entry>, other: string)
    requires Proper(sets, keys) && GoodEntries(sets, keys, entries)
    requires other in keys && forall j :: 0 <= j < |entries| ==> entries[j].key != other
    ensures Get(sets, SetAll(sets, lines, entries), other) == Get(sets, lines, other)
  {
    if entries != [] {
      var front, last := entries[..|entries| - 1], entries[|entries| - 1];
      assert forall k :: 0 <= k < |front| ==> front[k] == entries[k];
      SetAllKeepsOthers(sets, lines, keys, front, other);
      SetLineKeepsOthers(sets, SetAll(sets, lines, front), last, keys, other);
    }
  }

  // ----- trimming the end of the file -----

  /** Without the blank lines at the end, the last one trimmed. */
  ghost function TrimTail(lines: seq<string>): seq<string> {
    if lines == [] then [""]
    else
      var front, last := lines[..|lines| - 1], lines[|lines| - 1];
      if TrimEnd(last) == "" && front != [] then TrimTail(front) else front + [TrimEnd(last)]
  }

  lemma {:induction false} JoinPush(parts: seq<string>, part: string)
    requires parts != []
    ensures Join('\n', parts + [part]) == Join('\n', parts) + ['\n'] + part
  {
    var all := parts + [part];
    assert all[0] == parts[0] && all[1..] == parts[1..] + [part];
    if |parts| == 1 {
      assert all[1..] == [part];
    } else {
      JoinPush(parts[1..], part);
      var x, y := parts[0] + ['\n'], Join('\n', parts[1..]);
      assert x + (y + ['\n'] + part) == x + y + ['\n'] + part;
    }
  }

  lemma TrimEndJoin(front: seq<string>, last: string)
    requires front != []
    ensures TrimEnd(Join('\n', front + [last]))
         == if TrimEnd(last) == "" then TrimEnd(Join('\n', front)) else Join('\n', front + [TrimEnd(last)])
  {
    JoinPush(front, last);
    JoinPush(front, TrimEnd(last));
    var x := Join('\n', front);
    TrimEndConcat(x + ['\n'], last);
    TrimEndConcat(x, ['\n']);
    assert TrimEnd(['\n']) == "";
  }

  lemma {:induction false} TrimmedIsFree(s: string)
    requires FreeOf(s, '\n')
    ensures FreeOf(TrimEnd(s), '\n')
    decreases |s|
  {
    if s != "" && IsSpace(s[|s| - 1]) {
      TrimmedIsFree(s[..|s| - 1]);
    }
  }

  /** Trimming the text trims the tail of its lines. */
  lemma {:induction false} SplitTrimmed(lines: seq<string>)
    requires AllFreeOf(lines, '\n')
    ensures Split('\n', TrimEnd(Join('\n', lines))) == TrimTail(lines)
  {
    if lines != [] {
      var front, last := lines[..|lines| - 1], lines[|lines| - 1];
      assert lines == front + [last];
      TrimmedIsFree(last);
      if front == [] {
        SplitWord('\n', TrimEnd(last));
      } else {
        TrimEndJoin(front, last);
        if TrimEnd(last) == "" {
          SplitTrimmed(front);
        } else {
          SplitJoin('\n', front + [TrimEnd(last)]);
        }
      }
    }
  }

  /** The first line that sets a key survives the trimming, the last line up to its end. */
  lemma {:induction false} TrimTailKeeps(sets: Setter, lines: seq<string>, keys: set<string>, key: string)
    requires Proper(sets, keys) && key in keys
    ensures var r := TrimTail(lines); var i := FirstIndex(sets, lines, key);
      if i < |lines| then
        i < |r| && FirstIndex(sets, r, key) == i && TrimEnd(r[i]) == TrimEnd(lines[i]) && (i < |r| - 1 ==> r[i] == lines[i])
      else FirstIndex(sets, r, key) == |r|
  {
    var r, i := TrimTail(lines), FirstIndex(sets, lines, key);
    if lines == [] {
      FirstIndexIs(sets, r, key, 1);
    } else {
      var front, last := lines[..|lines| - 1], lines[|lines| - 1];
      assert forall k :: 0 <= k < |front| ==> front[k] == lines[k];
      assert sets(TrimEnd(last), key) == sets(last, key);
      if TrimEnd(last) == "" && front != [] {
        TrimTailKeeps(sets, front, keys, key);
        FirstIndexIs(sets, front, key, if i < |lines| then i else |front|);
      } else {
        assert r == front + [TrimEnd(last)];
        TrimEndTwice(last);
        FirstIndexIs(sets, r, key, i);
      }
    }
  }

  lemma TrimEndTwice(s: string)
    ensures TrimEnd(TrimEnd(s)) == TrimEnd(s)
  {
  }

  // ----- setting the same lines again -----

  /** The same lines, up to white space at the end of the last. */
  ghost predicate Near(n: seq<string>, m: seq<string>) {
    && |n| == |m| > 0 && (forall k :: 0 <= k < |m| - 1 ==> n[k] == m[k])
    && TrimEnd(n[|m| - 1]) == TrimEnd(m[|m| - 1])
  }

  /** The entry is set, up to white space at the end of the last line. */
  ghost predicate Ready(sets: Setter, m: seq<string>, e: Entry) {
    var i := FirstIndex(sets, m, e.key);
    i < |m| && (i < |m| - 1 ==> m[i] == e.line) && TrimEnd(m[i]) == TrimEnd(e.line)
  }

  lemma SetReadyLine(sets: Setter, n: seq<string>, m: seq<string>, keys: set<string>, e: Entry)
    requires Proper(sets, keys) && e.key in keys && Near(n, m) && Ready(sets, m, e)
    ensures Near(SetLine(sets, n, e), m)
  {
    var i := FirstIndex(sets, m, e.key);
    forall k | 0 <= k < |m| ensures sets(n[k], e.key) == sets(m[k], e.key) {
      assert sets(TrimEnd(n[k]), e.key) == sets(n[k], e.key) && sets(TrimEnd(m[k]), e.key) == sets(m[k], e.key);
    }
    FirstIndexIs(sets, n, e.key, i);
  }

  lemma {:induction false} SetAllReady(sets: Setter, m: seq<string>, keys: set<string>, entries: seq<Entry>)
    requires Proper(sets, keys) && m != []
    requires forall j :: 0 <= j < |entries| ==> entries[j].key in keys && Ready(sets, m, entries[j])
    ensures Near(SetAll(sets, m, entries), m)
  {
    if entries != [] {
      var front := entries[..|entries| - 1];
      assert forall j :: 0 <= j < |front| ==> front[j] == entries[j];
      SetAllReady(sets, m, keys, front);
      SetReadyLine(sets, SetAll(sets, m, front), m, keys, entries[|entries| - 1]);
    }
  }

  lemma NearJoins(n: seq<string>, m: seq<string>)
    requires Near(n, m)
    ensures TrimEnd(Join('\n', n)) == TrimEnd(Join('\n', m))
  {
    var front := m[..|m| - 1];
    assert n == front + [n[|m| - 1]] && m == front + [m[|m| - 1]];
    if front != [] {
      TrimEndJoin(front, n[|m| - 1]);
      TrimEndJoin(front, m[|m| - 1]);
    }
  }

  lemma {:induction false} SetAllFree(sets: Setter, lines: seq<string>, entries: seq<Entry>)
    requires AllFreeOf(lines, '\n') && forall j :: 0 <= j < |entries| ==> FreeOf(entries[j].line, '\n')
    ensures AllFreeOf(SetAll(sets, lines, entries), '\n')
  {
    if entries != [] {
      SetAllFree(sets, lines, entries[..|entries| - 1]);
    }
  }

  lemma ContentLinesFree(content: string)
    ensures AllFreeOf(ContentLines(content), '\n')
  {
    JoinSplit('\n', content);
  }

  /** The lines of a file that was set. */
  lemma EnsuredLines(content: string, entries: seq<Entry>)
    requires forall j :: 0 <= j < |entries| ==> FreeOf(entries[j].line, '\n')
    ensures ContentLines(Ensure(content, entries)) == TrimTail(SetAll(SourceSetter(), ContentLines(content), entries))
  {
    var lines := SetAll(SourceSetter(), ContentLines(content), entries);
    ContentLinesFree(content);
    SetAllFree(SourceSetter(), ContentLines(content), entries);
    SplitTrimmed(lines);
    var text := TrimEnd(Join('\n', lines));
    SplitConcat('\n', text, "");
    assert text + ['\n'] + "" == text + ['\n'];
    assert (Split('\n', text) + [""])[..|Split('\n', text)|] == Split('\n', text);
  }

  // ----- the keys of the source -----

  /** Without a colon, and not starting with white space. */
  predicate KeyOk(key: string) {
    (forall k :: 0 <= k < |key| ==> key[k] != ':') && (key != "" ==> !IsSpace(key[0]))
  }

  lemma FirstColon(text: string, key: string)
    requires KeyOk(key) && key + ":" <= text
    ensures |key| < |text| && text[|key|] == ':' && text[..|key|] == key && forall k :: 0 <= k < |key| ==> text[k] != ':'
  {
    assert text[|key|] == (key + ":")[|key|];
    assert forall k :: 0 <= k < |key| ==> text[k] == (key + ":")[k] == key[k];
  }

  lemma KeysDiffer(text: string, a: string, b: string)
    requires KeyOk(a) && KeyOk(b) && a + ":" <= text && b + ":" <= text
    ensures a == b
  {
    FirstColon(text, a);
    FirstColon(text, b);
    assert |a| == |b|;
  }

  function SetsKey(key: string): string -> bool {
    line => SetsLine(line, key)
  }

  lemma PrefixOfPushed(p: string, t: string, c: char)
    requires p != "" && p[|p| - 1] != c
    ensures p <= t + [c] <==> p <= t
  {
    var s := t + [c];
    if p <= s {
      assert p[|p| - 1] == s[|p| - 1];
      assert |p| <= |t|;
      assert p == s[..|p|] == t[..|p|];
    }
    if p <= t {
      assert p == t[..|p|] == s[..|p|];
    }
  }

  lemma SpaceAtEndIgnored(line: string, c: char, key: string)
    requires IsSpace(c)
    ensures SetsKey(key)(line + [c]) == SetsKey(key)(line)
  {
    var t, p := TrimStart(line), key + ":";
    TrimStartPush(line, c);
    PrefixOfPushed(p, t, c);
  }

  lemma SourceSetterIsProper(keys: set<string>)
    requires forall key :: key in keys ==> KeyOk(key)
    ensures Proper(SourceSetter(), keys)
  {
    forall line, a, b | a in keys && b in keys && SourceSetter()(line, a) && SourceSetter()(line, b) ensures a == b {
      KeysDiffer(TrimStart(line), a, b);
    }
    forall line, a | a in keys ensures SourceSetter()(TrimEnd(line), a) == SourceSetter()(line, a) {
      var f := SetsKey(a);
      forall t, c | IsSpace(c) ensures f(t + [c]) == f(t) {
        SpaceAtEndIgnored(t, c, a);
      }
      TrimEndIgnored(f, line);
      assert f(TrimEnd(line)) == f(line);
    }
  }

  lemma EntrySetsKey(key: string, value: string)
    requires KeyOk(key)
    ensures SourceSetter()(EntryOf(key, value).line, key)
  {
    var line := EntryOf(key, value).line;
    assert line[0] == if key == "" then ':' else key[0];
    assert line[..|key| + 1] == key + ":";
  }

  /** Entries with distinct legal keys, on one line each. */
  ghost predicate LegalEntries(entries: seq<Entry>) {
    && (forall j :: 0 <= j < |entries| ==> KeyOk(entries[j].key) && SourceSetter()(entries[j].line, entries[j].key))
    && (forall j :: 0 <= j < |entries| ==> FreeOf(entries[j].line, '\n'))
    && (forall i, j :: 0 <= i < j < |entries| ==> entries[i].key != entries[j].key)
  }

  /** The entries of the source: one for each key and value. */
  function EntriesOf(values: seq<(string, string)>): seq<Entry> {
    seq(|values|, i requires 0 <= i < |values| => EntryOf(values[i].0, values[i].1))
  }

  lemma EntryIsFreeIff(key: string, value: string)
    ensures FreeOf(EntryOf(key, value).line, '\n') <==> FreeOf(key, '\n') && FreeOf(value, '\n')
  {
    var line := EntryOf(key, value).line;
    assert forall k :: 0 <= k < |key| ==> line[k] == key[k];
    assert forall k :: 0 <= k < |value| ==> line[|key| + 2 + k] == value[k];
    assert line == key + ": " + value && ": "[0] == ':' && ": "[1] == ' ';
  }

  /** What the source's callers must see to: distinct legal keys, and no line breaks. */
  lemma SourceEntriesAreLegalIff(values: seq<(string, string)>)
    ensures LegalEntries(EntriesOf(values))
       <==> (forall j :: 0 <= j < |values| ==> KeyOk(values[j].0) && FreeOf(values[j].0, '\n') && FreeOf(values[j].1, '\n'))
            && (forall i, j :: 0 <= i < j < |values| ==> values[i].0 != values[j].0)
  {
    var entries := EntriesOf(values);
    assert forall j :: 0 <= j < |values| ==> entries[j].key == values[j].0;
    forall j | 0 <= j < |values|
      ensures FreeOf(entries[j].line, '\n') <==> FreeOf(values[j].0, '\n') && FreeOf(values[j].1, '\n')
      ensures KeyOk(values[j].0) ==> SourceSetter()(entries[j].line, entries[j].key)
    {
      EntryIsFreeIff(values[j].0, values[j].1);
      if KeyOk(values[j].0) {
        EntrySetsKey(values[j].0, values[j].1);
      }
    }
  }

  function KeysOf(entries: seq<Entry>): (r: set<string>)
    ensures forall j :: 0 <= j < |entries| ==> entries[j].key in r
    ensures forall key :: key in r ==> exists j :: 0 <= j < |entries| && entries[j].key == key
  {
    set j | 0 <= j < |entries| :: entries[j].key
  }

  ghost function GetText(content: string, key: string): Option<string> {
    Get(SourceSetter(), ContentLines(content), key)
  }

  /** After setting, the file says of each entry's key what the entry says. */
  lemma EnsureSets(content: string, entries: seq<Entry>, j: nat)
    requires LegalEntries(entries) && j < |entries|
    ensures GetText(Ensure(content, entries), entries[j].key) == Some(TrimEnd(entries[j].line))
  {
    var sets, keys := SourceSetter(), KeysOf(entries);
    SourceSetterIsProper(keys);
    EnsuredLines(content, entries);
    SetAllSets(sets, ContentLines(content), keys, entries, j);
    TrimTailKeeps(sets, SetAll(sets, ContentLines(content), entries), keys, entries[j].key);
  }

  /** And of every other key what it said before. */
  lemma EnsureKeepsOthers(content: string, entries: seq<Entry>, other: string)
    requires LegalEntries(entries) && KeyOk(other) && other !in KeysOf(entries)
    ensures GetText(Ensure(content, entries), other) == GetText(content, other)
  {
    var sets, keys := SourceSetter(), KeysOf(entries) + {other};
    SourceSetterIsProper(keys);
    EnsuredLines(content, entries);
    SetAllKeepsOthers(sets, ContentLines(content), keys, entries, other);
    TrimTailKeeps(sets, SetAll(sets, ContentLines(content), entries), keys, other);
  }

  lemma EntriesReady(content: string, entries: seq<Entry>, j: nat)
    requires LegalEntries(entries) && j < |entries|
    ensures Ready(SourceSetter(), ContentLines(Ensure(content, entries)), entries[j])
  {
    var sets, keys := SourceSetter(), KeysOf(entries);
    SourceSetterIsProper(keys);
    EnsuredLines(content, entries);
    SetAllSets(sets, ContentLines(content), keys, entries, j);
    TrimTailKeeps(sets, SetAll(sets, ContentLines(content), entries), keys, entries[j].key);
  }

  /** Setting the same entries again changes nothing. */
  lemma EnsureIsIdempotent(content: string, entries: seq<Entry>)
    requires LegalEntries(entries)
    ensures Ensure(Ensure(content, entries), entries) == Ensure(content, entries)
  {
    var sets, keys := SourceSetter(), KeysOf(entries);
    var lines := SetAll(sets, ContentLines(content), entries);
    var m := ContentLines(Ensure(content, entries));
    SourceSetterIsProper(keys);
    EnsuredLines(content, entries);
    forall j | 0 <= j < |entries| ensures Ready(sets, m, entries[j]) {
      EntriesReady(content, entries, j);
    }
    TrimTailNonempty(lines);
    SetAllReady(sets, m, keys, entries);
    NearJoins(SetAll(sets, m, entries), m);
    ContentLinesFree(content);
    SetAllFree(sets, ContentLines(content), entries);
    SplitTrimmed(lines);
    JoinSplit('\n', TrimEnd(Join('\n', lines)));
    TrimEndTwice(Join('\n', lines));
  }

  lemma TrimTailNonempty(lines: seq<string>)
    ensures TrimTail(lines) != []
  {
  }
}
