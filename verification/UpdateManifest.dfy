/**
 * The update-manifest parser and printer (scripts/lib/update-manifest.ts:22-27, 54-186, 239-277).
 *
 * Numbers are exact decimals; error texts are reduced to their kind.
 */
module UpdateManifest {
  import opened Prelude
  import opened Text

  datatype File = File(url: string, sha512: string, size: nat)

  // `fraction` holds the digits behind the decimal point.
  datatype Scalar = Text(text: string) | Number(negative: bool, whole: nat, fraction: string) | Flag(on: bool)

  datatype Manifest = Manifest(version: string, releaseDate: string, files: seq<File>, extras: map<string, Scalar>)

  datatype ParseError =
    | IncompleteFile(line: nat)
    | ShaWithoutFile(line: nat)
    | SizeWithoutFile(line: nat)
    | UnsupportedLine(line: nat)
    | VersionNotText(line: nat)
    | ReleaseDateNotText(line: nat)
    | MissingVersion
    | MissingReleaseDate
    | MissingFiles

  // ----- quoting -----

  function DoubleQuotes(s: string): string {
    if s == "" then "" else (if s[0] == '\'' then ['\'', '\''] else [s[0]]) + DoubleQuotes(s[1..])
  }

  function Undouble(s: string): (r: string)
    ensures |r| <= |s|
  {
    if s == "" then ""
    else if |s| >= 2 && s[0] == '\'' && s[1] == '\'' then ['\''] + Undouble(s[2..])
    else [s[0]] + Undouble(s[1..])
  }

  function Quote(s: string): string {
    ['\''] + DoubleQuotes(s) + ['\'']
  }

  /** Starts and ends with a quote; one quote alone does both. */
  predicate Wrapped(s: string) {
    s != "" && s[0] == '\'' && s[|s| - 1] == '\''
  }

  function StripSingleQuotes(s: string): string {
    if Wrapped(s) then (if |s| == 1 then "" else Undouble(s[1..|s| - 1])) else s
  }

  // ----- numbers -----

  /** The first decimal point, or the end. */
  function PointAt(s: string): (i: nat)
    ensures i <= |s| && (i < |s| ==> s[i] == '.') && forall k :: 0 <= k < i ==> s[k] != '.'
  {
    if s == "" || s[0] == '.' then 0 else 1 + PointAt(s[1..])
  }

  function DropZeros(s: string): (r: string)
    ensures |r| <= |s| && r == s[..|r|] && (r != "" ==> r[|r| - 1] != '0')
  {
    if s != "" && s[|s| - 1] == '0' then DropZeros(s[..|s| - 1]) else s
  }

  /** Digits, optionally a point and digits. */
  predicate IsDecimal(s: string) {
    var p := PointAt(s);
    && p > 0 && AllDigits(s[..p])
    && (p < |s| ==> p + 1 < |s| && AllDigits(s[p + 1..]))
  }

  function MakeNumber(negative: bool, whole: nat, fraction: string): Scalar {
    Number(negative && (whole != 0 || fraction != ""), whole, fraction)
  }

  function DecimalOf(negative: bool, s: string): Scalar
    requires IsDecimal(s)
  {
    var p := PointAt(s);
    MakeNumber(negative, NatOf(s[..p]), if p < |s| then DropZeros(s[p + 1..]) else "")
  }

  function ParseScalar(raw: string): Scalar {
    var s := Trim(raw);
    if Wrapped(s) && |s| >= 2 then Text(StripSingleQuotes(s))
    else if s == "true" then Flag(true)
    else if s == "false" then Flag(false)
    else if IsDecimal(s) then DecimalOf(false, s)
    else if s != "" && s[0] == '-' && IsDecimal(s[1..]) then DecimalOf(true, s[1..])
    else Text(s)
  }

  function PrintNumber(negative: bool, whole: nat, fraction: string): string {
    (if negative then "-" else "") + Digits(whole) + if fraction == "" then "" else "." + fraction
  }

  function PrintScalar(v: Scalar): string {
    match v
    case Text(text) => Quote(text)
    case Number(negative, whole, fraction) => PrintNumber(negative, whole, fraction)
    case Flag(on) => if on then "true" else "false"
  }

  // ----- lines -----

  predicate IsTerminator(c: char) {
    c == '\n' || c == '\r' || c == '\U{2028}' || c == '\U{2029}'
  }

  predicate TerminatorFree(s: string) {
    forall k :: 0 <= k < |s| ==> !IsTerminator(s[k])
  }

  /** Splits at "\n" and "\r\n". */
  function SplitLines(s: string): (r: seq<string>)
    ensures |r| >= 1
    decreases |s|
  {
    if s == "" then [""]
    else if s[0] == '\n' then [""] + SplitLines(s[1..])
    else if |s| >= 2 && s[0] == '\r' && s[1] == '\n' then [""] + SplitLines(s[2..])
    else
      var rest := SplitLines(s[1..]);
      [[s[0]] + rest[0]] + rest[1..]
  }

  datatype Kind =
    | Blank
    | UrlLine(url: string)
    | ShaLine(sha512: string)
    | SizeLine(size: nat)
    | FilesHeader
    | TopLevel(key: string, value: Scalar)
    | Unsupported

  /** What follows `prefix` and white space on the line, unless nothing does. */
  function Field(prefix: string, line: string): Option<string> {
    if prefix <= line then
      var rest := TrimStart(line[|prefix|..]);
      if rest != "" && TerminatorFree(rest) then Some(rest) else None
    else None
  }

  predicate KeyChar(c: char) {
    IsLetter(c) || IsDigit(c)
  }

  function KeyEnd(s: string): (i: nat)
    ensures i <= |s| && (i < |s| ==> !KeyChar(s[i])) && forall k :: 0 <= k < i ==> KeyChar(s[k])
  {
    if s != "" && KeyChar(s[0]) then 1 + KeyEnd(s[1..]) else 0
  }

  predicate IsKey(s: string) {
    s != "" && IsLetter(s[0]) && KeyEnd(s) == |s|
  }

  function TopLevelOf(line: string): Kind {
    var end := KeyEnd(line);
    if end > 0 && IsLetter(line[0]) then
      match Field(line[..end] + ":", line)
      case None => Unsupported
      case Some(raw) => TopLevel(line[..end], ParseScalar(raw))
    else Unsupported
  }

  const URL_PREFIX := "  - url:"
  const SHA_PREFIX := "    sha512:"
  const SIZE_PREFIX := "    size:"
  const FILES_LINE := "files:"

  /** What a line, trimmed at its end, says. */
  function Classify(line: string): Kind {
    if line == "" then Blank
    else if Field(URL_PREFIX, line).Some? then UrlLine(StripSingleQuotes(Trim(Field(URL_PREFIX, line).value)))
    else if Field(SHA_PREFIX, line).Some? then ShaLine(StripSingleQuotes(Trim(Field(SHA_PREFIX, line).value)))
    else if Field(SIZE_PREFIX, line).Some? && AllDigits(Field(SIZE_PREFIX, line).value) then
      SizeLine(NatOf(Field(SIZE_PREFIX, line).value))
    else if line == FILES_LINE then FilesHeader
    else TopLevelOf(line)
  }

  function KindOf(rawLine: string): Kind {
    Classify(TrimEnd(rawLine))
  }

  function Kinds(lines: seq<string>): (r: seq<Kind>)
    ensures |r| == |lines|
  {
    seq(|lines|, i requires 0 <= i < |lines| => KindOf(lines[i]))
  }

  // ----- the parser -----

  // A file entry being read.
  datatype Partial = Partial(url: string, sha512: Option<string>, size: Option<nat>)

  // The parser's local variables.
  datatype State =
    State(version: Option<string>, releaseDate: Option<string>, inFiles: bool, current: Option<Partial>,
          files: seq<File>, extras: map<string, Scalar>)

  const INITIAL := State(None, None, false, None, [], map[])

  /** The files once the current entry, if any, is finished. */
  function Finished(s: State, line: nat): Result<seq<File>, ParseError> {
    match s.current
    case None => Ok(s.files)
    case Some(f) =>
      if f.sha512.Some? && f.size.Some? then Ok(s.files + [File(f.url, f.sha512.value, f.size.value)])
      else Err(IncompleteFile(line))
  }

  /** A line outside the file list. */
  function TopStep(s: State, key: string, value: Scalar, line: nat): Result<State, ParseError> {
    if key == "version" then
      (if value.Text? then Ok(s.(version := Some(value.text))) else Err(VersionNotText(line)))
    else if key == "releaseDate" then
      (if value.Text? then Ok(s.(releaseDate := Some(value.text))) else Err(ReleaseDateNotText(line)))
    else if key == "path" || key == "sha512" then Ok(s)
    else Ok(s.(extras := s.extras[key := value]))
  }

  /** Leaves the file list. */
  function LeaveFiles(s: State, line: nat): Result<State, ParseError> {
    if s.inFiles && s.current.Some? then
      match Finished(s, line)
      case Err(e) => Err(e)
      case Ok(files) => Ok(s.(files := files, current := None, inFiles := false))
    else Ok(s.(inFiles := false))
  }

  function Step(s: State, kind: Kind, line: nat): Result<State, ParseError> {
    match kind
    case Blank => Ok(s)
    case UrlLine(url) =>
      (match Finished(s, line)
       case Err(e) => Err(e)
       case Ok(files) => Ok(s.(files := files, current := Some(Partial(url, None, None)), inFiles := true)))
    case ShaLine(sha512) =>
      if s.current.None? then Err(ShaWithoutFile(line))
      else Ok(s.(current := Some(s.current.value.(sha512 := Some(sha512)))))
    case SizeLine(size) =>
      if s.current.None? then Err(SizeWithoutFile(line))
      else Ok(s.(current := Some(s.current.value.(size := Some(size)))))
    case FilesHeader => Ok(s.(inFiles := true))
    case TopLevel(key, value) =>
      (match LeaveFiles(s, line)
       case Err(e) => Err(e)
       case Ok(left) => TopStep(left, key, value, line))
    case Unsupported =>
      (match LeaveFiles(s, line)
       case Err(e) => Err(e)
       case Ok(_) => Err(UnsupportedLine(line)))
  }

  function Then(r: Result<State, ParseError>, kind: Kind, line: nat): Result<State, ParseError> {
    match r
    case Err(e) => Err(e)
    case Ok(s) => Step(s, kind, line)
  }

  /** The state after lines of the given kinds. */
  function Process(kinds: seq<Kind>): Result<State, ParseError> {
    if kinds == [] then Ok(INITIAL)
    else Then(Process(kinds[..|kinds| - 1]), kinds[|kinds| - 1], |kinds|)
  }

  function Complete(s: State, lineCount: nat): Result<Manifest, ParseError> {
    match Finished(s, lineCount)
    case Err(e) => Err(e)
    case Ok(files) =>
      if s.version.None? || s.version.value == "" then Err(MissingVersion)
      else if s.releaseDate.None? || s.releaseDate.value == "" then Err(MissingReleaseDate)
      else if files == [] then Err(MissingFiles)
      else Ok(Manifest(s.version.value, s.releaseDate.value, files, s.extras))
  }

  function CompleteIf(r: Result<State, ParseError>, lineCount: nat): Result<Manifest, ParseError> {
    match r
    case Err(e) => Err(e)
    case Ok(s) => Complete(s, lineCount)
  }

  function Parse(raw: string): Result<Manifest, ParseError> {
    var lines := SplitLines(raw);
    CompleteIf(Process(Kinds(lines)), |lines|)
  }

  lemma ProcessPush(kinds: seq<Kind>, kind: Kind)
    ensures Process(kinds + [kind]) == Then(Process(kinds), kind, |kinds| + 1)
  {
    assert (kinds + [kind])[..|kinds|] == kinds;
  }

  lemma ProcessNext(lines: seq<string>, i: nat, s: State)
    requires i < |lines| && Process(Kinds(lines)[..i]) == Ok(s)
    ensures Process(Kinds(lines)[..i + 1]) == Step(s, KindOf(lines[i]), i + 1)
  {
    ProcessNextKind(Kinds(lines), i, s);
  }

  lemma ProcessNextKind(kinds: seq<Kind>, i: nat, s: State)
    requires i < |kinds| && Process(kinds[..i]) == Ok(s)
    ensures Process(kinds[..i + 1]) == Step(s, kinds[i], i + 1)
  {
    assert kinds[..i + 1] == kinds[..i] + [kinds[i]];
    ProcessPush(kinds[..i], kinds[i]);
  }

  lemma {:induction false} FailureStays(kinds: seq<Kind>, i: nat)
    requires i <= |kinds| && Process(kinds[..i]).Err?
    ensures Process(kinds) == Process(kinds[..i])
  {
    if i == |kinds| {
      assert kinds[..i] == kinds;
    } else {
      assert kinds[..|kinds| - 1][..i] == kinds[..i];
      FailureStays(kinds[..|kinds| - 1], i);
    }
  }

  /** The parser's loop over the lines. */
  method ReadLines(lines: seq<string>) returns (r: Result<State, ParseError>)
    ensures r == Process(Kinds(lines))
  {
    var files: seq<File>, extras: map<string, Scalar> := [], map[];
    var version: Option<string>, releaseDate: Option<string> := None, None;
    var inFiles, current: Option<Partial> := false, None;
    ghost var kinds := Kinds(lines);
    for index := 0 to |lines|
      invariant Process(kinds[..index]) == Ok(State(version, releaseDate, inFiles, current, files, extras))
    {
      var s := State(version, releaseDate, inFiles, current, files, extras);
      ProcessNext(lines, index, s);
      var next := Step(s, KindOf(lines[index]), index + 1);
      if next.Err? {
        FailureStays(kinds, index + 1);
        return Err(next.error);
      }
      s := next.value;
      version, releaseDate, inFiles, current, files, extras :=
        s.version, s.releaseDate, s.inFiles, s.current, s.files, s.extras;
    }
    assert kinds[..|lines|] == kinds;
    return Ok(State(version, releaseDate, inFiles, current, files, extras));
  }

  method ParseUpdateManifest(raw: string) returns (r: Result<Manifest, ParseError>)
    ensures r == Parse(raw)
  {
    var lines := SplitLines(raw);
    var s :- ReadLines(lines);
    return Complete(s, |lines|);
  }

  // ----- the printer -----

  function FileLines(f: File): seq<string> {
    [URL_PREFIX + " " + f.url, SHA_PREFIX + " " + f.sha512, SIZE_PREFIX + " " + Digits(f.size)]
  }

  function AllFileLines(files: seq<File>): seq<string> {
    if files == [] then [] else AllFileLines(files[..|files| - 1]) + FileLines(files[|files| - 1])
  }

  function TopLine(key: string, value: string): string {
    key + ":" + " " + value
  }

  function ExtraLines(extras: map<string, Scalar>, keys: seq<string>): seq<string>
    requires forall k :: k in keys ==> k in extras
  {
    if keys == [] then []
    else
      var last := keys[|keys| - 1];
      ExtraLines(extras, keys[..|keys| - 1]) + [TopLine(last, PrintScalar(extras[last]))]
  }

  function Header(version: string): seq<string> {
    [TopLine("version", Quote(version)), FILES_LINE]
  }

  ghost predicate Distinct(keys: seq<string>) {
    forall i, j :: 0 <= i < j < |keys| ==> keys[i] != keys[j]
  }

  /** The keys, each once, in the order that they are printed in. */
  ghost predicate Enumerates(keys: seq<string>, extras: map<string, Scalar>) {
    Distinct(keys) && forall k :: k in keys <==> k in extras
  }

  function ManifestLines(m: Manifest, keys: seq<string>): seq<string>
    requires forall k :: k in keys ==> k in m.extras
  {
    Header(m.version) + AllFileLines(m.files) + ExtraLines(m.extras, keys) + [TopLine("releaseDate", Quote(m.releaseDate))] + [""]
  }

  function Serialize(m: Manifest, keys: seq<string>): string
    requires forall k :: k in keys ==> k in m.extras
  {
    Join('\n', ManifestLines(m, keys))
  }

  lemma FileLinesStep(before: seq<string>, files: seq<File>, i: nat)
    requires i < |files|
    ensures before + AllFileLines(files[..i + 1]) == before + AllFileLines(files[..i]) + FileLines(files[i])
  {
    assert files[..i + 1][..i] == files[..i];
    Regroup(before, AllFileLines(files[..i]), FileLines(files[i]));
  }

  lemma ExtraLinesStep(before: seq<string>, extras: map<string, Scalar>, keys: seq<string>, i: nat)
    requires i < |keys| && forall k :: k in keys ==> k in extras
    ensures before + ExtraLines(extras, keys[..i + 1])
         == before + ExtraLines(extras, keys[..i]) + [TopLine(keys[i], PrintScalar(extras[keys[i]]))]
  {
    assert keys[..i + 1][..i] == keys[..i];
    Regroup(before, ExtraLines(extras, keys[..i]), [TopLine(keys[i], PrintScalar(extras[keys[i]]))]);
  }

  lemma PushThree<T>(s: seq<T>, a: T, b: T, c: T)
    ensures s + [a] + [b] + [c] == s + [a, b, c]
  {
  }

  ghost predicate Ascending(keys: seq<string>) {
    forall i, j :: 0 <= i < j < |keys| ==> LexLe(keys[i], keys[j])
  }

  /** Puts `key` behind every key that is not above it. */
  function InsertKey(keys: seq<string>, key: string): seq<string> {
    if keys == [] || LexLe(keys[|keys| - 1], key) then keys + [key]
    else InsertKey(keys[..|keys| - 1], key) + [keys[|keys| - 1]]
  }

  lemma {:induction false} InsertKeyMembers(keys: seq<string>, key: string)
    ensures |InsertKey(keys, key)| == |keys| + 1
    ensures forall k :: k in InsertKey(keys, key) <==> k in keys || k == key
  {
    if keys != [] && !LexLe(keys[|keys| - 1], key) {
      assert keys == keys[..|keys| - 1] + [keys[|keys| - 1]];
      InsertKeyMembers(keys[..|keys| - 1], key);
    }
  }

  lemma {:induction false} InsertKeyAscends(keys: seq<string>, key: string)
    requires Ascending(keys) && Distinct(keys) && key !in keys
    ensures Ascending(InsertKey(keys, key)) && Distinct(InsertKey(keys, key))
  {
    if keys != [] {
      var front, last := keys[..|keys| - 1], keys[|keys| - 1];
      LexLeTotal(last, key);
      if LexLe(last, key) {
        forall i | 0 <= i < |keys| ensures LexLe(keys[i], key) {
          LexLeTotal(last, last);
          LexLeTransitive(keys[i], last, key);
        }
      } else {
        InsertKeyAscends(front, key);
        InsertKeyMembers(front, key);
        var r := InsertKey(front, key);
        forall i | 0 <= i < |r| ensures LexLe(r[i], last) && r[i] != last {
          assert r[i] in r;
        }
      }
    }
  }

  /** Only one ascending list holds given keys once each: the printed order is determined. */
  lemma {:induction false} AscendingIsUnique(a: seq<string>, b: seq<string>)
    requires Ascending(a) && Distinct(a) && Ascending(b) && Distinct(b) && forall k :: k in a <==> k in b
    ensures a == b
    decreases |a|
  {
    assert b != [] ==> b[0] in b;
    if a != [] {
      assert a[0] in b;
      var x, y, front, back := a[|a| - 1], b[|b| - 1], a[..|a| - 1], b[..|b| - 1];
      assert x in b && y in a;
      LexLeTotal(x, y);
      assert x == y;
      assert a == front + [x] && b == back + [y];
      forall k ensures k in front <==> k in back {
        assert k in front <==> k in a && k != x;
        assert k in back <==> k in b && k != x;
      }
      AscendingIsUnique(front, back);
    }
  }

  method SortedKeys(extras: map<string, Scalar>) returns (keys: seq<string>)
    ensures Enumerates(keys, extras) && Ascending(keys)
  {
    keys := [];
    var left := extras.Keys;
    while left != {}
      invariant left <= extras.Keys
      invariant forall k :: k in keys <==> k in extras && k !in left
      invariant Distinct(keys) && Ascending(keys)
    {
      var key :| key in left;
      InsertKeyAscends(keys, key);
      InsertKeyMembers(keys, key);
      keys := InsertKey(keys, key);
      left := left - {key};
    }
  }

  method SerializeUpdateManifest(m: Manifest) returns (r: string)
    ensures exists keys :: Enumerates(keys, m.extras) && Ascending(keys) && r == Serialize(m, keys)
  {
    var keys := SortedKeys(m.extras);
    r := PrintManifest(m, keys);
  }

  method PrintManifest(m: Manifest, keys: seq<string>) returns (r: string)
    requires Enumerates(keys, m.extras)
    ensures r == Serialize(m, keys)
  {
    var lines := Header(m.version);
    assert lines + [] == lines;
    for i := 0 to |m.files|
      invariant lines == Header(m.version) + AllFileLines(m.files[..i])
    {
      var file := m.files[i];
      FileLinesStep(Header(m.version), m.files, i);
      PushThree(lines, URL_PREFIX + " " + file.url, SHA_PREFIX + " " + file.sha512, SIZE_PREFIX + " " + Digits(file.size));
      lines := lines + [URL_PREFIX + " " + file.url];
      lines := lines + [SHA_PREFIX + " " + file.sha512];
      lines := lines + [SIZE_PREFIX + " " + Digits(file.size)];
    }
    assert m.files[..|m.files|] == m.files;
    ghost var before := lines;
    assert before + [] == before;
    for i := 0 to |keys|
      invariant lines == before + ExtraLines(m.extras, keys[..i])
    {
      ExtraLinesStep(before, m.extras, keys, i);
      lines := lines + [TopLine(keys[i], PrintScalar(m.extras[keys[i]]))];
    }
    assert keys[..|keys|] == keys;
    lines := lines + [TopLine("releaseDate", Quote(m.releaseDate))];
    lines := lines + [""];
    return Join('\n', lines);
  }

  // ----- splitting undoes joining -----

  lemma {:induction false} SplitAfterLine(line: string, rest: string)
    requires TerminatorFree(line)
    ensures SplitLines(line + ['\n'] + rest) == [line] + SplitLines(rest)
  {
    var s := line + ['\n'] + rest;
    if line == "" {
      assert s[1..] == rest;
    } else {
      assert s[1..] == line[1..] + "\n" + rest;
      SplitAfterLine(line[1..], rest);
      assert s[0] == line[0] && [line[0]] + line[1..] == line;
      assert ([line[1..]] + SplitLines(rest))[1..] == SplitLines(rest);
    }
  }

  lemma {:induction false} SplitOneLine(line: string)
    requires TerminatorFree(line)
    ensures SplitLines(line) == [line]
  {
    if line != "" {
      SplitOneLine(line[1..]);
      assert [line[0]] + line[1..] == line;
    }
  }

  lemma {:induction false} SplitJoinLines(lines: seq<string>)
    requires lines != [] && forall k :: 0 <= k < |lines| ==> TerminatorFree(lines[k])
    ensures SplitLines(Join('\n', lines)) == lines
  {
    if |lines| == 1 {
      SplitOneLine(lines[0]);
    } else {
      SplitAfterLine(lines[0], Join('\n', lines[1..]));
      SplitJoinLines(lines[1..]);
    }
  }

  // ----- quoting and numbers -----

  lemma {:induction false} UndoubleDoubled(s: string)
    ensures Undouble(DoubleQuotes(s)) == s
    ensures TerminatorFree(s) ==> TerminatorFree(DoubleQuotes(s))
  {
    if s != "" {
      UndoubleDoubled(s[1..]);
      var d := DoubleQuotes(s);
      if s[0] == '\'' {
        assert d[2..] == DoubleQuotes(s[1..]);
      } else {
        assert d[1..] == DoubleQuotes(s[1..]);
      }
      assert [s[0]] + s[1..] == s;
    }
  }

  lemma QuotedIsRead(s: string)
    ensures var q := Quote(s);
      && q != "" && IsTrimmed(q) && ParseScalar(q) == Text(s) && (TerminatorFree(s) ==> TerminatorFree(q))
  {
    var q := Quote(s);
    UndoubleDoubled(s);
    assert q[1..|q| - 1] == DoubleQuotes(s);
    TrimmedIsFixed(q);
  }

  lemma {:induction false} DigitsAreRead(n: nat)
    ensures NatOf(Digits(n)) == n
  {
    var d := Digits(n);
    assert d[..|d| - 1] == if n < 10 then "" else Digits(n / 10);
    if n >= 10 {
      DigitsAreRead(n / 10);
    }
  }

  /** As numbers are held: no zero ends the fraction, and zero is not negative. */
  predicate NormalNumber(v: Scalar)
    requires v.Number?
  {
    && AllDigits(v.fraction)
    && (v.fraction == "" || v.fraction[|v.fraction| - 1] != '0')
    && (v.negative ==> v.whole != 0 || v.fraction != "")
  }

  lemma {:induction false} PointAfterDigits(d: string, rest: string)
    requires AllDigits(d) && (rest == "" || rest[0] == '.')
    ensures PointAt(d + rest) == |d|
  {
    if d == "" {
      assert d + rest == rest;
    } else {
      assert (d + rest)[1..] == d[1..] + rest;
      PointAfterDigits(d[1..], rest);
    }
  }

  lemma DecimalParts(d: string, fraction: string)
    requires d != "" && AllDigits(d) && AllDigits(fraction)
    ensures var s := d + (if fraction == "" then "" else "." + fraction);
      && PointAt(s) == |d| && s[..|d|] == d && (fraction != "" ==> |d| + 1 < |s| && s[|d| + 1..] == fraction)
      && (fraction == "" ==> s == d) && IsDigit(s[0]) && IsDigitOrPoint(s)
  {
    var rest := if fraction == "" then "" else "." + fraction;
    PointAfterDigits(d, rest);
    if fraction != "" {
      assert rest[1..] == fraction;
    }
  }

  lemma DecimalIsRead(negative: bool, whole: nat, fraction: string)
    requires NormalNumber(Number(negative, whole, fraction))
    ensures var s := PrintNumber(false, whole, fraction);
      IsDecimal(s) && DecimalOf(negative, s) == Number(negative, whole, fraction) && IsDigit(s[0]) && IsDigitOrPoint(s)
  {
    var d := Digits(whole);
    var rest := if fraction == "" then "" else "." + fraction;
    assert "" + d == d;
    DecimalParts(d, fraction);
    DigitsAreRead(whole);
    ReadParts(negative, d + rest, d, fraction);
  }

  lemma ReadParts(negative: bool, s: string, d: string, fraction: string)
    requires PointAt(s) == |d| && |d| > 0 && |d| <= |s| && s[..|d|] == d && AllDigits(d) && AllDigits(fraction)
    requires if fraction == "" then s == d else |d| + 1 < |s| && s[|d| + 1..] == fraction
    requires fraction == "" || fraction[|fraction| - 1] != '0'
    ensures IsDecimal(s) && DecimalOf(negative, s) == MakeNumber(negative, NatOf(d), fraction)
  {
  }

  ghost predicate IsDigitOrPoint(s: string) {
    forall k :: 0 <= k < |s| ==> IsDigit(s[k]) || s[k] == '.'
  }

  lemma SignInFront(whole: nat, fraction: string)
    ensures PrintNumber(true, whole, fraction) == "-" + PrintNumber(false, whole, fraction)
  {
    var d, rest := Digits(whole), if fraction == "" then "" else "." + fraction;
    assert "-" + d + rest == "-" + ("" + d + rest);
  }

  lemma NumberIsRead(negative: bool, whole: nat, fraction: string)
    requires NormalNumber(Number(negative, whole, fraction))
    ensures var t := PrintNumber(negative, whole, fraction);
      t != "" && IsTrimmed(t) && TerminatorFree(t) && ParseScalar(t) == Number(negative, whole, fraction)
  {
    var s := PrintNumber(false, whole, fraction);
    DecimalIsRead(negative, whole, fraction);
    if negative {
      SignInFront(whole, fraction);
      TrimmedNumber(true, s, "-" + s);
      ReadNegative(s, "-" + s);
    } else {
      assert "" + s == s;
      TrimmedNumber(false, s, s);
      ReadPlain(s);
    }
  }

  lemma NoFlagWord(t: string)
    requires t != "" && t[0] != 't' && t[0] != 'f'
    ensures t != "true" && t != "false"
  {
    assert "true"[0] == 't' && "false"[0] == 'f';
  }

  lemma ReadPlain(t: string)
    requires t != "" && IsTrimmed(t) && IsDigit(t[0]) && IsDecimal(t)
    ensures ParseScalar(t) == DecimalOf(false, t)
  {
    TrimmedIsFixed(t);
    NoFlagWord(t);
  }

  lemma SignIsNoDecimal(t: string)
    requires t != "" && t[0] == '-'
    ensures !IsDecimal(t)
  {
    assert t[..PointAt(t)] != "" ==> t[..PointAt(t)][0] == '-';
  }

  lemma ReadNegative(s: string, t: string)
    requires IsDecimal(s) && t == "-" + s && IsTrimmed(t)
    ensures ParseScalar(t) == DecimalOf(true, s)
  {
    assert t[0] == '-' && t[1..] == s;
    TrimmedIsFixed(t);
    NoFlagWord(t);
    SignIsNoDecimal(t);
  }

  lemma TrimmedNumber(negative: bool, s: string, t: string)
    requires s != "" && IsDigitOrPoint(s) && t == (if negative then "-" else "") + s
    ensures t != "" && IsTrimmed(t) && TerminatorFree(t)
    ensures forall k :: 0 <= k < |t| ==> IsDigit(t[k]) || t[k] == '.' || t[k] == '-'
  {
  }

  ghost predicate NormalScalar(v: Scalar) {
    v.Number? ==> NormalNumber(v)
  }

  ghost predicate TerminatorFreeScalar(v: Scalar) {
    v.Text? ==> TerminatorFree(v.text)
  }

  lemma FlagIsRead(on: bool)
    ensures var t := if on then "true" else "false";
      t != "" && IsTrimmed(t) && TerminatorFree(t) && ParseScalar(t) == Flag(on)
  {
    var t := if on then "true" else "false";
    TrimmedIsFixed(t);
    assert "false"[0] == 'f' && "true"[0] == 't';
  }

  /** Every scalar is read back as itself, also a text that looks like a number or a flag. */
  lemma ScalarIsRead(v: Scalar)
    requires NormalScalar(v)
    ensures PrintScalar(v) != "" && IsTrimmed(PrintScalar(v)) && ParseScalar(PrintScalar(v)) == v
    ensures TerminatorFreeScalar(v) ==> TerminatorFree(PrintScalar(v))
  {
    match v
    case Text(text) => QuotedIsRead(text);
    case Number(negative, whole, fraction) => NumberIsRead(negative, whole, fraction);
    case Flag(on) => FlagIsRead(on);
  }

  // ----- what a printed line says -----

  lemma {:induction false} TrimStartKeepsEnd(s: string)
    requires s != "" && !IsSpace(s[|s| - 1])
    ensures var r := TrimStart(s); r != "" && r[|r| - 1] == s[|s| - 1]
  {
    if IsSpace(s[0]) {
      TrimStartKeepsEnd(s[1..]);
    }
  }

  lemma {:induction false} TrimKeepsFreedom(s: string)
    requires TerminatorFree(s)
    ensures TerminatorFree(TrimStart(s)) && TerminatorFree(TrimEnd(s))
    decreases |s|
  {
    if s != "" {
      if IsSpace(s[0]) {
        TrimKeepsFreedom(s[1..]);
      }
      if IsSpace(s[|s| - 1]) {
        TrimKeepsFreedom(s[..|s| - 1]);
      }
    }
  }

  ghost function Inner(u: string): string {
    TrimStart(TrimEnd(u))
  }

  ghost predicate Nonblank(u: string) {
    TrimEnd(u) != ""
  }

  lemma InnerIsTrimmed(u: string)
    requires Nonblank(u)
    ensures Inner(u) != "" && IsTrimmed(Inner(u)) && Trim(Inner(u)) == Inner(u)
    ensures TerminatorFree(u) ==> TerminatorFree(Inner(u))
  {
    TrimStartKeepsEnd(TrimEnd(u));
    TrimmedIsFixed(Inner(u));
    if TerminatorFree(u) {
      TrimKeepsFreedom(u);
      TrimKeepsFreedom(TrimEnd(u));
    }
  }

  lemma FieldBehind(prefix: string, t: string)
    requires TrimStart(t) != "" && TerminatorFree(TrimStart(t))
    ensures Field(prefix, prefix + (" " + t)) == Some(TrimStart(t))
  {
    assert (prefix + (" " + t))[|prefix|..] == " " + t;
    assert (" " + t)[1..] == t;
  }

  lemma NoFieldBehind(prefix: string)
    ensures Field(prefix, prefix) == None
  {
    assert prefix[|prefix|..] == "";
  }

  /** A prefix that ends visibly, a space, and a value. */
  lemma FieldPrinted(prefix: string, u: string)
    requires prefix != "" && !IsSpace(prefix[|prefix| - 1]) && TerminatorFree(u)
    ensures var line := TrimEnd(prefix + " " + u);
      if Nonblank(u) then line == prefix + (" " + TrimEnd(u)) && Field(prefix, line) == Some(Inner(u))
      else line == prefix && Field(prefix, line) == None
  {
    assert prefix + " " + u == prefix + (" " + u);
    TrimEndConcat(prefix, " " + u);
    TrimEndConcat(" ", u);
    if Nonblank(u) {
      InnerIsTrimmed(u);
      FieldBehind(prefix, TrimEnd(u));
    } else {
      NoFieldBehind(prefix);
    }
  }

  lemma PrefixesDiffer(line: string)
    ensures URL_PREFIX <= line ==> |line| >= 8 && line[0] == ' ' && line[2] == '-'
    ensures SHA_PREFIX <= line ==> |line| >= 11 && line[0] == ' ' && line[2] == ' ' && line[5] == 'h'
    ensures SIZE_PREFIX <= line ==> |line| >= 9 && line[0] == ' ' && line[2] == ' ' && line[5] == 'i'
    ensures line == FILES_LINE ==> line[0] == 'f'
  {
    assert URL_PREFIX[0] == ' ' && URL_PREFIX[2] == '-';
    assert SHA_PREFIX[0] == ' ' && SHA_PREFIX[2] == ' ' && SHA_PREFIX[5] == 'h';
    assert SIZE_PREFIX[0] == ' ' && SIZE_PREFIX[2] == ' ' && SIZE_PREFIX[5] == 'i';
    assert FILES_LINE[0] == 'f';
  }

  ghost function Normal(u: string): string {
    StripSingleQuotes(Inner(u))
  }

  lemma UrlLineKind(u: string)
    requires TerminatorFree(u)
    ensures KindOf(URL_PREFIX + " " + u) == if Nonblank(u) then UrlLine(Normal(u)) else Unsupported
  {
    FieldPrinted(URL_PREFIX, u);
    var line := TrimEnd(URL_PREFIX + " " + u);
    PrefixesDiffer(line);
    if Nonblank(u) {
      InnerIsTrimmed(u);
    }
  }

  lemma ShaLineKind(u: string)
    requires TerminatorFree(u)
    ensures KindOf(SHA_PREFIX + " " + u) == if Nonblank(u) then ShaLine(Normal(u)) else Unsupported
  {
    FieldPrinted(SHA_PREFIX, u);
    var line := TrimEnd(SHA_PREFIX + " " + u);
    PrefixesDiffer(line);
    if Nonblank(u) {
      InnerIsTrimmed(u);
    }
  }

  lemma VisibleIsFixed(s: string)
    requires s != "" && forall k :: 0 <= k < |s| ==> !IsSpace(s[k])
    ensures IsTrimmed(s) && TerminatorFree(s) && TrimEnd(s) == s && Inner(s) == s
  {
  }

  lemma SizeLineKind(n: nat)
    ensures KindOf(SIZE_PREFIX + " " + Digits(n)) == SizeLine(n)
  {
    VisibleIsFixed(Digits(n));
    FieldPrinted(SIZE_PREFIX, Digits(n));
    DigitsAreRead(n);
    PrefixesDiffer(TrimEnd(SIZE_PREFIX + " " + Digits(n)));
  }

  lemma {:induction false} KeyRunEnds(key: string, rest: string)
    requires (forall k :: 0 <= k < |key| ==> KeyChar(key[k])) && (rest != "" ==> !KeyChar(rest[0]))
    ensures KeyEnd(key + rest) == |key|
  {
    if key == "" {
      assert key + rest == rest;
    } else {
      assert (key + rest)[1..] == key[1..] + rest;
      KeyRunEnds(key[1..], rest);
    }
  }

  lemma LetterLineKind(line: string)
    requires line != "" && IsLetter(line[0]) && line != FILES_LINE
    ensures Classify(line) == TopLevelOf(line)
  {
    PrefixesDiffer(line);
  }

  lemma TopLevelRead(line: string, key: string, value: string)
    requires IsKey(key) && key <= line && KeyEnd(line) == |key| && Field(key + ":", line) == Some(value)
    ensures TopLevelOf(line) == TopLevel(key, ParseScalar(value))
  {
    assert line[..|key|] == key;
  }

  lemma TopLineShape(key: string, value: string, line: string)
    requires IsKey(key) && value != "" && line == key + ":" + (" " + value)
    ensures key <= line && KeyEnd(line) == |key| && IsLetter(line[0]) && line != FILES_LINE
  {
    assert line == key + (":" + (" " + value));
    KeyRunEnds(key, ":" + (" " + value));
    assert line[0] == key[0] && line[|key|] == ':' && |key| < |line| - 1;
    if line == FILES_LINE {
      FilesLineShape(line, |key|);
    }
  }

  lemma TopLineKind(key: string, value: string)
    requires IsKey(key) && value != "" && IsTrimmed(value) && TerminatorFree(value)
    ensures KindOf(TopLine(key, value)) == TopLevel(key, ParseScalar(value))
  {
    TrimmedIsFixed(value);
    FieldPrinted(key + ":", value);
    var line := key + ":" + (" " + value);
    TopLineShape(key, value, line);
    LetterLineKind(line);
    TopLevelRead(line, key, value);
  }

  lemma FilesLineShape(line: string, k: nat)
    requires line == FILES_LINE && k < |line| && line[k] == ':'
    ensures k == |line| - 1
  {
  }

  // ----- the kinds of the printed lines -----

  ghost function UrlKind(u: string): Kind {
    if Nonblank(u) then UrlLine(Normal(u)) else Unsupported
  }

  ghost function ShaKind(u: string): Kind {
    if Nonblank(u) then ShaLine(Normal(u)) else Unsupported
  }

  ghost function FileKinds(f: File): seq<Kind> {
    [UrlKind(f.url), ShaKind(f.sha512), SizeLine(f.size)]
  }

  ghost function AllFileKinds(files: seq<File>): seq<Kind> {
    if files == [] then [] else AllFileKinds(files[..|files| - 1]) + FileKinds(files[|files| - 1])
  }

  ghost function HeaderKinds(version: string): seq<Kind> {
    [TopLevel("version", Text(version)), FilesHeader]
  }

  ghost function ExtraKinds(extras: map<string, Scalar>, keys: seq<string>): seq<Kind>
    requires forall k :: k in keys ==> k in extras
  {
    if keys == [] then []
    else
      var last := keys[|keys| - 1];
      ExtraKinds(extras, keys[..|keys| - 1]) + [TopLevel(last, extras[last])]
  }

  ghost predicate FileTerminatorFree(f: File) {
    TerminatorFree(f.url) && TerminatorFree(f.sha512)
  }

  ghost predicate Reserved(key: string) {
    key == "version" || key == "releaseDate" || key == "path" || key == "sha512"
  }

  ghost predicate NormalExtra(key: string, v: Scalar) {
    IsKey(key) && TerminatorFreeScalar(v) && NormalScalar(v)
  }

  lemma KindsConcat(a: seq<string>, b: seq<string>)
    ensures Kinds(a + b) == Kinds(a) + Kinds(b)
  {
  }

  lemma KindsOfOne(line: string)
    ensures Kinds([line]) == [KindOf(line)]
  {
  }

  lemma FilesLineKind()
    ensures KindOf(FILES_LINE) == FilesHeader
  {
    VisibleIsFixed(FILES_LINE);
    PrefixesDiffer(FILES_LINE);
  }

  lemma QuotedLineKind(key: string, text: string)
    requires IsKey(key) && TerminatorFree(text)
    ensures KindOf(TopLine(key, Quote(text))) == TopLevel(key, Text(text))
  {
    QuotedIsRead(text);
    TopLineKind(key, Quote(text));
  }

  lemma FixedKeys()
    ensures IsKey("version") && IsKey("releaseDate")
  {
    KeyRunEnds("version", "");
    KeyRunEnds("releaseDate", "");
    assert "version" + "" == "version" && "releaseDate" + "" == "releaseDate";
  }

  lemma KindsOfHeader(version: string)
    requires TerminatorFree(version)
    ensures Kinds(Header(version)) == HeaderKinds(version)
  {
    FixedKeys();
    QuotedLineKind("version", version);
    FilesLineKind();
    KindsOfTwo(TopLine("version", Quote(version)), FILES_LINE, TopLevel("version", Text(version)), FilesHeader);
  }

  lemma KindsOfTwo(a: string, b: string, ka: Kind, kb: Kind)
    requires KindOf(a) == ka && KindOf(b) == kb
    ensures Kinds([a, b]) == [ka, kb]
  {
  }

  lemma KindsOfFile(f: File)
    requires FileTerminatorFree(f)
    ensures Kinds(FileLines(f)) == FileKinds(f)
  {
    UrlLineKind(f.url);
    ShaLineKind(f.sha512);
    SizeLineKind(f.size);
  }

  lemma {:induction false} KindsOfFiles(files: seq<File>)
    requires forall k :: 0 <= k < |files| ==> FileTerminatorFree(files[k])
    ensures Kinds(AllFileLines(files)) == AllFileKinds(files)
  {
    if files != [] {
      KindsOfFiles(files[..|files| - 1]);
      KindsOfFile(files[|files| - 1]);
      KindsConcat(AllFileLines(files[..|files| - 1]), FileLines(files[|files| - 1]));
    }
  }

  lemma {:induction false} KindsOfExtras(extras: map<string, Scalar>, keys: seq<string>)
    requires forall k :: k in keys ==> k in extras && NormalExtra(k, extras[k])
    ensures Kinds(ExtraLines(extras, keys)) == ExtraKinds(extras, keys)
  {
    if keys != [] {
      var front, last := keys[..|keys| - 1], keys[|keys| - 1];
      assert last in keys;
      assert forall k :: k in front ==> k in keys;
      KindsOfExtras(extras, front);
      var line := TopLine(last, PrintScalar(extras[last]));
      ScalarIsRead(extras[last]);
      TopLineKind(last, PrintScalar(extras[last]));
      KindsOfOne(line);
      KindsConcat(ExtraLines(extras, front), [line]);
    }
  }

  // ----- the parser over those kinds -----

  ghost function NormalFile(f: File): File {
    File(Normal(f.url), Normal(f.sha512), f.size)
  }

  ghost function NormalFiles(files: seq<File>): seq<File> {
    if files == [] then [] else NormalFiles(files[..|files| - 1]) + [NormalFile(files[|files| - 1])]
  }

  ghost predicate FileNonblank(f: File) {
    Nonblank(f.url) && Nonblank(f.sha512)
  }

  ghost predicate AllNonblank(files: seq<File>) {
    files == [] || (AllNonblank(files[..|files| - 1]) && FileNonblank(files[|files| - 1]))
  }

  /** The parser's state after the header and the lines of `files`. */
  ghost function FilesState(version: string, files: seq<File>): State {
    if files == [] then State(Some(version), None, true, None, [], map[])
    else
      var last := NormalFile(files[|files| - 1]);
      State(Some(version), None, true, Some(Partial(last.url, Some(last.sha512), Some(last.size))),
            NormalFiles(files[..|files| - 1]), map[])
  }

  lemma FilesStateFinishes(version: string, files: seq<File>, line: nat)
    ensures Finished(FilesState(version, files), line) == Ok(NormalFiles(files))
  {
  }

  /** The three lines of a file, from any state that can finish. */
  lemma FileSteps(s: State, done: seq<File>, f: File, n: nat)
    requires Finished(s, n) == Ok(done)
    ensures var r := Then(Then(Step(s, UrlKind(f.url), n), ShaKind(f.sha512), n + 1), SizeLine(f.size), n + 2);
      if FileNonblank(f) then
        r == Ok(s.(files := done, inFiles := true,
                   current := Some(Partial(Normal(f.url), Some(Normal(f.sha512)), Some(f.size)))))
      else r.Err?
  {
  }

  lemma ThreePushes(kinds: seq<Kind>, a: Kind, b: Kind, c: Kind)
    ensures Process(kinds + [a, b, c])
         == Then(Then(Then(Process(kinds), a, |kinds| + 1), b, |kinds| + 2), c, |kinds| + 3)
  {
    ProcessPush(kinds, a);
    ProcessPush(kinds + [a], b);
    ProcessPush(kinds + [a] + [b], c);
    assert kinds + [a] + [b] + [c] == kinds + [a, b, c];
  }

  lemma OneFileProcesses(kinds: seq<Kind>, version: string, front: seq<File>, f: File)
    requires Process(kinds).Err? || Process(kinds) == Ok(FilesState(version, front))
    ensures var r := Process(kinds + FileKinds(f));
      if Process(kinds).Ok? && FileNonblank(f) then r == Ok(FilesState(version, front + [f])) else r.Err?
  {
    ThreePushes(kinds, UrlKind(f.url), ShaKind(f.sha512), SizeLine(f.size));
    if Process(kinds).Ok? {
      FilesStateFinishes(version, front, |kinds| + 1);
      FileSteps(FilesState(version, front), NormalFiles(front), f, |kinds| + 1);
      assert (front + [f])[..|front|] == front;
    }
  }

  lemma HeaderProcesses(version: string)
    ensures Process(HeaderKinds(version)) == Ok(FilesState(version, []))
  {
    var top := TopLevel("version", Text(version));
    ProcessPush([], top);
    ProcessPush([top], FilesHeader);
    assert [] + [top] == [top] && [top] + [FilesHeader] == HeaderKinds(version);
  }

  lemma {:induction false} FilesProcess(version: string, files: seq<File>)
    ensures var r := Process(HeaderKinds(version) + AllFileKinds(files));
      if AllNonblank(files) then r == Ok(FilesState(version, files)) else r.Err?
  {
    var header := HeaderKinds(version);
    if files == [] {
      HeaderProcesses(version);
      assert header + [] == header;
    } else {
      var front, last := files[..|files| - 1], files[|files| - 1];
      FilesProcess(version, front);
      OneFileProcesses(header + AllFileKinds(front), version, front, last);
      Regroup(header, AllFileKinds(front), FileKinds(last));
      assert front + [last] == files;
    }
  }

  ghost function Picked(extras: map<string, Scalar>, keys: seq<string>): map<string, Scalar>
    requires forall k :: k in keys ==> k in extras
  {
    if keys == [] then map[]
    else
      var last := keys[|keys| - 1];
      Picked(extras, keys[..|keys| - 1])[last := extras[last]]
  }

  lemma {:induction false} PickedAll(extras: map<string, Scalar>, keys: seq<string>)
    requires forall k :: k in keys ==> k in extras
    ensures forall k :: k in Picked(extras, keys) <==> k in keys
    ensures forall k :: k in keys ==> Picked(extras, keys)[k] == extras[k]
  {
    if keys != [] {
      assert keys == keys[..|keys| - 1] + [keys[|keys| - 1]];
      PickedAll(extras, keys[..|keys| - 1]);
    }
  }

  ghost function ExtrasState(m: Manifest, keys: seq<string>): State
    requires forall k :: k in keys ==> k in m.extras
  {
    if keys == [] then FilesState(m.version, m.files)
    else State(Some(m.version), None, false, None, NormalFiles(m.files), Picked(m.extras, keys))
  }

  lemma ExtrasStateLeaves(m: Manifest, keys: seq<string>, line: nat)
    requires forall k :: k in keys ==> k in m.extras
    ensures LeaveFiles(ExtrasState(m, keys), line)
         == Ok(State(Some(m.version), None, false, None, NormalFiles(m.files), Picked(m.extras, keys)))
  {
    FilesStateFinishes(m.version, m.files, line);
  }

  lemma TopLevelSteps(s: State, left: State, key: string, v: Scalar, line: nat)
    requires LeaveFiles(s, line) == Ok(left) && !Reserved(key)
    ensures Step(s, TopLevel(key, v), line) == Ok(left.(extras := left.extras[key := v]))
  {
  }

  lemma OneExtraProcesses(kinds: seq<Kind>, m: Manifest, front: seq<string>, key: string)
    requires (forall k :: k in front ==> k in m.extras) && key in m.extras && !Reserved(key)
    requires Process(kinds) == Ok(ExtrasState(m, front))
    ensures Process(kinds + [TopLevel(key, m.extras[key])]) == Ok(ExtrasState(m, front + [key]))
  {
    ProcessPush(kinds, TopLevel(key, m.extras[key]));
    ExtrasStateLeaves(m, front, |kinds| + 1);
    var left := State(Some(m.version), None, false, None, NormalFiles(m.files), Picked(m.extras, front));
    TopLevelSteps(ExtrasState(m, front), left, key, m.extras[key], |kinds| + 1);
    assert (front + [key])[..|front|] == front;
  }

  lemma FrontMembers(keys: seq<string>)
    requires keys != []
    ensures keys[|keys| - 1] in keys && forall k :: k in keys[..|keys| - 1] ==> k in keys
  {
  }

  lemma {:induction false} ExtrasProcess(before: seq<Kind>, m: Manifest, keys: seq<string>)
    requires Process(before) == Ok(FilesState(m.version, m.files))
    requires forall k :: k in keys ==> k in m.extras && !Reserved(k)
    ensures Process(before + ExtraKinds(m.extras, keys)) == Ok(ExtrasState(m, keys))
  {
    if keys == [] {
      assert before + [] == before;
    } else {
      var front, last := keys[..|keys| - 1], keys[|keys| - 1];
      FrontMembers(keys);
      ExtrasProcess(before, m, front);
      OneExtraProcesses(before + ExtraKinds(m.extras, front), m, front, last);
      assert front + [last] == keys;
      ExtraKindsPush(before, m.extras, keys);
    }
  }

  lemma ExtraKindsPush(before: seq<Kind>, extras: map<string, Scalar>, keys: seq<string>)
    requires keys != [] && forall k :: k in keys ==> k in extras
    ensures var front, last := keys[..|keys| - 1], keys[|keys| - 1];
      before + ExtraKinds(extras, keys) == before + ExtraKinds(extras, front) + [TopLevel(last, extras[last])]
  {
  }

  // ----- the round trip -----

  /** What reading a printed manifest gives. */
  ghost function ReadBack(m: Manifest): Manifest {
    Manifest(m.version, m.releaseDate, NormalFiles(m.files), m.extras)
  }

  /** No text of the manifest holds a line terminator, and its keys are legal. */
  ghost predicate Printable(m: Manifest) {
    && TerminatorFree(m.version) && TerminatorFree(m.releaseDate)
    && (forall k :: 0 <= k < |m.files| ==> FileTerminatorFree(m.files[k]))
    && (forall k :: k in m.extras ==> IsKey(k) && !Reserved(k) && TerminatorFreeScalar(m.extras[k]))
  }

  // Numbers as a reader holds them.
  ghost predicate NormalNumbers(m: Manifest) {
    forall k :: k in m.extras ==> NormalScalar(m.extras[k])
  }

  ghost function ManifestKinds(m: Manifest, keys: seq<string>): seq<Kind>
    requires forall k :: k in keys ==> k in m.extras
  {
    HeaderKinds(m.version) + AllFileKinds(m.files) + ExtraKinds(m.extras, keys)
    + [TopLevel("releaseDate", Text(m.releaseDate))] + [Blank]
  }

  lemma KindsOfManifest(m: Manifest, keys: seq<string>)
    requires Enumerates(keys, m.extras) && Printable(m) && NormalNumbers(m)
    ensures Kinds(ManifestLines(m, keys)) == ManifestKinds(m, keys)
  {
    KindsOfHeader(m.version);
    KindsOfFiles(m.files);
    KindsOfExtras(m.extras, keys);
    KindsOfDate(m.releaseDate);
    KindsOfOne("");
    KindsOfFive(Header(m.version), AllFileLines(m.files), ExtraLines(m.extras, keys),
                [TopLine("releaseDate", Quote(m.releaseDate))], [""]);
  }

  lemma KindsOfDate(releaseDate: string)
    requires TerminatorFree(releaseDate)
    ensures Kinds([TopLine("releaseDate", Quote(releaseDate))]) == [TopLevel("releaseDate", Text(releaseDate))]
  {
    FixedKeys();
    QuotedLineKind("releaseDate", releaseDate);
    KindsOfOne(TopLine("releaseDate", Quote(releaseDate)));
  }

  lemma KindsOfFive(a: seq<string>, b: seq<string>, c: seq<string>, d: seq<string>, e: seq<string>)
    ensures Kinds(a + b + c + d + e) == Kinds(a) + Kinds(b) + Kinds(c) + Kinds(d) + Kinds(e)
  {
    KindsConcat(a, b);
    KindsConcat(a + b, c);
    KindsConcat(a + b + c, d);
    KindsConcat(a + b + c + d, e);
  }

  lemma DateProcesses(kinds: seq<Kind>, m: Manifest, keys: seq<string>)
    requires (forall k :: k in keys ==> k in m.extras) && Process(kinds) == Ok(ExtrasState(m, keys))
    ensures Process(kinds + [TopLevel("releaseDate", Text(m.releaseDate))] + [Blank])
         == Ok(State(Some(m.version), Some(m.releaseDate), false, None, NormalFiles(m.files), Picked(m.extras, keys)))
  {
    var top := TopLevel("releaseDate", Text(m.releaseDate));
    ProcessPush(kinds, top);
    ExtrasStateLeaves(m, keys, |kinds| + 1);
    assert "releaseDate"[0] != "version"[0];
    ProcessPush(kinds + [top], Blank);
  }

  lemma BlankFilesFail(m: Manifest, keys: seq<string>)
    requires (forall k :: k in keys ==> k in m.extras) && !AllNonblank(m.files)
    ensures Process(ManifestKinds(m, keys)).Err?
  {
    var files := HeaderKinds(m.version) + AllFileKinds(m.files);
    FilesProcess(m.version, m.files);
    assert ManifestKinds(m, keys)[..|files|] == files;
    FailureStays(ManifestKinds(m, keys), |files|);
  }

  lemma ManifestProcesses(m: Manifest, keys: seq<string>)
    requires Enumerates(keys, m.extras) && AllNonblank(m.files) && forall k :: k in m.extras ==> !Reserved(k)
    ensures Process(ManifestKinds(m, keys))
         == Ok(State(Some(m.version), Some(m.releaseDate), false, None, NormalFiles(m.files), m.extras))
  {
    var files := HeaderKinds(m.version) + AllFileKinds(m.files);
    FilesProcess(m.version, m.files);
    ExtrasProcess(files, m, keys);
    DateProcesses(files + ExtraKinds(m.extras, keys), m, keys);
    PickedAll(m.extras, keys);
    assert Picked(m.extras, keys) == m.extras;
  }

  ghost predicate AllTerminatorFree(lines: seq<string>) {
    forall k :: 0 <= k < |lines| ==> TerminatorFree(lines[k])
  }

  lemma FixedTextIsFree()
    ensures TerminatorFree(URL_PREFIX + " ") && TerminatorFree(SHA_PREFIX + " ") && TerminatorFree(SIZE_PREFIX + " ")
    ensures TerminatorFree(FILES_LINE)
  {
  }

  lemma TopLineIsFree(key: string, value: string)
    requires IsKey(key) && TerminatorFree(value)
    ensures TerminatorFree(TopLine(key, value))
  {
    var line := TopLine(key, value);
    forall k | 0 <= k < |line| ensures !IsTerminator(line[k]) {
      if k < |key| {
        assert line[k] == key[k] && KeyChar(key[k]);
      }
    }
  }

  lemma FileLinesAreFree(f: File)
    requires FileTerminatorFree(f)
    ensures AllTerminatorFree(FileLines(f))
  {
    FixedTextIsFree();
  }

  lemma {:induction false} AllFileLinesAreFree(files: seq<File>)
    requires forall k :: 0 <= k < |files| ==> FileTerminatorFree(files[k])
    ensures AllTerminatorFree(AllFileLines(files))
  {
    if files != [] {
      AllFileLinesAreFree(files[..|files| - 1]);
      FileLinesAreFree(files[|files| - 1]);
    }
  }

  lemma {:induction false} ExtraLinesAreFree(extras: map<string, Scalar>, keys: seq<string>)
    requires forall k :: k in keys ==> k in extras && NormalExtra(k, extras[k])
    ensures AllTerminatorFree(ExtraLines(extras, keys))
  {
    if keys != [] {
      var front, last := keys[..|keys| - 1], keys[|keys| - 1];
      assert last in keys;
      assert forall k :: k in front ==> k in keys;
      ExtraLinesAreFree(extras, front);
      ScalarIsRead(extras[last]);
      TopLineIsFree(last, PrintScalar(extras[last]));
    }
  }

  lemma HeaderIsFree(version: string)
    requires TerminatorFree(version)
    ensures AllTerminatorFree(Header(version))
  {
    FixedKeys();
    FixedTextIsFree();
    QuotedIsRead(version);
    TopLineIsFree("version", Quote(version));
    FreePair(TopLine("version", Quote(version)), FILES_LINE);
  }

  lemma FreePair(a: string, b: string)
    requires TerminatorFree(a) && TerminatorFree(b)
    ensures AllTerminatorFree([a, b])
  {
  }

  lemma DateLineIsFree(releaseDate: string)
    requires TerminatorFree(releaseDate)
    ensures AllTerminatorFree([TopLine("releaseDate", Quote(releaseDate))])
  {
    FixedKeys();
    QuotedIsRead(releaseDate);
    TopLineIsFree("releaseDate", Quote(releaseDate));
  }

  lemma LinesAreFree(m: Manifest, keys: seq<string>)
    requires Enumerates(keys, m.extras) && Printable(m) && NormalNumbers(m)
    ensures AllTerminatorFree(ManifestLines(m, keys))
  {
    HeaderIsFree(m.version);
    DateLineIsFree(m.releaseDate);
    AllFileLinesAreFree(m.files);
    ExtraLinesAreFree(m.extras, keys);
    var a, b, c := Header(m.version), AllFileLines(m.files), ExtraLines(m.extras, keys);
    var date := [TopLine("releaseDate", Quote(m.releaseDate))];
    FreeConcat(a, b);
    FreeConcat(a + b, c);
    FreeConcat(a + b + c, date);
    FreeConcat(a + b + c + date, [""]);
  }

  lemma FreeConcat(a: seq<string>, b: seq<string>)
    requires AllTerminatorFree(a) && AllTerminatorFree(b)
    ensures AllTerminatorFree(a + b)
  {
  }

  /** Reading a printed manifest: it fails if a url or hash is blank, and otherwise gives the
      manifest with its urls and hashes trimmed and unquoted, if it is complete. */
  lemma ParsePrinted(m: Manifest, keys: seq<string>)
    requires Enumerates(keys, m.extras) && Printable(m) && NormalNumbers(m)
    ensures var r := Parse(Serialize(m, keys));
      if AllNonblank(m.files) && m.files != [] && m.version != "" && m.releaseDate != "" then r == Ok(ReadBack(m))
      else r.Err?
  {
    var lines := ManifestLines(m, keys);
    LinesAreFree(m, keys);
    ParseJoined(lines);
    KindsOfManifest(m, keys);
    if AllNonblank(m.files) {
      ManifestProcesses(m, keys);
      CompletesTo(m, |lines|);
    } else {
      BlankFilesFail(m, keys);
    }
  }

  lemma ParseJoined(lines: seq<string>)
    requires lines != [] && AllTerminatorFree(lines)
    ensures Parse(Join('\n', lines)) == CompleteIf(Process(Kinds(lines)), |lines|)
  {
    SplitJoinLines(lines);
  }

  lemma CompletesTo(m: Manifest, lineCount: nat)
    ensures var r := Complete(State(Some(m.version), Some(m.releaseDate), false, None, NormalFiles(m.files), m.extras), lineCount);
      if m.files != [] && m.version != "" && m.releaseDate != "" then r == Ok(ReadBack(m)) else r.Err?
  {
  }

  // ----- what the parser can return -----

  lemma {:induction false} UndoubleIsFree(s: string)
    requires TerminatorFree(s)
    ensures TerminatorFree(Undouble(s))
    decreases |s|
  {
    if |s| >= 2 && s[0] == '\'' && s[1] == '\'' {
      UndoubleIsFree(s[2..]);
    } else if s != "" {
      UndoubleIsFree(s[1..]);
    }
  }

  lemma UnquotedIsFree(s: string)
    requires TerminatorFree(s)
    ensures TerminatorFree(StripSingleQuotes(s)) && TerminatorFree(Trim(s)) && TerminatorFree(StripSingleQuotes(Trim(s)))
  {
    TrimKeepsFreedom(s);
    TrimKeepsFreedom(TrimStart(s));
    var t := Trim(s);
    if Wrapped(s) && |s| > 1 {
      UndoubleIsFree(s[1..|s| - 1]);
    }
    if Wrapped(t) && |t| > 1 {
      UndoubleIsFree(t[1..|t| - 1]);
    }
  }

  lemma ParsedScalarIsFree(raw: string)
    requires TerminatorFree(raw)
    ensures TerminatorFreeScalar(ParseScalar(raw))
  {
    UnquotedIsFree(raw);
  }

  ghost predicate KindFine(kind: Kind) {
    match kind
    case UrlLine(url) => TerminatorFree(url)
    case ShaLine(sha512) => TerminatorFree(sha512)
    case TopLevel(key, value) => IsKey(key) && TerminatorFreeScalar(value)
    case _ => true
  }

  lemma TopLevelIsFine(line: string)
    ensures KindFine(TopLevelOf(line))
  {
    var end := KeyEnd(line);
    var key := line[..end];
    if end > 0 && IsLetter(line[0]) && Field(key + ":", line).Some? {
      KeyRunEnds(key, "");
      assert key + "" == key;
      ParsedScalarIsFree(Field(key + ":", line).value);
    }
  }

  lemma KindIsFine(line: string)
    ensures KindFine(Classify(line))
  {
    if Field(URL_PREFIX, line).Some? {
      UnquotedIsFree(Field(URL_PREFIX, line).value);
    }
    if Field(SHA_PREFIX, line).Some? {
      UnquotedIsFree(Field(SHA_PREFIX, line).value);
    }
    TopLevelIsFine(line);
  }

  ghost predicate StateFine(s: State) {
    && (s.version.Some? ==> TerminatorFree(s.version.value))
    && (s.releaseDate.Some? ==> TerminatorFree(s.releaseDate.value))
    && (s.current.Some? ==> TerminatorFree(s.current.value.url))
    && (s.current.Some? && s.current.value.sha512.Some? ==> TerminatorFree(s.current.value.sha512.value))
    && (forall k :: 0 <= k < |s.files| ==> FileTerminatorFree(s.files[k]))
    && (forall k :: k in s.extras ==> IsKey(k) && !Reserved(k) && TerminatorFreeScalar(s.extras[k]))
  }

  lemma FinishKeepsFine(s: State, line: nat)
    requires StateFine(s)
    ensures var r := Finished(s, line); r.Ok? ==> forall k :: 0 <= k < |r.value| ==> FileTerminatorFree(r.value[k])
  {
  }

  lemma LeaveKeepsFine(s: State, line: nat)
    requires StateFine(s)
    ensures var r := LeaveFiles(s, line); r.Ok? ==> StateFine(r.value)
  {
    FinishKeepsFine(s, line);
  }

  lemma TopStepKeepsFine(s: State, key: string, value: Scalar, line: nat)
    requires StateFine(s) && IsKey(key) && TerminatorFreeScalar(value)
    ensures var r := TopStep(s, key, value, line); r.Ok? ==> StateFine(r.value)
  {
  }

  lemma StepKeepsFine(s: State, kind: Kind, line: nat)
    requires StateFine(s) && KindFine(kind)
    ensures var r := Step(s, kind, line); r.Ok? ==> StateFine(r.value)
  {
    match kind
    case TopLevel(key, value) =>
      LeaveKeepsFine(s, line);
      if LeaveFiles(s, line).Ok? {
        TopStepKeepsFine(LeaveFiles(s, line).value, key, value, line);
      }
    case UrlLine(_) => FinishKeepsFine(s, line);
    case _ =>
  }

  lemma {:induction false} ProcessIsFine(kinds: seq<Kind>)
    requires forall k :: 0 <= k < |kinds| ==> KindFine(kinds[k])
    ensures var r := Process(kinds); r.Ok? ==> StateFine(r.value)
  {
    if kinds != [] {
      var front := kinds[..|kinds| - 1];
      ProcessIsFine(front);
      if Process(front).Ok? {
        StepKeepsFine(Process(front).value, kinds[|kinds| - 1], |kinds|);
      }
    }
  }

  /** A manifest that was read is complete and printable. */
  lemma ParsedIsPrintable(raw: string)
    requires Parse(raw).Ok?
    ensures var m := Parse(raw).value; Printable(m) && m.version != "" && m.releaseDate != "" && m.files != []
  {
    var lines := SplitLines(raw);
    var kinds := Kinds(lines);
    forall k | 0 <= k < |kinds| ensures KindFine(kinds[k]) {
      KindIsFine(TrimEnd(lines[k]));
    }
    ProcessIsFine(kinds);
    FinishKeepsFine(Process(kinds).value, |lines|);
  }

  // ----- exactly which manifests survive -----

  /** Non-empty, trimmed and not wrapped in single quotes. */
  predicate Plain(u: string) {
    u != "" && IsTrimmed(u) && !Wrapped(u)
  }

  ghost predicate PlainFiles(files: seq<File>) {
    forall k :: 0 <= k < |files| ==> Plain(files[k].url) && Plain(files[k].sha512)
  }

  ghost predicate WellFormed(m: Manifest) {
    && Printable(m) && m.version != "" && m.releaseDate != "" && m.files != []
    && PlainFiles(m.files)
  }

  lemma {:induction false} TrimStartShortens(s: string)
    ensures |TrimStart(s)| == |s| ==> TrimStart(s) == s
    ensures |TrimEnd(s)| == |s| ==> TrimEnd(s) == s
  {
  }

  lemma NormalShortens(u: string)
    ensures |Normal(u)| <= |Inner(u)| <= |TrimEnd(u)| <= |u|
    ensures Wrapped(Inner(u)) ==> |Normal(u)| < |Inner(u)|
  {
  }

  lemma NormalIff(u: string)
    ensures Nonblank(u) && Normal(u) == u <==> Plain(u)
  {
    NormalShortens(u);
    TrimStartShortens(u);
    TrimStartShortens(TrimEnd(u));
    if Plain(u) {
      TrimmedIsFixed(u);
    }
  }

  lemma PlainFileIff(f: File)
    ensures FileNonblank(f) && NormalFile(f) == f <==> Plain(f.url) && Plain(f.sha512)
  {
    NormalIff(f.url);
    NormalIff(f.sha512);
  }

  lemma {:induction false} NormalFilesAt(files: seq<File>)
    ensures |NormalFiles(files)| == |files|
    ensures forall k :: 0 <= k < |files| ==> NormalFiles(files)[k] == NormalFile(files[k])
  {
    if files != [] {
      var front := files[..|files| - 1];
      NormalFilesAt(front);
      forall k | 0 <= k < |files| ensures NormalFiles(files)[k] == NormalFile(files[k]) {
        if k < |front| {
          assert NormalFiles(files)[k] == NormalFiles(front)[k] && front[k] == files[k];
        }
      }
    }
  }

  lemma {:induction false} AllNonblankIff(files: seq<File>)
    ensures AllNonblank(files) <==> forall k :: 0 <= k < |files| ==> FileNonblank(files[k])
  {
    if files != [] {
      var front := files[..|files| - 1];
      AllNonblankIff(front);
      assert forall k :: 0 <= k < |front| ==> front[k] == files[k];
    }
  }

  lemma NormalFilesIff(files: seq<File>)
    ensures AllNonblank(files) && NormalFiles(files) == files <==> PlainFiles(files)
  {
    NormalFilesAt(files);
    AllNonblankIff(files);
    forall k | 0 <= k < |files|
      ensures FileNonblank(files[k]) && NormalFile(files[k]) == files[k] <==> Plain(files[k].url) && Plain(files[k].sha512)
    {
      PlainFileIff(files[k]);
    }
  }

  /** A printed manifest is read back as itself exactly when it is well formed; in particular
      texts that look like numbers or flags, and texts with quotes, come back as they were. */
  lemma RoundTripIff(m: Manifest, keys: seq<string>)
    requires Enumerates(keys, m.extras) && NormalNumbers(m)
    ensures Parse(Serialize(m, keys)) == Ok(m) <==> WellFormed(m)
  {
    if Parse(Serialize(m, keys)) == Ok(m) {
      ParsedIsPrintable(Serialize(m, keys));
    }
    if Printable(m) {
      ParsePrinted(m, keys);
      NormalFilesIff(m.files);
    }
  }
}
