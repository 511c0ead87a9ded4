/**
 * Rewriting the path of a rig in a TOML site file, line by line
 * (scripts/gascity-runner.ts:383-416).
 */
module RigBinding {
  import opened Prelude
  import opened Text

  // How lines are told apart: block headers, path lines, the line that names a rig, and the
  // text that a line stands for.
  datatype Look =
    Look(header: string -> bool, path: string -> bool, names: (string, string) -> bool, value: string -> string)

  const HEADER := "[[rig]]"
  const PATH_START := "path ="

  function NameLine(name: string): string {
    "name = \"" + name + "\""
  }

  function PathLine(path: string): string {
    "path = \"" + path + "\""
  }

  function SourceLook(): Look {
    Look((line: string) => Trim(line) == HEADER, (line: string) => PATH_START <= Trim(line),
         (line: string, name: string) => Trim(line) == NameLine(name), Trim)
  }

  /** A line is at most one of header, path and name, and names one rig. */
  ghost predicate Proper(look: Look) {
    && (forall line :: look.header(line) ==> !look.path(line))
    && (forall line, name :: look.names(line, name) ==> !look.header(line) && !look.path(line))
    && (forall line, a, b :: look.names(line, a) && look.names(line, b) ==> a == b)
  }

  // ----- blocks -----

  datatype Block = Block(head: string, body: seq<string>)

  datatype Doc = Doc(preamble: seq<string>, blocks: seq<Block>)

  function AddLine(look: Look, d: Doc, line: string): Doc {
    if look.header(line) then d.(blocks := d.blocks + [Block(line, [])])
    else if d.blocks == [] then d.(preamble := d.preamble + [line])
    else
      var last := d.blocks[|d.blocks| - 1];
      d.(blocks := d.blocks[..|d.blocks| - 1] + [last.(body := last.body + [line])])
  }

  function ParseDoc(look: Look, lines: seq<string>): Doc {
    if lines == [] then Doc([], [])
    else AddLine(look, ParseDoc(look, lines[..|lines| - 1]), lines[|lines| - 1])
  }

  function BlockLines(b: Block): seq<string> {
    [b.head] + b.body
  }

  function BlocksLines(blocks: seq<Block>): seq<string> {
    if blocks == [] then [] else BlocksLines(blocks[..|blocks| - 1]) + BlockLines(blocks[|blocks| - 1])
  }

  function DocLines(d: Doc): seq<string> {
    d.preamble + BlocksLines(d.blocks)
  }

  predicate HasName(look: Look, body: seq<string>, name: string) {
    exists i :: 0 <= i < |body| && look.names(body[i], name)
  }

  function LastPath(look: Look, body: seq<string>): (r: Option<nat>)
    ensures r.Some? ==> r.value < |body| && look.path(body[r.value])
  {
    if body == [] then None
    else if look.path(body[|body| - 1]) then Some(|body| - 1)
    else LastPath(look, body[..|body| - 1])
  }

  function SetPath(look: Look, body: seq<string>, line: string): seq<string> {
    match LastPath(look, body)
    case Some(p) => body[p := line]
    case None => body + [line]
  }

  /** The first block that names the rig, or the number of blocks. */
  function FirstNamed(look: Look, blocks: seq<Block>, name: string): (i: nat)
    ensures i <= |blocks| && (i < |blocks| ==> HasName(look, blocks[i].body, name))
    ensures forall k :: 0 <= k < i ==> !HasName(look, blocks[k].body, name)
  {
    if blocks == [] || HasName(look, blocks[0].body, name) then 0
    else 1 + FirstNamed(look, blocks[1..], name)
  }

  function RewriteDoc(look: Look, d: Doc, name: string, line: string): Doc {
    var i := FirstNamed(look, d.blocks, name);
    if i == |d.blocks| then d
    else d.(blocks := d.blocks[i := d.blocks[i].(body := SetPath(look, d.blocks[i].body, line))])
  }

  /** The path line of the first block that names the rig: no block, or none in it, is told
      apart. */
  function LookupDoc(look: Look, d: Doc, name: string): Option<Option<string>> {
    var i := FirstNamed(look, d.blocks, name);
    if i == |d.blocks| then None
    else
      var body := d.blocks[i].body;
      Some(match LastPath(look, body)
           case None => None
           case Some(p) => Some(look.value(body[p])))
  }

  // ----- the text -----

  function Appendix(name: string, path: string): seq<string> {
    ["", HEADER, NameLine(name), PathLine(path), ""]
  }

  function RewriteText(content: string, name: string, path: string): string {
    var look := SourceLook();
    var d := ParseDoc(look, Split('\n', content));
    if LookupDoc(look, d, name).Some? then Join('\n', DocLines(RewriteDoc(look, d, name, PathLine(path))))
    else TrimEnd(content) + ['\n'] + Join('\n', Appendix(name, path))
  }

  /** What the file says of a rig. */
  function Lookup(content: string, name: string): Option<Option<string>> {
    LookupDoc(SourceLook(), ParseDoc(SourceLook(), Split('\n', content)), name)
  }

  // ----- parsing and printing blocks -----

  ghost predicate NoHeaders(look: Look, lines: seq<string>) {
    forall i :: 0 <= i < |lines| ==> !look.header(lines[i])
  }

  ghost predicate WellFormed(look: Look, d: Doc) {
    NoHeaders(look, d.preamble)
    && forall i :: 0 <= i < |d.blocks| ==> look.header(d.blocks[i].head) && NoHeaders(look, d.blocks[i].body)
  }

  lemma BlocksLinesPush(blocks: seq<Block>, b: Block)
    ensures BlocksLines(blocks + [b]) == BlocksLines(blocks) + BlockLines(b)
  {
    assert (blocks + [b])[..|blocks|] == blocks;
  }

  lemma {:induction false} BlocksLinesConcat(a: seq<Block>, b: seq<Block>)
    ensures BlocksLines(a + b) == BlocksLines(a) + BlocksLines(b)
  {
    if b == [] {
      assert a + b == a;
    } else {
      var front, last := b[..|b| - 1], b[|b| - 1];
      assert b == front + [last];
      BlocksLinesConcat(a, front);
      Regroup(a, front, [last]);
      BlocksLinesPush(a + front, last);
      BlocksLinesPush(front, last);
      Regroup(BlocksLines(a), BlocksLines(front), BlockLines(last));
    }
  }

  lemma LastBlockGrows(front: seq<Block>, last: Block, line: string)
    ensures BlocksLines(front + [last.(body := last.body + [line])]) == BlocksLines(front + [last]) + [line]
  {
    BlocksLinesPush(front, last);
    BlocksLinesPush(front, last.(body := last.body + [line]));
    assert BlockLines(last.(body := last.body + [line])) == BlockLines(last) + [line];
    Regroup(BlocksLines(front), BlockLines(last), [line]);
  }

  lemma AddLinePrints(look: Look, d: Doc, line: string)
    requires WellFormed(look, d)
    ensures WellFormed(look, AddLine(look, d, line)) && DocLines(AddLine(look, d, line)) == DocLines(d) + [line]
  {
    if look.header(line) {
      BlocksLinesPush(d.blocks, Block(line, []));
    } else if d.blocks != [] {
      var front, last := d.blocks[..|d.blocks| - 1], d.blocks[|d.blocks| - 1];
      assert d.blocks == front + [last];
      LastBlockGrows(front, last, line);
    }
  }

  /** Printing undoes parsing. */
  lemma {:induction false} ParsePrints(look: Look, lines: seq<string>)
    ensures WellFormed(look, ParseDoc(look, lines)) && DocLines(ParseDoc(look, lines)) == lines
  {
    if lines != [] {
      ParsePrints(look, lines[..|lines| - 1]);
      AddLinePrints(look, ParseDoc(look, lines[..|lines| - 1]), lines[|lines| - 1]);
    }
  }

  lemma ParsePush(look: Look, lines: seq<string>, line: string)
    ensures ParseDoc(look, lines + [line]) == AddLine(look, ParseDoc(look, lines), line)
  {
    assert (lines + [line])[..|lines|] == lines;
  }

  /** Lines without headers go to the preamble, or to the last block. */
  ghost function Extended(d: Doc, body: seq<string>): Doc {
    if d.blocks == [] then d.(preamble := d.preamble + body)
    else
      var last := d.blocks[|d.blocks| - 1];
      d.(blocks := d.blocks[..|d.blocks| - 1] + [last.(body := last.body + body)])
  }

  lemma ExtendedByNothing(d: Doc)
    ensures Extended(d, []) == d
  {
    assert d.preamble + [] == d.preamble;
    if d.blocks != [] {
      var last := d.blocks[|d.blocks| - 1];
      assert last.body + [] == last.body;
      assert d.blocks[..|d.blocks| - 1] + [last] == d.blocks;
    }
  }

  lemma ExtendedPush(look: Look, d: Doc, body: seq<string>, line: string)
    requires !look.header(line)
    ensures AddLine(look, Extended(d, body), line) == Extended(d, body + [line])
  {
    if d.blocks == [] {
      assert d.preamble + body + [line] == d.preamble + (body + [line]);
    } else {
      var front, last := d.blocks[..|d.blocks| - 1], d.blocks[|d.blocks| - 1];
      assert last.body + body + [line] == last.body + (body + [line]);
      assert (front + [last.(body := last.body + body)])[..|front|] == front;
    }
  }

  lemma ParseBodyStep(look: Look, before: seq<string>, body: seq<string>, d: Doc, line: string)
    requires !look.header(line) && ParseDoc(look, before + body) == Extended(d, body)
    ensures ParseDoc(look, before + (body + [line])) == Extended(d, body + [line])
  {
    Regroup(before, body, [line]);
    ParsePush(look, before + body, line);
    ExtendedPush(look, d, body, line);
  }

  lemma {:induction false} ParseBody(look: Look, before: seq<string>, body: seq<string>)
    requires NoHeaders(look, body)
    ensures ParseDoc(look, before + body) == Extended(ParseDoc(look, before), body)
  {
    var d := ParseDoc(look, before);
    if body == [] {
      assert before + body == before;
      ExtendedByNothing(d);
    } else {
      var front, line := body[..|body| - 1], body[|body| - 1];
      ParseBody(look, before, front);
      ParseBodyStep(look, before, front, d, line);
      assert front + [line] == body;
    }
  }

  /** A header and the lines up to the next one make a block. */
  lemma ParseBlock(look: Look, before: seq<string>, b: Block)
    requires look.header(b.head) && NoHeaders(look, b.body)
    ensures var d := ParseDoc(look, before); ParseDoc(look, before + BlockLines(b)) == d.(blocks := d.blocks + [b])
  {
    var d := ParseDoc(look, before);
    ParsePush(look, before, b.head);
    ParseBody(look, before + [b.head], b.body);
    assert before + [b.head] + b.body == before + BlockLines(b);
    var started := d.(blocks := d.blocks + [Block(b.head, [])]);
    assert started.blocks[..|d.blocks|] == d.blocks && [] + b.body == b.body;
    assert Extended(started, b.body) == d.(blocks := d.blocks + [b]);
  }

  lemma PrintStep(look: Look, preamble: seq<string>, blocks: seq<Block>, b: Block)
    requires look.header(b.head) && NoHeaders(look, b.body)
    requires ParseDoc(look, preamble + BlocksLines(blocks)) == Doc(preamble, blocks)
    ensures ParseDoc(look, preamble + BlocksLines(blocks + [b])) == Doc(preamble, blocks + [b])
  {
    BlocksLinesPush(blocks, b);
    Regroup(preamble, BlocksLines(blocks), BlockLines(b));
    ParseBlock(look, preamble + BlocksLines(blocks), b);
  }

  lemma PreambleParses(look: Look, preamble: seq<string>)
    requires NoHeaders(look, preamble)
    ensures ParseDoc(look, preamble + BlocksLines([])) == Doc(preamble, [])
  {
    ParseBody(look, [], preamble);
    assert [] + preamble == preamble && preamble + BlocksLines([]) == preamble;
    assert Extended(Doc([], []), preamble) == Doc(preamble, []);
  }

  /** Parsing undoes printing. */
  lemma {:induction false} PrintParses(look: Look, preamble: seq<string>, blocks: seq<Block>)
    requires WellFormed(look, Doc(preamble, blocks))
    ensures ParseDoc(look, preamble + BlocksLines(blocks)) == Doc(preamble, blocks)
  {
    if blocks == [] {
      PreambleParses(look, preamble);
    } else {
      var front, last := blocks[..|blocks| - 1], blocks[|blocks| - 1];
      assert forall i :: 0 <= i < |front| ==> front[i] == blocks[i];
      PrintParses(look, preamble, front);
      PrintStep(look, preamble, front, last);
      assert blocks == front + [last];
    }
  }

  // ----- the map update, on blocks -----

  lemma {:induction false} LastPathIsLast(look: Look, body: seq<string>, p: nat)
    requires p < |body| && look.path(body[p]) && forall k :: p < k < |body| ==> !look.path(body[k])
    ensures LastPath(look, body) == Some(p)
  {
    if p < |body| - 1 {
      LastPathIsLast(look, body[..|body| - 1], p);
    }
  }

  lemma {:induction false} NoneAfterLastPath(look: Look, body: seq<string>)
    ensures match LastPath(look, body)
      case None => forall k :: 0 <= k < |body| ==> !look.path(body[k])
      case Some(p) => forall k :: p < k < |body| ==> !look.path(body[k])
  {
    if body != [] && !look.path(body[|body| - 1]) {
      NoneAfterLastPath(look, body[..|body| - 1]);
      assert forall k :: 0 <= k < |body| - 1 ==> body[..|body| - 1][k] == body[k];
    }
  }

  /** The set path is the last one, and no name is touched. */
  lemma SetPathSets(look: Look, body: seq<string>, line: string)
    requires Proper(look) && look.path(line)
    ensures var r := SetPath(look, body, line); var p := LastPath(look, r);
      p.Some? && r[p.value] == line && SetPath(look, r, line) == r
    ensures forall name :: HasName(look, SetPath(look, body, line), name) <==> HasName(look, body, name)
    ensures NoHeaders(look, body) ==> NoHeaders(look, SetPath(look, body, line))
  {
    NoneAfterLastPath(look, body);
    var r := SetPath(look, body, line);
    match LastPath(look, body)
    case Some(p) =>
      LastPathIsLast(look, r, p);
      forall name ensures HasName(look, r, name) <==> HasName(look, body, name) {
        if HasName(look, body, name) {
          var i :| 0 <= i < |body| && look.names(body[i], name);
          assert r[i] == body[i];
        }
        if HasName(look, r, name) {
          var i :| 0 <= i < |r| && look.names(r[i], name);
          assert r[i] == body[i];
        }
      }
    case None =>
      LastPathIsLast(look, r, |body|);
      forall name ensures HasName(look, r, name) <==> HasName(look, body, name) {
        if HasName(look, body, name) {
          var i :| 0 <= i < |body| && look.names(body[i], name);
          assert r[i] == body[i];
        }
        if HasName(look, r, name) {
          var i :| 0 <= i < |r| && look.names(r[i], name);
          assert r[i] == body[i];
        }
      }
  }

  lemma {:induction false} FirstNamedIs(look: Look, blocks: seq<Block>, name: string, i: nat)
    requires i <= |blocks| && (i < |blocks| ==> HasName(look, blocks[i].body, name))
    requires forall k :: 0 <= k < i ==> !HasName(look, blocks[k].body, name)
    ensures FirstNamed(look, blocks, name) == i
  {
  }

  lemma RewriteKeepsFirst(look: Look, d: Doc, name: string, line: string, other: string)
    requires Proper(look) && look.path(line)
    ensures var r := RewriteDoc(look, d, name, line);
      && |r.blocks| == |d.blocks| && r.preamble == d.preamble
      && FirstNamed(look, r.blocks, other) == FirstNamed(look, d.blocks, other)
  {
    var i := FirstNamed(look, d.blocks, name);
    if i < |d.blocks| {
      SetPathSets(look, d.blocks[i].body, line);
      var r := RewriteDoc(look, d, name, line);
      var j := FirstNamed(look, d.blocks, other);
      forall k | 0 <= k < |d.blocks|
        ensures HasName(look, r.blocks[k].body, other) <==> HasName(look, d.blocks[k].body, other)
      {
      }
      FirstNamedIs(look, r.blocks, other, j);
    }
  }

  /** Rewriting sets the path of the rig. */
  lemma RewriteSets(look: Look, d: Doc, name: string, line: string)
    requires Proper(look) && look.path(line) && LookupDoc(look, d, name).Some?
    ensures LookupDoc(look, RewriteDoc(look, d, name, line), name) == Some(Some(look.value(line)))
  {
    RewriteKeepsFirst(look, d, name, line, name);
    SetPathSets(look, d.blocks[FirstNamed(look, d.blocks, name)].body, line);
  }

  /** The block of the rig names no other rig. */
  ghost predicate NamedAlone(look: Look, d: Doc, name: string) {
    var i := FirstNamed(look, d.blocks, name);
    i < |d.blocks| ==> forall other :: HasName(look, d.blocks[i].body, other) ==> other == name
  }

  /** And leaves every other one as it was. */
  lemma RewriteKeepsOthers(look: Look, d: Doc, name: string, line: string, other: string)
    requires Proper(look) && look.path(line) && NamedAlone(look, d, name) && other != name
    ensures LookupDoc(look, RewriteDoc(look, d, name, line), other) == LookupDoc(look, d, other)
  {
    RewriteKeepsFirst(look, d, name, line, other);
  }

  lemma RewriteTwice(look: Look, d: Doc, name: string, line: string)
    requires Proper(look) && look.path(line)
    ensures var r := RewriteDoc(look, d, name, line); RewriteDoc(look, r, name, line) == r
  {
    var i := FirstNamed(look, d.blocks, name);
    RewriteKeepsFirst(look, d, name, line, name);
    if i < |d.blocks| {
      SetPathSets(look, d.blocks[i].body, line);
      var r := RewriteDoc(look, d, name, line);
      assert r.blocks[i := r.blocks[i]] == r.blocks;
    }
  }

  lemma RewriteKeepsForm(look: Look, d: Doc, name: string, line: string)
    requires Proper(look) && look.path(line) && WellFormed(look, d)
    ensures WellFormed(look, RewriteDoc(look, d, name, line))
  {
    var i := FirstNamed(look, d.blocks, name);
    if i < |d.blocks| {
      SetPathSets(look, d.blocks[i].body, line);
    }
  }

  // ----- the loops over the lines -----

  lemma HeadOfConcat<T>(a: seq<T>, b: seq<T>)
    ensures a != [] ==> (a + b)[0] == a[0]
  {
  }

  lemma NoPreamble(look: Look, lines: seq<string>)
    requires lines == [] || look.header(lines[0])
    ensures ParseDoc(look, lines).preamble == [] && BlocksLines(ParseDoc(look, lines).blocks) == lines
  {
    ParsePrints(look, lines);
    var d := ParseDoc(look, lines);
    HeadOfConcat(d.preamble, BlocksLines(d.blocks));
    assert [] + BlocksLines(d.blocks) == BlocksLines(d.blocks);
  }

  /** Lines that start a block are parsed on their own. */
  lemma ParseConcat(look: Look, a: seq<string>, b: seq<string>)
    requires b == [] || look.header(b[0])
    ensures var d := ParseDoc(look, a); ParseDoc(look, a + b) == d.(blocks := d.blocks + ParseDoc(look, b).blocks)
  {
    var d, e := ParseDoc(look, a), ParseDoc(look, b);
    ParsePrints(look, a);
    ParsePrints(look, b);
    NoPreamble(look, b);
    BlocksLinesConcat(d.blocks, e.blocks);
    Regroup(d.preamble, BlocksLines(d.blocks), BlocksLines(e.blocks));
    PrintParses(look, d.preamble, d.blocks + e.blocks);
  }

  /** No block of the lines names the rig. */
  ghost predicate Unnamed(look: Look, lines: seq<string>, name: string) {
    var blocks := ParseDoc(look, lines).blocks; FirstNamed(look, blocks, name) == |blocks|
  }

  lemma UnnamedBlocks(look: Look, blocks: seq<Block>, b: Block, name: string)
    requires FirstNamed(look, blocks, name) == |blocks| && !HasName(look, b.body, name)
    ensures FirstNamed(look, blocks + [b], name) == |blocks + [b]|
  {
    FirstNamedIs(look, blocks + [b], name, |blocks| + 1);
  }

  lemma BlockSlice(lines: seq<string>, index: nat, end: nat)
    requires index < end <= |lines|
    ensures lines[..index] + ([lines[index]] + lines[index + 1..end]) == lines[..end]
  {
  }

  lemma ParsesToBlock(look: Look, lines: seq<string>, index: nat, end: nat)
    requires index < end <= |lines| && look.header(lines[index]) && NoHeaders(look, lines[index + 1..end])
    ensures var d := ParseDoc(look, lines[..index]);
      ParseDoc(look, lines[..end]) == d.(blocks := d.blocks + [Block(lines[index], lines[index + 1..end])])
  {
    var b := Block(lines[index], lines[index + 1..end]);
    ParseBlock(look, lines[..index], b);
    BlockSlice(lines, index, end);
  }

  lemma RewrittenBlock(look: Look, preamble: seq<string>, before: seq<Block>, b: Block, after: seq<Block>, name: string, line: string)
    requires FirstNamed(look, before, name) == |before| && HasName(look, b.body, name)
    ensures var d := Doc(preamble, before + [b] + after);
      && LookupDoc(look, d, name).Some?
      && DocLines(RewriteDoc(look, d, name, line))
         == preamble + BlocksLines(before) + ([b.head] + SetPath(look, b.body, line)) + BlocksLines(after)
  {
    var blocks := before + [b] + after;
    assert blocks[|before|] == b;
    assert forall k :: 0 <= k < |before| ==> blocks[k] == before[k];
    FirstNamedIs(look, blocks, name, |before|);
    var c := b.(body := SetPath(look, b.body, line));
    assert blocks[|before| := c] == before + [c] + after;
    BlocksLinesConcat(before + [c], after);
    BlocksLinesPush(before, c);
    Regroup(preamble, BlocksLines(before) + BlockLines(c), BlocksLines(after));
    Regroup(preamble, BlocksLines(before), BlockLines(c));
  }

  /** The blocks before, at and behind the block that starts at `index`. */
  lemma BlockSplits(look: Look, lines: seq<string>, index: nat, end: nat) returns (d: Doc, after: seq<Block>)
    requires index < end <= |lines| && look.header(lines[index]) && NoHeaders(look, lines[index + 1..end])
    requires end == |lines| || look.header(lines[end])
    ensures d == ParseDoc(look, lines[..index])
    ensures ParseDoc(look, lines)
         == Doc(d.preamble, d.blocks + [Block(lines[index], lines[index + 1..end])] + after)
    ensures d.preamble + BlocksLines(d.blocks) == lines[..index] && BlocksLines(after) == lines[end..]
  {
    d := ParseDoc(look, lines[..index]);
    after := ParseDoc(look, lines[end..]).blocks;
    ParsesToBlock(look, lines, index, end);
    ParseConcat(look, lines[..end], lines[end..]);
    assert lines[..end] + lines[end..] == lines;
    ParsePrints(look, lines[..index]);
    NoPreamble(look, lines[end..]);
  }

  lemma RejoinParts(lines: seq<string>, index: nat, end: nat, body: seq<string>)
    requires index < end <= |lines|
    ensures lines[..index] + ([lines[index]] + body) + lines[end..] == lines[..index + 1] + body + lines[end..]
  {
    assert lines[..index + 1] == lines[..index] + [lines[index]];
    Regroup(lines[..index], [lines[index]], body);
  }

  /** What the lines become once the block at `index` is the first to name the rig. */
  lemma BlockFound(look: Look, lines: seq<string>, index: nat, end: nat, name: string, line: string)
    requires index < end <= |lines| && look.header(lines[index]) && NoHeaders(look, lines[index + 1..end])
    requires end == |lines| || look.header(lines[end])
    requires Unnamed(look, lines[..index], name) && HasName(look, lines[index + 1..end], name)
    ensures LookupDoc(look, ParseDoc(look, lines), name).Some?
    ensures DocLines(RewriteDoc(look, ParseDoc(look, lines), name, line))
         == lines[..index + 1] + SetPath(look, lines[index + 1..end], line) + lines[end..]
  {
    var d, after := BlockSplits(look, lines, index, end);
    var b := Block(lines[index], lines[index + 1..end]);
    RewrittenBlock(look, d.preamble, d.blocks, b, after, name, line);
    RejoinParts(lines, index, end, SetPath(look, b.body, line));
  }

  /** Setting the path in the whole list of lines sets it in the block. */
  lemma SetPathInLines(look: Look, lines: seq<string>, index: nat, end: nat, pathLineIndex: int, line: string)
    requires index < end <= |lines|
    requires pathLineIndex == match LastPath(look, lines[index + 1..end]) case None => -1 case Some(p) => index + 1 + p
    ensures (if pathLineIndex >= 0 then lines[pathLineIndex := line] else lines[..end] + [line] + lines[end..])
         == lines[..index + 1] + SetPath(look, lines[index + 1..end], line) + lines[end..]
  {
    var body := lines[index + 1..end];
    match LastPath(look, body)
    case Some(p) => assert lines == lines[..index + 1] + body + lines[end..];
    case None => assert lines[..end] == lines[..index + 1] + body;
  }

  lemma BodyStep(look: Look, lines: seq<string>, from: nat, end: nat, name: string)
    requires from <= end < |lines|
    ensures var body, more := lines[from..end], lines[from..end + 1];
      && more == body + [lines[end]] && more[..|more| - 1] == body
      && (HasName(look, more, name) <==> HasName(look, body, name) || look.names(lines[end], name))
      && LastPath(look, more) == if look.path(lines[end]) then Some(|body|) else LastPath(look, body)
  {
    var body, more := lines[from..end], lines[from..end + 1];
    assert more == body + [lines[end]] && more[..|more| - 1] == body;
    if HasName(look, body, name) {
      var i :| 0 <= i < |body| && look.names(body[i], name);
      assert more[i] == body[i];
    }
    if look.names(lines[end], name) {
      assert more[|body|] == lines[end];
    }
  }

  /** The block that starts at `index`: where it ends, whether it names the rig, and its last
      path line. */
  method ScanBlock(look: Look, lines: seq<string>, index: nat, name: string)
    returns (end: nat, foundName: bool, pathLineIndex: int)
    requires index < |lines|
    ensures index < end <= |lines| && NoHeaders(look, lines[index + 1..end]) && (end == |lines| || look.header(lines[end]))
    ensures foundName <==> HasName(look, lines[index + 1..end], name)
    ensures pathLineIndex == match LastPath(look, lines[index + 1..end]) case None => -1 case Some(p) => index + 1 + p
  {
    end, foundName, pathLineIndex := index + 1, false, -1;
    while end < |lines| && !look.header(lines[end])
      invariant index < end <= |lines| && NoHeaders(look, lines[index + 1..end])
      invariant foundName <==> HasName(look, lines[index + 1..end], name)
      invariant pathLineIndex == match LastPath(look, lines[index + 1..end]) case None => -1 case Some(p) => index + 1 + p
    {
      BodyStep(look, lines, index + 1, end, name);
      if look.names(lines[end], name) {
        foundName := true;
      }
      if look.path(lines[end]) {
        pathLineIndex := end;
      }
      end := end + 1;
    }
  }

  lemma UnnamedPreamble(look: Look, lines: seq<string>, index: nat, name: string)
    requires index < |lines| && !look.header(lines[index]) && ParseDoc(look, lines[..index]).blocks == []
    ensures ParseDoc(look, lines[..index + 1]).blocks == [] && Unnamed(look, lines[..index + 1], name)
  {
    assert lines[..index + 1] == lines[..index] + [lines[index]];
    ParsePush(look, lines[..index], lines[index]);
  }

  lemma UnnamedBlock(look: Look, lines: seq<string>, index: nat, end: nat, name: string)
    requires index < end <= |lines| && look.header(lines[index]) && NoHeaders(look, lines[index + 1..end])
    requires Unnamed(look, lines[..index], name) && !HasName(look, lines[index + 1..end], name)
    ensures Unnamed(look, lines[..end], name)
  {
    ParsesToBlock(look, lines, index, end);
    UnnamedBlocks(look, ParseDoc(look, lines[..index]).blocks, Block(lines[index], lines[index + 1..end]), name);
  }

  method RewriteLines(look: Look, content: seq<string>, name: string, line: string) returns (found: bool, lines: seq<string>)
    ensures found <==> LookupDoc(look, ParseDoc(look, content), name).Some?
    ensures found ==> lines == DocLines(RewriteDoc(look, ParseDoc(look, content), name, line))
  {
    lines := content;
    var index := 0;
    while index < |lines|
      invariant 0 <= index <= |lines| && lines == content
      invariant Unnamed(look, content[..index], name)
      invariant ParseDoc(look, content[..index]).blocks == [] || index == |lines| || look.header(lines[index])
    {
      if !look.header(lines[index]) {
        UnnamedPreamble(look, content, index, name);
        index := index + 1;
      } else {
        var blockEnd, foundName, pathLineIndex := ScanBlock(look, lines, index, name);
        if foundName {
          BlockFound(look, content, index, blockEnd, name, line);
          SetPathInLines(look, content, index, blockEnd, pathLineIndex, line);
          if pathLineIndex >= 0 {
            lines := lines[pathLineIndex := line];
          } else {
            lines := lines[..blockEnd] + [line] + lines[blockEnd..];
          }
          return true, lines;
        }
        UnnamedBlock(look, content, index, blockEnd, name);
        index := blockEnd;
      }
    }
    assert content[..|content|] == content;
    return false, lines;
  }

  method ReplaceOrAppendRigBinding(content: string, name: string, path: string) returns (r: string)
    ensures r == RewriteText(content, name, path)
  {
    var found, lines := RewriteLines(SourceLook(), Split('\n', content), name, PathLine(path));
    if found {
      return Join('\n', lines);
    }
    return TrimEnd(content) + ['\n'] + Join('\n', Appendix(name, path));
  }

  // ----- the map update, on the text -----

  lemma LineStarts(name: string, path: string)
    ensures HEADER[0] == '[' && PATH_START[0] == 'p' && NameLine(name)[0] == 'n' && PathLine(path)[0] == 'p'
    ensures NameLine(name)[|NameLine(name)| - 1] == '"' && PathLine(path)[|PathLine(path)| - 1] == '"'
    ensures PATH_START <= PathLine(path)
  {
    assert PathLine(path)[..|PATH_START|] == PATH_START;
  }

  lemma NameLineInjective(a: string, b: string)
    requires NameLine(a) == NameLine(b)
    ensures a == b
  {
    assert NameLine(a)[8..|NameLine(a)| - 1] == a && NameLine(b)[8..|NameLine(b)| - 1] == b;
  }

  lemma SourceLookIsProper()
    ensures Proper(SourceLook())
  {
    forall line, name | Trim(line) == NameLine(name) ensures Trim(line) != HEADER && !(PATH_START <= Trim(line)) {
      LineStarts(name, "");
    }
    forall line | Trim(line) == HEADER ensures !(PATH_START <= Trim(line)) {
      LineStarts("", "");
    }
    forall line, a, b | Trim(line) == NameLine(a) && Trim(line) == NameLine(b) ensures a == b {
      NameLineInjective(a, b);
    }
  }

  lemma SourceLines(name: string, path: string)
    ensures var look := SourceLook();
      && look.path(PathLine(path)) && look.value(PathLine(path)) == PathLine(path)
      && look.header(HEADER) && look.names(NameLine(name), name) && look.path(PATH_START)
      && !look.header("") && !look.path("") && forall n :: !look.names("", n)
  {
    LineStarts(name, path);
    TrimmedIsFixed(PathLine(path));
    TrimmedIsFixed(NameLine(name));
    TrimmedIsFixed(HEADER);
    TrimmedIsFixed(PATH_START);
    assert Trim("") == "";
  }

  /** Two lines that stand for the same text are told apart by nothing. */
  ghost predicate Alike(look: Look, x: string, y: string) {
    look.header(x) == look.header(y) && look.path(x) == look.path(y) && look.value(x) == look.value(y)
    && forall name :: look.names(x, name) == look.names(y, name)
  }

  lemma LastLineAlike(look: Look, d: Doc, x: string, y: string, name: string)
    requires Alike(look, x, y)
    ensures LookupDoc(look, AddLine(look, d, x), name) == LookupDoc(look, AddLine(look, d, y), name)
  {
    var p, q := AddLine(look, d, x), AddLine(look, d, y);
    if look.header(x) {
      SameBodies(look, p.blocks, q.blocks, name);
    } else if d.blocks != [] {
      var front, last := d.blocks[..|d.blocks| - 1], d.blocks[|d.blocks| - 1];
      LastOfBodyAlike(look, last.body, x, y, name);
      SameUpToLast(look, front, last.(body := last.body + [x]), last.(body := last.body + [y]), name);
    }
  }

  lemma SameBodies(look: Look, p: seq<Block>, q: seq<Block>, name: string)
    requires |p| == |q| && forall k :: 0 <= k < |p| ==> p[k].body == q[k].body
    ensures FirstNamed(look, p, name) == FirstNamed(look, q, name)
  {
    FirstNamedIs(look, q, name, FirstNamed(look, p, name));
  }

  lemma LastOfBodyAlike(look: Look, body: seq<string>, x: string, y: string, name: string)
    requires Alike(look, x, y)
    ensures HasName(look, body + [x], name) <==> HasName(look, body + [y], name)
    ensures LastPath(look, body + [x]) == LastPath(look, body + [y])
    ensures LastPath(look, body + [x]).Some?
      ==> look.value((body + [x])[LastPath(look, body + [x]).value]) == look.value((body + [y])[LastPath(look, body + [y]).value])
  {
    var a, b := body + [x], body + [y];
    assert a[..|body|] == body && b[..|body|] == body;
    assert forall i :: 0 <= i < |body| ==> a[i] == b[i];
    if HasName(look, a, name) {
      var i :| 0 <= i < |a| && look.names(a[i], name);
      assert look.names(b[i], name);
    }
    if HasName(look, b, name) {
      var i :| 0 <= i < |b| && look.names(b[i], name);
      assert look.names(a[i], name);
    }
  }

  lemma SameUpToLast(look: Look, front: seq<Block>, a: Block, b: Block, name: string)
    requires HasName(look, a.body, name) <==> HasName(look, b.body, name)
    requires LastPath(look, a.body) == LastPath(look, b.body)
    requires LastPath(look, a.body).Some?
      ==> look.value(a.body[LastPath(look, a.body).value]) == look.value(b.body[LastPath(look, b.body).value])
    ensures forall p, q :: LookupDoc(look, Doc(p, front + [a]), name) == LookupDoc(look, Doc(q, front + [b]), name)
  {
    var x, y := front + [a], front + [b];
    var i := FirstNamed(look, x, name);
    forall k | 0 <= k < |x| ensures HasName(look, x[k].body, name) <==> HasName(look, y[k].body, name) {
      assert k < |front| ==> x[k] == y[k];
    }
    FirstNamedIs(look, y, name, i);
  }

  /** A line that is neither header, path nor name changes no lookup. */
  lemma NeutralLine(look: Look, d: Doc, line: string, name: string)
    requires !look.header(line) && !look.path(line) && forall n :: !look.names(line, n)
    ensures LookupDoc(look, AddLine(look, d, line), name) == LookupDoc(look, d, name)
  {
    if d.blocks != [] {
      var front, last := d.blocks[..|d.blocks| - 1], d.blocks[|d.blocks| - 1];
      var body := last.body;
      assert (body + [line])[..|body|] == body;
      if HasName(look, body, name) {
        var i :| 0 <= i < |body| && look.names(body[i], name);
        assert (body + [line])[i] == body[i];
      }
      if HasName(look, body + [line], name) {
        var i :| 0 <= i < |body + [line]| && look.names((body + [line])[i], name);
        assert (body + [line])[i] == body[i];
      }
      assert front + [last] == d.blocks;
      SameUpToLast(look, front, last, last.(body := body + [line]), name);
      assert LookupDoc(look, Doc(d.preamble, front + [last]), name)
          == LookupDoc(look, Doc(d.preamble, front + [last.(body := body + [line])]), name);
    }
  }

  lemma LookupDropsSpace(content: string, c: char, name: string)
    requires IsSpace(c)
    ensures Lookup(content + [c], name) == Lookup(content, name)
  {
    var look := SourceLook();
    var lines := Split('\n', content);
    if c == '\n' {
      SplitConcat('\n', content, "");
      assert content + ['\n'] + "" == content + [c];
      ParsePush(look, lines, "");
      SourceLines("", "");
      NeutralLine(look, ParseDoc(look, lines), "", name);
    } else {
      SplitPush('\n', content, c);
      assert GrowLast(lines, c) == lines[..|lines| - 1] + [lines[|lines| - 1] + [c]];
      var front, last := lines[..|lines| - 1], lines[|lines| - 1];
      assert lines == front + [last];
      ParsePush(look, front, last);
      ParsePush(look, front, last + [c]);
      TrimPush(last, c);
      LastLineAlike(look, ParseDoc(look, front), last, last + [c], name);
    }
  }

  function LookupOf(name: string): string -> Option<Option<string>> {
    content => Lookup(content, name)
  }

  lemma LookupTrimmed(content: string, name: string)
    ensures Lookup(TrimEnd(content), name) == Lookup(content, name)
  {
    var f := LookupOf(name);
    forall t, c | IsSpace(c) ensures f(t + [c]) == f(t) {
      LookupDropsSpace(t, c, name);
    }
    TrimEndIgnored(f, content);
    assert f(TrimEnd(content)) == f(content);
  }

  // The block that an append adds.
  function NewBlock(name: string, path: string): Block {
    Block(HEADER, [NameLine(name), PathLine(path), ""])
  }

  lemma AppendixIsFree(name: string, path: string)
    requires FreeOf(name, '\n') && FreeOf(path, '\n')
    ensures AllFreeOf(Appendix(name, path), '\n') && FreeOf(NameLine(name), '\n') && FreeOf(PathLine(path), '\n')
  {
    assert FreeOf("name = \"", '\n') && FreeOf("path = \"", '\n') && FreeOf(HEADER, '\n');
  }

  /** The blocks of a text with the new one appended. */
  lemma AppendedBlocks(content: string, name: string, path: string)
    requires FreeOf(name, '\n') && FreeOf(path, '\n')
    ensures var look := SourceLook();
      var d := AddLine(look, ParseDoc(look, Split('\n', content)), "");
      ParseDoc(look, Split('\n', content + ['\n'] + Join('\n', Appendix(name, path))))
      == d.(blocks := d.blocks + [NewBlock(name, path)])
  {
    var look := SourceLook();
    var lines, b := Split('\n', content), NewBlock(name, path);
    AppendixIsFree(name, path);
    SplitConcat('\n', content, Join('\n', Appendix(name, path)));
    SplitJoin('\n', Appendix(name, path));
    assert lines + Appendix(name, path) == lines + [""] + BlockLines(b);
    ParsePush(look, lines, "");
    NewBlockForm(name, path);
    ParseBlock(look, lines + [""], b);
  }

  /** A block of a name line, a path line and an empty line. */
  ghost predicate Binds(look: Look, b: Block, name: string, path: string) {
    && LastPath(look, b.body) == Some(1) && 1 < |b.body| && look.value(b.body[1]) == path
    && forall n :: HasName(look, b.body, n) <==> n == name
  }

  lemma ThreeLines(look: Look, b: Block, name: string, path: string)
    requires Proper(look) && b.body == [NameLine(name), PathLine(path), ""]
    requires look.names(NameLine(name), name) && look.path(PathLine(path)) && look.value(PathLine(path)) == PathLine(path)
    requires !look.header("") && !look.path("") && forall n :: !look.names("", n)
    ensures NoHeaders(look, b.body) && Binds(look, b, name, PathLine(path))
  {
    LastPathIsLast(look, b.body, 1);
    assert look.names(b.body[0], name);
  }

  lemma NewBlockForm(name: string, path: string)
    ensures var look := SourceLook(); var b := NewBlock(name, path);
      look.header(b.head) && NoHeaders(look, b.body) && Binds(look, b, name, PathLine(path))
  {
    SourceLookIsProper();
    SourceLines(name, path);
    ThreeLines(SourceLook(), NewBlock(name, path), name, path);
  }

  lemma LookupBehind(look: Look, d: Doc, b: Block, name: string)
    ensures LookupDoc(look, d.(blocks := d.blocks + [b]), name)
         == if LookupDoc(look, d, name).Some? then LookupDoc(look, d, name) else LookupDoc(look, Doc([], [b]), name)
  {
    var all := d.blocks + [b];
    var i := FirstNamed(look, d.blocks, name);
    assert forall k :: 0 <= k < |d.blocks| ==> all[k] == d.blocks[k];
    if i < |d.blocks| {
      FirstNamedIs(look, all, name, i);
    } else {
      var j := if HasName(look, b.body, name) then 0 else 1;
      FirstNamedIs(look, [b], name, j);
      FirstNamedIs(look, all, name, i + j);
    }
  }

  lemma LookupAppended(look: Look, d: Doc, b: Block, name: string, path: string, other: string)
    requires LookupDoc(look, d, name).None? && Binds(look, b, name, path)
    ensures LookupDoc(look, d.(blocks := d.blocks + [b]), other)
         == if other == name then Some(Some(path)) else LookupDoc(look, d, other)
  {
    LookupBehind(look, d, b, other);
    FirstNamedIs(look, [b], other, if other == name then 0 else 1);
  }

  /** Appending sets the rig, and leaves every other one as it was. */
  lemma AppendUpdates(content: string, name: string, path: string, other: string)
    requires FreeOf(name, '\n') && FreeOf(path, '\n') && Lookup(content, name).None?
    ensures Lookup(RewriteText(content, name, path), other)
         == if other == name then Some(Some(PathLine(path))) else Lookup(content, other)
  {
    var look := SourceLook();
    var kept := TrimEnd(content);
    var d := ParseDoc(look, Split('\n', kept));
    AppendedBlocks(kept, name, path);
    SourceLines(name, path);
    NeutralLine(look, d, "", name);
    NeutralLine(look, d, "", other);
    NewBlockForm(name, path);
    LookupTrimmed(content, name);
    LookupTrimmed(content, other);
    LookupAppended(look, AddLine(look, d, ""), NewBlock(name, path), name, PathLine(path), other);
  }

  // `r` is `lines`, or has `line` set or put in somewhere.
  ghost predicate OneLineChanged(lines: seq<string>, r: seq<string>, line: string) {
    r == lines || exists at: nat :: ChangedAt(lines, r, line, at)
  }

  ghost predicate ChangedAt(lines: seq<string>, r: seq<string>, line: string, at: nat) {
    at <= |lines| && (r == lines[..at] + [line] + lines[at..] || (at < |lines| && r == lines[at := line]))
  }

  lemma ChangeInside(head: seq<string>, body: seq<string>, rest: seq<string>, p: nat, line: string)
    requires p < |body|
    ensures OneLineChanged(head + body + rest, head + body[p := line] + rest, line)
  {
    var lines := head + body + rest;
    assert head + body[p := line] + rest == lines[|head| + p := line];
    assert ChangedAt(lines, head + body[p := line] + rest, line, |head| + p);
  }

  lemma ChangeBehind(head: seq<string>, body: seq<string>, rest: seq<string>, line: string)
    ensures OneLineChanged(head + body + rest, head + (body + [line]) + rest, line)
  {
    var lines, at := head + body + rest, |head| + |body|;
    assert lines[..at] == head + body && lines[at..] == rest;
    assert head + (body + [line]) + rest == lines[..at] + [line] + lines[at..];
    assert ChangedAt(lines, head + (body + [line]) + rest, line, at);
  }

  lemma SetPathChanges(look: Look, head: seq<string>, body: seq<string>, rest: seq<string>, line: string)
    ensures OneLineChanged(head + body + rest, head + SetPath(look, body, line) + rest, line)
  {
    match LastPath(look, body)
    case Some(p) => ChangeInside(head, body, rest, p, line);
    case None => ChangeBehind(head, body, rest, line);
  }

  lemma HeadForm(x: seq<string>, head: string, body: seq<string>, rest: seq<string>)
    ensures x + ([head] + body) + rest == x + [head] + body + rest
  {
    Regroup(x, [head], body);
  }

  lemma DocLinesAt(preamble: seq<string>, before: seq<Block>, b: Block, after: seq<Block>)
    ensures DocLines(Doc(preamble, before + [b] + after)) == preamble + BlocksLines(before) + [b.head] + b.body + BlocksLines(after)
  {
    BlocksLinesConcat(before + [b], after);
    BlocksLinesPush(before, b);
    Regroup(preamble, BlocksLines(before) + BlockLines(b), BlocksLines(after));
    Regroup(preamble, BlocksLines(before), BlockLines(b));
    HeadForm(preamble + BlocksLines(before), b.head, b.body, BlocksLines(after));
  }

  lemma BlockRewriteChanges(look: Look, preamble: seq<string>, before: seq<Block>, b: Block, after: seq<Block>, name: string, line: string)
    requires FirstNamed(look, before, name) == |before| && HasName(look, b.body, name)
    ensures var d := Doc(preamble, before + [b] + after);
      OneLineChanged(DocLines(d), DocLines(RewriteDoc(look, d, name, line)), line)
  {
    RewrittenBlock(look, preamble, before, b, after, name, line);
    var x, rest := preamble + BlocksLines(before), BlocksLines(after);
    HeadForm(x, b.head, SetPath(look, b.body, line), rest);
    DocLinesAt(preamble, before, b, after);
    SetPathChanges(look, x + [b.head], b.body, rest, line);
  }

  lemma DocRewriteChanges(look: Look, d: Doc, name: string, line: string)
    ensures OneLineChanged(DocLines(d), DocLines(RewriteDoc(look, d, name, line)), line)
  {
    var i := FirstNamed(look, d.blocks, name);
    if i < |d.blocks| {
      var before, b, after := d.blocks[..i], d.blocks[i], d.blocks[i + 1..];
      assert d.blocks == before + [b] + after;
      assert forall k :: 0 <= k < i ==> before[k] == d.blocks[k];
      FirstNamedIs(look, before, name, i);
      BlockRewriteChanges(look, d.preamble, before, b, after, name, line);
    }
  }

  /** Rewriting changes one line, or puts one in. */
  lemma RewriteChangesOneLine(look: Look, lines: seq<string>, name: string, line: string)
    ensures OneLineChanged(lines, DocLines(RewriteDoc(look, ParseDoc(look, lines), name, line)), line)
  {
    ParsePrints(look, lines);
    DocRewriteChanges(look, ParseDoc(look, lines), name, line);
  }

  lemma ChangedLinesFree(lines: seq<string>, r: seq<string>, line: string)
    requires OneLineChanged(lines, r, line) && AllFreeOf(lines, '\n') && FreeOf(line, '\n') && lines != []
    ensures AllFreeOf(r, '\n') && r != []
  {
    if r != lines {
      var at: nat :| ChangedAt(lines, r, line, at);
    }
  }

  lemma DocLinesFree(look: Look, content: string, name: string, line: string)
    requires FreeOf(line, '\n')
    ensures var lines := DocLines(RewriteDoc(look, ParseDoc(look, Split('\n', content)), name, line));
      AllFreeOf(lines, '\n') && lines != []
  {
    var lines := Split('\n', content);
    RewriteChangesOneLine(look, lines, name, line);
    JoinSplit('\n', content);
    ChangedLinesFree(lines, DocLines(RewriteDoc(look, ParseDoc(look, lines), name, line)), line);
  }

  lemma RewrittenParses(content: string, name: string, path: string)
    requires FreeOf(path, '\n') && Lookup(content, name).Some?
    ensures var look := SourceLook();
      ParseDoc(look, Split('\n', RewriteText(content, name, path)))
      == RewriteDoc(look, ParseDoc(look, Split('\n', content)), name, PathLine(path))
  {
    var look := SourceLook();
    var line := PathLine(path);
    var d := ParseDoc(look, Split('\n', content));
    var r := RewriteDoc(look, d, name, line);
    SourceLookIsProper();
    SourceLines(name, path);
    AppendixIsFree("", path);
    DocLinesFree(look, content, name, line);
    SplitJoin('\n', DocLines(r));
    ParsePrints(look, Split('\n', content));
    RewriteKeepsForm(look, d, name, line);
    PrintParses(look, r.preamble, r.blocks);
  }

  /** The rewritten text says the new path of the rig, and of every other rig what it said
      before, if the block of the rig names no other. */
  lemma RewriteIsMapUpdate(content: string, name: string, path: string, other: string)
    requires FreeOf(name, '\n') && FreeOf(path, '\n')
    requires other == name || NamedAlone(SourceLook(), ParseDoc(SourceLook(), Split('\n', content)), name)
    ensures Lookup(RewriteText(content, name, path), other)
         == if other == name then Some(Some(PathLine(path))) else Lookup(content, other)
  {
    if Lookup(content, name).None? {
      AppendUpdates(content, name, path, other);
    } else {
      var look := SourceLook();
      var d := ParseDoc(look, Split('\n', content));
      SourceLookIsProper();
      SourceLines(name, path);
      RewrittenParses(content, name, path);
      if other == name {
        RewriteSets(look, d, name, PathLine(path));
      } else {
        RewriteKeepsOthers(look, d, name, PathLine(path), other);
      }
    }
  }

  lemma RewriteFoundTwice(content: string, name: string, path: string)
    requires FreeOf(path, '\n') && Lookup(content, name).Some?
    ensures RewriteText(RewriteText(content, name, path), name, path) == RewriteText(content, name, path)
  {
    var look := SourceLook();
    var d := ParseDoc(look, Split('\n', content));
    SourceLookIsProper();
    SourceLines(name, path);
    RewrittenParses(content, name, path);
    RewriteSets(look, d, name, PathLine(path));
    RewriteTwice(look, d, name, PathLine(path));
  }

  lemma AppendedIsFixed(look: Look, d: Doc, b: Block, name: string, line: string)
    requires FirstNamed(look, d.blocks, name) == |d.blocks| && HasName(look, b.body, name)
    requires LastPath(look, b.body).Some? && b.body[LastPath(look, b.body).value] == line
    ensures var e := d.(blocks := d.blocks + [b]); RewriteDoc(look, e, name, line) == e
  {
    var all := d.blocks + [b];
    assert forall k :: 0 <= k < |d.blocks| ==> all[k] == d.blocks[k];
    FirstNamedIs(look, all, name, |d.blocks|);
    assert SetPath(look, b.body, line) == b.body;
    assert all[|d.blocks| := b] == all;
  }

  lemma AppendTwice(content: string, name: string, path: string)
    requires FreeOf(name, '\n') && FreeOf(path, '\n') && Lookup(content, name).None?
    ensures RewriteText(RewriteText(content, name, path), name, path) == RewriteText(content, name, path)
  {
    var look := SourceLook();
    var kept, text := TrimEnd(content), RewriteText(content, name, path);
    var d := AddLine(look, ParseDoc(look, Split('\n', kept)), "");
    AppendUpdates(content, name, path, name);
    AppendedBlocks(kept, name, path);
    SourceLines(name, path);
    LookupTrimmed(content, name);
    NeutralLine(look, ParseDoc(look, Split('\n', kept)), "", name);
    NewBlockForm(name, path);
    AppendedIsFixed(look, d, NewBlock(name, path), name, PathLine(path));
    ParsePrints(look, Split('\n', text));
    JoinSplit('\n', text);
  }

  /** Repeating the call changes nothing. */
  lemma RewriteIsIdempotent(content: string, name: string, path: string)
    requires FreeOf(name, '\n') && FreeOf(path, '\n')
    ensures RewriteText(RewriteText(content, name, path), name, path) == RewriteText(content, name, path)
  {
    if Lookup(content, name).Some? {
      RewriteFoundTwice(content, name, path);
    } else {
      AppendTwice(content, name, path);
    }
  }
}
