/**
 * Packing a transcript into a bounded prompt (apps/web/src/historyBootstrap.ts:10-139).
 * Lengths are counted in characters of the modelled text.
 */
module HistoryBootstrap {
  import opened Prelude
  import opened Text

  datatype Attachment = Attachment(image: bool, name: string)

  datatype Message = Message(assistant: bool, text: string, attachments: seq<Attachment>)

  datatype Input = Input(text: string, includedCount: nat, omittedCount: nat, truncated: bool)

  const PREAMBLE := "Continue this conversation using the transcript context below. The final section is the latest user request to answer now."
  const TRANSCRIPT_HEADER := "Transcript context:"
  const LATEST_PROMPT_HEADER := "Latest user request (answer this now):"
  const BREAK := "\n\n"

  function OmittedSummary(count: nat): string {
    "[" + Digits(count) + " earlier message(s) omitted to stay within input limits.]"
  }

  function Join(parts: seq<string>, separator: string): string {
    if parts == [] then ""
    else if |parts| == 1 then parts[0]
    else parts[0] + separator + Join(parts[1..], separator)
  }

  function ImageNames(attachments: seq<Attachment>): seq<string> {
    if attachments == [] then []
    else (if attachments[0].image then [attachments[0].name] else []) + ImageNames(attachments[1..])
  }

  function SummaryLine(count: nat, joined: string): string {
    var extra := if count > 3 then " (+" + Digits(count - 3) + " more)" else "";
    "[Attached image" + (if count == 1 then "" else "s") + ": " + joined + extra + "]"
  }

  function AttachmentSummary(message: Message): Option<string> {
    var names := ImageNames(message.attachments);
    if names == [] then None
    else Some(SummaryLine(|names|, Join(if |names| > 3 then names[..3] else names, ", ")))
  }

  function MessageBlock(message: Message): string {
    var role := if message.assistant then "ASSISTANT" else "USER";
    var summary := AttachmentSummary(message);
    role + ":\n"
    + if message.text != "" && summary.Some? then message.text + "\n" + summary.value
      else if message.text != "" then message.text
      else if summary.Some? then summary.value
      else "(empty message)"
  }

  function Blocks(messages: seq<Message>): (r: seq<string>)
    ensures |r| == |messages| && forall i :: 0 <= i < |r| ==> r[i] == MessageBlock(messages[i])
  {
    seq(|messages|, i requires 0 <= i < |messages| => MessageBlock(messages[i]))
  }

  function Framed(body: string, latestPrompt: string): string {
    PREAMBLE + BREAK + TRANSCRIPT_HEADER + "\n" + body + BREAK + LATEST_PROMPT_HEADER + "\n" + latestPrompt
  }

  /** The transcript with these blocks, after `omitted` others. */
  function Body(included: seq<string>, omitted: nat): string {
    if omitted == 0 then Join(included, BREAK)
    else if included == [] then OmittedSummary(omitted)
    else OmittedSummary(omitted) + BREAK + Join(included, BREAK)
  }

  // The text for some blocks, a number of omitted ones and a prompt. The packing does not
  // depend on how it is laid out.
  type Layout = (seq<string>, nat, string) -> string

  function SourceLayout(): Layout {
    (included: seq<string>, omitted: nat, latestPrompt: string) => Framed(Body(included, omitted), latestPrompt)
  }

  function FinalizeWithPrompt(w: Layout, included: seq<string>, omitted: nat, latestPrompt: string, budget: nat): Option<string> {
    var text := w(included, omitted, latestPrompt);
    if |text| <= budget then Some(text) else None
  }

  /** The newest `k` blocks. */
  function Newest(blocks: seq<string>, k: nat): seq<string>
    requires k <= |blocks|
  {
    blocks[|blocks| - k..]
  }

  /** The text with the newest `k` blocks, if it fits. */
  function Attempt(w: Layout, blocks: seq<string>, k: nat, latestPrompt: string, budget: nat): Option<string>
    requires k <= |blocks|
  {
    FinalizeWithPrompt(w, Newest(blocks, k), |blocks| - k, latestPrompt, budget)
  }

  // What comes of each number of blocks.
  type Attempts = nat -> Option<string>

  function AttemptsFor(w: Layout, blocks: seq<string>, latestPrompt: string, budget: nat): Attempts {
    (k: nat) => if k <= |blocks| then Attempt(w, blocks, k, latestPrompt, budget) else None
  }

  function Budget(maxChars: Option<real>): nat {
    if maxChars.Some? then Max(1, maxChars.value.Floor) else 1
  }

  function PromptOnly(latestPrompt: string, budget: nat): (r: string)
    ensures |r| <= budget && r <= latestPrompt && (r == latestPrompt <==> |latestPrompt| <= budget)
  {
    if |latestPrompt| <= budget then latestPrompt else latestPrompt[..budget]
  }

  function Reversed(s: seq<string>): (r: seq<string>)
    ensures |r| == |s| && forall i :: 0 <= i < |s| ==> r[i] == s[|s| - 1 - i]
  {
    seq(|s|, i requires 0 <= i < |s| => s[|s| - 1 - i])
  }

  /** The first loop's count, of `n` blocks: as many of the newest as fit, one more at a time. */
  ghost predicate Greedy(attempts: Attempts, n: nat, k: nat) {
    k <= n && (forall j :: 1 <= j <= k ==> attempts(j).Some?) && (k < n ==> attempts(k + 1).None?)
  }

  /** That count, from `j` blocks on. */
  ghost function FitCount(attempts: Attempts, n: nat, j: nat): nat
    decreases n - j
  {
    if j < n && attempts(j + 1).Some? then FitCount(attempts, n, j + 1) else j
  }

  lemma {:induction false} GreedyIs(attempts: Attempts, n: nat, j: nat, k: nat)
    requires Greedy(attempts, n, k) && j <= k
    ensures FitCount(attempts, n, j) == k
    decreases k - j
  {
    if j < k {
      GreedyIs(attempts, n, j + 1, k);
    }
  }

  lemma {:induction false} FitCountGrows(small: Attempts, large: Attempts, n: nat, j: nat)
    requires forall k: nat :: small(k).Some? ==> large(k).Some?
    ensures j <= FitCount(small, n, j) <= FitCount(large, n, j)
    decreases n - j
  {
    if j < n {
      FitCountGrows(small, large, n, j + 1);
    }
  }

  /** The final loop never drops a block. */
  lemma NothingTrimmed(attempts: Attempts, n: nat, k: nat, m: nat)
    requires Greedy(attempts, n, k) && m <= k && forall j :: m < j <= k ==> attempts(j).None?
    ensures m == k
  {
    if k > 0 {
      assert attempts(k).Some?;
    }
  }

  method NewestFirst(messages: seq<Message>) returns (r: seq<string>)
    ensures r == Reversed(Blocks(messages))
  {
    r := [];
    ghost var blocks := Blocks(messages);
    var index := |messages| - 1;
    while index >= 0
      invariant -1 <= index < |messages|
      invariant |r| == |messages| - 1 - index
      invariant forall i :: 0 <= i < |r| ==> r[i] == blocks[|messages| - 1 - i]
    {
      assert MessageBlock(messages[index]) == blocks[index];
      r := r + [MessageBlock(messages[index])];
      index := index - 1;
    }
  }

  lemma ReversedPrefix(newestFirst: seq<string>, blocks: seq<string>, k: nat)
    requires newestFirst == Reversed(blocks) && k <= |blocks|
    ensures Reversed(newestFirst[..k]) == Newest(blocks, k)
  {
  }

  /** Includes blocks from the newest on while they fit. */
  method IncludeNewest(w: Layout, newestFirst: seq<string>, ghost blocks: seq<string>, latestPrompt: string, budget: nat)
    returns (included: seq<string>)
    requires newestFirst == Reversed(blocks)
    ensures |included| <= |blocks| && Reversed(included) == Newest(blocks, |included|)
    ensures Greedy(AttemptsFor(w, blocks, latestPrompt, budget), |blocks|, |included|)
  {
    ghost var attempts := AttemptsFor(w, blocks, latestPrompt, budget);
    included := [];
    for i := 0 to |newestFirst|
      invariant included == newestFirst[..i]
      invariant forall j :: 1 <= j <= i ==> attempts(j).Some?
    {
      var next := included + [newestFirst[i]];
      var chronological := Reversed(next);
      ReversedPrefix(newestFirst, blocks, i + 1);
      assert next == newestFirst[..i + 1];
      var finalized := FinalizeWithPrompt(w, chronological, |newestFirst| - |chronological|, latestPrompt, budget);
      assert finalized == attempts(i + 1);
      if finalized.None? {
        ReversedPrefix(newestFirst, blocks, i);
        return;
      }
      included := next;
    }
    ReversedPrefix(newestFirst, blocks, |blocks|);
    assert newestFirst[..|blocks|] == newestFirst;
  }

  lemma NewestTail(blocks: seq<string>, k: nat)
    requires 0 < k <= |blocks|
    ensures Newest(blocks, k) != [] && Newest(blocks, k)[1..] == Newest(blocks, k - 1)
  {
  }

  /** The final loop: drops the oldest included block until the text fits, or all are gone. */
  method TrimToFit(w: Layout, blocks: seq<string>, k: nat, latestPrompt: string, budget: nat) returns (text: Option<string>, m: nat)
    requires k <= |blocks|
    ensures m <= k && text == AttemptsFor(w, blocks, latestPrompt, budget)(m)
    ensures text.None? ==> m == 0
    ensures forall j :: m < j <= k ==> AttemptsFor(w, blocks, latestPrompt, budget)(j).None?
  {
    ghost var attempts := AttemptsFor(w, blocks, latestPrompt, budget);
    var included := Newest(blocks, k);
    m := k;
    while true
      invariant m <= k && included == Newest(blocks, m)
      invariant forall j :: m < j <= k ==> attempts(j).None?
      decreases m
    {
      text := FinalizeWithPrompt(w, included, |blocks| - |included|, latestPrompt, budget);
      assert text == attempts(m);
      if text.Some? || included == [] {
        return;
      }
      NewestTail(blocks, m);
      included := included[1..];
      m := m - 1;
    }
  }

  /** What the packed result of `n` blocks must be. */
  ghost predicate PackedAs(attempts: Attempts, n: nat, latestPrompt: string, budget: nat, r: Input) {
    && |r.text| <= budget
    && r.includedCount + r.omittedCount == n
    && Greedy(attempts, n, r.includedCount)
    && (r.includedCount > 0 ==> attempts(r.includedCount).Some?)
    && r.text == (if n > 0 && attempts(r.includedCount).Some? then attempts(r.includedCount).value
                  else PromptOnly(latestPrompt, budget))
    && (r.truncated <==> r.omittedCount > 0 || |latestPrompt| > budget)
  }

  ghost predicate Packed(w: Layout, blocks: seq<string>, latestPrompt: string, budget: nat, r: Input) {
    PackedAs(AttemptsFor(w, blocks, latestPrompt, budget), |blocks|, latestPrompt, budget, r)
  }

  lemma AttemptsFit(w: Layout, blocks: seq<string>, latestPrompt: string, budget: nat, k: nat)
    ensures var text := AttemptsFor(w, blocks, latestPrompt, budget)(k); text.Some? ==> |text.value| <= budget
  {
  }

  method PackBlocks(w: Layout, newestFirst: seq<string>, ghost blocks: seq<string>, latestPrompt: string, budget: nat)
    returns (r: Input)
    requires newestFirst == Reversed(blocks) && blocks != []
    ensures Packed(w, blocks, latestPrompt, budget, r)
  {
    ghost var attempts := AttemptsFor(w, blocks, latestPrompt, budget);
    var promptOnly := PromptOnly(latestPrompt, budget);
    var included := IncludeNewest(w, newestFirst, blocks, latestPrompt, budget);
    var chronological := Reversed(newestFirst);
    assert chronological == blocks;
    var finalized, m := TrimToFit(w, chronological, |included|, latestPrompt, budget);
    NothingTrimmed(attempts, |blocks|, |included|, m);
    AttemptsFit(w, blocks, latestPrompt, budget, m);
    if finalized.Some? {
      var omitted := |newestFirst| - m;
      return Input(finalized.value, m, omitted, omitted > 0 || |latestPrompt| != |promptOnly|);
    }
    return Input(promptOnly, 0, |newestFirst|, true);
  }

  /**
   * The text never exceeds the budget; every message is counted as included or omitted; the
   * included ones are the newest, in order, each shorter choice fitting and the next longer
   * one not; "truncated" says whether anything is missing.
   */
  method BuildBootstrapInput(w: Layout, messages: seq<Message>, latestPrompt: string, maxChars: Option<real>)
    returns (r: Input)
    ensures Packed(w, Blocks(messages), latestPrompt, Budget(maxChars), r)
  {
    var budget := Budget(maxChars);
    if |messages| == 0 {
      var promptOnly := PromptOnly(latestPrompt, budget);
      return Input(promptOnly, 0, 0, |promptOnly| != |latestPrompt|);
    }
    var newestFirst := NewestFirst(messages);
    r := PackBlocks(w, newestFirst, Blocks(messages), latestPrompt, budget);
  }

  /** The result is determined. */
  lemma PackedIsUnique(w: Layout, blocks: seq<string>, latestPrompt: string, budget: nat, a: Input, b: Input)
    requires Packed(w, blocks, latestPrompt, budget, a) && Packed(w, blocks, latestPrompt, budget, b)
    ensures a == b
  {
    var attempts := AttemptsFor(w, blocks, latestPrompt, budget);
    GreedyIs(attempts, |blocks|, 0, a.includedCount);
    GreedyIs(attempts, |blocks|, 0, b.includedCount);
  }

  /** A larger budget never includes fewer messages. */
  lemma MoreBudgetIncludesMore(w: Layout, blocks: seq<string>, latestPrompt: string, small: nat, large: nat, a: Input, b: Input)
    requires small <= large
    requires Packed(w, blocks, latestPrompt, small, a) && Packed(w, blocks, latestPrompt, large, b)
    ensures a.includedCount <= b.includedCount
  {
    var less, more := AttemptsFor(w, blocks, latestPrompt, small), AttemptsFor(w, blocks, latestPrompt, large);
    GreedyIs(less, |blocks|, 0, a.includedCount);
    GreedyIs(more, |blocks|, 0, b.includedCount);
    FitCountGrows(less, more, |blocks|, 0);
  }

  /** Nothing is missing from an untruncated result: it frames every block and the prompt. */
  lemma UntruncatedIsWhole(w: Layout, blocks: seq<string>, latestPrompt: string, budget: nat, r: Input)
    requires Packed(w, blocks, latestPrompt, budget, r) && !r.truncated
    ensures r.text == if blocks == [] then latestPrompt else w(blocks, 0, latestPrompt)
  {
    assert Newest(blocks, |blocks|) == blocks;
  }

  // ----- is the greedy count the largest that fits? -----

  lemma FramedLength(body: string, prompt: string)
    ensures |Framed(body, prompt)| == |Framed("", "")| + |body| + |prompt|
  {
  }

  ghost predicate Fits(blocks: seq<string>, k: nat, prompt: string, budget: nat)
    requires k <= |blocks|
  {
    |Framed(Body(Newest(blocks, k), |blocks| - k), prompt)| <= budget
  }

  lemma AttemptFits(blocks: seq<string>, prompt: string, budget: nat, k: nat)
    requires k <= |blocks|
    ensures AttemptsFor(SourceLayout(), blocks, prompt, budget)(k).Some? <==> Fits(blocks, k, prompt, budget)
  {
    LaidOut(Newest(blocks, k), |blocks| - k, prompt);
    AttemptAt(SourceLayout(), blocks, prompt, budget, k);
  }

  lemma LaidOut(included: seq<string>, omitted: nat, prompt: string)
    ensures SourceLayout()(included, omitted, prompt) == Framed(Body(included, omitted), prompt)
  {
  }

  lemma AttemptAt(w: Layout, blocks: seq<string>, prompt: string, budget: nat, k: nat)
    requires k <= |blocks|
    ensures AttemptsFor(w, blocks, prompt, budget)(k).Some? <==> |w(Newest(blocks, k), |blocks| - k, prompt)| <= budget
  {
  }

  lemma {:induction false} DigitsOfNext(n: nat)
    ensures |Digits(n)| <= |Digits(n + 1)| <= |Digits(n)| + 1
  {
    if n >= 10 {
      DigitsOfNext(n / 10);
      assert (n + 1) / 10 == n / 10 || (n + 1) / 10 == n / 10 + 1;
    }
  }

  /** While messages stay omitted, one block more makes the text longer: the summary gets
      shorter by one digit at most. */
  lemma OneMoreIsLonger(blocks: seq<string>, k: nat)
    requires 1 <= k < |blocks| - 1 && blocks[|blocks| - 1 - k] != ""
    ensures |Body(Newest(blocks, k), |blocks| - k)| < |Body(Newest(blocks, k + 1), |blocks| - (k + 1))|
  {
    var more := Newest(blocks, k + 1);
    assert more[0] == blocks[|blocks| - 1 - k] && more[1..] == Newest(blocks, k);
    DigitsOfNext(|blocks| - (k + 1));
  }

  lemma {:induction false} FewerFit(blocks: seq<string>, j: nat, k: nat, prompt: string, budget: nat)
    requires 1 <= j <= k < |blocks| && Fits(blocks, k, prompt, budget)
    requires forall i :: 0 <= i < |blocks| ==> blocks[i] != ""
    ensures Fits(blocks, j, prompt, budget)
    decreases k
  {
    if j < k {
      OneMoreIsLonger(blocks, k - 1);
      FramedLength(Body(Newest(blocks, k - 1), |blocks| - (k - 1)), prompt);
      FramedLength(Body(Newest(blocks, k), |blocks| - k), prompt);
      FewerFit(blocks, j, k - 1, prompt, budget);
    }
  }

  /** No larger number of the newest messages would have fit. */
  ghost predicate IsLargest(blocks: seq<string>, prompt: string, budget: nat, k: nat) {
    forall j :: k < j <= |blocks| ==> !Fits(blocks, j, prompt, budget)
  }

  /** The greedy count, in terms of what fits. */
  lemma GreedyFits(blocks: seq<string>, prompt: string, budget: nat, r: Input)
    requires Packed(SourceLayout(), blocks, prompt, budget, r)
    ensures var k := r.includedCount;
      && k <= |blocks| && (forall j :: 1 <= j <= k ==> Fits(blocks, j, prompt, budget))
      && (k < |blocks| ==> !Fits(blocks, k + 1, prompt, budget))
  {
    var attempts, k := AttemptsFor(SourceLayout(), blocks, prompt, budget), r.includedCount;
    assert Greedy(attempts, |blocks|, k);
    forall j | 1 <= j <= k ensures Fits(blocks, j, prompt, budget) {
      assert attempts(j).Some?;
      AttemptFits(blocks, prompt, budget, j);
    }
    if k < |blocks| {
      AttemptFits(blocks, prompt, budget, k + 1);
    }
  }

  /** Of any messages, the included ones are as many of the newest as can fit, unless the whole
      transcript fits though it does not fit without its oldest message: only there, the
      summary of what is omitted costs more than what it stands for. */
  lemma GreedyIsLargestIff(messages: seq<Message>, prompt: string, budget: nat, r: Input)
    requires Packed(SourceLayout(), Blocks(messages), prompt, budget, r)
    ensures var n := |messages|;
      IsLargest(Blocks(messages), prompt, budget, r.includedCount)
      <==> (n > 1 && Fits(Blocks(messages), n, prompt, budget) ==> Fits(Blocks(messages), n - 1, prompt, budget))
  {
    var blocks, n, k := Blocks(messages), |messages|, r.includedCount;
    GreedyFits(blocks, prompt, budget, r);
    forall j | k < j < n ensures !Fits(blocks, j, prompt, budget) {
      if Fits(blocks, j, prompt, budget) {
        FewerFit(blocks, k + 1, j, prompt, budget);
      }
    }
  }

  lemma TwoBodies(b: string)
    ensures Body(Newest([b, b], 2), 0) == b + BREAK + b
    ensures Body(Newest([b, b], 1), 1) == OmittedSummary(1) + BREAK + b
  {
    assert Newest([b, b], 2) == [b, b] && Newest([b, b], 1) == [b];
    assert [b, b][1..] == [b] && Join([b], BREAK) == b;
  }

  lemma TwoFitTogether(b: string, budget: nat)
    requires |b| == 7 && budget == |Framed(b + BREAK + b, "")|
    ensures Fits([b, b], 2, "", budget)
    ensures Greedy(AttemptsFor(SourceLayout(), [b, b], "", budget), 2, 0)
  {
    TwoBodies(b);
    FramedLength(OmittedSummary(1) + BREAK + b, "");
    FramedLength(b + BREAK + b, "");
    AttemptFits([b, b], "", budget, 1);
  }

  lemma ShortBlock(message: Message)
    requires !message.assistant && message.text == "a" && message.attachments == []
    ensures |MessageBlock(message)| == 7
    ensures Blocks([message, message]) == [MessageBlock(message), MessageBlock(message)]
  {
  }

  /** Two equal messages that fit together, though one with the summary does not: nothing is
      included. */
  lemma GreedyNeedNotBeLargest()
    ensures exists messages: seq<Message>, budget: nat ::
      && |messages| == 2 && Fits(Blocks(messages), 2, "", budget)
      && Greedy(AttemptsFor(SourceLayout(), Blocks(messages), "", budget), 2, 0)
  {
    var message := Message(false, "a", []);
    ShortBlock(message);
    var budget := |Framed(MessageBlock(message) + BREAK + MessageBlock(message), "")|;
    TwoFitTogether(MessageBlock(message), budget);
    assert |[message, message]| == 2 && Fits(Blocks([message, message]), 2, "", budget);
  }

  // ----- the texts, on examples -----

  lemma ImageNamesCons(a: Attachment, rest: seq<Attachment>)
    ensures ImageNames([a] + rest) == (if a.image then [a.name] else []) + ImageNames(rest)
  {
    assert ([a] + rest)[1..] == rest;
  }

  lemma ImageNamesNone()
    ensures ImageNames([]) == []
  {
  }

  lemma NamesJoin(a: string, rest: seq<string>)
    requires rest != []
    ensures Join([a] + rest, ", ") == a + ", " + Join(rest, ", ")
  {
    assert ([a] + rest)[1..] == rest;
  }

  /** The summary of images tells their names in order, the first three at most, and how many
      more there are. */
  lemma SummaryOf(message: Message, names: seq<string>)
    requires ImageNames(message.attachments) == names
    ensures |names| == 0 ==> AttachmentSummary(message).None?
    ensures |names| == 1 ==> AttachmentSummary(message) == Some("[Attached image: " + names[0] + "]")
    ensures |names| == 2 ==> AttachmentSummary(message) == Some("[Attached images: " + (names[0] + ", " + names[1]) + "]")
    ensures |names| == 3 ==>
      AttachmentSummary(message) == Some("[Attached images: " + (names[0] + ", " + (names[1] + ", " + names[2])) + "]")
    ensures |names| > 3 ==>
      AttachmentSummary(message)
      == Some("[Attached images: " + (names[0] + ", " + (names[1] + ", " + names[2])) + (" (+" + Digits(|names| - 3) + " more)") + "]")
  {
    if |names| == 1 {
      SummaryText(message, names, names[0]);
    } else if |names| == 2 {
      TwoNames(names);
      SummaryText(message, names, names[0] + ", " + names[1]);
    } else if |names| >= 3 {
      FirstThree(names);
      SummaryText(message, names, names[0] + ", " + (names[1] + ", " + names[2]));
    }
  }

  lemma FirstThree(names: seq<string>)
    requires |names| >= 3
    ensures Join(if |names| > 3 then names[..3] else names, ", ") == names[0] + ", " + (names[1] + ", " + names[2])
  {
    ThreeNames(if |names| > 3 then names[..3] else names);
  }

  lemma SummaryText(message: Message, names: seq<string>, joined: string)
    requires ImageNames(message.attachments) == names != [] && Join(if |names| > 3 then names[..3] else names, ", ") == joined
    ensures AttachmentSummary(message)
         == Some(if |names| == 1 then "[Attached image: " + joined + "]"
                 else if |names| <= 3 then "[Attached images: " + joined + "]"
                 else "[Attached images: " + joined + (" (+" + Digits(|names| - 3) + " more)") + "]")
  {
    LineText(|names|, joined);
  }

  lemma LineText(count: nat, joined: string)
    requires count > 0
    ensures SummaryLine(count, joined)
         == if count == 1 then "[Attached image: " + joined + "]"
            else if count <= 3 then "[Attached images: " + joined + "]"
            else "[Attached images: " + joined + (" (+" + Digits(count - 3) + " more)") + "]"
  {
    Heads();
    NoExtra((if count == 1 then "[Attached image: " else "[Attached images: ") + joined);
  }

  lemma Heads()
    ensures "[Attached image" + "" + ": " == "[Attached image: " && "[Attached image" + "s" + ": " == "[Attached images: "
  {
  }

  lemma NoExtra(s: string)
    ensures s + "" == s
  {
  }

  lemma TwoNames(names: seq<string>)
    requires |names| == 2
    ensures Join(names, ", ") == names[0] + ", " + names[1]
  {
    assert names == [names[0]] + [names[1]];
    NamesJoin(names[0], [names[1]]);
  }

  lemma ThreeNames(names: seq<string>)
    requires |names| == 3
    ensures Join(names, ", ") == names[0] + ", " + (names[1] + ", " + names[2])
  {
    assert names == [names[0]] + [names[1], names[2]];
    NamesJoin(names[0], [names[1], names[2]]);
    TwoNames([names[1], names[2]]);
  }

  /** A block is the role, then the text if there is one, then the summary if there is one, on
      lines of their own; a message with neither is called empty. */
  lemma BlockIsLines(message: Message)
    ensures var head, summary := if message.assistant then "ASSISTANT:" else "USER:", AttachmentSummary(message);
      var lines := [head] + (if message.text != "" then [message.text] else [])
                   + (if summary.Some? then [summary.value] else [])
                   + (if message.text == "" && summary.None? then ["(empty message)"] else []);
      MessageBlock(message) == Join(lines, "\n")
  {
    var head, summary := if message.assistant then "ASSISTANT:" else "USER:", AttachmentSummary(message);
    HeadLine(message.assistant, head);
    var lines := [head] + (if message.text != "" then [message.text] else [])
                 + (if summary.Some? then [summary.value] else [])
                 + (if message.text == "" && summary.None? then ["(empty message)"] else []);
    if message.text != "" && summary.Some? {
      LinesOfThree(head, message.text, summary.value);
      assert lines == [head] + [message.text] + [summary.value];
    } else {
      var line := if message.text != "" then message.text else if summary.Some? then summary.value else "(empty message)";
      LinesOfTwo(head, line);
      assert lines == [head] + [line];
    }
  }

  lemma HeadLine(assistant: bool, head: string)
    requires head == if assistant then "ASSISTANT:" else "USER:"
    ensures (if assistant then "ASSISTANT" else "USER") + ":\n" == head + "\n"
  {
  }

  /** The transcript is paragraphs: the summary of what is omitted, if any is, and the blocks. */
  lemma BodyIsParagraphs(included: seq<string>, omitted: nat)
    ensures Body(included, omitted) == Join((if omitted == 0 then [] else [OmittedSummary(omitted)]) + included, BREAK)
  {
    if omitted == 0 {
      assert (if omitted == 0 then [] else [OmittedSummary(omitted)]) + included == included;
    } else {
      assert ([OmittedSummary(omitted)] + included)[1..] == included;
    }
  }

  /** The whole text is the preamble, the transcript under its header, and the prompt under its. */
  lemma LayoutIsParagraphs(included: seq<string>, omitted: nat, prompt: string)
    ensures SourceLayout()(included, omitted, prompt)
         == Join([PREAMBLE] + [TRANSCRIPT_HEADER + "\n" + Body(included, omitted)] + [LATEST_PROMPT_HEADER + "\n" + prompt], BREAK)
  {
    var a, b, c := PREAMBLE, TRANSCRIPT_HEADER + "\n" + Body(included, omitted), LATEST_PROMPT_HEADER + "\n" + prompt;
    assert ([a] + [b] + [c])[1..] == [b] + [c] && ([b] + [c])[1..] == [c];
    assert Join([b] + [c], BREAK) == b + BREAK + c;
    FramedPieces(Body(included, omitted), prompt);
  }

  lemma FramedPieces(body: string, prompt: string)
    ensures Framed(body, prompt) == PREAMBLE + BREAK + ((TRANSCRIPT_HEADER + "\n" + body) + BREAK + (LATEST_PROMPT_HEADER + "\n" + prompt))
  {
  }

  lemma LinesOfTwo(a: string, b: string)
    ensures Join([a] + [b], "\n") == a + "\n" + b
  {
    assert ([a] + [b])[1..] == [b];
  }

  lemma LinesOfThree(a: string, b: string, c: string)
    ensures Join([a] + [b] + [c], "\n") == a + "\n" + (b + "\n" + c)
  {
    assert ([a] + [b] + [c])[1..] == [b] + [c];
    LinesOfTwo(b, c);
  }
}
