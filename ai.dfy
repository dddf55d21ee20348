/** `analyze_chat`: the prompt shows the chat's most recent messages numbered from 1; the
    model's answer is read line by line for a category, a suggested name and the numbers
    of urgent messages, which are mapped back to message ids. The language model itself is
    a function from prompt to answer. */
module Ai {
  import opened Common
  import opened Strings

  /** At most this many messages are shown to the model. */
  const ContextMsgCount := 1000

  /** `count`: how many messages the prompt shows. */
  function WindowCount(msgs: seq<MessageInfo>): nat {
    if |msgs| < ContextMsgCount then |msgs| else ContextMsgCount
  }

  /** `start_index`: the length minus 1000, saturating at 0. */
  function WindowStart(msgs: seq<MessageInfo>): nat {
    if |msgs| > ContextMsgCount then |msgs| - ContextMsgCount else 0
  }

  /** The window is the last `count` messages: it ends where the slice ends. */
  lemma WindowIsSuffix(msgs: seq<MessageInfo>)
    ensures WindowStart(msgs) + WindowCount(msgs) == |msgs|
    ensures WindowCount(msgs) <= ContextMsgCount
    ensures |msgs| <= ContextMsgCount ==> WindowStart(msgs) == 0
  {
  }

  // ---------------------------------------------------------------------------------
  // The prompt

  function PromptHeader(title: string): string {
    "The following are recent messages in the chat \"" + title + "\":\n"
  }

  const Instructions: string :=
    "\nDetermine a short category for the topic of this chat.\n"
    + "Identify if any of the above messages are urgent (needing immediate attention) and list their numbers (or 'None').\n"
    + "Suggest a concise, standardized name for this chat.\n"
    + "Provide the answer in the format:\n"
    + "Category: <category>\nUrgent: <list of message numbers or None>\nSuggestedName: <suggested name>\n"

  /** The prompt line for the message numbered `idx`, its newlines flattened. */
  function Entry(idx: nat, m: MessageInfo): string {
    NatToString(idx) + ". " + FlattenNewlines(m.text) + "\n"
  }

  /** The numbered lines for `window`, numbered from 1. */
  function Entries(window: seq<MessageInfo>): string
    decreases |window|
  {
    if window == [] then ""
    else Entries(window[..|window| - 1]) + Entry(|window|, window[|window| - 1])
  }

  function Prompt(title: string, msgs: seq<MessageInfo>): string {
    PromptHeader(title) + Entries(msgs[WindowStart(msgs)..]) + Instructions
  }

  /** One loop step that appends `step` to a text already holding `head + done`. */
  lemma LoopAppend<T>(head: seq<T>, done: seq<T>, before: seq<T>, after: seq<T>, step: seq<T>)
    requires before == head + done && after == before + step
    ensures after == head + (done + step)
  {
  }

  lemma EntriesStep(window: seq<MessageInfo>, i: nat)
    requires i < |window|
    ensures Entries(window[..i + 1]) == Entries(window[..i]) + Entry(i + 1, window[i])
  {
    assert window[..i + 1][..i] == window[..i];
  }

  /** The prompt text, appended to entry by entry as the source does. */
  method BuildPrompt(title: string, msgs: seq<MessageInfo>) returns (p: string)
    ensures p == Prompt(title, msgs)
  {
    var start := if |msgs| > ContextMsgCount then |msgs| - ContextMsgCount else 0;
    var window := msgs[start..];
    p := PromptHeader(title);
    for i := 0 to |window|
      invariant p == PromptHeader(title) + Entries(window[..i])
    {
      ghost var before := p;
      p := p + Entry(i + 1, window[i]);
      EntriesStep(window, i);
      LoopAppend(PromptHeader(title), Entries(window[..i]), before, p, Entry(i + 1, window[i]));
    }
    assert window[..|window|] == window;
    p := p + Instructions;
  }

  // ---------------------------------------------------------------------------------
  // Reading the answer

  /** The result of an analysis: category, suggested name and urgent message ids. */
  datatype Analysis = Analysis(category: string, suggestedName: string, urgentIds: seq<int>)

  const CategoryTag := "category:"
  const SuggestedTag := "suggestedname:"
  const UrgentTag := "urgent:"

  /** The characters an urgent list is split on. */
  const UrgentSeparators: set<char> := {',', ';', ' '}

  /** The message id an urgent token names: a number from 1 to `count`, counted from the
      start of the window; anything else names nothing. */
  function TokenId(token: string, msgs: seq<MessageInfo>): (r: Option<int>)
    ensures r.Some? ==> exists i :: WindowStart(msgs) <= i < |msgs| && r.value == msgs[i].msgId
  {
    match ParseNat(Trim(token))
    case None => None
    case Some(num) =>
      if 1 <= num <= WindowCount(msgs) && WindowStart(msgs) + (num - 1) < |msgs| then
        Some(msgs[WindowStart(msgs) + (num - 1)].msgId)
      else None
  }

  /** The id a token names, as a list of none or one. */
  function TokenIds(token: string, msgs: seq<MessageInfo>): seq<int> {
    match TokenId(token, msgs)
    case None => []
    case Some(id) => [id]
  }

  lemma UrgentIdsStep(tokens: seq<string>, k: nat, msgs: seq<MessageInfo>)
    requires k < |tokens|
    ensures UrgentIds(tokens[..k + 1], msgs) == UrgentIds(tokens[..k], msgs) + TokenIds(tokens[k], msgs)
  {
    assert tokens[..k + 1][..k] == tokens[..k];
    if TokenId(tokens[k], msgs).None? {
      assert UrgentIds(tokens[..k], msgs) + [] == UrgentIds(tokens[..k], msgs);
    }
  }

  /** The ids named by the tokens, in order, repeats kept. */
  function UrgentIds(tokens: seq<string>, msgs: seq<MessageInfo>): seq<int>
    decreases |tokens|
  {
    if tokens == [] then []
    else
      var front := UrgentIds(tokens[..|tokens| - 1], msgs);
      match TokenId(tokens[|tokens| - 1], msgs)
      case None => front
      case Some(id) => front + [id]
  }

  /** The reading so far: the last category and suggested name seen, and the urgent ids. */
  datatype Reading = Reading(category: string, suggested: string, urgent: seq<int>)

  /** What follows a tag on a line: the line's (trimmed) text after the tag, trimmed. */
  function AfterTag(trimmed: string, tag: string): string
    requires |tag| <= |trimmed|
  {
    Trim(trimmed[|tag|..])
  }

  /** "None" or "No", in any case. */
  predicate SaysNone(rest: string) {
    Lower(rest) == "none" || Lower(rest) == "no"
  }

  predicate IsCategoryLine(line: string) {
    StartsWith(Lower(Trim(line)), CategoryTag)
  }

  predicate IsSuggestedLine(line: string) {
    !IsCategoryLine(line) && StartsWith(Lower(Trim(line)), SuggestedTag)
  }

  predicate IsUrgentLine(line: string) {
    !IsCategoryLine(line) && !IsSuggestedLine(line) && StartsWith(Lower(Trim(line)), UrgentTag)
  }

  /** An "Urgent:" line saying none. */
  predicate IsClearLine(line: string) {
    IsUrgentLine(line) && SaysNone(AfterTag(Trim(line), UrgentTag))
  }

  /** The effect of one line of the answer. */
  function ReadLine(st: Reading, line: string, msgs: seq<MessageInfo>): Reading {
    var trimmed := Trim(line);
    if IsCategoryLine(line) then st.(category := AfterTag(trimmed, CategoryTag))
    else if IsSuggestedLine(line) then st.(suggested := AfterTag(trimmed, SuggestedTag))
    else if IsUrgentLine(line) then
      var rest := AfterTag(trimmed, UrgentTag);
      if SaysNone(rest) then st.(urgent := [])
      else st.(urgent := st.urgent + UrgentIds(Split(rest, UrgentSeparators), msgs))
    else st
  }

  /** The lines read in order. */
  function ReadLines(st: Reading, lines: seq<string>, msgs: seq<MessageInfo>): Reading
    decreases |lines|
  {
    if lines == [] then st
    else ReadLine(ReadLines(st, lines[..|lines| - 1], msgs), lines[|lines| - 1], msgs)
  }

  const Uncategorized := "Uncategorized"

  /** An empty category or suggested name falls back to its default. */
  function Finish(st: Reading, title: string): Analysis {
    Analysis(if st.category == "" then Uncategorized else st.category,
             if st.suggested == "" then title else st.suggested,
             st.urgent)
  }

  /** The analysis an answer gives: its trimmed text read line by line from nothing. */
  function Analyze(title: string, msgs: seq<MessageInfo>, answer: string): Analysis {
    Finish(ReadLines(Reading("", "", []), Lines(Trim(answer)), msgs), title)
  }

  /** `analyze_chat` as a value: the model's failure is the only error. */
  function ChatAnalysis(title: string, msgs: seq<MessageInfo>, generate: string -> Result<string>): Result<Analysis> {
    match generate(Prompt(title, msgs))
    case Err(e) => Err("AI generation failed: " + e)
    case Ok(answer) => Ok(Analyze(title, msgs, answer))
  }

  /** One urgent token: trimmed, parsed as an unsigned number, checked against the window
      and mapped back to the id of the message shown under that number. */
  method TokenMsgId(token: string, msgs: seq<MessageInfo>, count: nat, start: nat) returns (id: Option<int>)
    requires count == WindowCount(msgs) && start == WindowStart(msgs)
    ensures id == TokenId(token, msgs)
  {
    id := None;
    var parsed := ParseNat(Trim(token));
    if parsed.Some? {
      var num := parsed.value;
      if 1 <= num <= count {
        var actual := start + (num - 1);
        if actual < |msgs| {
          id := Some(msgs[actual].msgId);
        }
      }
    }
  }

  /** The urgent-list loop over the tokens of one "Urgent:" line. */
  method CollectUrgent(rest: string, msgs: seq<MessageInfo>, urgent: seq<int>) returns (r: seq<int>)
    ensures r == urgent + UrgentIds(Split(rest, UrgentSeparators), msgs)
  {
    var count := if |msgs| < ContextMsgCount then |msgs| else ContextMsgCount;
    var start := if |msgs| > ContextMsgCount then |msgs| - ContextMsgCount else 0;
    var tokens := Split(rest, UrgentSeparators);
    r := urgent;
    for k := 0 to |tokens|
      invariant r == urgent + UrgentIds(tokens[..k], msgs)
    {
      ghost var before := r;
      var id := TokenMsgId(tokens[k], msgs, count, start);
      if id.Some? {
        r := r + [id.value];
      }
      UrgentIdsStep(tokens, k, msgs);
      LoopAppend(urgent, UrgentIds(tokens[..k], msgs), before, r, TokenIds(tokens[k], msgs));
    }
    assert tokens[..|tokens|] == tokens;
  }

  /** The body of the parse loop for one line of the answer. */
  method ReadAnswerLine(category: string, suggested: string, urgent: seq<int>, line: string, msgs: seq<MessageInfo>)
      returns (category': string, suggested': string, urgent': seq<int>)
    ensures Reading(category', suggested', urgent') == ReadLine(Reading(category, suggested, urgent), line, msgs)
  {
    category', suggested', urgent' := category, suggested, urgent;
    var trimmed := Trim(line);
    var low := Lower(trimmed);
    if StartsWith(low, CategoryTag) {
      category' := Trim(trimmed[|CategoryTag|..]);
    } else if StartsWith(low, SuggestedTag) {
      suggested' := Trim(trimmed[|SuggestedTag|..]);
    } else if StartsWith(low, UrgentTag) {
      var rest := Trim(trimmed[|UrgentTag|..]);
      if Lower(rest) == "none" || Lower(rest) == "no" {
        urgent' := [];
      } else {
        urgent' := CollectUrgent(rest, msgs, urgent);
      }
    }
  }

  /** The parse loop: the trimmed answer read line by line, from nothing. */
  method ReadAnswer(answer: string, msgs: seq<MessageInfo>)
      returns (category: string, suggested: string, urgent: seq<int>)
    ensures Reading(category, suggested, urgent) == ReadLines(Reading("", "", []), Lines(Trim(answer)), msgs)
  {
    var lines := Lines(Trim(answer));
    category, suggested, urgent := "", "", [];
    for k := 0 to |lines|
      invariant Reading(category, suggested, urgent) == ReadLines(Reading("", "", []), lines[..k], msgs)
    {
      assert lines[..k + 1][..k] == lines[..k];
      category, suggested, urgent := ReadAnswerLine(category, suggested, urgent, lines[k], msgs);
    }
    assert lines[..|lines|] == lines;
  }

  /** `analyze_chat`: build the prompt, ask the model, read its answer line by line. */
  method AnalyzeChat(title: string, msgs: seq<MessageInfo>, generate: string -> Result<string>)
      returns (r: Result<Analysis>)
    ensures r == ChatAnalysis(title, msgs, generate)
  {
    var prompt := BuildPrompt(title, msgs);
    var response := generate(prompt);
    if response.Err? {
      return Err("AI generation failed: " + response.error);
    }
    var category, suggested, urgent := ReadAnswer(response.value, msgs);
    if category == "" {
      category := Uncategorized;
    }
    if suggested == "" {
      suggested := title;
    }
    r := Ok(Analysis(category, suggested, urgent));
  }

  // ---------------------------------------------------------------------------------
  // Properties of the reading

  /** A number printed in the prompt, given back as an urgent token, names the message it
      was printed for. */
  lemma PromptNumberRoundTrip(msgs: seq<MessageInfo>, k: nat)
    requires k < WindowCount(msgs)
    ensures NatToString(k + 1) == Entry(k + 1, msgs[WindowStart(msgs) + k])[..|NatToString(k + 1)|]
    ensures TokenId(NatToString(k + 1), msgs) == Some(msgs[WindowStart(msgs) + k].msgId)
  {
    var s := NatToString(k + 1);
    ParseNatToString(k + 1);
    assert NoEdgeSpace(s) by {
      assert IsDigit(s[0]) && IsDigit(s[|s| - 1]);
    }
  }

  /** Every id an urgent list yields belongs to a message shown in the prompt. */
  lemma {:induction false} UrgentIdsFromWindow(tokens: seq<string>, msgs: seq<MessageInfo>)
    ensures forall id :: id in UrgentIds(tokens, msgs) ==>
              exists i :: WindowStart(msgs) <= i < |msgs| && id == msgs[i].msgId
    decreases |tokens|
  {
    if tokens != [] {
      UrgentIdsFromWindow(tokens[..|tokens| - 1], msgs);
    }
  }

  /** Reading the lines `a + b` is reading `a`, then `b`. */
  lemma {:induction false} ReadLinesAppend(st: Reading, a: seq<string>, b: seq<string>, msgs: seq<MessageInfo>)
    ensures ReadLines(st, a + b, msgs) == ReadLines(ReadLines(st, a, msgs), b, msgs)
    decreases |b|
  {
    if b == [] {
      assert a + b == a;
    } else {
      assert (a + b)[..|a + b| - 1] == a + b[..|b| - 1];
      ReadLinesAppend(st, a, b[..|b| - 1], msgs);
    }
  }

  /** Every urgent id of a reading comes from the prompt window, provided those it
      started with did. */
  lemma {:induction false} ReadLinesUrgentFromWindow(st: Reading, lines: seq<string>, msgs: seq<MessageInfo>)
    requires forall id :: id in st.urgent ==> exists i :: WindowStart(msgs) <= i < |msgs| && id == msgs[i].msgId
    ensures forall id :: id in ReadLines(st, lines, msgs).urgent ==>
              exists i :: WindowStart(msgs) <= i < |msgs| && id == msgs[i].msgId
    decreases |lines|
  {
    if lines != [] {
      var before := ReadLines(st, lines[..|lines| - 1], msgs);
      ReadLinesUrgentFromWindow(st, lines[..|lines| - 1], msgs);
      var line := lines[|lines| - 1];
      if IsUrgentLine(line) && !SaysNone(AfterTag(Trim(line), UrgentTag)) {
        UrgentIdsFromWindow(Split(AfterTag(Trim(line), UrgentTag), UrgentSeparators), msgs);
      }
    }
  }

  /** The analysis only ever reports ids of messages shown in the prompt. */
  lemma AnalyzeUrgentFromWindow(title: string, msgs: seq<MessageInfo>, answer: string)
    ensures forall id :: id in Analyze(title, msgs, answer).urgentIds ==>
              exists i :: WindowStart(msgs) <= i < |msgs| && id == msgs[i].msgId
  {
    ReadLinesUrgentFromWindow(Reading("", "", []), Lines(Trim(answer)), msgs);
  }

  /** Of several category lines the last one wins: what came before it is forgotten, and
      lines after it that are not category lines leave it alone. */
  lemma {:induction false} LastCategoryWins(st: Reading, a: seq<string>, line: string, b: seq<string>, msgs: seq<MessageInfo>)
    requires IsCategoryLine(line)
    requires forall k :: 0 <= k < |b| ==> !IsCategoryLine(b[k])
    ensures ReadLines(st, a + [line] + b, msgs).category == AfterTag(Trim(line), CategoryTag)
  {
    ReadLinesAppend(st, a + [line], b, msgs);
    assert (a + [line])[..|a + [line]| - 1] == a;
    CategoryKept(ReadLines(st, a + [line], msgs), b, msgs);
  }

  lemma {:induction false} CategoryKept(st: Reading, b: seq<string>, msgs: seq<MessageInfo>)
    requires forall k :: 0 <= k < |b| ==> !IsCategoryLine(b[k])
    ensures ReadLines(st, b, msgs).category == st.category
    decreases |b|
  {
    if b != [] {
      CategoryKept(st, b[..|b| - 1], msgs);
    }
  }

  /** Suggested-name lines work the same way: the last one wins, and lines after it that
      are not suggested-name lines leave it alone. */
  lemma {:induction false} LastSuggestedWins(st: Reading, a: seq<string>, line: string, b: seq<string>, msgs: seq<MessageInfo>)
    requires IsSuggestedLine(line)
    requires forall k :: 0 <= k < |b| ==> !IsSuggestedLine(b[k])
    ensures ReadLines(st, a + [line] + b, msgs).suggested == AfterTag(Trim(line), SuggestedTag)
  {
    ReadLinesAppend(st, a + [line], b, msgs);
    assert (a + [line])[..|a + [line]| - 1] == a;
    SuggestedKept(ReadLines(st, a + [line], msgs), b, msgs);
  }

  lemma {:induction false} SuggestedKept(st: Reading, b: seq<string>, msgs: seq<MessageInfo>)
    requires forall k :: 0 <= k < |b| ==> !IsSuggestedLine(b[k])
    ensures ReadLines(st, b, msgs).suggested == st.suggested
    decreases |b|
  {
    if b != [] {
      SuggestedKept(st, b[..|b| - 1], msgs);
    }
  }

  /** An "Urgent: none" line forgets every urgent id read before it: the ids reported are
      those of the lines after it alone. */
  lemma ClearForgetsEarlier(st: Reading, a: seq<string>, line: string, b: seq<string>, msgs: seq<MessageInfo>)
    requires IsClearLine(line)
    ensures ReadLines(st, a + [line] + b, msgs).urgent
         == ReadLines(ReadLines(st, a, msgs).(urgent := []), b, msgs).urgent
  {
    ReadLinesAppend(st, a + [line], b, msgs);
    assert (a + [line])[..|a + [line]| - 1] == a;
    UrgentIndependent(ReadLines(st, a + [line], msgs), ReadLines(st, a, msgs).(urgent := []), b, msgs);
  }

  /** The urgent ids after some lines depend on the reading before them only through its
      urgent ids. */
  lemma {:induction false} UrgentIndependent(st1: Reading, st2: Reading, b: seq<string>, msgs: seq<MessageInfo>)
    requires st1.urgent == st2.urgent
    ensures ReadLines(st1, b, msgs).urgent == ReadLines(st2, b, msgs).urgent
    decreases |b|
  {
    if b != [] {
      UrgentIndependent(st1, st2, b[..|b| - 1], msgs);
    }
  }

  /** The category reported is never empty, and the suggested name is the chat title
      whenever the answer gave none. */
  lemma AnalyzeDefaults(title: string, msgs: seq<MessageInfo>, answer: string)
    ensures Analyze(title, msgs, answer).category != ""
    ensures ReadLines(Reading("", "", []), Lines(Trim(answer)), msgs).suggested == "" ==>
              Analyze(title, msgs, answer).suggestedName == title
    ensures ReadLines(Reading("", "", []), Lines(Trim(answer)), msgs).category == "" ==>
              Analyze(title, msgs, answer).category == Uncategorized
  {
  }

  /** An answer without any tagged line yields the defaults: "Uncategorized", the chat
      title, and no urgent messages. */
  lemma {:induction false} UntaggedAnswerDefaults(title: string, msgs: seq<MessageInfo>, answer: string)
    requires forall k :: 0 <= k < |Lines(Trim(answer))| ==>
               var l := Lines(Trim(answer))[k]; !IsCategoryLine(l) && !IsSuggestedLine(l) && !IsUrgentLine(l)
    ensures Analyze(title, msgs, answer) == Analysis(Uncategorized, title, [])
  {
    Untouched(Reading("", "", []), Lines(Trim(answer)), msgs);
  }

  lemma {:induction false} Untouched(st: Reading, lines: seq<string>, msgs: seq<MessageInfo>)
    requires forall k :: 0 <= k < |lines| ==>
               !IsCategoryLine(lines[k]) && !IsSuggestedLine(lines[k]) && !IsUrgentLine(lines[k])
    ensures ReadLines(st, lines, msgs) == st
    decreases |lines|
  {
    if lines != [] {
      Untouched(st, lines[..|lines| - 1], msgs);
    }
  }

  /** The analysis fails exactly when the model fails. */
  lemma ChatAnalysisFails(title: string, msgs: seq<MessageInfo>, generate: string -> Result<string>)
    ensures ChatAnalysis(title, msgs, generate).Err? <==> generate(Prompt(title, msgs)).Err?
  {
  }
}
