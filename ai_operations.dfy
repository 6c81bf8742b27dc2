/**
 * The text handling around the Santa-persona model calls: the system
 * messages sent with a question request, the extraction of the question and
 * its options from a tagged reply, the splitting of gift-suggestion output
 * into records, and the plain-text chat summary the suggestion request uses.
 * Each model call is an oracle `complete` from request messages to a `Reply`.
 */
module AiOperations {
  import opened Wrappers
  import opened PyStrings
  import opened Messages

  const QUESTION_OPEN: string := "<question>"
  const QUESTION_CLOSE: string := "</question>"
  const OPTIONS_OPEN: string := "<multiple_choice_options>"
  const OPTIONS_CLOSE: string := "</multiple_choice_options>"
  const KEYWORDS_OPEN: string := "<keywords>"
  const KEYWORDS_CLOSE: string := "</keywords>"
  const NEWLINE: string := "\n"

  /** The gift-box glyph (U+1F381) that introduces each suggestion. */
  const GIFT: string := "\U{1F381}"
  const GIFT_PREFIX: string := GIFT + " "

  /** The last system message of every question request. */
  const TAG_REMINDER: string := "Remember to structure your response with all XML tags: <covered_questions>, <remaining_questions>, <thinking>, <question>, and <multiple_choice_options>. This is crucial for tracking conversation progress."

  const SUMMARY_HEADER: string := "Chat summary:\n"

  /** The budget block of a question request, with the budget text inside. */
  function BudgetPrompt(budget: string): string {
    "\n            IMPORTANT: The gift budget is " + budget + ". \n"
    + "            - Ensure all questions consider this budget range\n"
    + "            - Adjust options to be appropriate for this price range\n"
    + "            - Focus on value-oriented questions for lower budgets\n"
    + "            - Consider luxury preferences for higher budgets\n"
    + "            "
  }

  // ---------------------------------------------------------------------
  // Question requests and replies
  // ---------------------------------------------------------------------

  /** The system messages of a question request: the persona prompt, the
      budget block only when a budget is given (Python truthiness), and the
      tag reminder last. */
  function SantaSystemMessages(santaPrompt: string, budget: Option<string>): (r: seq<Message>)
    ensures |r| == if Truthy(budget) then 3 else 2
    ensures r[0] == System(santaPrompt) && r[|r| - 1] == System(TAG_REMINDER)
    ensures Truthy(budget) ==> r[1] == System(BudgetPrompt(budget.value))
    ensures forall k :: 0 <= k < |r| ==> r[k].role == SYSTEM
  {
    [System(santaPrompt)]
    + (if Truthy(budget) then [System(BudgetPrompt(budget.value))] else [])
    + [System(TAG_REMINDER)]
  }

  /** The whole question request: the system messages, then the transcript
      unchanged. */
  function SantaRequest(santaPrompt: string, messages: seq<Message>, budget: Option<string>): (r: seq<Message>)
    ensures |r| == |SantaSystemMessages(santaPrompt, budget)| + |messages|
    ensures r[|r| - |messages|..] == messages
  {
    SantaSystemMessages(santaPrompt, budget) + messages
  }

  /** The stripped, non-blank lines of `lines`, in order. */
  function CleanLines(lines: seq<string>): (r: seq<string>)
    ensures |r| <= |lines|
    ensures forall k :: 0 <= k < |r| ==> r[k] != "" && Strip(r[k]) == r[k]
  {
    if lines == [] then []
    else
      var line := Strip(lines[0]);
      StripIdempotent(lines[0]);
      (if line != "" then [line] else []) + CleanLines(lines[1..])
  }

  /** Cleaning distributes over concatenation: the kept lines of `a + b`
      are the kept lines of `a`, then those of `b`. */
  lemma {:induction false} CleanLinesConcat(a: seq<string>, b: seq<string>)
    ensures CleanLines(a + b) == CleanLines(a) + CleanLines(b)
    decreases |a|
  {
    if a == [] {
      assert a + b == b;
    } else {
      assert (a + b)[0] == a[0];
      assert (a + b)[1..] == a[1..] + b;
      CleanLinesConcat(a[1..], b);
    }
  }

  /** The options block with each line stripped and blank lines dropped. */
  function CleanOptions(raw: string): string {
    Join(NEWLINE, CleanLines(Split(raw, NEWLINE)))
  }

  /** The stripped text after the last `<question>`, up to the first
      `</question>` after it (or to the end). */
  function QuestionText(content: string): (q: string)
    ensures Strip(q) == q
  {
    var piece := BeforeFirst(AfterLast(content, QUESTION_OPEN), QUESTION_CLOSE);
    StripIdempotent(piece);
    Strip(piece)
  }

  /** The text after the last `<multiple_choice_options>`, up to the first
      closing tag after it (or to the end). */
  function OptionsText(content: string): (o: string)
    ensures !Contains(o, OPTIONS_CLOSE)
  {
    var after := AfterLast(content, OPTIONS_OPEN);
    BeforeFirstAbsence(after, OPTIONS_CLOSE, OPTIONS_CLOSE);
    BeforeFirst(after, OPTIONS_CLOSE)
  }

  /** What a successful question request returns: the question, a newline
      and the cleaned options when both opening tags occur (closing tags are
      not checked); otherwise the reply unchanged. */
  function FormatSantaResponse(content: string): (r: string)
    ensures !(Contains(content, QUESTION_OPEN) && Contains(content, OPTIONS_OPEN)) ==> r == content
  {
    if Contains(content, QUESTION_OPEN) && Contains(content, OPTIONS_OPEN) then
      QuestionText(content) + NEWLINE + CleanOptions(OptionsText(content))
    else content
  }

  /** A question request: `None` when the model call raises, otherwise the
      formatted reply. */
  function GenerateSantaResponse(santaPrompt: string, messages: seq<Message>, budget: Option<string>,
                                 complete: seq<Message> -> Reply<string>): (r: Option<string>)
    ensures r.None? <==> complete(SantaRequest(santaPrompt, messages, budget)).Raised?
    ensures complete(SantaRequest(santaPrompt, messages, budget)).Returned? ==>
      r == Some(FormatSantaResponse(complete(SantaRequest(santaPrompt, messages, budget)).value))
  {
    match complete(SantaRequest(santaPrompt, messages, budget))
    case Raised => None
    case Returned(content) => Some(FormatSantaResponse(content))
  }

  /** No cleaned line holds a pattern that no input line holds. */
  lemma {:induction false} CleanLinesAbsent(lines: seq<string>, pat: string)
    requires |pat| > 0
    requires forall k :: 0 <= k < |lines| ==> !Contains(lines[k], pat)
    ensures forall k :: 0 <= k < |CleanLines(lines)| ==> !Contains(CleanLines(lines)[k], pat)
    decreases |lines|
  {
    if lines != [] {
      StripKeepsAbsence(lines[0], pat);
      CleanLinesAbsent(lines[1..], pat);
    }
  }

  /** Read back line by line, the cleaned options are exactly the stripped,
      non-blank lines of the raw options block, in order. */
  lemma OptionLines(raw: string)
    requires CleanLines(Split(raw, NEWLINE)) != []
    ensures Split(CleanOptions(raw), NEWLINE) == CleanLines(Split(raw, NEWLINE))
  {
    SplitPiecesFree(raw, NEWLINE);
    CleanLinesAbsent(Split(raw, NEWLINE), NEWLINE);
    SplitJoin(NEWLINE, CleanLines(Split(raw, NEWLINE)));
  }

  /** The question is the stripped text that follows the last `<question>`
      and precedes the next `</question>` (running to the end of the reply
      when there is none); it holds neither tag. */
  lemma QuestionTextShape(content: string)
    requires Contains(content, QUESTION_OPEN)
    ensures var m := LastPieceStart(content, QUESTION_OPEN, 0);
      && m >= |QUESTION_OPEN| && OccursAt(content, QUESTION_OPEN, m - |QUESTION_OPEN|)
      && !Contains(content[m..], QUESTION_OPEN)
      && QuestionText(content) == Strip(BeforeFirst(content[m..], QUESTION_CLOSE))
    ensures !Contains(QuestionText(content), QUESTION_OPEN)
    ensures !Contains(QuestionText(content), QUESTION_CLOSE)
    ensures Strip(QuestionText(content)) == QuestionText(content)
  {
    TaggedTextShape(content, QUESTION_OPEN, QUESTION_CLOSE);
  }

  /** The same for any pair of non-empty tags. */
  lemma TaggedTextShape(content: string, open: string, close: string)
    requires |open| > 0 && |close| > 0 && Contains(content, open)
    ensures var m := LastPieceStart(content, open, 0);
      var text := Strip(BeforeFirst(AfterLast(content, open), close));
      && m >= |open| && OccursAt(content, open, m - |open|)
      && !Contains(content[m..], open)
      && text == Strip(BeforeFirst(content[m..], close))
      && !Contains(text, open) && !Contains(text, close)
      && Strip(text) == text
  {
    var after := AfterLast(content, open);
    AfterLastShape(content, open);
    var piece := BeforeFirst(after, close);
    BeforeFirstAbsence(after, close, open);
    StripKeepsAbsence(piece, close);
    StripKeepsAbsence(piece, open);
    StripIdempotent(piece);
  }

  /** When both tags occur and the question is one line, the reply read line
      by line is the question followed by the cleaned option lines (a lone
      empty line when every option line was blank). */
  lemma SantaResponseLines(content: string)
    requires Contains(content, QUESTION_OPEN) && Contains(content, OPTIONS_OPEN)
    requires !Contains(QuestionText(content), NEWLINE)
    ensures var lines := CleanLines(Split(OptionsText(content), NEWLINE));
      Split(FormatSantaResponse(content), NEWLINE)
        == [QuestionText(content)] + (if lines == [] then [""] else lines)
  {
    var q := QuestionText(content);
    var lines := CleanLines(Split(OptionsText(content), NEWLINE));
    var tail := if lines == [] then [""] else lines;
    SplitPiecesFree(OptionsText(content), NEWLINE);
    CleanLinesAbsent(Split(OptionsText(content), NEWLINE), NEWLINE);
    assert Join(NEWLINE, tail) == CleanOptions(OptionsText(content));
    JoinCons(NEWLINE, q, tail);
    assert !Contains("", NEWLINE);
    SplitJoin(NEWLINE, [q] + tail);
  }

  // ---------------------------------------------------------------------
  // Gift suggestions
  // ---------------------------------------------------------------------

  datatype Suggestion = Suggestion(text: string, keywords: string)

  predicate IsBlank(segment: string) {
    Strip(segment) == ""
  }

  /** One suggestion record from one non-blank segment: with both keyword
      tags, the text before the first `<keywords>` and the keywords up to the
      next `</keywords>`; otherwise the whole segment and no keywords. */
  function ParseSegment(segment: string): (s: Suggestion)
    ensures |s.text| >= |GIFT_PREFIX| && s.text[..|GIFT_PREFIX|] == GIFT_PREFIX
    ensures !(Contains(segment, KEYWORDS_OPEN) && Contains(segment, KEYWORDS_CLOSE))
      ==> s == Suggestion(GIFT_PREFIX + Strip(segment), "")
  {
    if Contains(segment, KEYWORDS_OPEN) && Contains(segment, KEYWORDS_CLOSE) then
      SplitHasSecond(segment, KEYWORDS_OPEN);
      var parts := Split(segment, KEYWORDS_OPEN);
      Suggestion(GIFT_PREFIX + Strip(parts[0]), Strip(BeforeFirst(parts[1], KEYWORDS_CLOSE)))
    else
      Suggestion(GIFT_PREFIX + Strip(segment), "")
  }

  /** The records of a list of segments: one per non-blank segment, in
      order (the reference the parsing loop is proved against). */
  function SuggestionsOf(segments: seq<string>): (r: seq<Suggestion>)
    ensures |r| <= |segments|
  {
    if segments == [] then []
    else
      var last := segments[|segments| - 1];
      SuggestionsOf(segments[..|segments| - 1])
      + (if IsBlank(last) then [] else [ParseSegment(last)])
  }

  /** The non-blank segments, in order. */
  function NonBlank(segments: seq<string>): (r: seq<string>)
    ensures forall k :: 0 <= k < |r| ==> !IsBlank(r[k])
  {
    if segments == [] then []
    else (if IsBlank(segments[0]) then [] else [segments[0]]) + NonBlank(segments[1..])
  }

  /** `generate_gift_suggestions`' loop over `content.split("🎁")`: blank
      segments are skipped, every other one gives one record. */
  method ParseGiftSuggestions(content: string) returns (suggestions: seq<Suggestion>)
    ensures suggestions == SuggestionsOf(Split(content, GIFT))
  {
    var rawSuggestions := Split(content, GIFT);
    suggestions := [];
    for i := 0 to |rawSuggestions|
      invariant suggestions == SuggestionsOf(rawSuggestions[..i])
    {
      var suggestion := rawSuggestions[i];
      assert rawSuggestions[..i + 1][..i] == rawSuggestions[..i];
      if Strip(suggestion) == "" {
        continue;
      }
      suggestions := suggestions + [ParseSegment(suggestion)];
    }
    assert rawSuggestions[..|rawSuggestions|] == rawSuggestions;
  }

  /** Parsing distributes over concatenation of segment lists. */
  lemma {:induction false} SuggestionsOfConcat(a: seq<string>, b: seq<string>)
    ensures SuggestionsOf(a + b) == SuggestionsOf(a) + SuggestionsOf(b)
    decreases |b|
  {
    if b != [] {
      var b' := b[..|b| - 1];
      assert (a + b)[..|a + b| - 1] == a + b';
      SuggestionsOfConcat(a, b');
    } else {
      assert a + b == a;
    }
  }

  /** The records of a segment list are those of its first segment, then
      those of the rest. */
  lemma SuggestionsOfCons(head: string, tail: seq<string>)
    ensures SuggestionsOf([head] + tail)
      == (if IsBlank(head) then [] else [ParseSegment(head)]) + SuggestionsOf(tail)
  {
    SuggestionsOfConcat([head], tail);
    assert [head][..0] == [];
  }

  lemma ParsedConcat(first: seq<Suggestion>, kept: seq<string>, records: seq<Suggestion>, segments: seq<string>)
    requires |first| == |kept| && |records| == |segments|
    requires forall k :: 0 <= k < |kept| ==> first[k] == ParseSegment(kept[k])
    requires forall k :: 0 <= k < |segments| ==> records[k] == ParseSegment(segments[k])
    ensures |first + records| == |kept + segments|
    ensures forall k :: 0 <= k < |kept + segments| ==>
      (first + records)[k] == ParseSegment((kept + segments)[k])
  {
    forall k | 0 <= k < |kept + segments|
      ensures (first + records)[k] == ParseSegment((kept + segments)[k])
    {
      if k >= |kept| {
        assert (first + records)[k] == records[k - |kept|];
      }
    }
  }

  /** Exactly one record per non-blank segment, in the segments' order. */
  lemma {:induction false} SuggestionsMatchSegments(segments: seq<string>)
    ensures |SuggestionsOf(segments)| == |NonBlank(segments)|
    ensures forall k :: 0 <= k < |NonBlank(segments)| ==>
      SuggestionsOf(segments)[k] == ParseSegment(NonBlank(segments)[k])
    decreases |segments|
  {
    if segments != [] {
      var head, tail := segments[0], segments[1..];
      SuggestionsMatchSegments(tail);
      var first := if IsBlank(head) then [] else [ParseSegment(head)];
      var kept := if IsBlank(head) then [] else [head];
      assert segments == [head] + tail;
      SuggestionsOfCons(head, tail);
      assert NonBlank(segments) == kept + NonBlank(tail);
      ParsedConcat(first, kept, SuggestionsOf(tail), NonBlank(tail));
    }
  }

  /** Every suggestion text is the glyph and a space followed by stripped
      text with no further glyph; keywords are stripped too. */
  lemma SegmentText(segment: string)
    requires !Contains(segment, GIFT)
    ensures var s := ParseSegment(segment);
      var t := s.text[|GIFT_PREFIX|..];
      Strip(t) == t && !Contains(t, GIFT) && Strip(s.keywords) == s.keywords
  {
    var s := ParseSegment(segment);
    var t := s.text[|GIFT_PREFIX|..];
    if Contains(segment, KEYWORDS_OPEN) && Contains(segment, KEYWORDS_CLOSE) {
      SplitHasSecond(segment, KEYWORDS_OPEN);
      var parts := Split(segment, KEYWORDS_OPEN);
      BeforeFirstFind(segment, KEYWORDS_OPEN);
      var i := Find(segment, KEYWORDS_OPEN);
      assert parts[0] == segment[0..i];
      AbsentInInfix(segment, GIFT, 0, i);
      StripKeepsAbsence(parts[0], GIFT);
      assert t == Strip(parts[0]);
      StripIdempotent(parts[0]);
      StripIdempotent(BeforeFirst(parts[1], KEYWORDS_CLOSE));
    } else {
      assert t == Strip(segment);
      StripKeepsAbsence(segment, GIFT);
      StripIdempotent(segment);
    }
  }

  /** With both keyword tags, the text is what precedes the first
      `<keywords>`, and the keywords are what follows it up to the next
      `</keywords>` (or the next `<keywords>`, whichever comes first); the
      rest of the segment is dropped. */
  lemma SegmentWithKeywords(segment: string)
    requires Contains(segment, KEYWORDS_OPEN) && Contains(segment, KEYWORDS_CLOSE)
    ensures var i := Find(segment, KEYWORDS_OPEN);
      var after := segment[i + |KEYWORDS_OPEN|..];
      ParseSegment(segment)
        == Suggestion(GIFT_PREFIX + Strip(segment[..i]),
                      Strip(BeforeFirst(BeforeFirst(after, KEYWORDS_OPEN), KEYWORDS_CLOSE)))
    ensures !Contains(ParseSegment(segment).keywords, KEYWORDS_CLOSE)
    ensures !Contains(ParseSegment(segment).keywords, KEYWORDS_OPEN)
  {
    var i := Find(segment, KEYWORDS_OPEN);
    var after := segment[i + |KEYWORDS_OPEN|..];
    SplitAt(segment, KEYWORDS_OPEN, i);
    var parts := Split(segment, KEYWORDS_OPEN);
    assert parts[1] == Split(after, KEYWORDS_OPEN)[0];
    SplitPiecesFree(after, KEYWORDS_OPEN);
    var mid := parts[1];
    SplitPiecesFree(mid, KEYWORDS_CLOSE);
    BeforeFirstFind(mid, KEYWORDS_CLOSE);
    var kw := BeforeFirst(mid, KEYWORDS_CLOSE);
    var n := if Find(mid, KEYWORDS_CLOSE) >= 0 then Find(mid, KEYWORDS_CLOSE) else |mid|;
    assert kw == mid[0..n];
    AbsentInInfix(mid, KEYWORDS_OPEN, 0, n);
    StripKeepsAbsence(kw, KEYWORDS_OPEN);
    StripKeepsAbsence(kw, KEYWORDS_CLOSE);
  }

  // ---------------------------------------------------------------------
  // Chat summary and the suggestion request
  // ---------------------------------------------------------------------

  /** The summary line of one message; roles other than user and assistant
      contribute nothing. */
  function SummaryLine(m: Message): string {
    if m.role == ASSISTANT then "Santa asked: " + m.content + "\n"
    else if m.role == USER then "They answered: " + m.content + "\n"
    else ""
  }

  function SummaryBody(messages: seq<Message>): string {
    if messages == [] then ""
    else SummaryBody(messages[..|messages| - 1]) + SummaryLine(messages[|messages| - 1])
  }

  /** The transcript without one trailing assistant message, if it has one. */
  function SummaryInput(messages: seq<Message>): (r: seq<Message>)
    ensures |messages| - 1 <= |r| <= |messages| && r == messages[..|r|]
    ensures |r| < |messages| <==> messages != [] && messages[|messages| - 1].role == ASSISTANT
  {
    if |messages| > 0 && messages[|messages| - 1].role == ASSISTANT then messages[..|messages| - 1]
    else messages
  }

  /** The reference for `format_chat_summary`. */
  function ChatSummary(messages: seq<Message>): (r: string)
    ensures |r| >= |SUMMARY_HEADER| && r[..|SUMMARY_HEADER|] == SUMMARY_HEADER
  {
    SUMMARY_HEADER + SummaryBody(SummaryInput(messages))
  }

  /** One step of the summary loop: appending a message's line extends
      the summary of the prefix before it. */
  lemma SummaryGrows(messages: seq<Message>, i: nat, before: string, after: string)
    requires i < |messages|
    requires before == SUMMARY_HEADER + SummaryBody(messages[..i])
    requires after == before + SummaryLine(messages[i])
    ensures after == SUMMARY_HEADER + SummaryBody(messages[..i + 1])
  {
    var prefix := messages[..i + 1];
    assert prefix[..i] == messages[..i];
    assert SummaryBody(prefix) == SummaryBody(messages[..i]) + SummaryLine(messages[i]);
    AppendRegroups(SUMMARY_HEADER, SummaryBody(messages[..i]), SummaryLine(messages[i]));
  }

  lemma AppendRegroups(a: string, b: string, c: string)
    ensures (a + b) + c == a + (b + c)
  {
  }

  /** `format_chat_summary`: the header, then one line per user or assistant
      message, leaving out a trailing assistant message. */
  method FormatChatSummary(messages: seq<Message>) returns (chatSummary: string)
    ensures chatSummary == ChatSummary(messages)
  {
    chatSummary := SUMMARY_HEADER;
    var messagesList := messages;
    if |messagesList| > 0 && messagesList[|messagesList| - 1].role == ASSISTANT {
      messagesList := messagesList[..|messagesList| - 1];
    }
    for i := 0 to |messagesList|
      invariant chatSummary == SUMMARY_HEADER + SummaryBody(messagesList[..i])
    {
      var msg := messagesList[i];
      ghost var before := chatSummary;
      if msg.role == ASSISTANT {
        chatSummary := chatSummary + ("Santa asked: " + msg.content + "\n");
      } else if msg.role == USER {
        chatSummary := chatSummary + ("They answered: " + msg.content + "\n");
      }
      SummaryGrows(messagesList, i, before, chatSummary);
    }
    assert messagesList[..|messagesList|] == messagesList;
  }

  lemma {:induction false} SummaryBodyConcat(a: seq<Message>, b: seq<Message>)
    ensures SummaryBody(a + b) == SummaryBody(a) + SummaryBody(b)
    decreases |b|
  {
    if b != [] {
      var b' := b[..|b| - 1];
      assert (a + b)[..|a + b| - 1] == a + b';
      SummaryBodyConcat(a, b');
    } else {
      assert a + b == a;
    }
  }

  /** Exactly one trailing assistant message is dropped: the one before it,
      if also from the assistant, is still summarised. */
  lemma SummaryDropsOneTrailingAssistant(messages: seq<Message>, closing: string)
    ensures ChatSummary(messages + [Message(ASSISTANT, closing)]) == SUMMARY_HEADER + SummaryBody(messages)
  {
    var all := messages + [Message(ASSISTANT, closing)];
    assert all[..|all| - 1] == messages;
  }

  /** Messages with other roles leave the summary unchanged wherever they
      stand. */
  lemma SummarySkipsOtherRoles(before: seq<Message>, m: Message, after: seq<Message>)
    requires !IsDialogue(m)
    ensures SummaryBody(before + [m] + after) == SummaryBody(before + after)
  {
    assert [m][..0] == [];
    assert SummaryBody([m]) == "";
    SummaryBodyConcat(before, [m]);
    assert SummaryBody(before + [m]) == SummaryBody(before);
    SummaryBodyConcat(before + [m], after);
    SummaryBodyConcat(before, after);
  }

  /** An empty transcript summarises to the header alone. */
  lemma SummaryOfNothing()
    ensures ChatSummary([]) == SUMMARY_HEADER
  {
  }

  /** The system prompt of the suggestion request: the budget range is
      appended only for a truthy budget. */
  function GiftSystemPrompt(giftPrompt: string, budget: Option<string>): (r: string)
    ensures Truthy(budget) ==> r == giftPrompt + "\n\nBudget range: " + budget.value
    ensures !Truthy(budget) ==> r == giftPrompt
  {
    giftPrompt + (if Truthy(budget) then "\n\nBudget range: " + budget.value else "")
  }

  /** The suggestion request: the system prompt, then the summary as a user
      message. */
  function GiftRequest(giftPrompt: string, messages: seq<Message>, budget: Option<string>): seq<Message> {
    [System(GiftSystemPrompt(giftPrompt, budget)), Message(USER, ChatSummary(messages))]
  }

  /** `generate_gift_suggestions`: summarise, ask the model once, parse; a
      raising call yields no suggestions at all. */
  method GenerateGiftSuggestions(giftPrompt: string, messages: seq<Message>, budget: Option<string>,
                                 complete: seq<Message> -> Reply<string>)
    returns (suggestions: seq<Suggestion>)
    ensures complete(GiftRequest(giftPrompt, messages, budget)).Raised? ==> suggestions == []
    ensures complete(GiftRequest(giftPrompt, messages, budget)).Returned? ==>
      suggestions == SuggestionsOf(Split(complete(GiftRequest(giftPrompt, messages, budget)).value, GIFT))
  {
    var chatSummary := FormatChatSummary(messages);
    var request := [System(GiftSystemPrompt(giftPrompt, budget)), Message(USER, chatSummary)];
    match complete(request) {
      case Raised =>
        suggestions := [];
      case Returned(content) =>
        suggestions := ParseGiftSuggestions(content);
    }
  }
}
