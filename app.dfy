/**
 * The elf chat app: one reply is produced by generating candidate replies,
 * asking a picker model for the best one, asking a validator model whether
 * it follows the rules, and asking once for a refinement when the verdict is
 * not exactly "VALID". The transcript lives in the session and is extended
 * by the opening message, by user input and by the replies, and is cleared
 * on request.
 *
 * Model calls are oracles: `generate` maps a request to the candidate
 * contents (or raises), `complete` maps a request to the reply content (or
 * raises). The prompt constants are opaque strings passed in as `Prompts`.
 */
module App {
  import opened Wrappers
  import opened PyStrings
  import opened Messages

  const HISTORY_INTRO: string := "Here is the conversation history:"
  const FIRST_QUESTION: string := "This is the first question."
  const QUESTION_LABEL: string := "Previous elf question: "
  const ANSWER_LABEL: string := "User answer: "
  const CANDIDATES_HEADER: string := "Here are the candidate responses to choose from:"
  const VALIDATION_INTRO: string := "Here is the conversation history and latest response to validate:"
  const LATEST_LABEL: string := "Latest elf response to validate: "
  const FIX_PREFIX: string := "Please fix your response. "
  const VALID: string := "VALID"

  /** The picker, validation and refinement prompts (prose, kept opaque). */
  datatype Prompts = Prompts(picker: string, validation: string, refinement: string)

  function User(content: string): Message {
    Message(USER, content)
  }

  function Assistant(content: string): Message {
    Message(ASSISTANT, content)
  }

  // ---------------------------------------------------------------------
  // The replayed history
  // ---------------------------------------------------------------------

  /** The user and assistant messages of a transcript, in order. */
  function Dialogue(messages: seq<Message>): (r: seq<Message>)
    ensures |r| <= |messages|
    ensures forall k :: 0 <= k < |r| ==> IsDialogue(r[k])
  {
    if messages == [] then []
    else
      var last := messages[|messages| - 1];
      Dialogue(messages[..|messages| - 1]) + (if IsDialogue(last) then [last] else [])
  }

  /** How a dialogue message is replayed to the picker and the validator:
      as a user message with a label naming who said it. */
  function Labelled(m: Message): (r: Message)
    requires IsDialogue(m)
    ensures r.role == USER
    ensures |m.content| <= |r.content| && r.content[|r.content| - |m.content|..] == m.content
  {
    if m.role == ASSISTANT then User(QUESTION_LABEL + m.content)
    else User(ANSWER_LABEL + m.content)
  }

  /** The labelled lines of a transcript; other roles are skipped. */
  function LabelledHistory(messages: seq<Message>): (r: seq<Message>)
    ensures |r| <= |messages|
    ensures forall k :: 0 <= k < |r| ==> r[k].role == USER
  {
    if messages == [] then []
    else
      var last := messages[|messages| - 1];
      LabelledHistory(messages[..|messages| - 1]) + (if IsDialogue(last) then [Labelled(last)] else [])
  }

  /** The replayed history has one labelled user message per dialogue
      message, in the same order. */
  lemma {:induction false} LabelledHistoryMatches(messages: seq<Message>)
    ensures |LabelledHistory(messages)| == |Dialogue(messages)|
    ensures forall k :: 0 <= k < |Dialogue(messages)| ==>
      LabelledHistory(messages)[k] == Labelled(Dialogue(messages)[k])
    decreases |messages|
  {
    if messages != [] {
      LabelledHistoryMatches(messages[..|messages| - 1]);
    }
  }

  /** Messages of other roles leave no trace in the replayed history. */
  lemma {:induction false} LabelledHistorySkips(before: seq<Message>, m: Message)
    requires !IsDialogue(m)
    ensures LabelledHistory(before + [m]) == LabelledHistory(before)
    ensures Dialogue(before + [m]) == Dialogue(before)
  {
    assert (before + [m])[..|before|] == before;
  }

  /** One step of a history loop: appending the line of message `i`. */
  lemma HistoryGrows(messages: seq<Message>, i: nat)
    requires i < |messages|
    ensures LabelledHistory(messages[..i + 1])
      == LabelledHistory(messages[..i]) + (if IsDialogue(messages[i]) then [Labelled(messages[i])] else [])
  {
    assert messages[..i + 1][..i] == messages[..i];
  }

  // ---------------------------------------------------------------------
  // Picking a candidate
  // ---------------------------------------------------------------------

  /** The numbered candidate lines "Response i: c", counting from 1. */
  function CandidateLines(candidates: seq<string>): (r: seq<Message>)
    ensures |r| == |candidates|
    ensures forall k :: 0 <= k < |r| ==> r[k] == User("Response " + Decimal(k + 1) + ": " + candidates[k])
  {
    if candidates == [] then []
    else
      var n := |candidates|;
      CandidateLines(candidates[..n - 1]) + [User("Response " + Decimal(n) + ": " + candidates[n - 1])]
  }

  /** The picker request: the picker prompt, an opening line that depends on
      whether there is any history, the labelled history, a header and the
      numbered candidates. */
  function PickerMessages(pickerPrompt: string, messages: seq<Message>, candidates: seq<string>): seq<Message> {
    [System(pickerPrompt), User(if |messages| > 0 then HISTORY_INTRO else FIRST_QUESTION)]
    + LabelledHistory(messages)
    + [User(CANDIDATES_HEADER)]
    + CandidateLines(candidates)
  }

  /** The layout of the picker request, position by position. */
  lemma PickerLayout(pickerPrompt: string, messages: seq<Message>, candidates: seq<string>)
    ensures var r := PickerMessages(pickerPrompt, messages, candidates);
      var d := |Dialogue(messages)|;
      && |r| == 3 + d + |candidates|
      && r[0] == System(pickerPrompt)
      && r[1] == User(if messages == [] then FIRST_QUESTION else HISTORY_INTRO)
      && (forall k :: 0 <= k < d ==> r[2 + k] == Labelled(Dialogue(messages)[k]))
      && r[2 + d] == User(CANDIDATES_HEADER)
      && (forall k :: 0 <= k < |candidates| ==>
            r[3 + d + k] == User("Response " + Decimal(k + 1) + ": " + candidates[k]))
  {
    LabelledHistoryMatches(messages);
    PickerHistoryAt(pickerPrompt, messages, candidates);
    PickerCandidatesAt(pickerPrompt, messages, candidates);
  }

  lemma PickerHistoryAt(pickerPrompt: string, messages: seq<Message>, candidates: seq<string>)
    ensures var r := PickerMessages(pickerPrompt, messages, candidates);
      var history := LabelledHistory(messages);
      && |r| == 3 + |history| + |candidates|
      && (forall k :: 0 <= k < |history| ==> r[2 + k] == history[k])
  {
  }

  lemma PickerCandidatesAt(pickerPrompt: string, messages: seq<Message>, candidates: seq<string>)
    ensures var r := PickerMessages(pickerPrompt, messages, candidates);
      var d := |LabelledHistory(messages)|;
      && |r| == 3 + d + |candidates|
      && (forall k :: 0 <= k < |candidates| ==> r[3 + d + k] == CandidateLines(candidates)[k])
  {
  }

  /** The history loop shared by the picker and the validator: one labelled
      append per assistant or user message, in order. */
  method AppendHistory(acc: seq<Message>, messages: seq<Message>) returns (r: seq<Message>)
    ensures r == acc + LabelledHistory(messages)
  {
    r := acc;
    for j := 0 to |messages|
      invariant r == acc + LabelledHistory(messages[..j])
    {
      var msg := messages[j];
      HistoryGrows(messages, j);
      if msg.role == ASSISTANT {
        r := r + [User(QUESTION_LABEL + msg.content)];
      } else if msg.role == USER {
        r := r + [User(ANSWER_LABEL + msg.content)];
      }
    }
    assert messages[..|messages|] == messages;
  }

  /** `pick_best_response`'s list building: the two opening messages, one
      append per dialogue message, the header, one append per candidate. */
  method BuildPickerMessages(pickerPrompt: string, messages: seq<Message>, candidates: seq<string>)
    returns (pickerMessages: seq<Message>)
    ensures pickerMessages == PickerMessages(pickerPrompt, messages, candidates)
  {
    pickerMessages := [System(pickerPrompt)];
    if |messages| > 0 {
      pickerMessages := pickerMessages + [User(HISTORY_INTRO)];
    } else {
      pickerMessages := pickerMessages + [User(FIRST_QUESTION)];
    }
    ghost var opening := pickerMessages;
    pickerMessages := AppendHistory(pickerMessages, messages);
    pickerMessages := pickerMessages + [User(CANDIDATES_HEADER)];
    ghost var beforeCandidates := pickerMessages;
    for i := 0 to |candidates|
      invariant pickerMessages == beforeCandidates + CandidateLines(candidates[..i])
    {
      CandidateLinesGrow(candidates, i);
      pickerMessages := pickerMessages + [User("Response " + Decimal(i + 1) + ": " + candidates[i])];
    }
    assert candidates[..|candidates|] == candidates;
    PickerMessagesFrom(pickerPrompt, messages, candidates, opening);
  }

  lemma CandidateLinesGrow(candidates: seq<string>, i: nat)
    requires i < |candidates|
    ensures CandidateLines(candidates[..i + 1])
      == CandidateLines(candidates[..i]) + [User("Response " + Decimal(i + 1) + ": " + candidates[i])]
  {
    assert candidates[..i + 1][..i] == candidates[..i];
  }

  lemma PickerMessagesFrom(pickerPrompt: string, messages: seq<Message>, candidates: seq<string>,
                           opening: seq<Message>)
    requires opening == [System(pickerPrompt)] + [User(if |messages| > 0 then HISTORY_INTRO else FIRST_QUESTION)]
    ensures PickerMessages(pickerPrompt, messages, candidates)
      == opening + LabelledHistory(messages) + [User(CANDIDATES_HEADER)] + CandidateLines(candidates)
  {
    assert opening == [System(pickerPrompt), User(if |messages| > 0 then HISTORY_INTRO else FIRST_QUESTION)];
  }

  /** Python list indexing `xs[idx]` on a list of length `n`: negative
      indices count from the end; `None` stands for the IndexError. */
  function PyIndex(n: nat, idx: int): (r: Option<nat>)
    ensures r.Some? <==> -(n as int) <= idx < n
    ensures r.Some? ==> r.value < n && (r.value == idx || r.value == n + idx)
  {
    if 0 <= idx < n then Some(idx)
    else if -(n as int) <= idx < 0 then Some(n + idx)
    else None
  }

  /** The element selected is the one congruent to `idx` modulo `n`. */
  lemma PyIndexCongruent(n: nat, idx: int)
    requires PyIndex(n, idx).Some?
    ensures (PyIndex(n, idx).value as int - idx) % n == 0
  {
    var r := PyIndex(n, idx).value;
    if r != idx {
      assert r as int - idx == n;
    }
  }

  /** The candidate index named by the picker's reply,
      `int(picker_result.split()[0]) - 1` used as a list index; `None` when
      the reply is blank, its first word is not an integer, or the index is
      out of range, each of which raises. */
  function ChosenIndex(pickerResult: string, n: nat): (r: Option<nat>)
    ensures r.Some? ==> r.value < n
  {
    var words := Words(pickerResult);
    if words == [] then None
    else
      match ParseInt(words[0])
      case None => None
      case Some(number) => PyIndex(n, number - 1)
  }

  /** The candidate the picker's reply selects, or `None` when choosing
      raises; there is no fallback candidate. */
  function PickBest(candidates: seq<string>, pickerResult: string): (r: Option<string>)
    ensures r.Some? ==> r.value in candidates
    ensures r.None? <==> ChosenIndex(pickerResult, |candidates|).None?
  {
    match ChosenIndex(pickerResult, |candidates|)
    case None => None
    case Some(i) => Some(candidates[i])
  }

  /** A reply whose first word is `k`, for 1 <= k <= N, selects candidate
      `k`; whatever follows the word is ignored. */
  lemma PickSelects(candidates: seq<string>, lead: string, k: nat, rest: string)
    requires 1 <= k <= |candidates|
    requires AllSpace(lead) && (rest == "" || IsSpace(rest[0]))
    ensures PickBest(candidates, lead + Decimal(k) + rest) == Some(candidates[k - 1])
  {
    DigitsNotSpace(Decimal(k));
    FirstWord(lead, Decimal(k), rest);
    ParseDecimal(k);
  }

  /** The example reply the picker prompt gives, "2 - Best balance of
      distinct options and new topic area", selects the second of three
      candidates. The reply is written as its numeral, the space that ends
      the numeral, and the reason. */
  lemma PickExample()
    ensures PickBest(["A", "B", "C"], "2" + " " + "- Best balance of distinct options and new topic area") == Some("B")
  {
    var rest := " " + "- Best balance of distinct options and new topic area";
    assert Decimal(2) == "2";
    assert "" + Decimal(2) + rest == "2" + " " + "- Best balance of distinct options and new topic area";
    PickSelects(["A", "B", "C"], "", 2, rest);
  }

  /** A reply whose first word is "0" selects the last candidate (index -1). */
  lemma PickZeroSelectsLast(candidates: seq<string>, rest: string)
    requires |candidates| > 0 && (rest == "" || IsSpace(rest[0]))
    ensures PickBest(candidates, "0" + rest) == Some(candidates[|candidates| - 1])
  {
    ZeroWord();
    PickSelectsSigned(candidates, "", "0", 0, rest);
    assert "" + "0" + rest == "0" + rest;
  }

  lemma ZeroWord()
    ensures NoSpace("0") && ParseInt("0") == Some(0)
  {
    assert Decimal(0) == "0";
    ParseDecimal(0);
    assert "0"[0] == '0';
  }

  /** A reply whose first word is an integer `v` selects by Python indexing
      of `v - 1`: candidate `v` for positive `v`, counting from the end for
      `v <= 0`, and raises outside `-N + 1 .. N`. */
  lemma PickByFirstWord(candidates: seq<string>, pickerResult: string, v: int)
    requires Words(pickerResult) != [] && ParseInt(Words(pickerResult)[0]) == Some(v)
    ensures var n := |candidates|;
      && (1 <= v <= n ==> PickBest(candidates, pickerResult) == Some(candidates[v - 1]))
      && (-n < v <= 0 ==> PickBest(candidates, pickerResult) == Some(candidates[n + v - 1]))
      && (v > n || v <= -n ==> PickBest(candidates, pickerResult) == None)
  {
    var n := |candidates|;
    assert ChosenIndex(pickerResult, n) == PyIndex(n, v - 1);
    if 1 <= v <= n {
      PickBestAt(candidates, pickerResult, v - 1);
    } else if -n < v <= 0 {
      PickBestAt(candidates, pickerResult, n + v - 1);
    }
  }

  lemma PickBestAt(candidates: seq<string>, pickerResult: string, i: nat)
    requires ChosenIndex(pickerResult, |candidates|) == Some(i)
    ensures i < |candidates| && PickBest(candidates, pickerResult) == Some(candidates[i])
  {
  }

  /** The same for a reply written as leading whitespace, the integer
      token, and anything that starts with whitespace. */
  lemma PickSelectsSigned(candidates: seq<string>, lead: string, token: string, v: int, rest: string)
    requires AllSpace(lead) && token != "" && NoSpace(token)
    requires rest == "" || IsSpace(rest[0])
    requires ParseInt(token) == Some(v)
    ensures var n := |candidates|;
      && (1 <= v <= n ==> PickBest(candidates, lead + token + rest) == Some(candidates[v - 1]))
      && (-n < v <= 0 ==> PickBest(candidates, lead + token + rest) == Some(candidates[n + v - 1]))
      && (v > n || v <= -n ==> PickBest(candidates, lead + token + rest) == None)
  {
    FirstWord(lead, token, rest);
    PickByFirstWord(candidates, lead + token + rest, v);
  }

  /** A blank reply raises (there is no first word). */
  lemma PickBlankRaises(candidates: seq<string>, pickerResult: string)
    requires AllSpace(pickerResult)
    ensures PickBest(candidates, pickerResult) == None
  {
  }

  /** A first word that is not a plain integer, such as "2." or "#2",
      raises. */
  lemma PickNonIntegerRaises(candidates: seq<string>, lead: string, token: string, rest: string)
    requires AllSpace(lead) && token != "" && NoSpace(token)
    requires rest == "" || IsSpace(rest[0])
    requires ParseInt(token) == None
    ensures PickBest(candidates, lead + token + rest) == None
  {
    FirstWord(lead, token, rest);
    assert ChosenIndex(lead + token + rest, |candidates|) == None;
  }

  /** "2." is not an integer, so a reply starting with it raises. */
  lemma PickTrailingDotRaises(candidates: seq<string>, rest: string)
    requires rest == "" || IsSpace(rest[0])
    ensures PickBest(candidates, "2." + rest) == None
  {
    assert "2." + rest == "" + "2." + rest;
    ParseIntRejects("2.", 1);
    assert NoSpace("2.") by {
      assert "2."[0] == '2' && "2."[1] == '.';
    }
    PickNonIntegerRaises(candidates, "", "2.", rest);
  }

  lemma DigitsNotSpace(s: string)
    requires AllDigits(s)
    ensures NoSpace(s)
  {
    forall i | 0 <= i < |s| ensures !IsSpace(s[i]) {
      assert IsDigit(s[i]);
    }
  }

  /** `pick_best_response`: build the request, ask the picker once, and
      select by the first word of its reply. `chosen` is `None` when the
      call or the selection raises; `pickerResult` is the reply, if any. */
  method PickBestResponse(pickerPrompt: string, messages: seq<Message>, candidates: seq<string>,
                          complete: seq<Message> -> Reply<string>)
    returns (chosen: Option<string>, request: seq<Message>)
    ensures request == PickerMessages(pickerPrompt, messages, candidates)
    ensures chosen == (match complete(request)
                       case Raised => None
                       case Returned(pickerResult) => PickBest(candidates, pickerResult))
  {
    request := BuildPickerMessages(pickerPrompt, messages, candidates);
    match complete(request) {
      case Raised =>
        chosen := None;
      case Returned(pickerResult) =>
        var words := Words(pickerResult);
        if words == [] {
          chosen := None;
        } else {
          match ParseInt(words[0]) {
            case None =>
              chosen := None;
            case Some(number) =>
              var chosenIndex := number - 1;
              var n := |candidates|;
              if 0 <= chosenIndex < n {
                chosen := Some(candidates[chosenIndex]);
              } else if -n <= chosenIndex < 0 {
                chosen := Some(candidates[n + chosenIndex]);
              } else {
                chosen := None;
              }
          }
        }
    }
  }

  // ---------------------------------------------------------------------
  // Validation and refinement requests
  // ---------------------------------------------------------------------

  /** The validator request: the validation prompt, an opening line, the
      labelled history and the response under review. */
  function ValidationMessages(validationPrompt: string, messages: seq<Message>, response: string): seq<Message> {
    [System(validationPrompt), User(VALIDATION_INTRO)]
    + LabelledHistory(messages)
    + [User(LATEST_LABEL + response)]
  }

  /** The layout of the validator request, position by position. */
  lemma ValidationLayout(validationPrompt: string, messages: seq<Message>, response: string)
    ensures var r := ValidationMessages(validationPrompt, messages, response);
      var d := |Dialogue(messages)|;
      && |r| == 3 + d
      && r[0] == System(validationPrompt) && r[1] == User(VALIDATION_INTRO)
      && (forall k :: 0 <= k < d ==> r[2 + k] == Labelled(Dialogue(messages)[k]))
      && r[2 + d] == User(LATEST_LABEL + response)
  {
    LabelledHistoryMatches(messages);
  }

  /** `validate_response`'s list building. */
  method BuildValidationMessages(validationPrompt: string, messages: seq<Message>, response: string)
    returns (validationMessages: seq<Message>)
    ensures validationMessages == ValidationMessages(validationPrompt, messages, response)
  {
    validationMessages := [System(validationPrompt), User(VALIDATION_INTRO)];
    validationMessages := AppendHistory(validationMessages, messages);
    validationMessages := validationMessages + [User(LATEST_LABEL + response)];
  }

  /** The refiner request: the persona and refinement prompts joined by a
      newline, the raw transcript, the chosen reply as the assistant's, and
      the verdict as a system instruction. */
  function RefinementMessages(persona: string, refinementPrompt: string, messages: seq<Message>,
                              chosen: string, verdict: string): (r: seq<Message>)
    ensures |r| == |messages| + 3
    ensures r[0] == System(persona + "\n" + refinementPrompt)
    ensures r[1..|messages| + 1] == messages
    ensures r[|messages| + 1] == Assistant(chosen)
    ensures r[|messages| + 2] == System(FIX_PREFIX + verdict)
  {
    [System(persona + "\n" + refinementPrompt)] + messages + [Assistant(chosen), System(FIX_PREFIX + verdict)]
  }

  /** The candidate request: the persona prompt, then the raw transcript. */
  function GenerationRequest(persona: string, messages: seq<Message>): (r: seq<Message>)
    ensures |r| == |messages| + 1 && r[0] == System(persona) && r[1..] == messages
  {
    [System(persona)] + messages
  }

  // ---------------------------------------------------------------------
  // One reply
  // ---------------------------------------------------------------------

  datatype Stage = Generate | Pick | Validate | Refine

  /** One model call the pipeline made, with its request. */
  datatype Call = Call(stage: Stage, request: seq<Message>)

  /** The outcome of `get_ai_response`: the reply (`None` when anything
      raised) and the model calls made, in order. */
  datatype Turn = Turn(response: Option<string>, calls: seq<Call>)

  /** The order of the pipeline's stages. */
  const PIPELINE: seq<Stage> := [Generate, Pick, Validate, Refine]

  /** The candidate the picker's reply selects; `None` when the picker
      call raises or the selection does. */
  function Chosen(candidates: seq<string>, reply: Reply<string>): Option<string> {
    match reply
    case Raised => None
    case Returned(pickerResult) => PickBest(candidates, pickerResult)
  }

  /** The turn from validation on, after the calls `earlier`: validate the
      chosen response, and refine once unless the verdict is exactly
      "VALID". */
  function Checked(messages: seq<Message>, persona: string, prompts: Prompts,
                   complete: seq<Message> -> Reply<string>,
                   response: string, earlier: seq<Call>): Turn
  {
    var validating := ValidationMessages(prompts.validation, messages, response);
    var validated := earlier + [Call(Validate, validating)];
    match complete(validating)
    case Raised => Turn(None, validated)
    case Returned(verdict) =>
      if verdict == VALID then Turn(Some(response), validated)
      else
        var refining := RefinementMessages(persona, prompts.refinement, messages, response, verdict);
        var refined := validated + [Call(Refine, refining)];
        match complete(refining)
        case Raised => Turn(None, refined)
        case Returned(content) => Turn(Some(content), refined)
  }

  /** The reference for `get_ai_response`: generate, pick, validate, and
      refine once unless the verdict is exactly "VALID". */
  function AiTurn(messages: seq<Message>, persona: string, prompts: Prompts,
                  generate: seq<Message> -> Reply<seq<string>>,
                  complete: seq<Message> -> Reply<string>): Turn
  {
    var generation := GenerationRequest(persona, messages);
    match generate(generation)
    case Raised => Turn(None, [Call(Generate, generation)])
    case Returned(candidates) =>
      var picking := PickerMessages(prompts.picker, messages, candidates);
      var picked := [Call(Generate, generation), Call(Pick, picking)];
      match Chosen(candidates, complete(picking))
      case None => Turn(None, picked)
      case Some(response) => Checked(messages, persona, prompts, complete, response, picked)
  }

  /** `get_ai_response`. Every model call and every selection step may
      raise; the `except` turns any of them into `None`. */
  method GetAiResponse(messages: seq<Message>, persona: string, prompts: Prompts,
                       generate: seq<Message> -> Reply<seq<string>>,
                       complete: seq<Message> -> Reply<string>)
    returns (response: Option<string>, calls: seq<Call>)
    ensures Turn(response, calls) == AiTurn(messages, persona, prompts, generate, complete)
  {
    var generation := GenerationRequest(persona, messages);
    calls := [Call(Generate, generation)];
    match generate(generation) {
      case Raised =>
        return None, calls;
      case Returned(candidates) =>
        var chosen, picking := PickBestResponse(prompts.picker, messages, candidates, complete);
        calls := [Call(Generate, generation), Call(Pick, picking)];
        if chosen.None? {
          return None, calls;
        }
        var chosenResponse := chosen.value;
        var validating := BuildValidationMessages(prompts.validation, messages, chosenResponse);
        calls := calls + [Call(Validate, validating)];
        match complete(validating) {
          case Raised =>
            return None, calls;
          case Returned(validationResult) =>
            if validationResult == VALID {
              return Some(chosenResponse), calls;
            }
            var refining := RefinementMessages(persona, prompts.refinement, messages, chosenResponse, validationResult);
            calls := calls + [Call(Refine, refining)];
            match complete(refining) {
              case Raised =>
                return None, calls;
              case Returned(refinedResponse) =>
                return Some(refinedResponse), calls;
            }
        }
    }
  }

  /** From validation on: one validation call after the earlier calls,
      then either the reply is final (an exact "VALID" keeps the response,
      a raising validation gives none) or one refinement call follows whose
      outcome is the reply. */
  lemma CheckedShape(messages: seq<Message>, persona: string, prompts: Prompts,
                     complete: seq<Message> -> Reply<string>,
                     response: string, earlier: seq<Call>)
    ensures var t := Checked(messages, persona, prompts, complete, response, earlier);
      var validating := ValidationMessages(prompts.validation, messages, response);
      var n := |earlier|;
      && n + 1 <= |t.calls| <= n + 2
      && t.calls[..n] == earlier
      && t.calls[n] == Call(Validate, validating)
      && (complete(validating).Raised? ==> t == Turn(None, earlier + [Call(Validate, validating)]))
      && (complete(validating) == Returned(VALID) ==> t == Turn(Some(response), earlier + [Call(Validate, validating)]))
      && (|t.calls| == n + 2 <==> complete(validating).Returned? && complete(validating).value != VALID)
      && (|t.calls| == n + 2 ==>
            var refining := RefinementMessages(persona, prompts.refinement, messages, response, complete(validating).value);
            && t.calls[n + 1] == Call(Refine, refining)
            && t.response == (match complete(refining) case Raised => None case Returned(c) => Some(c)))
  {
    var validating := ValidationMessages(prompts.validation, messages, response);
    var validated := earlier + [Call(Validate, validating)];
    assert validated[..|earlier|] == earlier;
    match complete(validating)
    case Raised =>
    case Returned(verdict) =>
      if verdict != VALID {
        var refining := RefinementMessages(persona, prompts.refinement, messages, response, verdict);
        assert (validated + [Call(Refine, refining)])[..|earlier|] == earlier;
      }
  }

  /** The calls of a turn follow generate, pick, validate, refine, each at
      most once and in that order: nothing is regenerated or revalidated. */
  lemma AiTurnCalls(messages: seq<Message>, persona: string, prompts: Prompts,
                    generate: seq<Message> -> Reply<seq<string>>,
                    complete: seq<Message> -> Reply<string>)
    ensures var t := AiTurn(messages, persona, prompts, generate, complete);
      && 1 <= |t.calls| <= 4
      && (forall k :: 0 <= k < |t.calls| ==> t.calls[k].stage == PIPELINE[k])
      && t.calls[0] == Call(Generate, GenerationRequest(persona, messages))
      && (|t.calls| == 4 ==>
            t.calls[3].request != [] && t.calls[3].request[0] == System(persona + "\n" + prompts.refinement))
    {
    var generation := GenerationRequest(persona, messages);
    match generate(generation)
    case Raised =>
    case Returned(candidates) =>
      var picking := PickerMessages(prompts.picker, messages, candidates);
      var picked := [Call(Generate, generation), Call(Pick, picking)];
      match Chosen(candidates, complete(picking))
      case None =>
      case Some(response) =>
        CheckedShape(messages, persona, prompts, complete, response, picked);
  }

  /** A reply comes only from a turn that got through validation: with
      exactly three calls when the verdict is exactly "VALID", and otherwise
      from the fourth call, the refinement, whose outcome is taken as is. */
  lemma AiTurnReply(messages: seq<Message>, persona: string, prompts: Prompts,
                    generate: seq<Message> -> Reply<seq<string>>,
                    complete: seq<Message> -> Reply<string>)
    ensures var t := AiTurn(messages, persona, prompts, generate, complete);
      && (t.response.Some? ==> |t.calls| >= 3)
      && (|t.calls| == 3 && t.response.Some? <==>
            |t.calls| >= 3 && complete(t.calls[2].request) == Returned(VALID))
      && (|t.calls| == 4 ==>
            complete(t.calls[2].request).Returned? && complete(t.calls[2].request).value != VALID
            && t.response == (match complete(t.calls[3].request)
                              case Raised => None
                              case Returned(content) => Some(content)))
    {
    var generation := GenerationRequest(persona, messages);
    match generate(generation)
    case Raised =>
    case Returned(candidates) =>
      var picking := PickerMessages(prompts.picker, messages, candidates);
      var picked := [Call(Generate, generation), Call(Pick, picking)];
      match Chosen(candidates, complete(picking))
      case None =>
      case Some(response) =>
        CheckedShape(messages, persona, prompts, complete, response, picked);
  }

  /** The "VALID" path: the chosen candidate is returned unchanged after
      exactly three calls. */
  lemma ValidKeepsChoice(messages: seq<Message>, persona: string, prompts: Prompts,
                         generate: seq<Message> -> Reply<seq<string>>,
                         complete: seq<Message> -> Reply<string>,
                         candidates: seq<string>, pickerResult: string, chosen: string)
    requires generate(GenerationRequest(persona, messages)) == Returned(candidates)
    requires complete(PickerMessages(prompts.picker, messages, candidates)) == Returned(pickerResult)
    requires PickBest(candidates, pickerResult) == Some(chosen)
    requires complete(ValidationMessages(prompts.validation, messages, chosen)) == Returned(VALID)
    ensures AiTurn(messages, persona, prompts, generate, complete).response == Some(chosen)
    ensures |AiTurn(messages, persona, prompts, generate, complete).calls| == 3
  {
  }

  /** Any other verdict, even "VALID." or " VALID", leads to exactly one
      refinement request carrying that verdict, whose outcome is the reply
      without further checks. */
  lemma OtherVerdictRefines(messages: seq<Message>, persona: string, prompts: Prompts,
                            generate: seq<Message> -> Reply<seq<string>>,
                            complete: seq<Message> -> Reply<string>,
                            candidates: seq<string>, pickerResult: string, chosen: string, verdict: string)
    requires generate(GenerationRequest(persona, messages)) == Returned(candidates)
    requires complete(PickerMessages(prompts.picker, messages, candidates)) == Returned(pickerResult)
    requires PickBest(candidates, pickerResult) == Some(chosen)
    requires complete(ValidationMessages(prompts.validation, messages, chosen)) == Returned(verdict)
    requires verdict != VALID
    ensures var t := AiTurn(messages, persona, prompts, generate, complete);
      var refining := RefinementMessages(persona, prompts.refinement, messages, chosen, verdict);
      && |t.calls| == 4
      && t.calls[3] == Call(Refine, refining)
      && t.response == (match complete(refining) case Raised => None case Returned(c) => Some(c))
  {
  }

  /** A failed selection ends the turn with no reply and no validation,
      whatever the candidates: there is no fallback to the first one. */
  lemma BadPickGivesNothing(messages: seq<Message>, persona: string, prompts: Prompts,
                            generate: seq<Message> -> Reply<seq<string>>,
                            complete: seq<Message> -> Reply<string>,
                            candidates: seq<string>, pickerResult: string)
    requires generate(GenerationRequest(persona, messages)) == Returned(candidates)
    requires complete(PickerMessages(prompts.picker, messages, candidates)) == Returned(pickerResult)
    requires PickBest(candidates, pickerResult) == None
    ensures AiTurn(messages, persona, prompts, generate, complete).response == None
    ensures |AiTurn(messages, persona, prompts, generate, complete).calls| == 2
  {
  }

  /** A raising model call ends the turn with no reply, and it is the last
      call made. */
  lemma RaisedCallEndsTurn(messages: seq<Message>, persona: string, prompts: Prompts,
                           generate: seq<Message> -> Reply<seq<string>>,
                           complete: seq<Message> -> Reply<string>, k: nat)
    requires var t := AiTurn(messages, persona, prompts, generate, complete);
      k < |t.calls| &&
      (if k == 0 then generate(t.calls[0].request).Raised? else complete(t.calls[k].request).Raised?)
    ensures AiTurn(messages, persona, prompts, generate, complete).response == None
    ensures k == |AiTurn(messages, persona, prompts, generate, complete).calls| - 1
    {
    var t := AiTurn(messages, persona, prompts, generate, complete);
    var generation := GenerationRequest(persona, messages);
    match generate(generation)
    case Raised =>
    case Returned(candidates) =>
      var picking := PickerMessages(prompts.picker, messages, candidates);
      var picked := [Call(Generate, generation), Call(Pick, picking)];
      match Chosen(candidates, complete(picking))
      case None =>
      case Some(response) =>
        assert t == Checked(messages, persona, prompts, complete, response, picked);
        CheckedShape(messages, persona, prompts, complete, response, picked);
        assert t.calls[0] == picked[0] && t.calls[1] == picked[1];
        assert k >= 2;
        CheckedRaisedEnds(messages, persona, prompts, complete, response, picked, k);
  }

  /** From validation on, a raising call is the last one and gives no
      reply. */
  lemma CheckedRaisedEnds(messages: seq<Message>, persona: string, prompts: Prompts,
                          complete: seq<Message> -> Reply<string>,
                          response: string, earlier: seq<Call>, k: nat)
    requires var t := Checked(messages, persona, prompts, complete, response, earlier);
      |earlier| <= k < |t.calls| && complete(t.calls[k].request).Raised?
    ensures var t := Checked(messages, persona, prompts, complete, response, earlier);
      t.response == None && k == |t.calls| - 1
  {
    CheckedShape(messages, persona, prompts, complete, response, earlier);
  }

  // ---------------------------------------------------------------------
  // The session transcript
  // ---------------------------------------------------------------------

  /** The transcript after a reply: extended by an assistant message only
      when the reply is truthy. */
  function WithReply(transcript: seq<Message>, response: Option<string>): seq<Message> {
    if Truthy(response) then transcript + [Assistant(response.value)] else transcript
  }

  /** The transcript after the opening step: only an empty transcript asks
      for a first message. */
  function AfterOpening(transcript: seq<Message>, persona: string, prompts: Prompts,
                        generate: seq<Message> -> Reply<seq<string>>,
                        complete: seq<Message> -> Reply<string>): seq<Message>
  {
    if |transcript| == 0 then WithReply([], AiTurn([], persona, prompts, generate, complete).response)
    else transcript
  }

  /** The transcript after the user sends `text`: the user message first,
      then the reply to the transcript that already holds it. */
  function AfterInput(transcript: seq<Message>, text: string, persona: string, prompts: Prompts,
                      generate: seq<Message> -> Reply<seq<string>>,
                      complete: seq<Message> -> Reply<string>): seq<Message>
  {
    var withUser := transcript + [User(text)];
    WithReply(withUser, AiTurn(withUser, persona, prompts, generate, complete).response)
  }

  /** Sending input keeps the earlier transcript, adds the user message, and
      adds an assistant message exactly when the reply is truthy; a failed
      turn leaves the transcript ending in the user message. */
  lemma InputExtends(transcript: seq<Message>, text: string, persona: string, prompts: Prompts,
                     generate: seq<Message> -> Reply<seq<string>>,
                     complete: seq<Message> -> Reply<string>)
    ensures var after := AfterInput(transcript, text, persona, prompts, generate, complete);
      var response := AiTurn(transcript + [User(text)], persona, prompts, generate, complete).response;
      && after[..|transcript|] == transcript
      && after[|transcript|] == User(text)
      && (Truthy(response) ==> |after| == |transcript| + 2 && after[|transcript| + 1] == Assistant(response.value))
      && (!Truthy(response) ==> |after| == |transcript| + 1 && after[|after| - 1] == User(text))
  {
  }

  /** The opening step leaves a non-empty transcript alone, and otherwise
      yields exactly the opening reply when it is truthy, and nothing else. */
  lemma OpeningOnlyWhenEmpty(transcript: seq<Message>, persona: string, prompts: Prompts,
                             generate: seq<Message> -> Reply<seq<string>>,
                             complete: seq<Message> -> Reply<string>)
    ensures var after := AfterOpening(transcript, persona, prompts, generate, complete);
      && (transcript != [] ==> after == transcript)
      && (transcript == [] ==> |after| <= 1 && forall k :: 0 <= k < |after| ==> after[k].role == ASSISTANT)
      && (transcript == [] ==>
            var response := AiTurn([], persona, prompts, generate, complete).response;
            after == (if Truthy(response) then [Assistant(response.value)] else []))
  {
  }

  /** `st.session_state.messages` and the steps of one run of the script. */
  class ChatSession {
    var messages: seq<Message>

    constructor()
      ensures messages == []
    {
      messages := [];
    }

    /** The opening step: ask for a first message when the transcript is
        empty, and keep it only when it is truthy. */
    method StartChat(persona: string, prompts: Prompts,
                     generate: seq<Message> -> Reply<seq<string>>,
                     complete: seq<Message> -> Reply<string>)
      modifies this
      ensures messages == AfterOpening(old(messages), persona, prompts, generate, complete)
    {
      if |messages| == 0 {
        var initialResponse, initialCalls := GetAiResponse([], persona, prompts, generate, complete);
        if initialResponse.Some? && initialResponse.value != "" {
          messages := messages + [Assistant(initialResponse.value)];
        }
      }
    }

    /** The input step: record the user's text, then ask for a reply to the
        transcript that now holds it, and keep the reply only when truthy. */
    method SubmitInput(text: string, persona: string, prompts: Prompts,
                       generate: seq<Message> -> Reply<seq<string>>,
                       complete: seq<Message> -> Reply<string>)
      modifies this
      ensures messages == AfterInput(old(messages), text, persona, prompts, generate, complete)
    {
      messages := messages + [User(text)];
      var response, calls := GetAiResponse(messages, persona, prompts, generate, complete);
      if response.Some? && response.value != "" {
        messages := messages + [Assistant(response.value)];
      }
    }

    /** The "Clear Chat" button. */
    method Clear()
      modifies this
      ensures messages == []
    {
      messages := [];
    }

    /** One run of the script as written: the opening step with the elf
        prompt, then, for truthy input, the input step, whose pipeline reads
        the module-level prompt after the walrus has rebound it to the
        input; then the clear button. */
    method Run(input: Option<string>, clearClicked: bool, elfPrompt: string, prompts: Prompts,
               generate: seq<Message> -> Reply<seq<string>>,
               complete: seq<Message> -> Reply<string>)
      modifies this
      ensures messages == RunAsWritten(old(messages), input, clearClicked, elfPrompt, prompts, generate, complete)
    {
      StartChat(elfPrompt, prompts, generate, complete);
      if Truthy(input) {
        var prompt := input.value;
        SubmitInput(input.value, prompt, prompts, generate, complete);
      }
      if clearClicked {
        Clear();
      }
    }

    /** One run of the script with the elf prompt kept for the input step. */
    method RunIntended(input: Option<string>, clearClicked: bool, elfPrompt: string, prompts: Prompts,
                       generate: seq<Message> -> Reply<seq<string>>,
                       complete: seq<Message> -> Reply<string>)
      modifies this
      ensures messages == RunWithPersona(old(messages), input, clearClicked, elfPrompt, elfPrompt, prompts, generate, complete)
    {
      StartChat(elfPrompt, prompts, generate, complete);
      if Truthy(input) {
        SubmitInput(input.value, elfPrompt, prompts, generate, complete);
      }
      if clearClicked {
        Clear();
      }
    }
  }

  /** A run whose input step uses `persona` as the generation and
      refinement persona. */
  function RunWithPersona(transcript: seq<Message>, input: Option<string>, clearClicked: bool,
                          elfPrompt: string, persona: string, prompts: Prompts,
                          generate: seq<Message> -> Reply<seq<string>>,
                          complete: seq<Message> -> Reply<string>): seq<Message>
  {
    var started := AfterOpening(transcript, elfPrompt, prompts, generate, complete);
    var answered := if Truthy(input) then AfterInput(started, input.value, persona, prompts, generate, complete) else started;
    if clearClicked then [] else answered
  }

  /** The run as written: the input step's persona is the input itself. */
  function RunAsWritten(transcript: seq<Message>, input: Option<string>, clearClicked: bool,
                        elfPrompt: string, prompts: Prompts,
                        generate: seq<Message> -> Reply<seq<string>>,
                        complete: seq<Message> -> Reply<string>): seq<Message>
  {
    RunWithPersona(transcript, input, clearClicked, elfPrompt, if Truthy(input) then input.value else elfPrompt,
                   prompts, generate, complete)
  }

  /** As written, the reply to user input is generated under the user's own
      text as the system prompt, and refined under it too: the elf prompt
      is not sent at all. */
  lemma InputBecomesPersona(transcript: seq<Message>, text: string, prompts: Prompts,
                            generate: seq<Message> -> Reply<seq<string>>,
                            complete: seq<Message> -> Reply<string>)
    ensures var withUser := transcript + [User(text)];
      var t := AiTurn(withUser, text, prompts, generate, complete);
      && t.calls[0].request[0] == System(text)
      && (|t.calls| == 4 ==> t.calls[3].request[0] == System(text + "\n" + prompts.refinement))
  {
    AiTurnCalls(transcript + [User(text)], text, prompts, generate, complete);
  }

  /** With the elf prompt kept, every generation and refinement request of a
      run starts with it, whatever the user typed. */
  lemma IntendedKeepsElfPrompt(transcript: seq<Message>, text: string, elfPrompt: string, prompts: Prompts,
                               generate: seq<Message> -> Reply<seq<string>>,
                               complete: seq<Message> -> Reply<string>)
    ensures var withUser := transcript + [User(text)];
      var t := AiTurn(withUser, elfPrompt, prompts, generate, complete);
      && t.calls[0].request[0] == System(elfPrompt)
      && (|t.calls| == 4 ==> t.calls[3].request[0] == System(elfPrompt + "\n" + prompts.refinement))
  {
    AiTurnCalls(transcript + [User(text)], elfPrompt, prompts, generate, complete);
  }

  /** A run without input and without clearing only performs the opening
      step; a run with clearing always ends empty. */
  lemma RunOutcomes(transcript: seq<Message>, input: Option<string>, clearClicked: bool,
                    elfPrompt: string, prompts: Prompts,
                    generate: seq<Message> -> Reply<seq<string>>,
                    complete: seq<Message> -> Reply<string>)
    ensures clearClicked ==> RunAsWritten(transcript, input, clearClicked, elfPrompt, prompts, generate, complete) == []
    ensures !clearClicked && !Truthy(input) ==>
      RunAsWritten(transcript, input, clearClicked, elfPrompt, prompts, generate, complete)
        == AfterOpening(transcript, elfPrompt, prompts, generate, complete)
  {
  }
}
