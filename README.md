# Gift picker: the text and decision logic around the model calls

This project models the core of the gift-picker Streamlit app in Dafny and
proves properties of it. The app interviews a gift recipient through a
language model, then turns the conversation into gift suggestions. The
model covers three parts:

- **Question and suggestion handling** (`streamlit_app/ai_operations.py`).
  It builds the system messages of a question request, with or without a
  budget. It extracts the `<question>` and `<multiple_choice_options>`
  sections from a reply and cleans the option lines. It splits suggestion
  output on the 🎁 glyph into `{text, keywords}` records. It formats a
  transcript into a plain-text chat summary.
- **The elf reply pipeline and the chat session** (`streamlit_app/app.py`).
  The pipeline generates candidates, asks a picker model for the best one,
  and asks a validator model for a verdict. When the verdict is not exactly
  `"VALID"` it asks once for a refinement. The picker, validator and
  refiner requests are built from the transcript. The session transcript
  grows with the opening message, the user's input and the replies, and can
  be cleared.
- **The link store** (`streamlit_app/data_store.py`). This is a dict from
  link keys to records, with create, save and lookup operations.

Every model call is an oracle parameter. `complete` maps a request (a list
of messages) to `Raised` or `Returned(content)`. `generate` does the same
for the list of candidate contents. The prompt constants are prose and are
passed in as opaque strings (`santaPrompt`, `giftPrompt`, `Prompts`, the
elf `persona`). `uuid.uuid4()` becomes a caller-supplied key that is not
yet in the store.

Python's string operations are written out in module `PyStrings`:
`pat in s`, `s.split(sep)`, `s.split()`, `s.strip()` with Python's
whitespace set, `sep.join`, `str(n)` for naturals, and `int(token)` for an
optional sign followed by ASCII digits. Files, one module each:
`wrappers.dfy` (`Option`), `py_strings.dfy`, `messages.dfy` (chat messages,
truthiness, `Reply`), `ai_operations.dfy`, `app.dfy` and `data_store.dfy`.

Three behaviours of the code shape the model:
- A picker reply that does not name a valid candidate raises, and the whole
  reply becomes `None`. There is no fallback to the first candidate.
- The pipeline in `app.py` returns the chosen (or refined) candidate as the
  model wrote it. It does not go through the tag extraction of
  `ai_operations.py`.
- The chat summary labels assistant lines "Santa asked:".

## Model

| member | source | states |
|---|---|---|
| PyStrings.Find | streamlit_app/ai_operations.py:38 | `pat in s`: the result is the leftmost position where `pat` occurs, and `-1` means it occurs nowhere |
| PyStrings.Split | streamlit_app/ai_operations.py:39 | `s.split(sep)` always has at least one piece; JoinSplit, SplitPiecesFree and SplitAt characterise the pieces |
| PyStrings.Join | streamlit_app/ai_operations.py:45 | `sep.join(parts)`: the parts with `sep` between neighbours; SplitJoin and JoinSplit make it the inverse of `split` |
| PyStrings.JoinSplit | streamlit_app/ai_operations.py:44-45 | joining the pieces of `s.split(sep)` with `sep` gives back `s` |
| PyStrings.SplitPiecesFree | streamlit_app/ai_operations.py:39-43 | no piece of `s.split(sep)` contains `sep` |
| PyStrings.SplitHasSecond | streamlit_app/ai_operations.py:86-89 | `s.split(sep)` has a second piece exactly when `sep` occurs in `s` |
| PyStrings.BeforeFirstFind | streamlit_app/ai_operations.py:40 | `s.split(sep)[0]` is everything before the first `sep`, or all of `s` when there is none |
| PyStrings.BeforeFirstAbsence | streamlit_app/ai_operations.py:40 | `s.split(sep)[0]` holds no `sep`, and no pattern that `s` lacks |
| PyStrings.SplitAt | streamlit_app/ai_operations.py:87-89 | when the first `sep` is at `i`, the split is `s[..i]` followed by the split of what follows that `sep` |
| PyStrings.AfterLastShape | streamlit_app/ai_operations.py:39-40 | `s.split(sep)[-1]` holds no `sep` and is the suffix right after the last occurrence the left-to-right split consumes (or all of `s`); for the tags split on here that is the last occurrence, since they cannot overlap themselves |
| PyStrings.SplitJoin | streamlit_app/ai_operations.py:44-45 | for a one-character separator, splitting the join of separator-free pieces gives back exactly those pieces |
| PyStrings.SplitAfterPrefix | streamlit_app/ai_operations.py:80 | `(p + sep + rest).split(sep)` is `p` and then the pieces of `rest` when `p` lacks the separator's first character |
| PyStrings.Strip | streamlit_app/ai_operations.py:40 | `s.strip()` drops only whitespace from both ends; its result has no whitespace at either end and is empty exactly for all-whitespace input |
| PyStrings.StripPadding | streamlit_app/ai_operations.py:45 | stripping whitespace padding around a text that has none at its ends returns that text |
| PyStrings.StripIdempotent | streamlit_app/ai_operations.py:45 | stripping twice is stripping once |
| PyStrings.StripKeepsAbsence | streamlit_app/ai_operations.py:88-89 | stripping never introduces a pattern |
| PyStrings.Words | streamlit_app/app.py:198 | `s.split()` yields non-empty whitespace-free tokens, and none exactly when `s` is all whitespace |
| PyStrings.FirstWord | streamlit_app/app.py:198 | `s.split()[0]` is the first whitespace-delimited token, whatever surrounds it |
| PyStrings.Decimal | streamlit_app/app.py:189 | `str(n)` is the canonical numeral of `n`: non-empty, all digits, no leading zero unless it is "0", and it denotes `n` |
| PyStrings.ParseDecimal | streamlit_app/app.py:198 | `int(str(n)) == n` and `int("-" + str(n)) == -n` |
| PyStrings.ParseIntRejects | streamlit_app/app.py:198 | `int()` raises on a token with a character other than a leading sign and digits |
| PyStrings.ParseInt | streamlit_app/app.py:198 | `int(token)` succeeds only on a non-empty token whose characters after the first are all digits, and an unsigned numeral gives a non-negative value; ParseDecimal and ParseIntRejects are its partners |
| AiOperations.SantaSystemMessages | streamlit_app/ai_operations.py:10-24 | three system messages when the budget is truthy (budget block second), two otherwise; persona first, tag reminder last |
| AiOperations.BudgetPrompt | streamlit_app/ai_operations.py:12-18 | the budget block of the f-string with the budget text inside; SantaSystemMessages places it second |
| AiOperations.SantaRequest | streamlit_app/ai_operations.py:28-31 | the question request is the system messages followed by the unchanged transcript |
| AiOperations.CleanLines | streamlit_app/ai_operations.py:44-45 | the cleaned option lines are non-empty and already stripped |
| AiOperations.CleanLinesConcat | streamlit_app/ai_operations.py:45 | the comprehension keeps lines in order and independently of each other: cleaning `a + b` is cleaning `a`, then `b` |
| AiOperations.CleanOptions | streamlit_app/ai_operations.py:43-45 | the options text: the cleaned lines joined with newlines; OptionLines reads it back line by line |
| AiOperations.FormatSantaResponse | streamlit_app/ai_operations.py:38-54 | unless both opening tags occur, the reply is returned unchanged |
| AiOperations.GenerateSantaResponse | streamlit_app/ai_operations.py:8-58 | the result is `None` exactly when the model call raises; otherwise it is the model's reply passed through `FormatSantaResponse` |
| AiOperations.CleanLinesAbsent | streamlit_app/ai_operations.py:45 | cleaning lines introduces no pattern the lines lacked |
| AiOperations.OptionLines | streamlit_app/ai_operations.py:43-45 | read back line by line, the cleaned options are the stripped non-blank option lines, in order |
| AiOperations.TaggedTextShape | streamlit_app/ai_operations.py:39-40 | for any two non-empty tags, the text after the last opening tag up to the next closing tag, stripped, holds neither tag and is already stripped |
| AiOperations.QuestionTextShape | streamlit_app/ai_operations.py:38-40 | the question is the stripped text after the last `<question>` up to the next `</question>` (or the end), and it holds neither tag |
| AiOperations.QuestionText | streamlit_app/ai_operations.py:39-40 | `parts[-1].split("</question>")[0].strip()` is already stripped; QuestionTextShape locates it in the reply |
| AiOperations.OptionsText | streamlit_app/ai_operations.py:42-43 | the raw options block after the last `<multiple_choice_options>` holds no closing tag |
| AiOperations.SantaResponseLines | streamlit_app/ai_operations.py:38-46 | with both tags and a one-line question, the result read line by line is the question followed by the cleaned option lines (or one empty line when there are none) |
| AiOperations.ParseSegment | streamlit_app/ai_operations.py:86-98 | every record's text starts with the glyph and a space; without both keyword tags it is the stripped segment with empty keywords |
| AiOperations.ParseGiftSuggestions | streamlit_app/ai_operations.py:77-99 | the parsing loop yields the records of the segments of `content.split("🎁")` |
| AiOperations.SuggestionsOf | streamlit_app/ai_operations.py:81-98 | the reference for the parsing loop: never more records than segments; SuggestionsMatchSegments gives one per non-blank segment |
| AiOperations.NonBlank | streamlit_app/ai_operations.py:82-83 | the segments the loop does not skip: none of them strips to empty |
| AiOperations.SuggestionsMatchSegments | streamlit_app/ai_operations.py:80-98 | exactly one record per non-blank segment, in the segments' order |
| AiOperations.SuggestionsOfConcat | streamlit_app/ai_operations.py:81-98 | parsing segment lists distributes over concatenation |
| AiOperations.SegmentText | streamlit_app/ai_operations.py:86-98 | the text after the glyph-and-space prefix is stripped and holds no further glyph, and the keywords are stripped (an empty segment text leaves the record text `"🎁 "`, ending in the space) |
| AiOperations.SegmentWithKeywords | streamlit_app/ai_operations.py:86-89 | with both keyword tags: the text is the stripped prefix before the first `<keywords>`, the keywords run to the next closing (or opening) tag, the rest is dropped |
| AiOperations.FormatChatSummary | streamlit_app/ai_operations.py:105-120 | the summary loop computes the reference summary |
| AiOperations.ChatSummary | streamlit_app/ai_operations.py:107-120 | the summary always starts with `"Chat summary:\n"` |
| AiOperations.SummaryInput | streamlit_app/ai_operations.py:109-112 | the summarised messages are the transcript or the transcript without its last message, and the last is dropped exactly when it is from the assistant |
| AiOperations.SummaryBody | streamlit_app/ai_operations.py:114-118 | the lines of the summary loop, one per user or assistant message; SummaryGrows and SummaryBodyConcat are its partners |
| AiOperations.SummaryGrows | streamlit_app/ai_operations.py:114-118 | each message appends exactly its own line to the summary |
| AiOperations.SummaryBodyConcat | streamlit_app/ai_operations.py:114-118 | the summary body of a concatenation is the concatenation of the bodies |
| AiOperations.SummaryDropsOneTrailingAssistant | streamlit_app/ai_operations.py:111-112 | exactly one trailing assistant message is left out; an assistant message before it is still summarised |
| AiOperations.SummarySkipsOtherRoles | streamlit_app/ai_operations.py:114-118 | messages of other roles contribute nothing, wherever they stand |
| AiOperations.SummaryOfNothing | streamlit_app/ai_operations.py:107-120 | an empty transcript gives the header alone |
| AiOperations.GiftSystemPrompt | streamlit_app/ai_operations.py:69 | `"\n\nBudget range: " + budget` is appended exactly when the budget is truthy |
| AiOperations.GiftRequest | streamlit_app/ai_operations.py:68-71 | the suggestion request: the system prompt and the summary as a user message; GenerateGiftSuggestions is proved against it |
| AiOperations.GenerateGiftSuggestions | streamlit_app/ai_operations.py:60-103 | a raising call gives no suggestions; otherwise the records of the reply's glyph segments |
| App.Dialogue | streamlit_app/app.py:181-185 | the replayed messages are user or assistant messages and no more than the transcript |
| App.Labelled | streamlit_app/app.py:182-185 | a replayed message is a user message whose text ends with the original content |
| App.LabelledHistory | streamlit_app/app.py:181-185 | the replayed history is user messages only and never longer than the transcript; LabelledHistoryMatches pairs it with the dialogue |
| App.LabelledHistoryMatches | streamlit_app/app.py:181-185 | the replayed history has one labelled user message per dialogue message, in order |
| App.LabelledHistorySkips | streamlit_app/app.py:181-185 | messages of other roles leave no trace in the replayed history |
| App.HistoryGrows | streamlit_app/app.py:181-185 | each loop step appends exactly the labelled line of its message |
| App.CandidateLines | streamlit_app/app.py:188-189 | candidate `k` appears as `"Response " + str(k + 1) + ": " + c`, one per candidate, in order |
| App.PickerLayout | streamlit_app/app.py:174-189 | the picker request has `3 + #dialogue + N` messages: prompt, intro depending on an empty history, labelled history, header, numbered candidates |
| App.PickerMessages | streamlit_app/app.py:174-189 | the reference picker request; PickerLayout gives it position by position |
| App.AppendHistory | streamlit_app/app.py:181-185 | the history loop appends the labelled history |
| App.BuildPickerMessages | streamlit_app/app.py:174-189 | the append loops build the reference picker request |
| App.PyIndex | streamlit_app/app.py:199 | Python indexing: valid exactly for `-N <= idx < N`, selecting position `idx` or, for a negative index, `N + idx` |
| App.PyIndexCongruent | streamlit_app/app.py:199 | the selected position is congruent to `idx` modulo `N` |
| App.ChosenIndex | streamlit_app/app.py:198 | a chosen index is within the candidate list |
| App.PickBest | streamlit_app/app.py:198-199 | the chosen response is one of the candidates, and there is none exactly when choosing raises |
| App.PickSelects | streamlit_app/app.py:198-199 | a first word `k` with `1 <= k <= N` selects candidate `k`, whatever follows it |
| App.PickExample | streamlit_app/app.py:153 | the prompt's example reply "2 - Best balance of distinct options and new topic area" selects the second of three candidates |
| App.PickZeroSelectsLast | streamlit_app/app.py:198-199 | a first word "0" selects the last candidate |
| App.PickByFirstWord | streamlit_app/app.py:198-199 | a reply whose first word is the integer `v` selects candidate `v` for positive `v`, counts from the end for `v <= 0`, and raises outside `-N + 1 .. N` |
| App.PickSelectsSigned | streamlit_app/app.py:198-199 | the same for a reply of leading whitespace, the integer token and anything starting with whitespace |
| App.PickBlankRaises | streamlit_app/app.py:198 | a blank picker reply raises |
| App.PickNonIntegerRaises | streamlit_app/app.py:198 | a first word that is not an integer raises |
| App.PickTrailingDotRaises | streamlit_app/app.py:198 | a reply starting "2." raises |
| App.PickBestResponse | streamlit_app/app.py:172-199 | one picker call on the reference request; the choice is `None` when the call or the selection raises |
| App.ValidationLayout | streamlit_app/app.py:204-215 | the validator request has `3 + #dialogue` messages: prompt, intro, labelled history, the response under review |
| App.ValidationMessages | streamlit_app/app.py:204-215 | the reference validator request; ValidationLayout gives it position by position |
| App.BuildValidationMessages | streamlit_app/app.py:204-215 | the append loop builds the reference validator request |
| App.RefinementMessages | streamlit_app/app.py:230-235 | the refiner request is the persona and refinement prompts joined by a newline, the raw transcript, the chosen reply as assistant, and the verdict as a system instruction |
| App.GenerationRequest | streamlit_app/app.py:161-164 | the candidate request is the persona prompt and then the raw transcript |
| App.GetAiResponse | streamlit_app/app.py:242-268 | the pipeline's reply and calls are those of the reference turn |
| App.AiTurn | streamlit_app/app.py:242-268 | the reference for one reply: generate, pick, then Checked; AiTurnCalls and AiTurnReply state its call order and reply |
| App.Checked | streamlit_app/app.py:255-264 | the reference from validation on; CheckedShape and CheckedRaisedEnds state its calls and reply |
| App.CheckedShape | streamlit_app/app.py:255-264 | one validation call; an exact "VALID" keeps the response; any other verdict gives exactly one refinement call, whose outcome is the reply |
| App.AiTurnCalls | streamlit_app/app.py:244-264 | calls follow generate, pick, validate, refine, each at most once and in that order (1 to 4 calls); the refiner request starts with the persona |
| App.AiTurnReply | streamlit_app/app.py:258-264 | a reply needs at least three calls; three calls with a reply exactly when the verdict is "VALID"; with four calls the reply is the refinement's outcome |
| App.ValidKeepsChoice | streamlit_app/app.py:258-259 | on verdict "VALID" the chosen candidate is returned unchanged after three calls |
| App.OtherVerdictRefines | streamlit_app/app.py:260-264 | any other verdict gives one refinement carrying that verdict, and its outcome is returned unchecked |
| App.BadPickGivesNothing | streamlit_app/app.py:251 | a failed selection gives `None` after two calls, with no fallback |
| App.RaisedCallEndsTurn | streamlit_app/app.py:266-268 | a raising call is the last call, and the reply is `None` |
| App.InputExtends | streamlit_app/app.py:313-330 | input keeps the old transcript, appends the user message, then an assistant message exactly when the reply is truthy; a failed turn ends with the user message |
| App.AfterInput | streamlit_app/app.py:313-328 | the transcript after input: the user message, then the reply when truthy; InputExtends states it |
| App.WithReply | streamlit_app/app.py:325-328 | a reply is appended as an assistant message only when it is truthy |
| App.OpeningOnlyWhenEmpty | streamlit_app/app.py:290-298 | the opening step leaves a non-empty transcript alone; on an empty one the transcript becomes the opening reply as an assistant message when that reply is truthy, and stays empty otherwise |
| App.AfterOpening | streamlit_app/app.py:290-298 | the transcript after the opening step; OpeningOnlyWhenEmpty states it |
| App.ChatSession.constructor | streamlit_app/app.py:27-28 | the session starts with an empty transcript |
| App.ChatSession.StartChat | streamlit_app/app.py:290-301 | the transcript becomes the reference opening |
| App.ChatSession.SubmitInput | streamlit_app/app.py:313-330 | the transcript becomes the reference after input |
| App.ChatSession.Clear | streamlit_app/app.py:333-335 | the transcript becomes empty |
| App.ChatSession.Run | streamlit_app/app.py:289-336 | one script run as written: opening with the elf prompt, then input with the input text as persona, then clear |
| App.ChatSession.RunIntended | streamlit_app/app.py:309-328 | one script run with the elf prompt kept for the input step |
| App.InputBecomesPersona | streamlit_app/app.py:309 | as written, the candidate and refiner requests for an input start with the input text, not the elf prompt |
| App.IntendedKeepsElfPrompt | streamlit_app/app.py:162 | with the prompt kept, the candidate and refiner requests start with the elf prompt |
| App.RunOutcomes | streamlit_app/app.py:333-336 | a run that clears ends empty; a run without input and clearing is the opening step only |
| App.RunWithPersona | streamlit_app/app.py:289-336 | one script run: opening step, input step under the given persona, then clearing |
| App.RunAsWritten | streamlit_app/app.py:309 | the run whose input step takes the input itself as persona; RunOutcomes and InputBecomesPersona state its effect |
| DataStore.ChatRecord | streamlit_app/data_store.py:8 | a new chat record has an empty response list and a `None` result link |
| DataStore.ResultRecord | streamlit_app/data_store.py:17 | a result record holds only the suggestions |
| DataStore.GenerateGiftIdeas | streamlit_app/data_store.py:25-37 | three non-empty suggestions |
| DataStore.GiftIdeasIgnoreInput | streamlit_app/data_store.py:25-37 | the suggestions are the same whatever the messages |
| DataStore.UserResponses | streamlit_app/data_store.py:28 | the extracted user answers are at most as many as the messages |
| DataStore.SavedFrame | streamlit_app/data_store.py:14-17 | a save adds exactly the result key, rewrites the chat record's two fields, and leaves every other entry alone |
| DataStore.Saved | streamlit_app/data_store.py:14-17 | the store after a save; SavedFrame states what changes and what does not |
| DataStore.SaveTwiceKeepsEarlierResult | streamlit_app/data_store.py:14-17 | a second save overwrites responses and result link, while the first result record stays |
| DataStore.Suggestions | streamlit_app/data_store.py:20-23 | lookup gives `None` exactly for unknown keys, and the stored list exactly when the record has one |
| DataStore.LookupAfterSave | streamlit_app/data_store.py:17-23 | a result key reads back the fixed suggestions; a chat key raises KeyError |
| DataStore.LinkStore.constructor | streamlit_app/data_store.py:4 | the store starts empty |
| DataStore.LinkStore.GenerateChatLink | streamlit_app/data_store.py:6-9 | exactly one new key, mapped to a new chat record, is added and returned |
| DataStore.LinkStore.SaveChatAndGenerateResultLink | streamlit_app/data_store.py:11-18 | an unknown key gives `None` and no change; otherwise the store becomes the reference save and the new key is returned |
| DataStore.LinkStore.GetGiftSuggestions | streamlit_app/data_store.py:20-23 | the lookup reads the store without changing it |

## Left out

- The OpenAI, Azure and Langfuse clients, `@observe` and the sampling parameters. Model calls are oracle parameters, modelled as functions of the request. Two identical requests therefore get the same answer, which a sampling model need not give.
- A model reply whose content is `None`. Replies are always strings, so the exceptions Python raises on `None` content (in the tag test, `split()` or `strip()`) are not modelled.
- The prose of the prompt constants. They are opaque parameters.
- Streamlit rendering, `st.error`, `st.rerun` and all logging.
- `uuid.uuid4()`. It becomes a caller-supplied key that is not yet in the store.
- Python's full `int()`: surrounding whitespace, underscores and non-ASCII digits. Tokens from `split()` have no whitespace.
- Python's `str.isspace` is modelled by a fixed list of code points. Python strings are sequences of code points, here `seq<char>`.
- Messages lacking a "role" or "content" key. Python would raise KeyError; the model's messages always have both.
- Aliasing: `save_chat_and_generate_result_link` stores the caller's list object itself. The model stores a value.
- AiOperations.SantaResponseLines: assumes the extracted question is a single line; a multi-line question is covered only by QuestionTextShape.
- Two concrete inputs are not stated as lemmas: the reply `"<question> Pick one </question> junk <multiple_choice_options>\n1. A\n\n2. B\n</multiple_choice_options>"`, which formats to `"Pick one\n1. A\n2. B"`, and the suggestion output `"🎁 Suggestion A <keywords>kw1 kw2</keywords>\n\n🎁 Suggestion B"`, which parses to the records `{text: "🎁 Suggestion A", keywords: "kw1 kw2"}` and `{text: "🎁 Suggestion B", keywords: ""}`. The general lemmas QuestionTextShape, OptionLines, SuggestionsMatchSegments and SegmentWithKeywords state the properties these inputs illustrate.
- `backend/server.py` (HTTP layer duplicating the store), `frontend/script.js` (browser UI) and `backend/test_server.py` (a script against a live server) are not part of this model.

## Findings

| source | as written | input that shows it | evidently intended | confidence | as-written member | corrected member |
|---|---|---|---|---|---|---|
| streamlit_app/app.py:309 | `if prompt := st.chat_input(...)` rebinds the module-level `prompt`, which `generate_candidates` (line 162) and `refine_response` (line 231) read as the elf system prompt | any chat input, e.g. "2": the candidate request's system message is "2" | the elf prompt stays the system prompt and the input is only the user message | high; not executed | App.InputBecomesPersona | App.IntendedKeepsElfPrompt |
