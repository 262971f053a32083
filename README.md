# gwt core, modelled in Dafny

gwt is a Git worktree manager for AI coding agents (the Claude, Codex,
Gemini and OpenCode command-line agents). It ships a terminal UI (`gwt-cli`) and a Tauri desktop app
(`gwt-tauri`), both on a shared library (`gwt-core`). Around the git, gh,
tmux and docker subprocesses it calls, and the screens it draws, sits a large
deterministic core:

- text codecs and parsers: ANSI stripping, git porcelain and shortstat
  output, tmux pane lists, JSON comment removal, changelog and task markdown,
  GitHub URLs, version tags, Levenshtein distance;
- decision rules: process exit classification, retry and fallback
  predicates, worktree safety levels, update apply plans, runner choice, PR
  recency, branch ordering;
- collections and caches: the terminal pane manager, the error queue, port
  candidates, custom agent configuration, history maps, the session summary
  cache, latest-per-key reductions;
- UI state machines without their rendering: the launch wizards, git view,
  branch list, logs, environment editor, confirm dialog, migration dialog,
  AI settings wizard, clone wizard, agent chat input and progress modal;
- orchestrator bookkeeping: the session queue, retry counters, interrupts
  and completion.

Each Dafny file models one source file, one module per file, and a shared
`Common` module holds the string and sequence helpers (ASCII case mapping,
trimming, splitting, decimal rendering, a generic insertion sort). Pure
helpers are datatypes, functions and lemmas. Code that updates fields or
buffers in place is a `class`, with methods whose `modifies` and `ensures`
state the new state. Loops are methods with invariants, proved against a
specification function. The properties the code and its unit tests promise
are proved as lemmas: round trips, orderings, bounds, "nothing else changes"
and uniqueness.

Subprocess output, file contents, environment lookups, clocks and JSON
parsers are parameters. Byte strings are `seq<byte>`. Other strings are
`seq<char>`, and case mapping and whitespace follow ASCII.

## Model

| member | source | states |
|---|---|---|
| AgentHistory.WithRecord | crates/gwt-core/src/ai/agent_history.rs:129-151 | recording adds the repository to the store if it was missing and sets the branch's entry |
| AgentHistory.Lookup | crates/gwt-core/src/ai/agent_history.rs:153-159 | an entry is found iff the repository has one for the branch |
| AgentHistory.RecordThenGet | crates/gwt-core/src/ai/agent_history.rs:130-159 | a record followed by a get returns the recorded agent id, label and time |
| AgentHistory.RecordOverwrites | crates/gwt-core/src/ai/agent_history.rs:141-148 | a second record for the same repository and branch overwrites the first |
| AgentHistory.RecordIsolated | crates/gwt-core/src/ai/agent_history.rs:162-173 | other repositories and other branches are unchanged by a record |
| AgentHistory.AgentHistoryStore.constructor | crates/gwt-core/src/ai/agent_history.rs:58-63 | a new store is empty |
| AgentHistory.AgentHistoryStore.Record | crates/gwt-core/src/ai/agent_history.rs:129-151 | the store becomes WithRecord of the old one, and get then returns the new entry |
| AgentHistory.AgentHistoryStore.GetAllForRepo | crates/gwt-core/src/ai/agent_history.rs:161-173 | empty for an unknown repository; otherwise exactly the branches get finds, with the same entries |
| AgentMode.Utf8Len | crates/gwt-cli/src/tui/screens/agent_mode.rs:462-470 | a character takes one to four UTF-8 bytes, one exactly when it is ASCII |
| AgentMode.ByteLen | crates/gwt-cli/src/tui/screens/agent_mode.rs:462-470 | a string's UTF-8 length lies between its character count and four times it |
| AgentMode.ByteLenAppend | crates/gwt-cli/src/tui/screens/agent_mode.rs:462-470 | byte lengths add up over concatenation |
| AgentMode.CharToByteIndex | crates/gwt-cli/src/tui/screens/agent_mode.rs:462-470 | cursor 0 maps to byte 0, a cursor at or past the character count maps to the byte length, and otherwise to the byte length of the characters before the cursor |
| AgentMode.CharToByteIndexStep | crates/gwt-cli/src/tui/screens/agent_mode.rs:78-86 | consecutive character boundaries are one whole character's bytes apart, so backspace removes exactly one character |
| AgentMode.InsertAtCursor | crates/gwt-cli/src/tui/screens/agent_mode.rs:72-76 | the character goes in at the cursor (at the end when the cursor lies past it) and the cursor moves one right, staying inside the text |
| AgentMode.BackspaceAtCursor | crates/gwt-cli/src/tui/screens/agent_mode.rs:78-86 | at cursor zero nothing changes; inside the text the character before the cursor is removed and the cursor moves one left |
| AgentMode.BackspaceUndoesInsert | crates/gwt-cli/src/tui/screens/agent_mode.rs:72-86 | backspace right after typing restores input and cursor |
| AgentMode.InsertAddsCharBytes | crates/gwt-cli/src/tui/screens/agent_mode.rs:72-76 | typing adds exactly the typed character's UTF-8 bytes |
| AgentMode.BackspaceRemovesCharBytes | crates/gwt-cli/src/tui/screens/agent_mode.rs:78-86 | backspace removes exactly the UTF-8 bytes of the character before the cursor |
| AgentMode.AgentModeState.constructor | crates/gwt-cli/src/tui/screens/agent_mode.rs:44-56 | a new screen has empty input at cursor zero, no messages, no AI, no errors and is not waiting |
| AgentMode.AgentModeState.SetAiStatus | crates/gwt-cli/src/tui/screens/agent_mode.rs:58-61 | records readiness and the AI error |
| AgentMode.AgentModeState.SetWaiting | crates/gwt-cli/src/tui/screens/agent_mode.rs:63-65 | records whether a reply is awaited |
| AgentMode.AgentModeState.ClearInput | crates/gwt-cli/src/tui/screens/agent_mode.rs:67-70 | empties the input and puts the cursor at zero |
| AgentMode.AgentModeState.InsertChar | crates/gwt-cli/src/tui/screens/agent_mode.rs:72-76 | the new input and cursor are those of typing at the cursor, and the cursor stays within the input |
| AgentMode.AgentModeState.Backspace | crates/gwt-cli/src/tui/screens/agent_mode.rs:78-86 | the new input and cursor are those of backspace at the cursor, and the cursor stays within the input |
| AgentMode.AgentModeState.CursorLeft | crates/gwt-cli/src/tui/screens/agent_mode.rs:88-90 | moves left, never below zero |
| AgentMode.AgentModeState.CursorRight | crates/gwt-cli/src/tui/screens/agent_mode.rs:92-97 | moves right, never past the character count |
| AgentMode.Place | crates/gwt-cli/src/tui/screens/agent_mode.rs:436-451 | each character advances the layout by at most one line |
| AgentMode.LayoutEnd | crates/gwt-cli/src/tui/screens/agent_mode.rs:431-454 | the layout of a text uses no more line breaks than it has characters |
| AgentMode.LayoutLineMonotone | crates/gwt-cli/src/tui/screens/agent_mode.rs:431-454 | laying out more of the text never moves back a line |
| AgentMode.LayoutColumnFits | crates/gwt-cli/src/tui/screens/agent_mode.rs:445-450 | when no character is wider than the line, no column passes the width |
| AgentMode.CursorPosition | crates/gwt-cli/src/tui/screens/agent_mode.rs:424-460 | the cursor's line and column are where the layout of the characters before it ends, total lines are the layout's lines plus one, and the cursor line is below the total |
| AgentMode.DropNewlines | crates/gwt-cli/src/tui/screens/agent_mode.rs:387-391 | removing newlines never lengthens the text |
| AgentMode.ConcatSnoc | crates/gwt-cli/src/tui/screens/agent_mode.rs:378-388 | joining lines with one more line appends that line |
| AgentMode.WrapRunKeepsText | crates/gwt-cli/src/tui/screens/agent_mode.rs:385-401 | the finished lines and the line being filled, joined, are the text read so far without newlines |
| AgentMode.WrapRunLinesClean | crates/gwt-cli/src/tui/screens/agent_mode.rs:385-401 | the tracked width is the width of the line being filled, and no line holds a newline |
| AgentMode.WrapRunFits | crates/gwt-cli/src/tui/screens/agent_mode.rs:393-396 | with a positive width and no character wider than it, no line is wider than the width |
| AgentMode.WrappedProperties | crates/gwt-cli/src/tui/screens/agent_mode.rs:373-412 | at least one line is returned, joined the lines give the text without newlines, none holds a newline, and none is wider than a positive width when no character is |
| AgentMode.WrapToLines | crates/gwt-cli/src/tui/screens/agent_mode.rs:373-412 | the loop returns exactly the wrapping the step function defines |
| AgentPane.IconMatchesLabel | crates/gwt-cli/src/tui/screens/agent_pane.rs:40-58 | the icon and the label agree status by status: equal icons exactly when equal labels, "Completed" only for exit code 0, one-character icons |
| AgentPane.TabLabelRoundTrip | crates/gwt-cli/src/tui/screens/agent_pane.rs:60-63 | the tab label is the 1-based index, ':' and the agent name; reading it back gives the index and the whole name |
| AgentPane.AgentPaneTitle | crates/gwt-cli/src/tui/screens/agent_pane.rs:65-72 | the title is the active agent's name padded by a space each side, or " No Agent " without a pane |
| AgentPane.ElapsedRoundTrip | crates/gwt-cli/src/tui/screens/agent_pane.rs:31-38 | the "{m}m{ss}s" display reads back as the elapsed seconds clamped at zero |
| AgentPane.FutureStartIsZero | crates/gwt-cli/src/tui/screens/agent_pane.rs:31-38 | a start time in the future shows "0m00s" |
| AgentPane.CoordByte | crates/gwt-cli/src/tui/screens/agent_pane.rs:209-211 | an X10 coordinate byte is the local coordinate plus 33, capped at 255 |
| AgentPane.ScrollRoundTrip | crates/gwt-cli/src/tui/screens/agent_pane.rs:200-216 | within X10's range the six-byte report decodes to the scroll direction and the cell relative to the pane's content area inside its border |
| AgentPane.ScrollClamps | crates/gwt-cli/src/tui/screens/agent_pane.rs:200-216 | every report decodes; positions on or before the border saturate to 0 and positions past the range cap at 222 |
| AgentPane.ParseElapsedOf | crates/gwt-cli/src/tui/screens/agent_pane.rs:31-38 | a "<m>m<ss>s" text parses back to minutes * 60 + seconds |
| AgentPane.Pad2Value | crates/gwt-cli/src/tui/screens/agent_pane.rs:37 | the two-digit, zero-padded seconds field reads back as the seconds |
| AgentPane.MouseScrollToBytes | crates/gwt-cli/src/tui/screens/agent_pane.rs:204-216 | six bytes: ESC [ M, the button of the scroll direction, then the X10 coordinates (at least 33 each); the u16 border edge wraps at the last position |
| AgentPane.ScrollEdgeWraps | crates/gwt-cli/src/tui/screens/agent_pane.rs:207-208 | a pane at the last u16 position has its border edge wrap to 0, so the report carries the host coordinates capped at 222 |
| AgentPane.StatusIcon | crates/gwt-cli/src/tui/screens/agent_pane.rs:41-48 | a one-character icon, "o" exactly for exit code 0 and "*" exactly while running |
| AgentPane.StatusLabel | crates/gwt-cli/src/tui/screens/agent_pane.rs:51-58 | Completed exactly for exit code 0, Failed exactly for another exit code, Running exactly while running |
| AgentPane.FormatTabLabel | crates/gwt-cli/src/tui/screens/agent_pane.rs:61-63 | decimal digits reading as the one-based position, then a colon, then the agent name |
| AgentPane.FormatElapsed | crates/gwt-cli/src/tui/screens/agent_pane.rs:32-38 | minutes, "m", two second digits and "s"; a start in the future shows 0m00s |
| AiClient.IsRetryable | crates/gwt-core/src/ai/client.rs:921-943 | rate limiting is always retried, a server error exactly when its lower-cased message names none of "http 501", "not implemented", "does not support the responses api", and nothing else is |
| AiClient.Http501NotRetried | crates/gwt-core/src/ai/client.rs:930-936 | the "HTTP 501" message made up for a body-less 501 is permanent, so it is not retried |
| AiClient.BackoffDelay | crates/gwt-core/src/ai/client.rs:945-948 | the first retry waits 1 second, and no retry waits less |
| AiClient.TotalBackoffClosed | crates/gwt-core/src/ai/client.rs:945-948 | n successive delays add up to 2^n - 1 seconds |
| AiClient.UnsupportedMethodFallsBack | crates/gwt-core/src/ai/client.rs:869-876 | statuses 501 and 405 fall back to chat completions whatever the message |
| AiClient.ShouldFallbackOnTransportError | crates/gwt-core/src/ai/client.rs:904-919 | timeouts and connect failures never fall back; other transport errors fall back iff the message names a dropped-connection phrase |
| AiClient.ShouldRetryChatCompletionWithoutReasoning | crates/gwt-core/src/ai/client.rs:650-657 | only a parse error naming missing message or text content asks for a retry without reasoning |
| AiClient.ShouldRetryWithoutReasoningMessage | crates/gwt-core/src/ai/client.rs:659-673 | requires a 5xx or 400 status, a "reasoning" mention and one of the four refusal phrases, all ignoring case |
| AiClient.ShouldPreferChatCompletions | crates/gwt-core/src/ai/client.rs:891-902 | a model with ':' always prefers chat completions; otherwise an unparsable endpoint does not, and a parsed one does iff its host is not api.openai.com |
| AiClient.PreferredChatCompletionReasoningEffort | crates/gwt-core/src/ai/client.rs:633-648 | "low" exactly for a model with ':' on a parsed non-OpenAI host, otherwise none |
| AiClient.EffortImpliesChatPreferred | crates/gwt-core/src/ai/client.rs:891-902 | whenever an effort is sent, chat completions are preferred |
| AiClient.StepOf | crates/gwt-core/src/ai/client.rs:390-439 | one reply: fallback only on the Responses path; 401/403 end with Unauthorized; 429 always asks for a retry; any other retry is for a retryable error |
| AiClient.SendWithRetry | crates/gwt-core/src/ai/client.rs:364-439 | at most six attempts; every attempt but the last asked to retry; the last decides the outcome, a retry on the sixth gives up with its error; the waits total 2^(attempts-1) - 1 seconds |
| AiClient.Http501Permanent | crates/gwt-core/src/ai/client.rs:930-936 | the text "HTTP 501" counts as a permanent server error |
| AiClient.IsPermanentServerError | crates/gwt-core/src/ai/client.rs:930-943 | a server error is permanent when its lower-cased message mentions HTTP 501, "not implemented" or a missing Responses API; such a message is at least eight characters long |
| AiClient.PermanentIgnoresCase | crates/gwt-core/src/ai/client.rs:931 | the permanence test does not depend on the case of the message, because it lower-cases first |
| AiClient.BackoffDoubles | crates/gwt-core/src/ai/client.rs:945-948 | each further retry waits twice as long as the one before, so the waits run 1, 2, 4, 8 seconds |
| AiSummary.StaleUnknownOrNewer | crates/gwt-core/src/ai/summary.rs:54-67 | an unknown branch, a different session id, or a cached time older than the current one is stale |
| AiSummary.FreshAfterSet | crates/gwt-core/src/ai/summary.rs:42-67 | after recording (session, mtime) for a branch, a query is fresh iff it names that session at a time no later than mtime |
| AiSummary.SetKeepsOtherBranches | crates/gwt-core/src/ai/summary.rs:42-52 | recording one branch leaves every other branch's staleness unchanged |
| AiSummary.SessionSummaryCache.constructor | crates/gwt-core/src/ai/summary.rs:32-36 | the default cache holds no summaries, times or session ids |
| AiSummary.SessionSummaryCache.Get | crates/gwt-core/src/ai/summary.rs:38-40 | the cached summary for the branch, None iff none is cached |
| AiSummary.SessionSummaryCache.Set | crates/gwt-core/src/ai/summary.rs:42-52 | inserts into all three maps; afterwards the summary is returned, the same session at the same time is fresh, any other session id is stale and any later time is stale |
| AiSummary.NoCharsIffEmptyMessages | crates/gwt-core/src/ai/summary.rs:175 | the total character count is 0 iff every message's content is empty |
| AiSummary.EstimateTokenCount | crates/gwt-core/src/ai/summary.rs:174-180 | 0 iff there are no characters; exactly 1 for one to three characters; from 4 characters on, a quarter of them rounded down |
| AiSummary.ElapsedSeconds | crates/gwt-core/src/ai/summary.rs:154-159 | the whole seconds between the bounds, truncated, and 0 when the end precedes the start |
| AiSummary.BuildMetrics | crates/gwt-core/src/ai/summary.rs:152-172 | token count present iff there are characters; tool count is the number of executions; elapsed present iff both bounds exist at least a second apart; turns are total_turns when positive, else the message count |
| AiSummary.PromptContent | crates/gwt-core/src/ai/summary.rs:94-97 | the trimmed content when at most 220 characters, else its first 217 characters followed by "..." (220 in all) |
| AiSummary.NormalizeBullet | crates/gwt-core/src/ai/summary.rs:264-271 | the result starts with "- " and ends with the trimmed value, which it returns unchanged when that already starts with "- " |
| AiSummary.NormalizeBulletIdempotent | crates/gwt-core/src/ai/summary.rs:264-271 | normalising a non-blank bullet twice equals normalising it once |
| AiSummary.BlankBulletNotIdempotent | crates/gwt-core/src/ai/summary.rs:265-270 | a blank value becomes "- ", which normalises again to "- -", so idempotence needs non-blank input (the only input the source passes) |
| AiSummary.OrderedRest | crates/gwt-core/src/ai/summary.rs:343-356 | present iff a non-empty digit run is followed by '.' or ')'; the rest is what follows the mark with leading whitespace removed |
| AiSummary.OrderedRestOf | crates/gwt-core/src/ai/summary.rs:350-352 | digits then '.' or ')' then any text yields that text trimmed at the start, with no space required after the mark |
| AiSummary.StripOrderedPrefix | crates/gwt-core/src/ai/summary.rs:343-356 | the digit-scanning loop returns exactly the ordered-prefix rest |
| AiSummary.NormalizeLineWith | crates/gwt-core/src/ai/summary.rs:314-341 | a blank line gives None; a kept line is "- " followed by a non-empty, trimmed text |
| AiSummary.NormalizeLineAsWritten | crates/gwt-core/src/ai/summary.rs:314-341 | the normalisation with the source's bullet marker "â€¢": blank lines dropped, kept lines start "- " |
| AiSummary.NormalizeLine | crates/gwt-core/src/ai/summary.rs:314-341 | corrected (see Findings): the normalisation with the bullet U+2022: blank lines dropped, kept lines start "- " |
| AiSummary.NormalizeLineFixpoint | crates/gwt-core/src/ai/summary.rs:314-341 | a normalised line normalises to itself |
| AiSummary.BulletItemAsWritten | crates/gwt-core/src/ai/summary.rs:328 | "• item" becomes "- • item" as written and "- item" with the intended marker |
| AiSummary.NormalizedLines | crates/gwt-core/src/ai/summary.rs:284 | at most one output per input line, each starting "- " with text after it |
| AiSummary.SplitAllSpace | crates/gwt-core/src/ai/summary.rs:284 | the lines of all-whitespace content are all whitespace |
| AiSummary.BlankContentHasNoLines | crates/gwt-core/src/ai/summary.rs:284-290 | blank content yields no normalised line, so the "Empty summary" branch is reached |
| AiSummary.SplitOnStrJoin | crates/gwt-core/src/ai/summary.rs:291 | joining the pieces of a split with its separator gives back the string |
| AiSummary.SentenceBullets | crates/gwt-core/src/ai/summary.rs:291-302 | one "- " bullet per non-blank sentence, in order |
| AiSummary.SentenceBulletsPrefix | crates/gwt-core/src/ai/summary.rs:291-302 | the bullets of the first j sentences are a prefix of the bullets of all of them |
| AiSummary.CollectSentences | crates/gwt-core/src/ai/summary.rs:291-302 | the loop that stops at three returns the first three sentence bullets, or all of them when fewer |
| AiSummary.ParseSummaryLines | crates/gwt-core/src/ai/summary.rs:283-312 | the method, with its sentence loop stopping at three, returns exactly SummaryLines(content) |
| AiSummary.TextField | crates/gwt-core/src/ai/summary.rs:218-228 | present iff the field is a non-blank string, and then trimmed and non-empty |
| AiSummary.ArrayBullets | crates/gwt-core/src/ai/summary.rs:237-246 | at most one bullet per item, each starting "- " |
| AiSummary.CollectArrayBullets | crates/gwt-core/src/ai/summary.rs:237-246 | the array loop normalises exactly the non-blank string items, in order |
| AiSummary.ExtractFieldsFromJson | crates/gwt-core/src/ai/summary.rs:217-262 | the method, with its array loop, returns exactly ExtractFields(value) |
| AiSummary.FindJsonBounds | crates/gwt-core/src/ai/summary.rs:273-281 | the first '{' and the last '}', present only when the brace comes first |
| AiSummary.FindJsonBoundsNone | crates/gwt-core/src/ai/summary.rs:273-281 | no bounds iff no '{' precedes any '}' |
| AiSummary.ParseJsonSummary | crates/gwt-core/src/ai/summary.rs:199-215 | fields exactly when the whole reply or the text between the outer braces parses as JSON, and then they are ExtractFields of that JSON value |
| AiSummary.ParseSessionSummaryFields | crates/gwt-core/src/ai/summary.rs:182-197 | never fails; with JSON, the fields are ExtractFields of it; without, there is no overview, the bullets are the lines parse_summary_lines makes of the reply (none on its error), and the short summary is the first bullet with its leading "- " markers removed, absent iff there are no bullets |
| AiSummary.BulletItemStripped | crates/gwt-core/src/ai/summary.rs:328-329 | corrected (see Findings): with the intended marker, "• " followed by any trimmed text normalises to "- " and that text |
| AiSummary.SummaryLines | crates/gwt-core/src/ai/summary.rs:283-312 | Ok holds 1 to 3 lines, each starting "- "; the error is ParseError("Empty summary") exactly for blank content, else ParseError("No summary lines"); normalised lines (bullet U+2022, corrected, see Findings) win when there are any, cut to three; otherwise the sentence fallback, or ParseError("No summary lines") when that is empty |
| AiSummary.ExtractFields | crates/gwt-core/src/ai/summary.rs:217-262 | overview and short summary are the trimmed non-blank string fields; at most three bullets, each starting "- "; an array gives the first three normalised non-blank string items, a string gives the lines parse_summary_lines makes of it (none on its error), an object, another value or no bullets entry gives none |
| AiWizard.FilledField | crates/gwt-cli/src/tui/screens/ai_wizard.rs:82-83 | the field holds the given text with the cursor at its end |
| AiWizard.TypeInto | crates/gwt-cli/src/tui/screens/ai_wizard.rs:240-246 | typing grows the field by one character and moves the cursor one right, keeping it inside the text |
| AiWizard.BackspaceIn | crates/gwt-cli/src/tui/screens/ai_wizard.rs:254-265 | backspace at the start changes nothing; otherwise the field loses one character and the cursor moves one left |
| AiWizard.BackspaceUndoesType | crates/gwt-cli/src/tui/screens/ai_wizard.rs:237-268 | backspace right after typing a character restores the field exactly |
| AiWizard.IdLeTotal | crates/gwt-cli/src/tui/screens/ai_wizard.rs:189 | ordering models by id is total, so the sort is well defined |
| AiWizard.FindModel | crates/gwt-cli/src/tui/screens/ai_wizard.rs:193 | the first position whose model has the id, or none when no model has it |
| AiWizard.PreselectIndex | crates/gwt-cli/src/tui/screens/ai_wizard.rs:192-200 | after a fetch the previously chosen model is highlighted when listed, otherwise the first model; the index is inside a non-empty list |
| AiWizard.AIWizardState.constructor | crates/gwt-cli/src/tui/screens/ai_wizard.rs:70-72 | a new wizard is hidden with every field reset |
| AiWizard.AIWizardState.Reset | crates/gwt-cli/src/tui/screens/ai_wizard.rs:116-131 | every field back to its default: first step, empty texts and cursors, no models, no error or loading message, no delete prompt |
| AiWizard.AIWizardState.OpenNew | crates/gwt-cli/src/tui/screens/ai_wizard.rs:75-85 | opens for new settings on the endpoint step with the stock OpenAI endpoint and the cursor at its end |
| AiWizard.AIWizardState.OpenEdit | crates/gwt-cli/src/tui/screens/ai_wizard.rs:88-107 | opens for editing with the stored endpoint, key and model, cursors at the text ends |
| AiWizard.AIWizardState.Close | crates/gwt-cli/src/tui/screens/ai_wizard.rs:110-113 | hides the wizard and resets every field |
| AiWizard.AIWizardState.NextStep | crates/gwt-cli/src/tui/screens/ai_wizard.rs:134-155 | a blank endpoint is refused with "Endpoint URL is required"; a non-blank one moves to the key step; the key step moves to fetching; later steps do not move |
| AiWizard.AIWizardState.PrevStep | crates/gwt-cli/src/tui/screens/ai_wizard.rs:158-176 | back from the endpoint closes the wizard; fetching cannot go back; otherwise one step back with the error cleared and the texts kept |
| AiWizard.AIWizardState.FetchModels | crates/gwt-cli/src/tui/screens/ai_wizard.rs:179-202 | a client failure is returned with nothing changed; an empty list is stored and reported as "No models available"; otherwise the list is stored as a permutation sorted by id with the earlier choice highlighted |
| AiWizard.AIWizardState.FetchComplete | crates/gwt-cli/src/tui/screens/ai_wizard.rs:205-208 | clears the loading message and moves to model selection |
| AiWizard.AIWizardState.FetchFailed | crates/gwt-cli/src/tui/screens/ai_wizard.rs:211-215 | clears the loading message, shows the error and returns to the key step |
| AiWizard.AIWizardState.CurrentModel | crates/gwt-cli/src/tui/screens/ai_wizard.rs:218-220 | the highlighted model exactly when the index lies inside the list |
| AiWizard.AIWizardState.SelectNextModel | crates/gwt-cli/src/tui/screens/ai_wizard.rs:223-227 | moves one model down, never past the last |
| AiWizard.AIWizardState.SelectPrevModel | crates/gwt-cli/src/tui/screens/ai_wizard.rs:230-234 | moves one model up, never above the first |
| AiWizard.AIWizardState.InsertChar | crates/gwt-cli/src/tui/screens/ai_wizard.rs:237-250 | types into the field of the shown step only and clears the error on every step |
| AiWizard.AIWizardState.DeleteChar | crates/gwt-cli/src/tui/screens/ai_wizard.rs:252-269 | backspaces in the field of the shown step only and clears the error on every step |
| AiWizard.AIWizardState.CursorLeft | crates/gwt-cli/src/tui/screens/ai_wizard.rs:271-285 | moves the shown field's cursor one left, stopping at the start |
| AiWizard.AIWizardState.CursorRight | crates/gwt-cli/src/tui/screens/ai_wizard.rs:287-301 | moves the shown field's cursor one right, stopping at the end |
| AiWizard.AIWizardState.ShowDelete | crates/gwt-cli/src/tui/screens/ai_wizard.rs:309-311 | the delete prompt is shown |
| AiWizard.AIWizardState.CancelDelete | crates/gwt-cli/src/tui/screens/ai_wizard.rs:314-316 | the delete prompt is hidden |
| AiWizard.AIWizardState.TargetDescription | crates/gwt-cli/src/tui/screens/ai_wizard.rs:338-346 | the default settings, the named profile, or the generic label, in that priority |
| BranchList.ViewMode.Cycle | crates/gwt-cli/src/tui/screens/branch_list.rs:96-102 | cycling always moves to a different view mode |
| BranchList.CyclePeriodThree | crates/gwt-cli/src/tui/screens/branch_list.rs:96-102 | All, Local, Remote cycle with period exactly three (test at 900-905) |
| BranchList.ViewFilter | crates/gwt-cli/src/tui/screens/branch_list.rs:295-302 | a branch survives the view filter iff it was listed and the mode shows it: Local keeps local branches, Remote keeps remote ones and local ones with a remote counterpart |
| BranchList.TextFilter | crates/gwt-cli/src/tui/screens/branch_list.rs:305-311 | a branch survives the text filter iff its lower-cased name contains the lower-cased filter |
| BranchList.ApplyTextFilter | crates/gwt-cli/src/tui/screens/branch_list.rs:305-311 | an empty filter keeps every branch; otherwise exactly the matching ones |
| BranchList.EmptyFilterMatchesAll | crates/gwt-cli/src/tui/screens/branch_list.rs:305-311 | the empty filter matches every name, so skipping it changes nothing |
| BranchList.TypedCmpIsKeyed | crates/gwt-cli/src/tui/screens/branch_list.rs:317-378 | the comparator's seven levels equal a lexicographic comparison of numeric keys followed by the lower-cased name |
| BranchList.LexSeven | crates/gwt-cli/src/tui/screens/branch_list.rs:317-378 | the recursive lexicographic comparison of two seven-level keys is the level-by-level chain |
| BranchList.BranchCmpIsKeyed | crates/gwt-cli/src/tui/screens/branch_list.rs:317-378 | the sort comparator equals the keyed reference order |
| BranchList.LexReverse | crates/gwt-cli/src/tui/screens/branch_list.rs:317-378 | swapping the arguments of the key comparison reverses its result, and it is Equal only on equal keys |
| BranchList.LexTransitive | crates/gwt-cli/src/tui/screens/branch_list.rs:317-378 | the key comparison is transitive |
| BranchList.KeyedReverse | crates/gwt-cli/src/tui/screens/branch_list.rs:317-378 | swapping two branches reverses the keyed order; Equal only on equal keys and equal lower-cased names |
| BranchList.KeyedTransitive | crates/gwt-cli/src/tui/screens/branch_list.rs:317-378 | the keyed order is transitive |
| BranchList.BranchLeTransitive | crates/gwt-cli/src/tui/screens/branch_list.rs:317-378 | "sorts no later than" is transitive |
| BranchList.BranchLePreorder | crates/gwt-cli/src/tui/screens/branch_list.rs:317-378 | the comparator is a total preorder, with or without a main branch listed |
| BranchList.FilteredBranches | crates/gwt-cli/src/tui/screens/branch_list.rs:290-380 | the listed branches are exactly those the view mode and the text filter keep |
| BranchList.FilteredIsSortedPermutation | crates/gwt-cli/src/tui/screens/branch_list.rs:290-380 | the list is a permutation of the filtered branches, sorted by the comparator chosen by whether a main branch is among them |
| BranchList.SortedPairs | crates/gwt-cli/src/tui/screens/branch_list.rs:317-378 | in the sorted list every earlier branch sorts no later than every later one |
| BranchList.CurrentFirst | crates/gwt-cli/src/tui/screens/branch_list.rs:319-324 | no branch is listed before the current branch unless it is current too |
| BranchList.MainBeforeOthers | crates/gwt-cli/src/tui/screens/branch_list.rs:326-332 | among branches equally current, a main branch is preceded only by main branches |
| BranchList.DevelopNeedsMain | crates/gwt-cli/src/tui/screens/branch_list.rs:334-344 | develop gets priority over another branch only when a main branch is listed; otherwise the name decides |
| BranchList.NewerFirst | crates/gwt-cli/src/tui/screens/branch_list.rs:353-369 | among otherwise equal branches, the newer last commit comes first |
| BranchList.ToggledName | crates/gwt-cli/src/tui/screens/branch_list.rs:424-433 | toggling adds the name when absent, removes it when present, leaves every other name, and changes nothing without a selected branch |
| BranchList.ToggleNameTwice | crates/gwt-cli/src/tui/screens/branch_list.rs:424-433 | toggling the same branch twice restores the multi-selection |
| BranchList.VisibleOffset | crates/gwt-cli/src/tui/screens/branch_list.rs:484-491 | after scrolling the selected row lies in the fifteen-row window, and an already visible row does not scroll |
| BranchList.BranchListState.constructor | crates/gwt-cli/src/tui/screens/branch_list.rs:244-266 | a new list is empty, in All mode, at the top, with nothing selected or loading |
| BranchList.BranchListState.WithBranches | crates/gwt-cli/src/tui/screens/branch_list.rs:268-279 | the branches are stored and the four statistics count local, remote or tracked, worktree and changed branches |
| BranchList.BranchListState.CycleViewMode | crates/gwt-cli/src/tui/screens/branch_list.rs:383-387 | the next view mode, with the selection and the scroll back at the top |
| BranchList.BranchListState.ToggleFilterMode | crates/gwt-cli/src/tui/screens/branch_list.rs:390-392 | filter mode flips |
| BranchList.BranchListState.EnterFilterMode | crates/gwt-cli/src/tui/screens/branch_list.rs:395-397 | filter mode is on |
| BranchList.BranchListState.ExitFilterMode | crates/gwt-cli/src/tui/screens/branch_list.rs:400-402 | filter mode is off |
| BranchList.BranchListState.ClearFilter | crates/gwt-cli/src/tui/screens/branch_list.rs:405-409 | the filter is empty and the list is back at the top |
| BranchList.BranchListState.FilterPush | crates/gwt-cli/src/tui/screens/branch_list.rs:412-416 | the character is appended and the list is back at the top |
| BranchList.BranchListState.FilterPop | crates/gwt-cli/src/tui/screens/branch_list.rs:419-421 | the last character is dropped, an empty filter stays empty |
| BranchList.BranchListState.SelectedBranch | crates/gwt-cli/src/tui/screens/branch_list.rs:494-497 | the selected branch exists iff the selection is inside the listed branches, and is the listed branch at that row |
| BranchList.BranchListState.ToggleSelection | crates/gwt-cli/src/tui/screens/branch_list.rs:424-433 | the multi-selection toggles the selected branch's name |
| BranchList.BranchListState.EnsureVisible | crates/gwt-cli/src/tui/screens/branch_list.rs:484-491 | the selected row is inside the fifteen-row window afterwards, whatever the state before |
| BranchList.BranchListState.SelectPrev | crates/gwt-cli/src/tui/screens/branch_list.rs:436-442 | one row up when the list is non-empty and a row is above, then scrolled into view; otherwise nothing changes |
| BranchList.BranchListState.SelectNext | crates/gwt-cli/src/tui/screens/branch_list.rs:445-451 | one row down only when a row is below, then scrolled into view |
| BranchList.BranchListState.PageUp | crates/gwt-cli/src/tui/screens/branch_list.rs:454-457 | the selection moves up a page, stopping at the top, and is scrolled into view |
| BranchList.BranchListState.PageDown | crates/gwt-cli/src/tui/screens/branch_list.rs:460-466 | the selection moves down a page, clamped to the last listed branch; an empty list changes nothing |
| BranchList.BranchListState.GoHome | crates/gwt-cli/src/tui/screens/branch_list.rs:469-472 | the first row, scrolled to the top |
| BranchList.BranchListState.GoEnd | crates/gwt-cli/src/tui/screens/branch_list.rs:475-481 | the last listed branch, scrolled into view |
| BranchList.BranchListState.SetFilter | crates/gwt-cli/src/tui/screens/branch_list.rs:500-504 | the new filter, with the list back at the top |
| BranchList.BranchListState.TickSpinner | crates/gwt-cli/src/tui/screens/branch_list.rs:534-536 | the spinner advances through its four frames modulo four |
| BranchList.BranchListState.SpinnerChar | crates/gwt-cli/src/tui/screens/branch_list.rs:539-541 | the shown character is one of the spinner frames |
| BranchList.BranchListState.SetLoading | crates/gwt-cli/src/tui/screens/branch_list.rs:524-531 | the loading flag is set as asked |
| BranchList.GetBranchNameType | crates/gwt-cli/src/tui/screens/branch_list.rs:43-61 | feature, bugfix, hotfix and release types are given only to names holding the matching "<type>/" marker, in any case |
| BranchList.BranchCmp | crates/gwt-cli/src/tui/screens/branch_list.rs:317-378 | the current branch sorts before every branch that is not current |
| Cleanup.ComputeSafetyLevel | crates/gwt-tauri/src/commands/cleanup.rs:71-87 | Disabled iff protected, current or agent-running; otherwise Safe with no flags, Warning with exactly one of changes/unpushed, Danger with both |
| Cleanup.SafetyMonotone | crates/gwt-tauri/src/commands/cleanup.rs:71-87 | in the order Safe < Warning < Danger < Disabled, setting any flag never lowers the level |
| Cleanup.Infos | crates/gwt-tauri/src/commands/cleanup.rs:124-164 | worktrees without a branch are dropped; every row's level matches its flags, protection is the manager's rule, current/agent flags come from the inputs |
| Cleanup.BranchedWorktreeListed | crates/gwt-tauri/src/commands/cleanup.rs:124-164 | every worktree with a branch gets a row with its path and branch |
| Cleanup.ListWorktrees | crates/gwt-tauri/src/commands/cleanup.rs:166-169 | the rows are a permutation of the computed rows, sorted by safety level |
| Cleanup.ProtectedIsDisabled | crates/gwt-tauri/src/commands/cleanup.rs:131 | a listed worktree on a protected branch is Disabled |
| Cleanup.InfoLePreorder | crates/gwt-tauri/src/commands/cleanup.rs:167 | the order used to sort worktree infos is total and transitive |
| CliMain.AllKinds | crates/gwt-cli/src/main.rs:424-433 | the six stages, each exactly once, each at its running-order position |
| CliMain.MessagesDistinct | crates/gwt-cli/src/main.rs:412-421 | two stages share a message only if they are the same stage |
| CliMain.ProgressStep.Start | crates/gwt-cli/src/main.rs:473-476 | the step runs from `now`, nothing else changes |
| CliMain.ProgressStep.Complete | crates/gwt-cli/src/main.rs:479-481 | the step is completed, nothing else changes |
| CliMain.ProgressStep.Fail | crates/gwt-cli/src/main.rs:484-487 | the step fails with the message, kind and start kept |
| CliMain.ProgressStep.Skip | crates/gwt-cli/src/main.rs:490-492 | the step is skipped, nothing else changes |
| CliMain.NewStep | crates/gwt-cli/src/main.rs:464-471 | a new step is pending, unstarted and without error |
| CliMain.MarkersDistinct | crates/gwt-cli/src/main.rs:495-503 | the marker determines the status; a new step shows "[ ]" and no elapsed time |
| CliMain.ElapsedShownAfterThreeSeconds | crates/gwt-cli/src/main.rs:506-513 | a started step shows its elapsed time exactly from three seconds after its start |
| CliMain.HookEventCaseInsensitive | crates/gwt-cli/src/main.rs:171-197 | the event name's letter case does not change the status |
| CliMain.HookEventClassification | crates/gwt-cli/src/main.rs:171-197 | WaitingInput exactly for a permission_prompt notification; Stopped exactly for stop, subagentstop, sessionend; Running otherwise |
| CliMain.IsFastExit | crates/gwt-cli/src/main.rs:265-266 | an exit is fast exactly when it took under 2000 ms |
| CliMain.NormalizeSlashes | crates/gwt-cli/src/main.rs:1066-1069 | every backslash becomes a slash, every other character stays |
| CliMain.SelectRunnerExecutable | crates/gwt-cli/src/main.rs:1051-1064 | a non-shim bunx wins, then npx, then a shim bunx; none only when neither was found |
| CliMain.ShimFallsBack | crates/gwt-cli/src/main.rs:1051-1064 | a project shim gives way to npx, but is used when npx is missing |
| CliMain.NamedComponents | crates/gwt-cli/src/main.rs:1080-1091 | the path components kept are non-empty, not ".", and come from the path |
| CliMain.FileName | crates/gwt-cli/src/main.rs:1080-1091 | a file name is a non-empty slash-free component other than "." and ".." |
| CliMain.BuildRunnerArgs | crates/gwt-cli/src/main.rs:1071-1078 | the package spec comes last, preceded by "--yes" exactly when the runner is npx |
| CliMain.FileNameAfterDir | crates/gwt-cli/src/main.rs:1080-1091 | a plain name after a directory and a slash is the path's file name |
| CliMain.RunnerArgsByName | crates/gwt-cli/src/main.rs:1071-1091 | "--yes" is added exactly when the runner's file name, in any letter case, is npx, npx.cmd or npx.exe |
| CliMain.NpxGetsYes | crates/gwt-cli/src/main.rs:1071-1091 | npx in any directory gets "--yes" before the package |
| CliMain.NpxCmdAnyCaseGetsYes | crates/gwt-cli/src/main.rs:1080-1091 | NPX.cmd counts as npx.cmd |
| CliMain.LowerNpxCmd | crates/gwt-cli/src/main.rs:1085 | lower-casing NPX.cmd gives npx.cmd |
| CliMain.BunxGetsNoYes | crates/gwt-cli/src/main.rs:1071-1091 | bunx in any directory gets the package spec alone |
| CliMain.ClassifyExit | crates/gwt-cli/src/main.rs:1870-1886 | success iff code 0 without a signal; interrupted iff otherwise signal 2/15 or code 130/143; any other exit is a failure keeping code and signal |
| CliMain.ExitFailures | crates/gwt-cli/src/main.rs:1870-1886 | a zero code with a non-interrupting signal, a plain non-zero code, and no code at all are failures |
| CliMain.ModelArgs | crates/gwt-cli/src/main.rs:1697-1703 | the flag and model are added exactly for a non-empty model |
| CliMain.ResolveCodexFlagVersion | crates/gwt-cli/src/main.rs:1852-1858 | "installed" uses the installed version, "latest" none, anything else itself |
| CliMain.ClaudeArgsShape | crates/gwt-cli/src/main.rs:1696-1725 | with a session id a non-Normal launch passes "--resume <id>" right after the model; skip-permissions is appended last and changes nothing else |
| CliMain.GeminiArgsShape | crates/gwt-cli/src/main.rs:1764-1788 | "-y" is appended last when skipping; a non-Normal launch passes "-r" with the session id or "latest" |
| CliMain.OpenCodeIgnoresSkip | crates/gwt-cli/src/main.rs:1790-1810 | OpenCode's arguments do not depend on skip-permissions |
| CliMain.CodexDefaultsHead | crates/gwt-cli/src/main.rs:1746-1752 | the Codex default arguments start with "--enable" |
| CliMain.CodexSandboxUnlessSkipping | crates/gwt-cli/src/main.rs:1739-1757 | without a skip the sandbox argument is present |
| CliMain.CustomAgentArgsShape | crates/gwt-cli/src/main.rs:1820-1850 | a custom agent's arguments ignore the built-in kind and the model; skipping appends its permission-skip arguments; without mode arguments and skip they are its defaults |
| CliMain.HookEventToStatus | crates/gwt-cli/src/main.rs:171-197 | a hook event never yields the Unknown status |
| CliMain.RunnerRequiresYes | crates/gwt-cli/src/main.rs:1080-1091 | "--yes" is needed only for a path with a file name of three to seven characters (npx, npx.cmd, npx.exe in any case) |
| CliMain.ClaudeArgs | crates/gwt-cli/src/main.rs:1696-1725 | the model arguments come first; skipping permissions puts its flag last; a Normal launch without skipping passes only the model |
| CliMain.CodexArgs | crates/gwt-cli/src/main.rs:1726-1757 | the resume subcommand comes first exactly for a non-Normal launch; a requested skip puts the version's skip flag last |
| CliMain.GeminiArgs | crates/gwt-cli/src/main.rs:1764-1788 | the model arguments come first; "-y" is last when skipping; a Normal launch without skipping passes only the model |
| CliMain.OpenCodeArgs | crates/gwt-cli/src/main.rs:1790-1810 | the model arguments, then at most two mode arguments; a Normal launch passes only the model |
| CliMain.CustomAgentArgs | crates/gwt-cli/src/main.rs:1820-1850 | the agent's default arguments lead; skipping ends with its permission-skip arguments; without mode arguments or skipping only the defaults are passed |
| CliMain.BuildAgentArgs | crates/gwt-cli/src/main.rs:1688-1692 | a custom agent's defaults lead its arguments; a built-in agent other than OpenCode ends with one of the skip flags when skipping |
| CloneWizard.CloneTypeAt | crates/gwt-cli/src/tui/screens/clone_wizard.rs:155-173 | index 0 selects the bare clone and any other index the shallow one |
| CloneWizard.LabelsDistinguish | crates/gwt-cli/src/tui/screens/clone_wizard.rs:40-54 | the labels, and the descriptions, of the two clone types differ |
| CloneWizard.CloneWizardState.constructor | crates/gwt-cli/src/tui/screens/clone_wizard.rs:91-103 | URL step, empty URL, shallow clone preselected at index 1, no receiver |
| CloneWizard.CloneWizardState.Reset | crates/gwt-cli/src/tui/screens/clone_wizard.rs:106-108 | returns to the initial state |
| CloneWizard.CloneWizardState.HandleChar | crates/gwt-cli/src/tui/screens/clone_wizard.rs:111-116 | appends to the URL only on the URL step |
| CloneWizard.CloneWizardState.HandleBackspace | crates/gwt-cli/src/tui/screens/clone_wizard.rs:118-123 | drops the URL's last character only on the URL step |
| CloneWizard.CloneWizardState.Next | crates/gwt-cli/src/tui/screens/clone_wizard.rs:126-138 | the URL step advances to the type choice only with a non-empty URL; the type choice starts the clone |
| CloneWizard.CloneWizardState.StartClone | crates/gwt-cli/src/tui/screens/clone_wizard.rs:176-181 | enters Cloning with the progress message and a held receiver |
| CloneWizard.CloneWizardState.Prev | crates/gwt-cli/src/tui/screens/clone_wizard.rs:141-152 | type choice and Failed return to the URL step; leaving Failed clears the error |
| CloneWizard.CloneWizardState.Up | crates/gwt-cli/src/tui/screens/clone_wizard.rs:155-163 | moves the type index up within {0, 1} on the type step, keeping the type in step with the index |
| CloneWizard.CloneWizardState.Down | crates/gwt-cli/src/tui/screens/clone_wizard.rs:165-173 | moves the type index down within {0, 1} on the type step, keeping the type in step with the index |
| CloneWizard.CloneWizardState.PollClone | crates/gwt-cli/src/tui/screens/clone_wizard.rs:205-232 | a success completes with the path, an error or a dropped sender fails with its message, nothing yet changes nothing; reports whether it changed |
| CloneWizard.TypeAndStart | crates/gwt-cli/src/tui/screens/clone_wizard.rs:111-138 | typing a character and pressing next twice from the URL step starts cloning with the URL extended |
| Codex.TrimLeadingV | crates/gwt-core/src/agent/codex.rs:91 | trim_start_matches('v') removes exactly the leading run of 'v's and leaves a suffix |
| Codex.TrimTrailingNonVersion | crates/gwt-core/src/agent/codex.rs:96-98 | the cleaned token is the longest prefix ending in an ASCII alphanumeric, '.' or '-' |
| Codex.VersionCandidate | crates/gwt-core/src/agent/codex.rs:91-103 | a token contributes only when, after dropping leading 'v's, it starts with a digit; its cleaned form is non-empty |
| Codex.FirstCandidateIndex | crates/gwt-core/src/agent/codex.rs:90-104 | the scan stops at the first token that has a candidate; every earlier token has none |
| Codex.NormalizeVersion | crates/gwt-core/src/agent/codex.rs:85-106 | a missing or blank value gives None; a result always starts with a digit |
| Codex.ParseVersion | crates/gwt-core/src/agent/codex.rs:108-130 | the components parsed from the version text all fit in u64 |
| Codex.CoreVersion | crates/gwt-core/src/agent/codex.rs:113-129 | a version needs 2 or 3 components and keeps the text after the first '-' as prerelease |
| Codex.DottedDigitsNormalize | crates/gwt-core/src/agent/codex.rs:85-106 | a digits-and-dots token that starts and ends with a digit normalises to itself |
| Codex.DottedNumbers | crates/gwt-core/src/agent/codex.rs:110-113 | a dotted digit string has no prerelease and its first component splits off at the first '.' |
| Codex.ParseDotted | crates/gwt-core/src/agent/codex.rs:108-130 | digits-and-dots text is read component by component with no prerelease |
| Codex.ParseThreeDigitRuns | crates/gwt-core/src/agent/codex.rs:113-129 | three digit runs joined by dots are read as three components |
| Codex.ParseThreeComponents | crates/gwt-core/src/agent/codex.rs:108-130 | "a.b.c" parses to a.b.c with no prerelease |
| Codex.ParseTwoDigitRuns | crates/gwt-core/src/agent/codex.rs:113-129 | two digit runs joined by a dot are read as two components |
| Codex.ParseTwoComponents | crates/gwt-core/src/agent/codex.rs:119-123 | "a.b" parses to a.b.0: a missing patch is 0 |
| Codex.SingleComponentRejected | crates/gwt-core/src/agent/codex.rs:114-116 | a bare number has one component and is not a version |
| Codex.ThresholdParses | crates/gwt-core/src/agent/codex.rs:16-17 | both deprecation constants parse to 0.80.0 |
| Codex.CompareVersionsReverse | crates/gwt-core/src/agent/codex.rs:132-148 | swapping the arguments reverses the ordering, and only equal versions compare Equal |
| Codex.CompareVersionsTransitive | crates/gwt-core/src/agent/codex.rs:132-148 | Less is transitive, so the comparison is a total order |
| Codex.CompareVersionsByCore | crates/gwt-core/src/agent/codex.rs:133-144 | different cores compare lexicographically by major, minor, patch; with the same core a prerelease sorts below the release |
| Codex.SkipPermissionsFlag | crates/gwt-core/src/agent/codex.rs:159-172 | the flag is always "--yolo" or the long dangerous-bypass flag |
| Codex.SkipFlagRule | crates/gwt-core/src/agent/codex.rs:150-172 | "--yolo", and the skills flag, exactly when the version parses and is below 0.80.0 |
| Codex.ModelFlagIndex | crates/gwt-core/src/agent/codex.rs:184-187 | the position of the first argument starting with "--model=", or the length when none does |
| Codex.SkillsFlagPlacement | crates/gwt-core/src/agent/codex.rs:174-193 | disabled or already present: unchanged; otherwise "--enable skills" is spliced in just before the first model flag (or at the end) and removing it gives the arguments back |
| Codex.SkillsFlagIdempotent | crates/gwt-core/src/agent/codex.rs:174-193 | adding the flag twice is the same as adding it once |
| Codex.SkillsFlagMembers | crates/gwt-core/src/agent/codex.rs:188-191 | apart from "--enable" and "skills", the splice adds and loses no argument |
| Codex.OverrideOr | crates/gwt-core/src/agent/codex.rs:201-208 | a missing or blank override gives the default, otherwise the trimmed override |
| Codex.BaseArgsMembers | crates/gwt-core/src/agent/codex.rs:210-242 | every base argument is a fixed one, the model flag, the reasoning setting, or a sandbox argument present only without bypass |
| Codex.BypassOmitsSandbox | crates/gwt-core/src/agent/codex.rs:216-233 | "--sandbox" and the network-access setting appear exactly when the sandbox is not bypassed |
| Codex.ModelAndReasoningPresent | crates/gwt-core/src/agent/codex.rs:210-226 | the model flag and the reasoning-effort setting are always present |
| Codex.SkillsPresentIffEnabled | crates/gwt-core/src/agent/codex.rs:244-245 | the skills flag is in the result exactly when it was asked for |
| Codex.DefaultArgsFacts | crates/gwt-core/src/agent/codex.rs:195-247 | a blank override falls back to gpt-5.1-codex / high; the sandbox arguments appear iff not bypassed; the skills flag appears iff the version is below 0.80.0 |
| Codex.CompareVersions | crates/gwt-core/src/agent/codex.rs:132-148 | equal versions compare Equal, a smaller major is Less, and a pre-release sorts before the release with the same numbers |
| Codex.WithSkillsFlag | crates/gwt-core/src/agent/codex.rs:174-193 | the arguments are unchanged when the flag is off or already present; otherwise "--enable skills" is added once and the flag is then present |
| Codex.DefaultArgs | crates/gwt-core/src/agent/codex.rs:195-247 | the default arguments start with "--enable web_search_request" |
| Common.TrimEndChar | crates/gwt-tauri/src/commands/version_history.rs:615-618 | trim_end_matches on one character: a prefix that no longer ends in the character, only that character removed, and text not ending in it unchanged |
| Common.SplitLast | crates/gwt-cli/src/main.rs:1080-1091 | splitting on '/' ends with the part after the last slash |
| Common.InsertAt | rust/crates/gwt-cli/src/tui/screens/wizard.rs:531-536 | the typed character lands at the cursor, the text around it is kept and the cursor moves past it |
| Common.DeleteBefore | rust/crates/gwt-cli/src/tui/screens/wizard.rs:539-545 | backspace removes the character before the cursor and moves the cursor back; at the start nothing changes |
| Common.DeleteUndoesInsert | rust/crates/gwt-cli/src/tui/screens/wizard.rs:531-545 | backspace right after typing restores the name and the cursor |
| Common.Escape | crates/gwt-core/src/tmux/launcher.rs:128 | the escaped value is never shorter than the value |
| Common.EscapeAppend | crates/gwt-core/src/tmux/launcher.rs:128 | escaping works piece by piece: escaping a concatenation concatenates the escaped pieces |
| Common.EscapeNoQuote | crates/gwt-core/src/tmux/launcher.rs:128 | a value without single quotes is left unchanged |
| Common.EscapeQuoteFirst | crates/gwt-core/src/tmux/launcher.rs:128 | a leading single quote becomes '\'' |
| Common.QuotedSplit | crates/gwt-core/src/tmux/launcher.rs:126-129 | a quoted value splits at its first quote into a closed run, an escaped quote and the rest quoted again |
| Common.ReadQuotedRun | crates/gwt-core/src/tmux/launcher.rs:126-129 | the shell reads a single-quoted run without quotes as it stands |
| Common.ReadEscaped | crates/gwt-core/src/tmux/launcher.rs:126-129 | the shell reads a backslash-escaped character as itself |
| Common.QuotedPlain | crates/gwt-core/src/tmux/launcher.rs:126-129 | a value without quotes is read back unchanged from its quoted form |
| Common.QuotedRoundTrip | crates/gwt-core/src/tmux/launcher.rs:126-129 | the shell reads every quoted value back exactly as it was, whatever quotes it holds; the tmux launcher's exports and the TUI's shell_escape (app.rs:4513-4516) both quote this way |
| Common.BlankIffAllSpace | crates/gwt-core/src/ai/summary.rs:286-288 | a string trims to empty iff every character is whitespace |
| Common.Lines | crates/gwt-core/src/ai/summary.rs:284 | no line holds a newline and empty text has no lines; LinesCarriageReturn shows that a final line keeps a lone carriage return while CRLF endings are dropped whole |
| Common.LinesCarriageReturn | crates/gwt-core/src/ai/summary.rs:284 | "a\r" is one line "a\r", "a\r\n" is "a", and "a\r\nb\r" is "a" then "b\r": only a CR before LF is removed |
| Common.ToLowerIdempotent | crates/gwt-core/src/agent/orchestrator.rs:920 | lower-casing twice is lower-casing once, so an already lowered name is unchanged |
| Common.TrimStartMatches | crates/gwt-core/src/ai/summary.rs:190 | a suffix of the text that no longer starts with the pattern |
| Common.Quoted | crates/gwt-cli/src/tui/app.rs:4513-4516 | the quoted value opens and closes with a single quote |
| ConfigSession.AttentionExcludesActive | crates/gwt-core/src/config/session.rs:24-34 | needs_attention (WaitingInput or Stopped) and is_active (Running) never both hold, and Unknown satisfies neither |
| ConfigSession.Session.constructor | crates/gwt-core/src/config/session.rs:76-93 | a new session has no agent data, Unknown status, no activity and both timestamps at creation time |
| ConfigSession.IdleAfterUpdate | crates/gwt-core/src/config/session.rs:95-110 | a session not yet stopped whose last activity was at t is due to stop at a later time iff more than 60 s have passed |
| ConfigSession.Session.UpdateStatus | crates/gwt-core/src/config/session.rs:112-117 | sets the status and stamps activity and update time; the session is then not due to stop |
| ConfigSession.Session.CheckIdleTimeout | crates/gwt-core/src/config/session.rs:119-128 | sets Stopped exactly when should_mark_stopped held, returns that, and leaves nothing more to stop |
| ConfigSession.ShortToolLabel | crates/gwt-core/src/config/session.rs:201-232 | a tool recognised in the lower-cased id (claude, codex, gemini, opencode/open-code, in that order) wins; else one recognised in the label; else the label itself |
| ConfigSession.ShortNameFixed | crates/gwt-core/src/config/session.rs:201-232 | each short name is recognised as itself |
| ConfigSession.ShortToolLabelIdempotent | crates/gwt-core/src/config/session.rs:201-232 | shortening an already shortened label changes nothing |
| ConfigSession.FormatToolUsageOf | crates/gwt-core/src/config/session.rs:130-137 | None iff there is neither a label nor an agent id; otherwise the short label of the label (or id), "@", and the version or "latest" |
| ConfigSession.UsageEndsWithVersion | crates/gwt-core/src/config/session.rs:135-136 | the usage string ends with "@" and the version, "latest" when unknown |
| ConfigSession.KnownShortName | crates/gwt-core/src/config/session.rs:201-232 | a recognised short name is one of Claude, Codex, Gemini, OpenCode |
| ConfigSession.ClaudeFixed | crates/gwt-core/src/config/session.rs:201-232 | "Claude" maps to itself |
| ConfigSession.CodexFixed | crates/gwt-core/src/config/session.rs:201-232 | "Codex" maps to itself |
| ConfigSession.GeminiFixed | crates/gwt-core/src/config/session.rs:201-232 | "Gemini" maps to itself |
| ConfigSession.OpenCodeFixed | crates/gwt-core/src/config/session.rs:201-232 | "OpenCode" maps to itself |
| ConfigTools.BadIdCharRejects | crates/gwt-core/src/config/tools.rs:216-252 | an id holding any character other than a letter, digit or hyphen makes the agent invalid |
| ConfigTools.IndexOfId | crates/gwt-core/src/config/tools.rs:343-346 | the first agent with the id, none exactly when no agent has it |
| ConfigTools.Without | crates/gwt-core/src/config/tools.rs:336-340 | retain keeps exactly the agents with another id, and shrinks the list exactly when one had the id |
| ConfigTools.WithoutKeepsUnique | crates/gwt-core/src/config/tools.rs:336-340 | removal keeps ids distinct and leaves no agent with the removed id |
| ConfigTools.MergeInto | crates/gwt-core/src/config/tools.rs:188-213 | inserting a file's valid agents keeps every entry valid and stored under its own id |
| ConfigTools.LastValid | crates/gwt-core/src/config/tools.rs:188-213 | the last valid agent of a file with an id, absent only when none of its agents with that id is valid |
| ConfigTools.MergeIntoLookup | crates/gwt-core/src/config/tools.rs:188-213 | after one file's loop an id maps to the file's last valid definition, or keeps its earlier entry |
| ConfigTools.SecondWins | crates/gwt-core/src/config/tools.rs:178-213 | the local file takes priority for the same id; ids without a valid definition in either file are dropped |
| ConfigTools.ToolsConfig.Empty | crates/gwt-core/src/config/tools.rs:92-98 | the empty configuration has version 1.0.0 and no agents |
| ConfigTools.ToolsConfig.AddAgent | crates/gwt-core/src/config/tools.rs:293-310 | a valid agent with a new id is appended and reported; otherwise nothing changes; ids stay distinct |
| ConfigTools.ToolsConfig.UpdateAgent | crates/gwt-core/src/config/tools.rs:313-333 | a valid agent replaces the first one with its id; an invalid agent or unknown id changes nothing and reports false |
| ConfigTools.ToolsConfig.RemoveAgent | crates/gwt-core/src/config/tools.rs:336-340 | every agent with the id is removed, the result is true exactly when one was there |
| ConfigTools.ToolsConfig.GetAgent | crates/gwt-core/src/config/tools.rs:343-346 | the agent found carries the id; none exactly when no agent has it |
| ConfigTools.Load | crates/gwt-core/src/config/tools.rs:123-177 | a parsed file with an empty version is skipped, any other is loaded as parsed |
| ConfigTools.Merge | crates/gwt-core/src/config/tools.rs:188-213 | the merged configuration has version 1.0.0, distinct ids, and exactly the values of the id-keyed merge |
| ConfigTools.InsertValid | crates/gwt-core/src/config/tools.rs:192-208 | one insertion loop of merge computes the file's merge into the map |
| ConfigTools.CollectValues | crates/gwt-core/src/config/tools.rs:210-212 | collecting the map's values yields each entry exactly once, with distinct ids |
| ConfigTools.AddThenGet | crates/gwt-core/src/config/tools.rs:293-346 | after adding a valid agent with a new id, get_agent finds exactly that agent |
| ConfigTools.ToolsConfig.constructor | crates/gwt-core/src/config/tools.rs:83-89 | a configuration with the given version and agents |
| ConfigTools.Merged | crates/gwt-core/src/config/tools.rs:188-213 | the merged map holds only valid agents, each under its own id |
| ConfigTools.ValidateAgent | crates/gwt-core/src/config/tools.rs:216-252 | a valid agent has a non-empty id without spaces or slashes |
| ConfigTsSession.FormatToolUsage | crates/gwt-core/src/config/ts_session.rs:37-44 | the short label of the tool id (falling back to the label), "@", and the version, ending in "@latest" when unknown |
| ConfigTsSession.SaveSessionEntry | crates/gwt-core/src/config/ts_session.rs:140-175 | the loaded data or a fresh record gets every last-used field from the entry and the entry appended to its history |
| ConfigTsSession.LatestKeys | crates/gwt-core/src/config/ts_session.rs:207-213 | the reduction keeps exactly the keys occurring in the history, each with an entry of that key |
| ConfigTsSession.LatestMax | crates/gwt-core/src/config/ts_session.rs:207-213 | the kept entry is at least as new as every entry of its key |
| ConfigTsSession.LatestFirst | crates/gwt-core/src/config/ts_session.rs:207-213 | the kept entry is from the history and every earlier entry of its key is strictly older, so ties keep the earlier entry |
| ConfigTsSession.GetLastToolUsageMap | crates/gwt-core/src/config/ts_session.rs:195-241 | the loop computes the latest entry per branch, or the entry rebuilt from the last-used fields |
| ConfigTsSession.FallbackOnlyWithoutHistory | crates/gwt-core/src/config/ts_session.rs:215-238 | with any history the map is the reduction; without history it is empty iff last_branch or last_worktree_path is missing |
| ConfigTsSession.SavedEntryIsLatest | crates/gwt-core/src/config/ts_session.rs:207-213 | a saved entry newer than every earlier entry on its branch is that branch's last usage afterwards |
| ConfigTsSession.OnBranch | crates/gwt-core/src/config/ts_session.rs:256-257 | keeps exactly the history entries of the branch |
| ConfigTsSession.LatestPerTool | crates/gwt-core/src/config/ts_session.rs:254-263 | the loop computes the latest entry per tool among the branch's entries |
| ConfigTsSession.GetBranchToolHistory | crates/gwt-core/src/config/ts_session.rs:246-270 | one entry per tool used on the branch, each the latest for its tool, ordered by timestamp descending |
| ConfigTsSession.MapValues | crates/gwt-core/src/config/ts_session.rs:266 | each map value once, in unspecified order |
| ConfigTsSession.LatestPerToolStep | crates/gwt-core/src/config/ts_session.rs:254-263 | an entry on the branch replaces its tool's entry when it is newer; entries for other branches change nothing |
| Confirm.UnsafeReasons | crates/gwt-cli/src/tui/screens/confirm.rs:66-92 | one reason per raised flag, each listed iff its flag is set, uncommitted first |
| Confirm.CleanupDetailsName | crates/gwt-cli/src/tui/screens/confirm.rs:53-63 | the cleanup dialog's i-th detail is the bullet followed by the i-th branch, one line per branch |
| Confirm.ConfirmState.Delete | crates/gwt-cli/src/tui/screens/confirm.rs:40-50 | the delete dialog names the item, is dangerous and opens on Cancel |
| Confirm.ConfirmState.Cleanup | crates/gwt-cli/src/tui/screens/confirm.rs:53-63 | the message carries the branch count, one detail per branch, dangerous, opens on Cancel |
| Confirm.ConfirmState.UnsafeSelectionWarning | crates/gwt-cli/src/tui/screens/confirm.rs:66-92 | details are the reasons for the raised flags; dangerous, opens on Cancel |
| Confirm.ConfirmState.ExitWithRunningAgents | crates/gwt-cli/src/tui/screens/confirm.rs:95-111 | the message carries the agent count; dangerous, opens on Cancel |
| Confirm.ConfirmState.TerminateAgent | crates/gwt-cli/src/tui/screens/confirm.rs:114-127 | names agent and branch; dangerous, opens on Cancel |
| Confirm.ConfirmState.ForceKillAgent | crates/gwt-cli/src/tui/screens/confirm.rs:130-146 | names agent and branch; dangerous, opens on Cancel |
| Confirm.ConfirmState.DuplicateAgentWarning | crates/gwt-cli/src/tui/screens/confirm.rs:149-162 | not dangerous, still opens on Cancel |
| Confirm.ConfirmState.HookSetup | crates/gwt-cli/src/tui/screens/confirm.rs:165-178 | the only dialog that opens on Confirm, with a Skip cancel button |
| Confirm.ConfirmState.ToggleSelection | crates/gwt-cli/src/tui/screens/confirm.rs:181-183 | flips the selected button and changes nothing else |
| Confirm.ConfirmState.SelectConfirm | crates/gwt-cli/src/tui/screens/confirm.rs:186-188 | selects Confirm, so the dialog reports confirmed |
| Confirm.ConfirmState.SelectCancel | crates/gwt-cli/src/tui/screens/confirm.rs:191-193 | selects Cancel, so the dialog reports not confirmed |
| Confirm.ToggleTwice | crates/gwt-cli/src/tui/screens/confirm.rs:181-198 | toggling is an involution and is_confirmed follows the selection |
| Confirm.ConfirmState.constructor | crates/gwt-cli/src/tui/screens/confirm.rs:27-37 | the default dialog: "Confirm" title, cancel preselected, not dangerous |
| Confirm.CleanupDetails | crates/gwt-cli/src/tui/screens/confirm.rs:53-63 | one bulleted line per branch |
| DevContainer.StringOrArray.ToVec | crates/gwt-core/src/docker/devcontainer.rs:76-81 | a single string becomes a one-element list; an array is returned as it is |
| DevContainer.StringOrArray.Display | crates/gwt-core/src/docker/devcontainer.rs:84-91 | a single string displays as itself; an array as its items separated by single spaces |
| DevContainer.DevContainerConfig.UsesDockerfile | crates/gwt-core/src/docker/devcontainer.rs:143-151 | holds iff a Dockerfile is named at the top level or in the build section |
| DevContainer.DevContainerConfig.UsesImage | crates/gwt-core/src/docker/devcontainer.rs:153-156 | holds iff an image is set and no Dockerfile is named, so it excludes UsesDockerfile |
| DevContainer.DevContainerConfig.GetComposeFiles | crates/gwt-core/src/docker/devcontainer.rs:158-164 | no compose entry gives no files; otherwise the entry as a list |
| DevContainer.DevContainerConfig.GetDockerfile | crates/gwt-core/src/docker/devcontainer.rs:166-171 | the top-level Dockerfile wins over build.dockerfile; a result exists iff UsesDockerfile |
| DevContainer.DevContainerConfig.GetForwardPorts | crates/gwt-core/src/docker/devcontainer.rs:196-199 | the configured ports, or none |
| DevContainer.DevContainerConfig.ToComposeArgs | crates/gwt-core/src/docker/devcontainer.rs:173-189 | two arguments per compose file, in order: "-f" and the file joined to the directory |
| DevContainer.JoinPath | crates/gwt-core/src/docker/devcontainer.rs:181 | an absolute file path replaces the directory; the result always ends with the file path |
| DevContainer.LineCommentLength | crates/gwt-core/src/docker/devcontainer.rs:236-243 | a line comment spans the chars before the next newline, which it does not include |
| DevContainer.BlockCommentLength | crates/gwt-core/src/docker/devcontainer.rs:245-255 | a block comment ends right after its first closing star-slash, or runs to the end of the text |
| DevContainer.Strip | crates/gwt-core/src/docker/devcontainer.rs:203-265 | removing comments never lengthens the text |
| DevContainer.RemoveJsonComments | crates/gwt-core/src/docker/devcontainer.rs:203-265 | the single pass with its in-string and escape flags computes Strip of the whole input |
| DevContainer.SkipLineComment | crates/gwt-core/src/docker/devcontainer.rs:236-243 | stops on the newline after a line comment, or at the end |
| DevContainer.SkipBlockComment | crates/gwt-core/src/docker/devcontainer.rs:245-255 | stops right after the closing star-slash of a block comment, or at the end |
| DevContainer.NoSlashUnchanged | crates/gwt-core/src/docker/devcontainer.rs:203-265 | text containing no '/' is returned unchanged, whatever the starting state |
| DevContainer.StringBodyKept | crates/gwt-core/src/docker/devcontainer.rs:216-231 | inside a string literal, text without quotes or backslashes is copied unchanged, slashes included |
| DevContainer.StringLiteralKept | crates/gwt-core/src/docker/devcontainer.rs:216-231 | a quoted literal such as "http://example.com/path" passes through untouched |
| DevContainer.LineCommentRemoved | crates/gwt-core/src/docker/devcontainer.rs:233-243 | "//comment\n rest" becomes "\n" followed by the stripped rest |
| DevContainer.BlockCommentRemoved | crates/gwt-core/src/docker/devcontainer.rs:244-258 | a block comment whose body has no star-slash disappears entirely |
| DevContainer.CharStep | crates/gwt-core/src/docker/devcontainer.rs:209-231 | a character that does not start a comment is copied, with the string and escape flags updated |
| DevContainer.LineCommentStep | crates/gwt-core/src/docker/devcontainer.rs:233-243 | skipping a // comment up to its newline leaves the rest of the output unchanged |
| DevContainer.BlockCommentStep | crates/gwt-core/src/docker/devcontainer.rs:244-258 | skipping a /* */ comment leaves the rest of the output unchanged |
| DevContainer.ComposeFileArgs | crates/gwt-core/src/docker/devcontainer.rs:178-184 | two arguments per compose file: "-f" and the file joined to the directory, in order |
| DevContainer.ComposeArgsCons | crates/gwt-core/src/docker/devcontainer.rs:178-184 | the "-f" pair for the first file followed by the pairs of the rest gives the pairs of all files |
| DevContainer.QuoteStep | crates/gwt-core/src/docker/devcontainer.rs:216-231 | an unescaped quote is copied and flips the in-string flag |
| DockerManager.Sanitize | crates/gwt-core/src/docker/manager.rs:339-348 | each char is kept lower-cased when ASCII alphanumeric, '-' or '_', else becomes '-'; length is preserved |
| DockerManager.TrimHyphens | crates/gwt-core/src/docker/manager.rs:351 | the result neither starts nor ends with '-' and holds only chars of the input |
| DockerManager.CollapseFrom | crates/gwt-core/src/docker/manager.rs:352-365 | the collapsed text has no "--", keeps the first and last non-hyphen chars and holds only chars of the input |
| DockerManager.CollapseHyphens | crates/gwt-core/src/docker/manager.rs:352-365 | the loop with its previous-hyphen flag computes the collapse of the whole input |
| DockerManager.GenerateContainerName | crates/gwt-core/src/docker/manager.rs:338-368 | the name is "gwt-" then lower-case letters, digits, '-' and '_', with no "--" and no leading or trailing '-' |
| DockerManager.CleanNameKept | crates/gwt-core/src/docker/manager.rs:352-365 | a name without "--" made only of allowed chars is not changed by the collapse |
| DockerManager.PortDefaultOf | crates/gwt-core/src/docker/manager.rs:72-78 | a result names a non-empty variable and a port within 16 bits; no ":-" gives None |
| DockerManager.ParsePortEnvDefault | crates/gwt-core/src/docker/manager.rs:68-79 | a result names a non-empty variable and a port within 16 bits; a value without "${" gives None |
| DockerManager.BracedPortEnvDefault | crates/gwt-core/src/docker/manager.rs:69-72 | for "${inner}" with no '}' inside, only the text between the braces decides the result |
| DockerManager.PortDefaultSplit | crates/gwt-core/src/docker/manager.rs:73-78 | "NAME:-DIGITS" splits at the ":-" after NAME; empty NAME or a non-u16 default gives None, otherwise (NAME, value) |
| DockerManager.PortEnvDefaultRoundTrip | crates/gwt-core/src/docker/manager.rs:68-79 | "${NAME:-P}" yields (NAME, P) for every non-empty NAME and every P up to 65535 |
| DockerManager.PortEnvDefaultRejects | crates/gwt-core/src/docker/manager.rs:74-77 | "${NAME:-P}" yields None when NAME is empty or P exceeds 65535 |
| DockerManager.ResolveComposeStatus | crates/gwt-core/src/docker/manager.rs:174-182 | Running iff the running listing is non-blank; Stopped iff only the full listing is non-blank; NotFound iff both are blank |
| DockerManager.FilterPassthroughEnv | crates/gwt-core/src/docker/manager.rs:185-227 | every kept key starts with (or equals) a pass-through prefix and is not denylisted, maps to the value of its last occurrence, and every such key of the input is kept |
| DockerManager.ShouldPromptBuild | crates/gwt-core/src/docker/manager.rs:730-739 | holds iff the modification time is known and there is no build time or it is later |
| DockerManager.IsRetryableError | crates/gwt-core/src/docker/manager.rs:236-252 | daemon-down and timeout errors are retryable; error kinds other than the four Docker ones never are |
| DockerManager.WithRetry | crates/gwt-core/src/docker/manager.rs:230-291 | the operation runs 1 to 3 times; every earlier outcome was a retryable error; it stops early only on success or a non-retryable error (so exactly once when the first outcome is one); the waits are 2 then 5 seconds |
| DockerManager.CollapseStep | crates/gwt-core/src/docker/manager.rs:352-365 | one character of the hyphen-collapsing loop extends the collapsed prefix as the specification does |
| Environment.ValidateEdit | crates/gwt-cli/src/tui/screens/environment.rs:201-213 | an error is one of the three messages; an accepted edit keeps the value as typed |
| Environment.ValidateAccepts | crates/gwt-cli/src/tui/screens/environment.rs:201-213 | accepted exactly when the trimmed key is non-empty, made of letters, digits and underscores, and not taken when new; the key returned is the trimmed one |
| Environment.ValidateErrorOrder | crates/gwt-cli/src/tui/screens/environment.rs:201-213 | an empty name is reported first; a duplicate is reported only for a new variable whose name is taken |
| Environment.FormatValue | crates/gwt-cli/src/tui/screens/environment.rs:379-385 | the value when values are shown, otherwise the fixed mask |
| Environment.MaskHidesValue | crates/gwt-cli/src/tui/screens/environment.rs:379-385 | hidden values all look the same |
| Environment.ToggleSecretAt | crates/gwt-cli/src/tui/screens/environment.rs:216-220 | flips the secret mark of the variable at the index and changes nothing else |
| Environment.ToggleSecretTwice | crates/gwt-cli/src/tui/screens/environment.rs:216-220 | marking twice restores the list |
| Environment.EnvironmentState.constructor | crates/gwt-cli/src/tui/screens/environment.rs:54-68 | the given variables and profile, first row, not editing, empty buffers, values hidden |
| Environment.EnvironmentState.SelectedVariable | crates/gwt-cli/src/tui/screens/environment.rs:71-73 | the variable at the highlighted row, when it exists |
| Environment.EnvironmentState.SelectPrev | crates/gwt-cli/src/tui/screens/environment.rs:76-80 | one row up, never below zero, not while editing |
| Environment.EnvironmentState.SelectNext | crates/gwt-cli/src/tui/screens/environment.rs:83-87 | one row down, never past the last variable, not while editing |
| Environment.EnvironmentState.ToggleVisibility | crates/gwt-cli/src/tui/screens/environment.rs:90-92 | flips value visibility |
| Environment.EnvironmentState.StartNew | crates/gwt-cli/src/tui/screens/environment.rs:95-103 | an empty editor on the key field, cursor at zero, error cleared |
| Environment.EnvironmentState.StartEdit | crates/gwt-cli/src/tui/screens/environment.rs:106-119 | the highlighted variable in the editor on the value field, cursor at the end counted in characters (the source counts bytes; see Left out); nothing without one |
| Environment.EnvironmentState.CancelEdit | crates/gwt-cli/src/tui/screens/environment.rs:122-128 | editing ends with both buffers and the cursor cleared |
| Environment.EnvironmentState.SwitchField | crates/gwt-cli/src/tui/screens/environment.rs:131-144 | only while creating: the other field, cursor at its end counted in characters (the source counts bytes; see Left out) |
| Environment.EnvironmentState.InsertChar | crates/gwt-cli/src/tui/screens/environment.rs:155-164 | while editing, the edited field grows by the character at the character cursor, which moves past it; the other field is untouched (the source works on byte offsets; see Left out) |
| Environment.EnvironmentState.DeleteChar | crates/gwt-cli/src/tui/screens/environment.rs:167-180 | while editing, backspace at the character cursor in the edited field; a no-op at cursor zero (the source works on byte offsets; see Left out) |
| Environment.EnvironmentState.CursorLeft | crates/gwt-cli/src/tui/screens/environment.rs:183-187 | moves left, never below zero |
| Environment.EnvironmentState.CursorRight | crates/gwt-cli/src/tui/screens/environment.rs:190-198 | moves right, never past the end of the edited field counted in characters (the source counts bytes; see Left out) |
| Environment.EnvironmentState.Validate | crates/gwt-cli/src/tui/screens/environment.rs:201-213 | an accepted edit is the trimmed key and the value, and a new key is not taken |
| Environment.EnvironmentState.ToggleSecret | crates/gwt-cli/src/tui/screens/environment.rs:216-220 | flips the highlighted variable's secret mark |
| GitBranch.DivergenceStatusOf | crates/gwt-core/src/git/branch.rs:332-346 | NoRemote iff there is no upstream; otherwise UpToDate iff both counts are 0, Ahead only with behind 0, Behind only with ahead 0, Diverged only with both non-zero |
| GitBranch.StatusKeepsCounts | crates/gwt-core/src/git/branch.rs:337-345 | with an upstream the status carries exactly the (ahead, behind) counts |
| GitBranch.StatusInjective | crates/gwt-core/src/git/branch.rs:337-345 | two statuses with an upstream are equal iff their counts are |
| GitBranch.ParseDivergence | crates/gwt-core/src/git/branch.rs:316-328 | a failed command or an output that does not split into exactly two tab-separated fields gives (0, 0); counts fit in usize |
| GitBranch.ParseDivergenceRoundTrip | crates/gwt-core/src/git/branch.rs:320-325 | the line "A\tB\n" is read back as (A, B) |
| GitBranch.CountTextRoundTrip | crates/gwt-core/src/git/branch.rs:423-433 | the number in "N ahead" / "N behind" reads back as N |
| GitBranch.TextStartsWithDigit | crates/gwt-core/src/git/branch.rs:423-433 | the display text starts with a digit exactly for the statuses that carry counts |
| GitCommit.FromOneline | crates/gwt-core/src/git/commit.rs:29-49 | None iff the trimmed line is empty; otherwise a non-empty, space-free hash, and the trimmed line is the hash alone (empty message) or hash, one space, message |
| GitCommit.SplitTwoPieces | crates/gwt-core/src/git/commit.rs:34 | splitn(2, ' ') with two pieces cuts at the first separator and loses nothing else |
| GitCommit.OnelineRoundTrip | crates/gwt-core/src/git/commit.rs:29-49 | "hash message" parses back to that hash and message, and a hash-only line to the hash with an empty message |
| GitCommit.PartNumberMeaning | crates/gwt-core/src/git/commit.rs:112-121 | a part yields a number only if it contains the keyword and its first word parses; without the keyword it yields nothing |
| GitCommit.TrimEach | crates/gwt-core/src/git/commit.rs:112 | each comma part is trimmed, in order |
| GitCommit.FirstPartNumberMeaning | crates/gwt-core/src/git/commit.rs:111-123 | the scan finds nothing iff no part yields a number; otherwise it returns the first yielding part's number |
| GitCommit.ScanPartsLoop | crates/gwt-core/src/git/commit.rs:111-123 | the for loop returns what the first trimmed part that yields a number yields, or None |
| GitCommit.ExtractNumberLoop | crates/gwt-core/src/git/commit.rs:109-124 | extract_number splits at ',' and returns the leading integer of the first part that contains the keyword and starts with a number |
| GitCommit.ScanPartsAbsent | crates/gwt-core/src/git/commit.rs:111-123 | when no trimmed part mentions the keyword the scan finds nothing |
| GitCommit.FromShortstat | crates/gwt-core/src/git/commit.rs:86-106 | each count is the number extracted for "file", "insertion" or "deletion" from the trimmed line, 0 when none is found; both flags are false |
| GitCommit.MissingFieldsAreZero | crates/gwt-core/src/git/commit.rs:86-106 | a field whose keyword no part mentions stays 0 |
| GitCommit.WithFlags | crates/gwt-core/src/git/commit.rs:127-131 | the counts are kept and the two flags replaced |
| GitCommit.HasChangesWithFlags | crates/gwt-core/src/git/commit.rs:134-136 | has_changes holds iff files changed > 0 or the uncommitted or unpushed flag is set |
| GitCommit.UnitCounts | crates/gwt-core/src/git/commit.rs:184-189 | the chained divisions give the elapsed seconds divided by each unit's length (30-day month, 365-day year) |
| GitCommit.RelativeTimeCases | crates/gwt-core/src/git/commit.rs:169-181 | no timestamp gives None, a negative difference "in the future", otherwise the elapsed-time text |
| GitCommit.ElapsedLargestUnit | crates/gwt-core/src/git/commit.rs:183-209 | the text counts whole units of the largest unit reached (year, month, week, day, hour, minute), else "just now" |
| GitCommit.AgoPlural | crates/gwt-core/src/git/commit.rs:192-206 | one unit is written in the singular, any other count with a plural "s" |
| GitCommit.ExtractNumber | crates/gwt-core/src/git/commit.rs:109-124 | no number is read when no comma-separated part mentions the keyword |
| GitCommit.HasChanges | crates/gwt-core/src/git/commit.rs:134-136 | zero files without flags is no change; either flag is a change |
| GitCommit.RelativeTime | crates/gwt-core/src/git/commit.rs:169-210 | a text exactly when there is a timestamp; "in the future" for a later one and "just now" under a minute |
| GitDiff.BaseBranch | crates/gwt-core/src/git/diff.rs:64-88 | with an upstream, the upstream after its first '/' (or whole when it has none); without one, `main` |
| GitDiff.BaseBranchCandidates | crates/gwt-core/src/git/diff.rs:91-111 | exactly the candidates main, master, develop that exist, each once, in that order of trying |
| GitDiff.LineEntries | crates/gwt-core/src/git/diff.rs:279-326 | short lines give nothing; untracked files give one unstaged addition; otherwise a staged entry for a marked index column and an unstaged one for a marked worktree column, all with the path after the third character |
| GitDiff.StagedIffIndexMarked | crates/gwt-core/src/git/diff.rs:287-322 | a line has a staged entry iff its index column is neither blank nor '?', and an unstaged one iff it is untracked or its worktree column is marked |
| GitDiff.StatusEntriesBound | crates/gwt-core/src/git/diff.rs:279-326 | each porcelain line gives at most two entries |
| GitDiff.WorkingTreeEntries | crates/gwt-core/src/git/diff.rs:279-326 | the loop collects exactly the entries of the lines in order, at most two per line |
| GitDiff.WorkingTreeStatus | crates/gwt-core/src/git/diff.rs:259-329 | a failed git call returns its error output; otherwise the entries of the porcelain lines |
| GitDiff.NumstatLine | crates/gwt-core/src/git/diff.rs:159-168 | a line with three tab-separated fields gives its path with the parsed counts (0 when not a number), binary iff both counts are "-"; other lines give nothing |
| GitDiff.BinaryHasNoCounts | crates/gwt-core/src/git/diff.rs:161-166 | a binary file has zero additions and deletions |
| GitDiff.StatsFromLines | crates/gwt-core/src/git/diff.rs:155-168 | every path in the statistics map comes from some numstat line with that line's statistics |
| GitDiff.ParseNumstat | crates/gwt-core/src/git/diff.rs:155-168 | the loop builds exactly the statistics map of the lines, later lines winning |
| GitDiff.NameStatusLine | crates/gwt-core/src/git/diff.rs:174-203 | lines with fewer than two fields are skipped; a rename takes its new path; counts and binary flag come from the statistics of that path, zero and not binary when it has none |
| GitDiff.ChangesOf | crates/gwt-core/src/git/diff.rs:171-204 | at most one change per name-status line |
| GitDiff.ParseNameStatus | crates/gwt-core/src/git/diff.rs:171-204 | the loop returns exactly the changes of the lines in order |
| GitDiff.BranchDiffFiles | crates/gwt-core/src/git/diff.rs:114-207 | a failed numstat or name-status call returns its error output; otherwise the changes of the name-status lines with the numstat statistics |
| GitDiff.FileDiffOf | crates/gwt-core/src/git/diff.rs:235-255 | binary diffs become a notice; more than 1000 lines are cut to the first 1000 joined by newlines and marked truncated; otherwise the text is kept as is |
| GitDiff.JoinNewlines | crates/gwt-core/src/git/diff.rs:247 | n newline-free lines joined by newlines hold n-1 newlines |
| GitDiff.LinesHaveNoNewline | crates/gwt-core/src/git/diff.rs:243 | no line of a text holds a newline |
| GitDiff.CutDiffHasLimitLines | crates/gwt-core/src/git/diff.rs:245-250 | a cut diff holds exactly 999 newlines, so exactly 1000 lines |
| GitDiff.FileDiffFrom | crates/gwt-core/src/git/diff.rs:210-256 | a failed git call returns its error output; otherwise the diff as cut |
| GitDiff.StatusEntriesStep | crates/gwt-core/src/git/diff.rs:279-326 | each status line contributes its own entries after those of the lines before it |
| GitIssue.Display | crates/gwt-core/src/git/issue.rs:30-32 | "#N: " followed by the title, exactly |
| GitIssue.DisplayTruncatedAsWrittenShape | crates/gwt-core/src/git/issue.rs:36-53 | as written: "#N" when the prefix fills the width, the whole display when it fits, else the prefix, a cut title and "...", exactly max_width long only when more than three columns remain |
| GitIssue.DisplayTruncatedOverflowAsWritten | crates/gwt-core/src/git/issue.rs:47-48 | as written, issue 42 titled "Hello" in 6 columns gives "#42: ...", 8 characters, wider than max_width |
| GitIssue.DisplayTruncated | crates/gwt-core/src/git/issue.rs:36-53 | corrected (see Findings): "#N" when the prefix fills the width; otherwise the prefix followed by at most max_width − prefix characters, the whole display when it fits and ending in "..." when cut with at least 3 columns left |
| GitIssue.GenerateBranchNameParts | crates/gwt-core/src/git/issue.rs:56-58 | generate_branch_name(p, n) is p followed by branch_name_suffix ("issue-N"), and N reads back from after "issue-" |
| GitIssue.FilterMatching | crates/gwt-core/src/git/issue.rs:129-133 | keeps exactly the issues whose lowercased title contains the lowercased query |
| GitIssue.FilterByTitle | crates/gwt-core/src/git/issue.rs:124-134 | an empty query returns every issue unchanged; otherwise exactly the case-insensitive title matches |
| GitIssue.FilterKeepsOrder | crates/gwt-core/src/git/issue.rs:124-134 | the filtered issues are a subsequence of the input: original order kept |
| GitIssue.FilterMatchingOrder | crates/gwt-core/src/git/issue.rs:130-133 | the filter keeps the input order |
| GitIssue.SubsequenceOfSelf | crates/gwt-core/src/git/issue.rs:125-127 | the unfiltered list is trivially in input order |
| GitIssue.NotOlderPreorder | crates/gwt-core/src/git/issue.rs:118 | the updated_at comparison used by the sort is total and transitive |
| GitIssue.NotOlderTransitive | crates/gwt-core/src/git/issue.rs:118 | "not less than" on timestamp strings is transitive |
| GitIssue.SortByUpdatedDesc | crates/gwt-core/src/git/issue.rs:117-118 | a permutation of the issues ordered by updated_at, newest first |
| GitIssue.BranchNameSuffix | crates/gwt-core/src/git/issue.rs:55-58 | "issue-" followed by the decimal digits of the issue number, which read back to that number |
| GitIssue.GenerateBranchName | crates/gwt-core/src/git/issue.rs:164-167 | the type prefix, then "issue-", then decimal digits that read back to the issue number |
| GitPullRequest.IsNewer | crates/gwt-core/src/git/pullrequest.rs:345-359 | an open candidate beats a non-open current and never the reverse; with equal openness the later timestamp string wins, a timestamp beats none, and no timestamp never wins |
| GitPullRequest.IsNewerStrict | crates/gwt-core/src/git/pullrequest.rs:345-359 | is_newer_pr is irreflexive and asymmetric |
| GitPullRequest.TsNewerTransitive | crates/gwt-core/src/git/pullrequest.rs:353-358 | the timestamp comparison is transitive |
| GitPullRequest.IsNewerTransitive | crates/gwt-core/src/git/pullrequest.rs:345-359 | is_newer_pr is transitive |
| GitPullRequest.TsNewerSplit | crates/gwt-core/src/git/pullrequest.rs:353-358 | if z's timestamp beats x's then z beats y or y beats x |
| GitPullRequest.NotNewerTransitive | crates/gwt-core/src/git/pullrequest.rs:345-359 | "not newer than" is transitive, so replacing only by newer keeps the selected one maximal |
| GitPullRequest.SelectLatestPr | crates/gwt-core/src/git/pullrequest.rs:328-343 | None iff the input is empty; otherwise an element of the input that no input element is newer than |
| GitPullRequest.MergePrsLatest | crates/gwt-core/src/git/pullrequest.rs:138-147 | after taking in the list every branch of it has an entry keyed by its head branch that none of its pull requests is newer than; entries come from the old map or the list; an old entry is only replaced by one it is not newer than |
| GitPullRequest.MergedInRule | crates/gwt-core/src/git/pullrequest.rs:118-123 | an unknown branch is not merged; a known one is merged iff its state equals "MERGED" ignoring ASCII case |
| GitPullRequest.PrCache.constructor | crates/gwt-core/src/git/pullrequest.rs:98-100 | a new cache is empty and not populated |
| GitPullRequest.PrCache.Get | crates/gwt-core/src/git/pullrequest.rs:108-110 | the pull request stored for the branch, None iff there is none |
| GitPullRequest.PrCache.GetTitle | crates/gwt-core/src/git/pullrequest.rs:113-115 | the stored pull request's title, None iff there is none |
| GitPullRequest.PrCache.Populate | crates/gwt-core/src/git/pullrequest.rs:126-151 | a populated cache, an unavailable gh, or a failed fetch leaves the map unchanged; otherwise each fetched pull request is taken in order, replacing an entry only when newer; always ends populated |
| GitPullRequest.PrCache.Clear | crates/gwt-core/src/git/pullrequest.rs:154-157 | empties the map and resets populated |
| GitPullRequest.PopulatedFromEmpty | crates/gwt-core/src/git/pullrequest.rs:138-147 | from an empty cache every fetched branch gets an entry drawn from the fetched list that none of them is newer than |
| GitRepository.FormatDisplay | crates/gwt-core/src/git/repository.rs:47-61 | the path and " [" come first; a bare repository shows "[bare]"; a worktree of a bare repository ends with the bare name in parentheses; anything else ends with the closing bracket after the branch |
| GitRepository.NewWorktree | crates/gwt-core/src/git/repository.rs:673-683 | a record opened by a worktree line has its path and nothing else set |
| GitRepository.ShortBranch | crates/gwt-core/src/git/repository.rs:691-698 | a branch under refs/heads/ loses that prefix; any other value is kept |
| GitRepository.ApplyAttribute | crates/gwt-core/src/git/repository.rs:684-707 | a HEAD line sets the head, a branch line sets the shortened branch, and the path never changes |
| GitRepository.ParseStep | crates/gwt-core/src/git/repository.rs:672-708 | a worktree line opens a new record with its path; any other line neither closes nor opens a record |
| GitRepository.Finish | crates/gwt-core/src/git/repository.rs:710-712 | the records are the closed ones plus the open one |
| GitRepository.ParseFromAppend | crates/gwt-core/src/git/repository.rs:672-708 | reading lines in two parts gives the same state as reading them at once |
| GitRepository.RecordPerWorktreeLine | crates/gwt-core/src/git/repository.rs:672-712 | there is exactly one record per worktree line |
| GitRepository.LeadingAttributesIgnored | crates/gwt-core/src/git/repository.rs:688 | lines before the first worktree line leave the parser at its start |
| GitRepository.LeadingAttributesDropped | crates/gwt-core/src/git/repository.rs:672-712 | lines before the first worktree line do not change the records |
| GitRepository.ListWorktrees | crates/gwt-core/src/git/repository.rs:653-715 | a failed git call returns its error output; otherwise one record per worktree line, as the line parser reads them |
| GitRepository.ParseWorktreeLines | crates/gwt-core/src/git/repository.rs:672-712 | the loop returns exactly the records the line parser defines, one per worktree line |
| GitView.FileItems | crates/gwt-cli/src/tui/screens/git_view.rs:239-250 | n file rows, the k-th showing file k |
| GitView.CommitItems | crates/gwt-cli/src/tui/screens/git_view.rs:239-250 | n commit rows, the k-th showing commit k |
| GitView.LayoutWithPr | crates/gwt-cli/src/tui/screens/git_view.rs:349-370 | the PR link, when present, is row 0 and shifts every other row down by one |
| GitView.TotalItems | crates/gwt-cli/src/tui/screens/git_view.rs:239-250 | the item count is the number of rows of the view's layout |
| GitView.FilesSectionEnd | crates/gwt-cli/src/tui/screens/git_view.rs:253-262 | the files section ends after the PR row, the visible files and "show more", before any commit |
| GitView.ExpandableIffFileOrCommit | crates/gwt-cli/src/tui/screens/git_view.rs:292-328 | exactly the file and commit rows are expandable; the PR link and "show more" never are |
| GitView.FileIndexIsRow | crates/gwt-cli/src/tui/screens/git_view.rs:379-391 | the selected file index is k iff the row shows file k |
| GitView.CommitIndexIsRow | crates/gwt-cli/src/tui/screens/git_view.rs:394-411 | the selected commit index is k iff the row shows commit k |
| GitView.FileAndCommitExclusive | crates/gwt-cli/src/tui/screens/git_view.rs:379-411 | the selected file index and the selected commit index are never both present |
| GitView.ShowMoreIsRow | crates/gwt-cli/src/tui/screens/git_view.rs:332-341 | "show more" is selected iff the selected row is the show-more row |
| GitView.Toggled | crates/gwt-cli/src/tui/screens/git_view.rs:280-289 | toggling flips only the given index, and only when it is expandable |
| GitView.ToggleInvolution | crates/gwt-cli/src/tui/screens/git_view.rs:280-289 | toggling the same row twice restores the expanded set |
| GitView.ShiftDown | crates/gwt-cli/src/tui/screens/git_view.rs:349-370 | every expanded index moves one row down and row 0 is free |
| GitView.ShiftUpMembers | crates/gwt-cli/src/tui/screens/git_view.rs:349-370 | moving the expanded set up keeps exactly the indices above row 0, one lower |
| GitView.ShiftDownKeepsItems | crates/gwt-cli/src/tui/screens/git_view.rs:349-370 | moving the expanded set down with the rows keeps the same files and commits expanded when the PR link appears |
| GitView.ShiftUpKeepsItems | crates/gwt-cli/src/tui/screens/git_view.rs:349-370 | moving the expanded set up with the rows keeps the same files and commits expanded when the PR link goes |
| GitView.ExpansionGoesStale | crates/gwt-cli/src/tui/screens/git_view.rs:349-370 | with indices left in place, an expanded first file becomes the PR link once the link appears |
| GitView.SelectionFollowsRow | crates/gwt-cli/src/tui/screens/git_view.rs:349-370 | the shifted selection stays on the same row when the PR link appears or goes |
| GitView.GitViewState.TotalItemCount | crates/gwt-cli/src/tui/screens/git_view.rs:239-250 | the item count of the state is its number of rows |
| GitView.GitViewState.IsExpandable | crates/gwt-cli/src/tui/screens/git_view.rs:292-328 | a row is expandable iff it shows a file or a commit |
| GitView.GitViewState.Default | crates/gwt-cli/src/tui/screens/git_view.rs:160-178 | an empty view showing 20 files at most, nothing selected beyond row 0, not loading |
| GitView.GitViewState.constructor | crates/gwt-cli/src/tui/screens/git_view.rs:190-215 | a loading view of the branch with its PR fields; the PR link is selected iff there is a PR URL |
| GitView.GitViewState.LoadFromCache | crates/gwt-cli/src/tui/screens/git_view.rs:218-236 | takes the cached files and commits, stops loading, and always selects row 0 |
| GitView.GitViewState.SelectNext | crates/gwt-cli/src/tui/screens/git_view.rs:265-270 | moves one row down, never past the last row |
| GitView.GitViewState.SelectPrev | crates/gwt-cli/src/tui/screens/git_view.rs:273-277 | moves one row up, never below 0 |
| GitView.GitViewState.ToggleExpand | crates/gwt-cli/src/tui/screens/git_view.rs:280-289 | flips the selected row's expansion when it is expandable, else changes nothing |
| GitView.GitViewState.ShowMoreFiles | crates/gwt-cli/src/tui/screens/git_view.rs:344-346 | every file becomes visible and the show-more row disappears |
| GitView.GitViewState.UpdatePrInfo | crates/gwt-cli/src/tui/screens/git_view.rs:349-370 | stores the PR fields and shifts the selection by one only when PR presence flips and rows existed; the expanded set keeps its indices |
| GitView.GitViewState.UpdatePrInfoKeepingExpansion | crates/gwt-cli/src/tui/screens/git_view.rs:349-370 | as update_pr_info, and the same files and commits stay expanded |
| GitView.GitViewState.IsPrLinkSelected | crates/gwt-cli/src/tui/screens/git_view.rs:373-375 | the PR link is selected iff the selected row is the PR link row |
| GitView.GitViewState.SelectedFileIndex | crates/gwt-cli/src/tui/screens/git_view.rs:379-391 | a file index exactly when the selected row shows that file |
| GitView.GitViewState.SelectedCommitIndex | crates/gwt-cli/src/tui/screens/git_view.rs:394-411 | a commit index only when the selected row shows that commit |
| GitView.GitViewCache.Get | crates/gwt-cli/src/tui/screens/git_view.rs:105-107 | the cached data of a branch, None when it is not cached |
| GitView.GitViewCache.Insert | crates/gwt-cli/src/tui/screens/git_view.rs:110-112 | stores the data under the branch, which is then returned by get |
| GitView.GitViewCache.Clear | crates/gwt-cli/src/tui/screens/git_view.rs:115-117 | no branch is cached afterwards |
| GitView.ShiftDownItems | crates/gwt-cli/src/tui/screens/git_view.rs:349-370 | when a PR link row appears, shifting every expanded index down by one keeps the same files and commits expanded |
| GitView.ShiftUpItems | crates/gwt-cli/src/tui/screens/git_view.rs:349-370 | when the PR link row goes away, shifting the expanded indices up keeps the same files and commits expanded |
| GitView.SelectionFollows | crates/gwt-cli/src/tui/screens/git_view.rs:349-370 | the shifted selection points at the same file or commit row as before the PR link changed |
| GitView.GitViewCache.constructor | crates/gwt-cli/src/tui/screens/git_view.rs:98-102 | an empty cache |
| LegacyLogs.Filtered | rust/crates/gwt-cli/src/tui/screens/logs.rs:72-86 | the listed entries are entries that pass the level filter and the case-insensitive query |
| LegacyLogs.FilteredComplete | rust/crates/gwt-cli/src/tui/screens/logs.rs:72-86 | every entry that passes the filter and query is listed |
| LegacyLogs.LogsState.constructor | rust/crates/gwt-cli/src/tui/screens/logs.rs:62-69 | the given entries, top of the list, filter All, no query, no search |
| LegacyLogs.LogsState.FilteredEntries | rust/crates/gwt-cli/src/tui/screens/logs.rs:72-86 | the entries listed now pass the current filter and query |
| LegacyLogs.LogsState.SelectedEntry | rust/crates/gwt-cli/src/tui/screens/logs.rs:170-173 | an entry exactly when the highlighted row exists, and then the listed entry at that row |
| LegacyLogs.LogsState.SelectPrev | rust/crates/gwt-cli/src/tui/screens/logs.rs:89-94 | one row up, never below zero; the window follows |
| LegacyLogs.LogsState.SelectNext | rust/crates/gwt-cli/src/tui/screens/logs.rs:97-103 | one row down, never past the last listed entry |
| LegacyLogs.LogsState.PageUp | rust/crates/gwt-cli/src/tui/screens/logs.rs:106-109 | a page up, stopping at zero |
| LegacyLogs.LogsState.PageDown | rust/crates/gwt-cli/src/tui/screens/logs.rs:112-118 | a page down, stopping at the last listed entry; nothing moves when nothing is listed |
| LegacyLogs.LogsState.GoHome | rust/crates/gwt-cli/src/tui/screens/logs.rs:121-124 | top row, window at the top |
| LegacyLogs.LogsState.GoEnd | rust/crates/gwt-cli/src/tui/screens/logs.rs:127-133 | the last listed entry; the window follows |
| LegacyLogs.LogsState.CycleFilter | rust/crates/gwt-cli/src/tui/screens/logs.rs:136-147 | the next filter, back at the top |
| LegacyLogs.LogsState.ToggleSearch | rust/crates/gwt-cli/src/tui/screens/logs.rs:150-157 | turning search off clears the query and goes back to the top |
| LegacyWizard.AgentsDistinct | rust/crates/gwt-cli/src/tui/screens/wizard.rs:47-76 | the four agents sit at distinct positions of the agent list and have distinct ids |
| LegacyWizard.ModelIds | rust/crates/gwt-cli/src/tui/screens/wizard.rs:167-204 | every agent's model list has at least two entries and starts with the default option, whose id is empty |
| LegacyWizard.PrevStepOf | rust/crates/gwt-cli/src/tui/screens/wizard.rs:394-425 | going back closes the wizard exactly on the branch-type step and on the agent step of an existing branch |
| LegacyWizard.NextStepProgress | rust/crates/gwt-cli/src/tui/screens/wizard.rs:365-391 | every forward step advances except the last, a fixed point; from the model step the reasoning step follows exactly for Codex |
| LegacyWizard.ReachesSkipPermissions | rust/crates/gwt-cli/src/tui/screens/wizard.rs:365-391 | enough forward steps from anywhere end on the skip-permissions step |
| LegacyWizard.PrevUndoesNext | rust/crates/gwt-cli/src/tui/screens/wizard.rs:365-425 | going back after going forward returns to the step left, on every step but the last |
| LegacyWizard.SelectionKeepsValid | rust/crates/gwt-cli/src/tui/screens/wizard.rs:427-529 | moving the selection keeps every index inside its list and the agent and mode equal to the entries their indices name |
| LegacyWizard.SelectionKeepsModel | rust/crates/gwt-cli/src/tui/screens/wizard.rs:427-529 | away from the agent step, moving the selection keeps the model equal to the entry its index names |
| LegacyWizard.SelectionKeepsLevelAndVersion | rust/crates/gwt-cli/src/tui/screens/wizard.rs:427-529 | moving the selection keeps the reasoning level and the version equal to the entries their indices name |
| LegacyWizard.SelectionFrame | rust/crates/gwt-cli/src/tui/screens/wizard.rs:427-529 | a move changes only the current step's selection; the branch-name step has none |
| LegacyWizard.SkipPermissionsToggles | rust/crates/gwt-cli/src/tui/screens/wizard.rs:465-467 | on the skip-permissions step both moves toggle the flag and nothing else |
| LegacyWizard.SelectPrevUndoesNext | rust/crates/gwt-cli/src/tui/screens/wizard.rs:427-529 | away from the last entry, moving up undoes moving down on the agent, mode and branch-type steps |
| LegacyWizard.LeaveStep | rust/crates/gwt-cli/src/tui/screens/wizard.rs:368-376 | leaving the agent step selects the chosen agent's first model, with its index, and nothing else changes |
| LegacyWizard.StaleModelIndexPanics | rust/crates/gwt-cli/src/tui/screens/wizard.rs:368-376 | with the source's next_step, Gemini's sixth model then OpenCode leaves an index that makes select_prev read past the model list |
| LegacyWizard.SelectPrevNeverPanics | rust/crates/gwt-cli/src/tui/screens/wizard.rs:482-529 | with the model index reset on leaving the agent step, moving up never reads past a list |
| LegacyWizard.ParseFullBranchName | rust/crates/gwt-cli/src/tui/screens/wizard.rs:247-254 | a full branch name that is read back rebuilds to the same string |
| LegacyWizard.FullBranchNameRoundTrip | rust/crates/gwt-cli/src/tui/screens/wizard.rs:561-563 | the branch type and the typed name can be read back from the full name |
| LegacyWizard.WizardState.constructor | rust/crates/gwt-cli/src/tui/screens/wizard.rs:316-321 | hidden, on the agent step, default selections and the two stock versions |
| LegacyWizard.WizardState.ResetSelections | rust/crates/gwt-cli/src/tui/screens/wizard.rs:341-358 | the first agent, default model, medium reasoning, "latest", normal mode, no skip, feature type, an empty name |
| LegacyWizard.WizardState.OpenForBranch | rust/crates/gwt-cli/src/tui/screens/wizard.rs:324-331 | shown for the branch, on the agent step, selections reset |
| LegacyWizard.WizardState.OpenForNewBranch | rust/crates/gwt-cli/src/tui/screens/wizard.rs:333-339 | shown for a new branch, on the branch-type step, selections reset |
| LegacyWizard.WizardState.Close | rust/crates/gwt-cli/src/tui/screens/wizard.rs:360-362 | hides the popup |
| LegacyWizard.WizardState.NextStep | rust/crates/gwt-cli/src/tui/screens/wizard.rs:365-391 | moves to the next step, loads the agent's first model on leaving the agent step, resets the scroll offset, keeps the invariant |
| LegacyWizard.WizardState.PrevStep | rust/crates/gwt-cli/src/tui/screens/wizard.rs:394-425 | moves back and answers true, or hides the popup and answers false |
| LegacyWizard.WizardState.SelectNext | rust/crates/gwt-cli/src/tui/screens/wizard.rs:427-480 | moves the current step's selection down as SelectNextOf says and keeps the invariant |
| LegacyWizard.WizardState.SelectPrev | rust/crates/gwt-cli/src/tui/screens/wizard.rs:482-529 | moves the current step's selection up; never reads past a list while the invariant holds |
| LegacyWizard.WizardState.InsertChar | rust/crates/gwt-cli/src/tui/screens/wizard.rs:531-536 | inserts at the cursor on the branch-name step only |
| LegacyWizard.WizardState.DeleteChar | rust/crates/gwt-cli/src/tui/screens/wizard.rs:539-545 | backspace on the branch-name step only |
| LegacyWizard.WizardState.CursorLeft | rust/crates/gwt-cli/src/tui/screens/wizard.rs:547-551 | moves left, never below zero |
| LegacyWizard.WizardState.CursorRight | rust/crates/gwt-cli/src/tui/screens/wizard.rs:554-558 | moves right, never past the end of the name |
| LegacyWizard.WizardState.FullName | rust/crates/gwt-cli/src/tui/screens/wizard.rs:561-563 | the type's prefix followed by the name, which can be read back |
| Logs.FilterChain | crates/gwt-cli/src/tui/screens/logs.rs:82-91 | Error ⊆ Warn ⊆ Info ⊆ Debug ⊆ All, All and Trace admit every level, Debug drops exactly TRACE |
| Logs.CyclePeriodSix | crates/gwt-cli/src/tui/screens/logs.rs:192-203 | cycling the filter returns to the start after six presses and not before |
| Logs.Filtered | crates/gwt-cli/src/tui/screens/logs.rs:128-142 | the listed entries are entries that pass the level filter and the case-insensitive query on message or level |
| Logs.FilteredComplete | crates/gwt-cli/src/tui/screens/logs.rs:128-142 | every entry that passes the filter and query is listed |
| Logs.FilteredAllIsIdentity | crates/gwt-cli/src/tui/screens/logs.rs:128-142 | the default filter with an empty query lists every entry in order |
| Logs.NarrowerFilterFewerEntries | crates/gwt-cli/src/tui/screens/logs.rs:82-142 | a filter that admits fewer levels never lists more entries |
| Logs.ScrollTo | crates/gwt-cli/src/tui/screens/logs.rs:216-223 | after scrolling the selection lies in the ten-row window; the window moves only when the selection left it, and just far enough |
| Logs.LogsState.constructor | crates/gwt-cli/src/tui/screens/logs.rs:118-125 | the given entries, top of the list, filter All, no query, no search, no detail |
| Logs.LogsState.FilteredEntries | crates/gwt-cli/src/tui/screens/logs.rs:128-142 | the entries listed now pass the current filter and query |
| Logs.LogsState.SelectedEntry | crates/gwt-cli/src/tui/screens/logs.rs:226-229 | an entry exactly when the highlighted row exists, and then the listed entry at that row |
| Logs.LogsState.SelectPrev | crates/gwt-cli/src/tui/screens/logs.rs:145-150 | one row up, never below zero; the window follows |
| Logs.LogsState.SelectNext | crates/gwt-cli/src/tui/screens/logs.rs:153-159 | one row down, never past the last listed entry; the window follows |
| Logs.LogsState.PageUp | crates/gwt-cli/src/tui/screens/logs.rs:162-165 | a page up, stopping at zero; the window follows |
| Logs.LogsState.PageDown | crates/gwt-cli/src/tui/screens/logs.rs:168-174 | a page down, stopping at the last listed entry; nothing moves when nothing is listed |
| Logs.LogsState.GoHome | crates/gwt-cli/src/tui/screens/logs.rs:177-180 | top row, window at the top |
| Logs.LogsState.GoEnd | crates/gwt-cli/src/tui/screens/logs.rs:183-189 | the last listed entry; the window follows |
| Logs.LogsState.CycleFilter | crates/gwt-cli/src/tui/screens/logs.rs:192-203 | the next filter, back at the top |
| Logs.LogsState.ToggleSearch | crates/gwt-cli/src/tui/screens/logs.rs:206-213 | turning search off clears the query and goes back to the top; turning it on keeps everything |
| Logs.LogsState.ToggleDetail | crates/gwt-cli/src/tui/screens/logs.rs:232-236 | toggles the detail view only when an entry is highlighted |
| Logs.LogsState.CloseDetail | crates/gwt-cli/src/tui/screens/logs.rs:239-241 | the detail view is hidden |
| Menu.WindowFocusMenuId | crates/gwt-tauri/src/menu.rs:52-54 | the id is the window-focus prefix followed by the label |
| Menu.WindowTabFocusMenuId | crates/gwt-tauri/src/menu.rs:56-58 | the id is the window-tab-focus prefix followed by the tab id |
| Menu.ParseWithPrefix | crates/gwt-tauri/src/menu.rs:60-76 | gives the trimmed rest exactly when the id starts with the prefix and the rest is not blank |
| Menu.ParseRecentProjectMenuId | crates/gwt-tauri/src/menu.rs:60-64 | a recent-project id gives its trimmed, non-empty path; anything else gives nothing |
| Menu.ParseWindowFocusMenuId | crates/gwt-tauri/src/menu.rs:66-70 | a window-focus id gives its trimmed, non-empty label; anything else gives nothing |
| Menu.ParseWindowTabFocusMenuId | crates/gwt-tauri/src/menu.rs:72-76 | a window-tab-focus id gives its trimmed, non-empty tab id; anything else gives nothing |
| Menu.WindowFocusRoundTrip | crates/gwt-tauri/src/menu.rs:52-70 | a trimmed, non-blank label comes back unchanged from its menu id |
| Menu.WindowTabFocusRoundTrip | crates/gwt-tauri/src/menu.rs:56-76 | a trimmed, non-blank tab id comes back unchanged from its menu id |
| Menu.WindowFocusTrimsLabel | crates/gwt-tauri/src/menu.rs:52-70 | a non-blank label comes back trimmed |
| Menu.FocusIdsAreDistinct | crates/gwt-tauri/src/menu.rs:52-76 | a window id never parses as a tab id and a tab id never as a window id |
| Menu.NormalPieces | crates/gwt-tauri/src/menu.rs:399-400 | the path components kept are neither empty nor "." |
| Menu.FileName | crates/gwt-tauri/src/menu.rs:399-400 | the file name, when there is one, is a non-empty component other than "." and ".." |
| Menu.FallbackDisplay | crates/gwt-tauri/src/menu.rs:398-404 | the display is the path's file name when it has a non-blank one, otherwise the whole path |
| Menu.FallbackIsLastName | crates/gwt-tauri/src/menu.rs:398-404 | a path ending in "/name" is shown as name |
| Menu.FallbackOfPlainName | crates/gwt-tauri/src/menu.rs:398-404 | a plain name without '/' is shown as itself |
| Menu.CountsAreBaseCounts | crates/gwt-tauri/src/menu.rs:410-414 | the counting map holds exactly the base names seen, each with the number of entries having it |
| Menu.LabelMapLast | crates/gwt-tauri/src/menu.rs:409-429 | a label maps to the value computed from its last entry |
| Menu.LabelMapKeys | crates/gwt-tauri/src/menu.rs:409-429 | the maps built hold exactly the labels of the entries |
| Menu.DisambiguatedMeaning | crates/gwt-tauri/src/menu.rs:406-431 | every window gets a display: its base name when no other entry shares it, otherwise "base - path" |
| Menu.DisambiguateProjectDisplays | crates/gwt-tauri/src/menu.rs:406-431 | the two loops return exactly the specified displays, one per label |
| Menu.CountBases | crates/gwt-tauri/src/menu.rs:410-414 | the first loop counts the entries per base name and records each label's base name |
| Menu.DisplaysLoop | crates/gwt-tauri/src/menu.rs:417-428 | the second loop gives each label its base name, or "base - path" when the base is shared |
| Menu.DisplaysWithStep | crates/gwt-tauri/src/menu.rs:417-428 | one more entry adds exactly its own display label to the map |
| Menu.CountBasesStep | crates/gwt-tauri/src/menu.rs:410-414 | one more entry bumps its base name's count by one and records its base |
| MigrationDialog.InAreaIff | crates/gwt-cli/src/tui/screens/migration_dialog.rs:185-212 | the hit test is the half-open rectangle test with the far edge saturating at 65535, so the last u16 column and row are never hit and an empty rectangle never is |
| MigrationDialog.ActionExcludesProgress | crates/gwt-cli/src/tui/screens/migration_dialog.rs:155-170 | requires_action and is_in_progress are never both true, and both are false only once exited |
| MigrationDialog.PhaseForClassifies | crates/gwt-cli/src/tui/screens/migration_dialog.rs:108-129 | Completed, Failed and Cancelled lead to a phase waiting for the user (Cancelled to Failed), every active state to a progress phase, Pending keeps the phase |
| MigrationDialog.ValidationError | crates/gwt-cli/src/tui/screens/migration_dialog.rs:134-141 | the first validation error, or "Validation failed" when none is listed |
| MigrationDialog.MigrationDialogState.constructor | crates/gwt-cli/src/tui/screens/migration_dialog.rs:53-76 | starts in Confirmation with Exit selected, Pending, no error and no cached areas |
| MigrationDialog.MigrationDialogState.ToggleSelection | crates/gwt-cli/src/tui/screens/migration_dialog.rs:80-84 | flips the selection in the Confirmation phase only |
| MigrationDialog.MigrationDialogState.SelectProceed | crates/gwt-cli/src/tui/screens/migration_dialog.rs:87-89 | selects Proceed |
| MigrationDialog.MigrationDialogState.SelectExit | crates/gwt-cli/src/tui/screens/migration_dialog.rs:92-94 | selects Exit |
| MigrationDialog.MigrationDialogState.Accept | crates/gwt-cli/src/tui/screens/migration_dialog.rs:97-100 | marks accepted and enters Validating |
| MigrationDialog.MigrationDialogState.Reject | crates/gwt-cli/src/tui/screens/migration_dialog.rs:103-105 | enters Exited |
| MigrationDialog.MigrationDialogState.UpdateState | crates/gwt-cli/src/tui/screens/migration_dialog.rs:108-129 | records the engine state and moves the phase as PhaseFor says, nothing else |
| MigrationDialog.MigrationDialogState.SetValidation | crates/gwt-cli/src/tui/screens/migration_dialog.rs:132-146 | a failed result enters Failed with its first error; a passed one enters InProgress; the result is kept |
| MigrationDialog.MigrationDialogState.SetError | crates/gwt-cli/src/tui/screens/migration_dialog.rs:149-152 | records the error and enters Failed |
| MigrationDialog.RejectedValidation | crates/gwt-cli/src/tui/screens/migration_dialog.rs:132-146 | a failed validation without errors reports "Validation failed" |
| Orchestrator.SessionQueue.constructor | crates/gwt-core/src/agent/orchestrator.rs:23-28 | a new queue has no active session and nothing waiting |
| Orchestrator.SessionQueue.Enqueue | crates/gwt-core/src/agent/orchestrator.rs:30-32 | the session joins the back of the queue |
| Orchestrator.SessionQueue.Dequeue | crates/gwt-core/src/agent/orchestrator.rs:34-38 | the front session leaves the queue and becomes active; with nothing waiting, no session is active and none is returned |
| Orchestrator.SessionQueue.PendingCount | crates/gwt-core/src/agent/orchestrator.rs:44-46 | zero exactly when nothing waits |
| Orchestrator.NewTask | crates/gwt-core/src/agent/orchestrator.rs:1124-1128 | a new task is pending, never retried, untested, without pull request or dependencies |
| Orchestrator.FindTask | crates/gwt-core/src/agent/orchestrator.rs:354 | the first task with the id, or none when no task has it |
| Orchestrator.FirstWithStatus | crates/gwt-core/src/agent/orchestrator.rs:1163-1166 | the first task with the status, or none when no task has it |
| Orchestrator.SetStatus | crates/gwt-core/src/agent/orchestrator.rs:375-378 | only the first task with the id gets the new status; an unknown id changes nothing |
| Orchestrator.LaunchReady | crates/gwt-core/src/agent/orchestrator.rs:1142-1177 | the first Ready task becomes Running and every other task is unchanged; with no Ready task nothing changes |
| Orchestrator.LaunchMovesAtMostOne | crates/gwt-core/src/agent/orchestrator.rs:1142-1177 | launching changes at most one task, only from Ready to Running, so at most one more task runs |
| Orchestrator.CountUpdate | crates/gwt-core/src/agent/orchestrator.rs:1142-1177 | overwriting one element moves any count by at most one |
| Orchestrator.StatusesOf | crates/gwt-core/src/agent/orchestrator.rs:1148-1151 | the statuses of the tasks, position by position |
| Orchestrator.AfterRetry | crates/gwt-core/src/agent/orchestrator.rs:889-916 | under three retries the task is counted and Ready again; otherwise it is Failed with the count unchanged |
| Orchestrator.RetriesAreBounded | crates/gwt-core/src/agent/orchestrator.rs:889-916 | a fresh task survives three counted retries and the fourth fails it for good with the count at three |
| Orchestrator.AfterTestFailed | crates/gwt-core/src/agent/orchestrator.rs:464-520 | the attempt after the recorded one is stored as failed with the output; a retry follows exactly while fewer than three attempts were made, otherwise the task is Failed |
| Orchestrator.TestFailuresGiveUpOnThird | crates/gwt-core/src/agent/orchestrator.rs:464-520 | an untested task is retried after its first and second failed test runs and fails on the third |
| Orchestrator.AfterTestPassed | crates/gwt-core/src/agent/orchestrator.rs:395-406 | the test status becomes passed, keeping a recorded attempt and output, or attempt 1 when none was recorded; the task status is unchanged |
| Orchestrator.AfterInterrupt | crates/gwt-core/src/agent/orchestrator.rs:525-529 | a running task is paused, any other status is kept |
| Orchestrator.InterruptKeepsFinished | crates/gwt-core/src/agent/orchestrator.rs:522-539 | after an interrupt nothing runs, and whether every task has finished is unchanged |
| Orchestrator.RetryableIgnoresCase | crates/gwt-core/src/agent/orchestrator.rs:919-929 | the transient-error decision is the same for a reason and its lowercase form |
| Orchestrator.Reverse | crates/gwt-core/src/agent/orchestrator.rs:790 | the reversed sequence, position by position |
| Orchestrator.ContainsInside | crates/gwt-core/src/agent/orchestrator.rs:790-792 | text containing a piece still contains it inside a longer text |
| Orchestrator.ToLowerJoinContainsFirst | crates/gwt-core/src/agent/orchestrator.rs:790-792 | what the lowercased first line contains, the lowercased joined lines contain |
| Orchestrator.ToLowerAppend | crates/gwt-core/src/agent/orchestrator.rs:791 | lowercasing distributes over concatenation |
| Orchestrator.ErrorOnLastLineFails | crates/gwt-core/src/agent/orchestrator.rs:780-793 | without a cargo or npm marker, output whose last line mentions an error or failure in any case is not passing |
| Orchestrator.AppendParsed | crates/gwt-core/src/agent/orchestrator.rs:1123-1130 | a new task per parsed entry, with its id and name, after the existing tasks, which are kept |
| Orchestrator.ReadyWithoutDependencies | crates/gwt-core/src/agent/orchestrator.rs:1133-1137 | every task without dependencies becomes Ready whatever its status, others are unchanged |
| Orchestrator.OrchestratorLoop.constructor | crates/gwt-core/src/agent/orchestrator.rs:148-169 | no session, an empty fresh queue, not a dry run |
| Orchestrator.OrchestratorLoop.Tasks | crates/gwt-core/src/agent/orchestrator.rs:107-132 | no tasks without a session |
| Orchestrator.OrchestratorLoop.LaunchReadyTasks | crates/gwt-core/src/agent/orchestrator.rs:1142-1177 | the session's tasks become those after launching the first Ready one |
| Orchestrator.OrchestratorLoop.RetryTask | crates/gwt-core/src/agent/orchestrator.rs:889-916 | the session's tasks become those of Retried; a missing session stays missing |
| Orchestrator.OrchestratorLoop.HandleSubAgentFailed | crates/gwt-core/src/agent/orchestrator.rs:371-391 | the whole new session: a transient reason gives exactly retry_task's result (Retried, including an unknown task and the relaunch), any other reason fails the first task with the id and leaves the rest unchanged; the queue is untouched |
| Orchestrator.OrchestratorLoop.HandleSubAgentCompleted | crates/gwt-core/src/agent/orchestrator.rs:351-369 | the task is marked completed |
| Orchestrator.OrchestratorLoop.HandleTestFailed | crates/gwt-core/src/agent/orchestrator.rs:464-520 | the failed run is recorded and the retry decision returned; after the third attempt the task is Failed; an unknown task changes nothing |
| Orchestrator.OrchestratorLoop.HandleInterrupt | crates/gwt-core/src/agent/orchestrator.rs:522-539 | every running task is paused, other tasks are kept, and the session is paused |
| Orchestrator.OrchestratorLoop.RunCleanup | crates/gwt-core/src/agent/orchestrator.rs:965-995 | a session whose tasks have all finished (none included) is completed, otherwise unchanged |
| Orchestrator.OrchestratorLoop.CheckSessionCompletion | crates/gwt-core/src/agent/orchestrator.rs:932-962 | a non-empty session with every task finished is completed and the next waiting session becomes active; otherwise the next Ready task is launched and the queue is untouched |
| Orchestrator.OrchestratorLoop.HandleTestPassed | crates/gwt-core/src/agent/orchestrator.rs:393-462 | the whole new session and queue: the recorded pass (RecordTestPassed), then either a completed session and the next waiting session active, or the next Ready task launched and the queue untouched; without a session nothing changes |
| Orchestrator.OrchestratorLoop.CreateTasksFromParsed | crates/gwt-core/src/agent/orchestrator.rs:1121-1139 | the parsed tasks are appended with their ids and names and are Ready; every earlier task without dependencies is made Ready again |
| Orchestrator.Retried | crates/gwt-core/src/agent/orchestrator.rs:889-916 | retry_task on the tasks: an unknown task launches the next Ready one; a known one is retried and the next Ready launched, or failed for good with no launch |
| Orchestrator.RetryOutcome | crates/gwt-core/src/agent/orchestrator.rs:889-916 | a retried task under the limit is counted and Ready or Running; at the limit it is Failed and nothing else moves; otherwise at most one other task changes, from Ready to Running |
| Orchestrator.RecordTestPassed | crates/gwt-core/src/agent/orchestrator.rs:395-445 | the task's test status becomes passed and a created pull request is stored on it, nothing else about it or any other task changes; an unknown task changes nothing |
| Orchestrator.TestPassKeepsStatuses | crates/gwt-core/src/agent/orchestrator.rs:393-462 | recording a passed test changes no task status, so whether every task has finished is unchanged |
| ProgressModal.AllDoneIff | crates/gwt-cli/src/tui/widgets/progress_modal.rs:63-70 | all_done holds iff every step is Completed, Skipped or Failed |
| ProgressModal.FirstWithStatus | crates/gwt-cli/src/tui/widgets/progress_modal.rs:78-80 | the current step is the first running one; None iff none runs |
| ProgressModal.TitleDecides | crates/gwt-cli/src/tui/widgets/progress_modal.rs:83-93 | the title is "Preparation Failed" iff a step failed, "Preparation Complete" iff none failed and the modal completed, the generic title iff additionally no step runs |
| ProgressModal.ApplyStatus | crates/gwt-cli/src/tui/widgets/progress_modal.rs:96-105 | the step takes the new status; only starting records a start time; the error is kept |
| ProgressModal.InitialSteps | crates/gwt-cli/src/tui/widgets/progress_modal.rs:40-55 | six pending steps, one per kind in running order |
| ProgressModal.FindsAtPosition | crates/gwt-cli/src/tui/widgets/progress_modal.rs:96-113 | in the modal's step list each kind is found at its running-order position |
| ProgressModal.ProgressModalState.constructor | crates/gwt-cli/src/tui/widgets/progress_modal.rs:40-55 | visible, every step pending, not completed, not waiting |
| ProgressModal.ProgressModalState.FindStep | crates/gwt-cli/src/tui/widgets/progress_modal.rs:97 | the loop finds the first step of the kind, or none |
| ProgressModal.ProgressModalState.UpdateStep | crates/gwt-cli/src/tui/widgets/progress_modal.rs:96-105 | only the step of that kind changes, as ApplyStatus says; the order of kinds is kept |
| ProgressModal.ProgressModalState.SetStepError | crates/gwt-cli/src/tui/widgets/progress_modal.rs:108-113 | the step fails with the message, the modal waits for a key, and the title becomes "Preparation Failed" |
| ProgressModal.ProgressModalState.MarkCompleted | crates/gwt-cli/src/tui/widgets/progress_modal.rs:116-119 | completed, with the completion time |
| ProgressModal.FreshModalPending | crates/gwt-cli/src/tui/widgets/progress_modal.rs:40-93 | a fresh modal is neither done nor failed and shows "Preparing Worktree..." |
| ProgressModal.ErrorLineAsWritten | crates/gwt-cli/src/tui/widgets/progress_modal.rs:188-203 | the written truncation panics exactly when the message is too long and the cut is not a UTF-8 character boundary |
| ProgressModal.ErrorLinePanics | crates/gwt-cli/src/tui/widgets/progress_modal.rs:188-203 | "ああ" at inner width 10 makes the written truncation slice inside a character |
| ProgressModal.FloorCharBoundary | crates/gwt-cli/src/tui/widgets/progress_modal.rs:194-195 | the largest character boundary at or below the cut |
| ProgressModal.ErrorLineCorrect | crates/gwt-cli/src/tui/widgets/progress_modal.rs:188-203 | the corrected line agrees with the written one when that does not panic, starts with the indent, keeps a whole-character prefix before "...", and is at most max(inner width, 9) bytes |
| ProgressModal.FirstOfKind | crates/gwt-cli/src/tui/widgets/progress_modal.rs:97 | the first step of the kind, or None when there is none |
| ProjectCommands.MatchHead | crates/gwt-tauri/src/commands/project.rs:291-302 | the first of the four GitHub heads the URL starts with and the text after it; None iff it starts with none |
| ProjectCommands.StripGit | crates/gwt-tauri/src/commands/project.rs:321 | the name without one trailing ".git", and whether it had one |
| ProjectCommands.ParsePair | crates/gwt-tauri/src/commands/project.rs:305-325 | accepted only for a non-empty valid owner and a non-empty valid name once ".git" is removed |
| ProjectCommands.ParsePath | crates/gwt-tauri/src/commands/project.rs:303-325 | accepted only when the path is owner '/' name followed by '/' characters, with both parts valid |
| ProjectCommands.ParseTrimmed | crates/gwt-tauri/src/commands/project.rs:282-325 | accepted only for text without '?' or '#' that is exactly a head, owner, '/', repository, optional ".git" and trailing '/' characters |
| ProjectCommands.ParseGithubRepoUrl | crates/gwt-tauri/src/commands/project.rs:280-326 | an accepted URL, once trimmed, is the text of a well-formed decomposition |
| ProjectCommands.HeadsDistinct | crates/gwt-tauri/src/commands/project.rs:291-302 | text starting with a head is matched by that head, not an earlier one |
| ProjectCommands.ParsePathRender | crates/gwt-tauri/src/commands/project.rs:303-325 | every well-formed owner, name, ".git" choice and count of trailing '/' is read back from its path |
| ProjectCommands.ParseRender | crates/gwt-tauri/src/commands/project.rs:280-326 | every well-formed decomposition is read back from its text |
| ProjectCommands.ValidIffRendered | crates/gwt-tauri/src/commands/project.rs:280-326 | a URL is accepted with a given decomposition exactly when its trimmed text is that decomposition's text |
| ProjectCommands.QueryRejected | crates/gwt-tauri/src/commands/project.rs:286-289 | a URL holding '?' or '#' is refused |
| ProjectCommands.OwnerOnlyRejected | crates/gwt-tauri/src/commands/project.rs:309-312 | an owner with no repository segment is refused, whatever trailing '/' follow |
| ProjectCommands.ThirdSegmentRejected | crates/gwt-tauri/src/commands/project.rs:313-315 | a path with a third segment is refused |
| ProjectCommands.RunEnd | crates/gwt-tauri/src/commands/project.rs:356-359 | the end of the digit run: everything before it is a digit and it is the end or a non-digit |
| ProjectCommands.PercentFrom | crates/gwt-tauri/src/commands/project.rs:350-373 | the value of the first whole digit run directly followed by '%' whose value is at most 100; None iff there is no such run |
| ProjectCommands.ExtractPercent | crates/gwt-tauri/src/commands/project.rs:350-373 | the byte loop returns exactly that first percentage |
| ProjectCommands.ParseCloneProgressLine | crates/gwt-tauri/src/commands/project.rs:333-348 | a progress value exactly for trimmed lines starting with "Receiving objects:" or "Resolving deltas:" that hold a percentage; the stage is "receiving" iff the line is a receiving line |
| ProjectCommands.PercentStep | crates/gwt-tauri/src/commands/project.rs:350-373 | one pass of the scan: it moves past the next digit run, and either finds the percentage the whole scan returns or leaves the answer to the rest of the line |
| ProjectCommands.ScanRun | crates/gwt-tauri/src/commands/project.rs:356-359 | the inner loop stops at the first non-digit after the start, which is where the digit run ends |
| Scrollback.CsiRest | crates/gwt-core/src/terminal/scrollback.rs:228-238 | the CSI scan resumes at a suffix of the body, just past the first byte in 0x40–0x7e (or at the end) |
| Scrollback.OscRest | crates/gwt-core/src/terminal/scrollback.rs:239-253 | the OSC scan resumes at a suffix of the body, just past BEL or ESC '\' (or at the end) |
| Scrollback.EscapeRest | crates/gwt-core/src/terminal/scrollback.rs:221-262 | an escape sequence always consumes the ESC and at least the byte after it; what remains is a suffix |
| Scrollback.StripWith | crates/gwt-core/src/terminal/scrollback.rs:216-275 | the output is never longer than the input and holds no control byte other than LF, CR and TAB, and never DEL |
| Scrollback.StripAnsi | crates/gwt-core/src/terminal/scrollback.rs:216-275 | corrected (see Findings): the index loop pushing into `out` produces exactly the stripped bytes Strip(input); the final lossy UTF-8 decoding is left out (see Left out) |
| Scrollback.SkipEscape | crates/gwt-core/src/terminal/scrollback.rs:221-262 | from an ESC with a following byte, the loop index lands where the escape sequence ends |
| Scrollback.EscapeAtEnd | crates/gwt-core/src/terminal/scrollback.rs:223-226 | a lone ESC as the last byte ends the loop and contributes nothing |
| Scrollback.EscapeStep | crates/gwt-core/src/terminal/scrollback.rs:221-262 | skipping an escape sequence leaves the remaining output unchanged |
| Scrollback.ByteStep | crates/gwt-core/src/terminal/scrollback.rs:263-272 | a non-ESC byte is pushed exactly when it is printable or LF, CR, TAB |
| Scrollback.SkipCsi | crates/gwt-core/src/terminal/scrollback.rs:230-237 | the CSI loop stops just past the first final byte, or at the end of the input |
| Scrollback.SkipOsc | crates/gwt-core/src/terminal/scrollback.rs:241-252 | the OSC loop stops just past BEL or ESC '\', or at the end of the input |
| Scrollback.PlainTextUnchanged | crates/gwt-core/src/terminal/scrollback.rs:263-272 | input with no ESC and no removable control byte is returned unchanged |
| Scrollback.CsiRestSkipsBody | crates/gwt-core/src/terminal/scrollback.rs:231-236 | the CSI scan passes over non-final bytes and stops right after the first final byte |
| Scrollback.CsiSequenceRemoved | crates/gwt-core/src/terminal/scrollback.rs:228-238 | ESC [ body final is removed entirely and the rest is stripped as if it stood alone |
| Scrollback.OscRestSkipsBody | crates/gwt-core/src/terminal/scrollback.rs:242-252 | the OSC scan passes over the body and stops right after its BEL or ESC '\' terminator |
| Scrollback.OscSequenceRemoved | crates/gwt-core/src/terminal/scrollback.rs:239-253 | ESC ] body followed by BEL or ESC '\' is removed entirely |
| Scrollback.CharsetDesignatorKeptAsWritten | crates/gwt-core/src/terminal/scrollback.rs:254-257 | as written, ESC ( B strips to "B", because only the introducer is skipped; as intended it strips to nothing |
| Scrollback.ScrollbackFile.constructor | crates/gwt-core/src/terminal/scrollback.rs:44-56 | a newly opened file has written nothing and a line count of 0 |
| Scrollback.ScrollbackFile.Write | crates/gwt-core/src/terminal/scrollback.rs:62-70 | a successful write appends the data and adds exactly its number of '\n' bytes to the line count; a failed write changes nothing |
| Scrollback.TailStart | crates/gwt-core/src/terminal/scrollback.rs:167-171 | the tail read starts at 0 iff max_bytes is 0 or the file fits, else at len − max_bytes |
| Scrollback.ReadTail | crates/gwt-core/src/terminal/scrollback.rs:156-184 | the result is a suffix of the file: all of it when max_bytes is 0, else min(len, max_bytes) bytes |
| SessionCommands.TaskIdShape | crates/gwt-tauri/src/commands/sessions.rs:261-269 | "T" + rest looks like a task id iff the rest is non-empty and all ASCII digits |
| SessionCommands.TaskIdUpper | crates/gwt-tauri/src/commands/sessions.rs:241 | a token that looks like a task id is already upper case, so to_ascii_uppercase keeps it |
| SessionCommands.TrimNonAlnumStart | crates/gwt-tauri/src/commands/sessions.rs:239 | the leading run of non-alphanumerics is removed, leaving a suffix that starts with a letter or digit |
| SessionCommands.TrimNonAlnumEnd | crates/gwt-tauri/src/commands/sessions.rs:239 | the trailing run of non-alphanumerics is removed, leaving a prefix that ends with a letter or digit |
| SessionCommands.TrimNonAlnum | crates/gwt-tauri/src/commands/sessions.rs:239 | trim_matches(non-alphanumeric): empty, or starting and ending with an ASCII letter or digit |
| SessionCommands.FirstWhere | crates/gwt-tauri/src/commands/sessions.rs:238-244 | the index of the first element satisfying the test, None iff none does |
| SessionCommands.FirstTaskId | crates/gwt-tauri/src/commands/sessions.rs:237-244 | an id is found iff some token trims to a task id, and what is found looks like one |
| SessionCommands.FirstTaskIdAt | crates/gwt-tauri/src/commands/sessions.rs:238-243 | the id found is the first id token, trimmed (and already upper case) |
| SessionCommands.FindTaskId | crates/gwt-tauri/src/commands/sessions.rs:237-244 | the token loop with its break returns the first whitespace token that trims to a task id |
| SessionCommands.TaskLine | crates/gwt-tauri/src/commands/sessions.rs:222-235 | only lines starting (after leading blanks) with "- [ ]", "- [x]" or "- [X]" and having non-blank text count; completed iff the box is ticked; the text is trimmed |
| SessionCommands.TaskLineOf | crates/gwt-tauri/src/commands/sessions.rs:223-228 | a ticked box in either case reads as completed, the empty box as pending, each with the trimmed text |
| SessionCommands.LineTask | crates/gwt-tauri/src/commands/sessions.rs:221-255 | a line contributes one well-formed task iff it is a checklist line with text, else none |
| SessionCommands.LineTaskOf | crates/gwt-tauri/src/commands/sessions.rs:245-255 | the contributed task has the found id or "TASK-(count+1)", the trimmed text and "completed" or "pending" |
| SessionCommands.AssignTaskId | crates/gwt-tauri/src/commands/sessions.rs:237-245 | the id found in the text, or "TASK-k" with k = tasks so far + 1 |
| SessionCommands.TasksOf | crates/gwt-tauri/src/commands/sessions.rs:218-259 | at most one task per line, each with trimmed non-empty text and a pending or completed status |
| SessionCommands.TasksOfStep | crates/gwt-tauri/src/commands/sessions.rs:221-256 | one more line appends exactly what that line contributes, numbered after the tasks so far |
| SessionCommands.TasksOfCount | crates/gwt-tauri/src/commands/sessions.rs:218-259 | there is exactly one task per checklist line with text |
| SessionCommands.ParseTasksMarkdown | crates/gwt-tauri/src/commands/sessions.rs:218-259 | the line loop pushes exactly the tasks of the content's lines, in order |
| SessionCommands.CanonicalToolId | crates/gwt-tauri/src/commands/sessions.rs:480-486 | an alias maps to one of claude-code, codex-cli, gemini-cli, opencode; anything else is kept |
| SessionCommands.LowerKeepsTrim | crates/gwt-tauri/src/commands/sessions.rs:479 | lower-casing trimmed text keeps it trimmed |
| SessionCommands.CanonicalLower | crates/gwt-tauri/src/commands/sessions.rs:480-486 | each canonical id is trimmed and lower case |
| SessionCommands.CanonicalSelf | crates/gwt-tauri/src/commands/sessions.rs:480-486 | each canonical id is its own canonical form |
| SessionCommands.NormalFormFixed | crates/gwt-tauri/src/commands/sessions.rs:478-487 | trimmed, lower-case, canonical text is left unchanged |
| SessionCommands.NormalizeToolIdIdempotent | crates/gwt-tauri/src/commands/sessions.rs:478-487 | normalize_tool_id is idempotent |
| SessionCommands.AliasesAgree | crates/gwt-tauri/src/commands/sessions.rs:479-481 | "claude" and "claude-code" in any ASCII case and spacing both normalise to "claude-code" |
| SessionCommands.NormalizeBranchName | crates/gwt-tauri/src/commands/sessions.rs:489-495 | the trimmed branch with one leading "origin/" removed, else the trimmed branch |
| SessionCommands.NormalizeBranchStable | crates/gwt-tauri/src/commands/sessions.rs:489-495 | a result that is trimmed and does not start with "origin/" is a fixed point |
| SessionCommands.NormalizeBranchTwice | crates/gwt-tauri/src/commands/sessions.rs:491-493 | only one "origin/" goes: "origin/origin/x" gives "origin/x", which gives "x", so the function is not idempotent in general |
| SessionCommands.HasKeySnoc | crates/gwt-tauri/src/commands/sessions.rs:284-293 | the keys present after one more entry are the old keys plus its key |
| SessionCommands.FirstPerKey | crates/gwt-tauri/src/commands/sessions.rs:282-294 | keeps one entry per key, drawn from the input, with exactly the input's keys |
| SessionCommands.FirstPerKeySnoc | crates/gwt-tauri/src/commands/sessions.rs:290-292 | an entry is kept exactly when its key has not been seen |
| SessionCommands.LatestSnoc | crates/gwt-tauri/src/commands/sessions.rs:280-293 | an entry no newer than all before it keeps every kept entry the newest of its key |
| SessionCommands.FirstPerKeyLatest | crates/gwt-tauri/src/commands/sessions.rs:280-293 | over a list ordered newest first, each kept entry is at least as new as every entry with its key |
| SessionCommands.DedupeCurrentSubAgents | crates/gwt-tauri/src/commands/sessions.rs:278-295 | one entry per normalised (tool, branch) key, drawn from the input, covering every key, and each the newest of its key |
| SessionCommands.NewestFirst | crates/gwt-tauri/src/commands/sessions.rs:280-293 | after the newest-first sort the kept entries come from the input, cover its keys and are the newest per key |
| SessionCommands.FirstPerKeyNewest | crates/gwt-tauri/src/commands/sessions.rs:280-293 | the first entry per key of a newest-first list is the newest of that key among the original entries |
| SessionCommands.NewestFirstOrder | crates/gwt-tauri/src/commands/sessions.rs:280 | the sort by b.timestamp.cmp(a.timestamp) leaves timestamps non-increasing |
| SessionCommands.DedupeStep | crates/gwt-tauri/src/commands/sessions.rs:284-293 | one loop step pushes the entry exactly when seen.insert(key) succeeds, and adds its key to seen |
| SessionCommands.SameKeys | crates/gwt-tauri/src/commands/sessions.rs:280 | reordering entries keeps the set of keys |
| SessionCommands.TaskStatus | crates/gwt-tauri/src/commands/sessions.rs:136-149 | running iff some sub-agent runs; else completed iff the checklist says so; else failed iff some sub-agent failed; else pending |
| SessionCommands.TaskStatusRank | crates/gwt-tauri/src/commands/sessions.rs:497-505 | rank below 4 exactly for running, pending, failed, completed |
| SessionCommands.RankOrder | crates/gwt-tauri/src/commands/sessions.rs:497-505 | running < pending < failed < completed |
| SessionCommands.TaskStatusRanked | crates/gwt-tauri/src/commands/sessions.rs:136-155 | every status a task can get ranks before unknown statuses |
| SessionCommands.TaskLePreorder | crates/gwt-tauri/src/commands/sessions.rs:151-155 | the rank-then-id comparison is total and transitive |
| SessionCommands.SortTasks | crates/gwt-tauri/src/commands/sessions.rs:151-155 | a permutation of the tasks ordered by status rank, and by id within one status |
| SessionCommands.LooksLikeTaskId | crates/gwt-tauri/src/commands/sessions.rs:261-269 | a task id has at least two characters, ends in a digit and holds no second "T" |
| SessionCommands.NormalizeToolId | crates/gwt-tauri/src/commands/sessions.rs:478-487 | the result is a canonical id or the trimmed, lower-cased input, and is itself trimmed and lower case |
| SessionCommands.KeepFirstPerKey | crates/gwt-tauri/src/commands/sessions.rs:284-293 | the seen-set loop keeps exactly the first entry of each key, in the order of the sorted list |
| SessionParser.FromToolId | crates/gwt-core/src/ai/session_parser/mod.rs:42-57 | the lower-cased id is tested for "claude", "codex", "gemini", then "opencode"/"open-code"; the first marker present decides, none gives None |
| SessionParser.FromToolIdIgnoresCase | crates/gwt-core/src/ai/session_parser/mod.rs:43 | upper-casing the id never changes the detected agent |
| SessionParser.ClaudeTakesPriority | crates/gwt-core/src/ai/session_parser/mod.rs:44-46 | any id containing "claude" is Claude Code, whatever other markers it holds |
| SessionParser.MapRole | crates/gwt-core/src/ai/session_parser/mod.rs:410-419 | User iff "user" or "human" occurs; Assistant iff neither does and "assistant", "ai" or "model" does; otherwise None |
| SessionParser.MapRoleUserFirst | crates/gwt-core/src/ai/session_parser/mod.rs:412-413 | a value containing "user" maps to User even when it also names the assistant |
| SessionParser.TimestampFromI64 | crates/gwt-core/src/ai/session_parser/mod.rs:522-531 | values ≤ 0 give None; values up to 10^12 are seconds; larger values are milliseconds and exist only within the date library's range |
| SessionParser.SecondsAndMillisAgree | crates/gwt-core/src/ai/session_parser/mod.rs:526-530 | a seconds value above 10^9 and the same instant in milliseconds decode to the same instant |
| SessionParser.TimeBounds.Update | crates/gwt-core/src/ai/session_parser/mod.rs:233-244 | an absent timestamp changes nothing; a present one makes the start the minimum and the end the maximum, keeping start ≤ every timestamp seen ≤ end |
| SessionParser.SessionBounds | crates/gwt-core/src/ai/session_parser/mod.rs:147-161 | after folding every timestamp, the bounds exist iff some timestamp does, both are timestamps seen, and start ≤ every timestamp ≤ end |
| SessionParser.SampleMessages | crates/gwt-core/src/ai/session_parser/mod.rs:246-269 | identity when total_turns ≤ 1000 or at most 60 messages; otherwise exactly 60: the first 20, a centred window of 20 clear of both ends, and the last 20 |
| SessionParser.TimeBounds.constructor | crates/gwt-core/src/ai/session_parser/mod.rs:132-133 | both bounds start unset, with nothing seen |
| TerminalManager.NextPrevInverse | crates/gwt-core/src/terminal/manager.rs:66-79 | next_tab and prev_tab undo each other on a non-empty tab list |
| TerminalManager.FindPaneIndexByBranch | crates/gwt-core/src/terminal/manager.rs:221-225 | the result is the first index whose pane runs the branch; None iff no pane does |
| TerminalManager.PaneManager.AddPane | crates/gwt-core/src/terminal/manager.rs:33-37 | appends the pane and makes it active (active index = len - 1) |
| TerminalManager.PaneManager.ClosePane | crates/gwt-core/src/terminal/manager.rs:40-55 | out-of-range index returns None and changes nothing; otherwise removes that pane and clamps the active index, keeping it in bounds (0 when empty) |
| TerminalManager.PaneManager.CloseActivePane | crates/gwt-core/src/terminal/manager.rs:58-63 | None on an empty manager, else removes the active pane |
| TerminalManager.PaneManager.NextTab | crates/gwt-core/src/terminal/manager.rs:66-71 | no-op when empty, else advances the active index modulo the pane count |
| TerminalManager.PaneManager.PrevTab | crates/gwt-core/src/terminal/manager.rs:74-79 | no-op when empty, else steps back modulo the pane count |
| TerminalManager.PaneManager.ActivePane | crates/gwt-core/src/terminal/manager.rs:82-84 | the pane at the active index, None iff there are no panes |
| TerminalManager.PaneManager.SetActiveIndex | crates/gwt-core/src/terminal/manager.rs:228-232 | out-of-bounds indices are ignored |
| TerminalManager.PaneManager.ToggleFullscreen | crates/gwt-core/src/terminal/manager.rs:101-103 | flips the fullscreen flag |
| TerminalManager.CloseBeforeActiveShiftsFocus | crates/gwt-core/src/terminal/manager.rs:40-55 | closing a pane before the active one leaves the index unchanged, so focus moves to the next pane |
| TerminalManager.NextIndex | crates/gwt-core/src/terminal/manager.rs:66-71 | the next tab index wraps from the last tab to the first |
| TerminalManager.PrevIndex | crates/gwt-core/src/terminal/manager.rs:74-79 | the previous tab index wraps from the first tab to the last |
| TerminalManager.ClampedActive | crates/gwt-core/src/terminal/manager.rs:40-55 | after a close the active index stays in range and is kept when it still is |
| TerminalManager.PaneManager.constructor | crates/gwt-core/src/terminal/manager.rs:24-30 | no panes, active index 0, not fullscreen |
| TerminalRunner.ShimRecognised | crates/gwt-core/src/terminal/runner.rs:14-19 | a path containing node_modules/.bin with either '/' or '\' as separator is recognised as a shim |
| TerminalRunner.ChooseFallbackRunner | crates/gwt-core/src/terminal/runner.rs:21-34 | Bunx iff a bunx path exists that is not a shim; otherwise Npx iff npx is available; otherwise None |
| TerminalRunner.BuildFallbackLaunch | crates/gwt-core/src/terminal/runner.rs:131-158 | the package is the last of one or two arguments, "--yes" is passed exactly for npx, and the executable is the resolved path or else the bare runner name |
| TerminalRunner.LaunchEndsWithPackage | crates/gwt-core/src/terminal/runner.rs:136-158 | the package is always the last argument and "--yes" appears iff the runner is npx |
| TmuxLauncher.ExportCommand | crates/gwt-core/src/tmux/launcher.rs:128 | the command starts with `export KEY=`; ExportReadsBack states that the rest reads back as the value |
| TmuxLauncher.ExportText | crates/gwt-core/src/tmux/launcher.rs:126-129 | the text the loops format is the export command of the key and value |
| TmuxLauncher.EnvCommands | crates/gwt-core/src/tmux/launcher.rs:117-133 | there is one command per removed variable and one per variable to set |
| TmuxLauncher.Unsets | crates/gwt-core/src/tmux/launcher.rs:120-123 | one `unset` command per removed variable, in order |
| TmuxLauncher.Exports | crates/gwt-core/src/tmux/launcher.rs:125-130 | one export command per variable, in order |
| TmuxLauncher.EnvCommandsOrder | crates/gwt-core/src/tmux/launcher.rs:117-133 | all unsets come first in the given order, then all exports |
| TmuxLauncher.EnvSetupEmptyIff | crates/gwt-core/src/tmux/launcher.rs:117-133 | the setup text is empty exactly when there is nothing to set and nothing to remove |
| TmuxLauncher.BuildEnvSetup | crates/gwt-core/src/tmux/launcher.rs:117-133 | the loops return the commands joined by "; ", empty exactly when there is nothing to set or remove |
| TmuxLauncher.ParsePaneInfo | crates/gwt-core/src/tmux/launcher.rs:136-152 | succeeds exactly when the trimmed output has a ':' and the text after the first one parses as a u32; the pane id is the text before it |
| TmuxLauncher.SplitNTwo | crates/gwt-core/src/tmux/launcher.rs:138 | splitting in at most two gives two pieces exactly when there is a ':', and they surround the first one |
| TmuxLauncher.SplitNOne | crates/gwt-core/src/tmux/launcher.rs:138-144 | fewer than two pieces means the text has no ':' |
| TmuxLauncher.PaneInfoRoundTrip | crates/gwt-core/src/tmux/launcher.rs:136-152 | a pane id without ':' or leading whitespace and a u32 pid are read back from "id:pid" |
| TmuxLauncher.PaneInfoNeedsColon | crates/gwt-core/src/tmux/launcher.rs:140-144 | output without ':' is refused |
| TmuxLauncher.TrimIsInfix | crates/gwt-core/src/tmux/launcher.rs:137 | every character of the trimmed output comes from the output |
| TmuxLauncher.ModelFlag | crates/gwt-core/src/tmux/launcher.rs:176-180 | no flag for a missing or empty model, otherwise " --model" and the model |
| TmuxLauncher.ModeFlag | crates/gwt-core/src/tmux/launcher.rs:182-192 | continue and resume add their flag and then the session id when given; other modes add nothing |
| TmuxLauncher.AgentInvocation | crates/gwt-core/src/tmux/launcher.rs:173-201 | the invocation starts with the agent name and ends with the skip flag when asked; without flags it is the name alone |
| TmuxLauncher.InvocationText | crates/gwt-core/src/tmux/launcher.rs:173-197 | the flag pushes build exactly the specified invocation |
| TmuxLauncher.ExportParts | crates/gwt-core/src/tmux/launcher.rs:166-170 | the loop gives one export per variable in order, none exactly when there are no variables |
| TmuxLauncher.BuildAgentCommand | crates/gwt-core/src/tmux/launcher.rs:155-206 | without environment the command is the invocation; otherwise the exports and then the invocation joined by "; " |
| TmuxLauncher.JoinEndsWithLast | crates/gwt-core/src/tmux/launcher.rs:204 | joined parts end with the separator and the last part |
| TmuxLauncher.InvocationComesLast | crates/gwt-core/src/tmux/launcher.rs:200-205 | with an environment, the command ends with "; " and the invocation, after every export |
| TmuxLauncher.ExportReadsBack | crates/gwt-core/src/tmux/launcher.rs:126-129 | a POSIX shell reads the word after `export KEY=` back as exactly the value, whatever quotes it holds |
| TmuxPane.ParsePaneLine | crates/gwt-core/src/tmux/pane.rs:221-233 | a line yields a pane exactly when splitting it into at most 4 ':' fields gives at least 3 |
| TmuxPane.ParsePaneLines | crates/gwt-core/src/tmux/pane.rs:217-235 | at most one pane per line; empty lines are skipped |
| TmuxPane.PaneLineWithPath | crates/gwt-core/src/tmux/pane.rs:222-229 | id:pid:cmd:path parses to that pane, and the path keeps any ':' it contains |
| TmuxPane.PaneLineWithoutPath | crates/gwt-core/src/tmux/pane.rs:222-229 | id:pid:cmd parses to a pane with no path |
| TmuxPane.PaneLineTooShort | crates/gwt-core/src/tmux/pane.rs:223-232 | a line with fewer than two ':' separators is dropped |
| TmuxPane.ParseGeometryLine | crates/gwt-core/src/tmux/pane.rs:243-255 | a geometry is produced only from exactly 5 fields, and all four numbers fit in u16 |
| TmuxPane.ParseGeometryLines | crates/gwt-core/src/tmux/pane.rs:239-257 | at most one geometry per line; empty lines are skipped |
| TmuxPane.SplitFiveFields | crates/gwt-core/src/tmux/pane.rs:244 | splitn(5, ':') on id:a:b:c:d gives the five fields when only the last may hold ':' |
| TmuxPane.GeometryLineRoundTrip | crates/gwt-core/src/tmux/pane.rs:239-257 | the printed form id:left:top:width:height of a geometry parses back to that geometry |
| TmuxPane.GeometryLineExtraFieldRejected | crates/gwt-core/src/tmux/pane.rs:244-254 | a sixth field lands inside the height field, which then fails to parse, so the line is dropped |
| TmuxPane.AddToGroups | crates/gwt-core/src/tmux/pane.rs:264-266 | adding a pane to the ordered map always leaves at least one column |
| TmuxPane.AddToGroupsAbove | crates/gwt-core/src/tmux/pane.rs:265 | inserting a key never creates a key below both the new pane's and the existing ones |
| TmuxPane.AllPanesCons | crates/gwt-core/src/tmux/pane.rs:260-283 | the panes of a group list are the first group's panes followed by the rest's |
| TmuxPane.AddToGroupsKeepsShape | crates/gwt-core/src/tmux/pane.rs:265 | entry(left).or_default().push(pane) keeps keys strictly increasing, each group non-empty with one shared left, and adds exactly the pane |
| TmuxPane.AddToGroupsSorted | crates/gwt-core/src/tmux/pane.rs:261-266 | the map stays ordered by strictly increasing left |
| TmuxPane.AddToGroupsWellFormed | crates/gwt-core/src/tmux/pane.rs:265 | every group stays non-empty with all panes sharing its left |
| TmuxPane.AddToGroupsPanes | crates/gwt-core/src/tmux/pane.rs:265 | the multiset of grouped panes grows by exactly the added pane |
| TmuxPane.InsertByTop | crates/gwt-core/src/tmux/pane.rs:271 | inserting a pane into a column's list adds exactly that pane |
| TmuxPane.SortByTop | crates/gwt-core/src/tmux/pane.rs:271 | sort_by_key(top) is a permutation of the column's panes |
| TmuxPane.InsertByTopSorted | crates/gwt-core/src/tmux/pane.rs:271 | inserting into a list ordered by top keeps it ordered by top |
| TmuxPane.SortByTopSorted | crates/gwt-core/src/tmux/pane.rs:271 | the sorted column lists its panes by non-decreasing top |
| TmuxPane.Ids | crates/gwt-core/src/tmux/pane.rs:274 | pane_ids lists each pane's id, in order |
| TmuxPane.MaxWidth | crates/gwt-core/src/tmux/pane.rs:272 | the column width is the largest pane width (attained by some pane), 0 for no panes |
| TmuxPane.GroupsOfStep | crates/gwt-core/src/tmux/pane.rs:264-266 | one loop iteration keeps the map equal to the grouping of the panes seen so far |
| TmuxPane.CollectGroups | crates/gwt-core/src/tmux/pane.rs:261-266 | the loop builds groups ordered by left that hold exactly the input panes, each pane in the group of its left |
| TmuxPane.GroupPanesByLeft | crates/gwt-core/src/tmux/pane.rs:260-283 | one column per distinct left in increasing order, each built from its group, and every input pane in exactly one column |
| TmuxPane.ColumnFacts | crates/gwt-core/src/tmux/pane.rs:268-281 | a column lists its panes top to bottom, as a permutation of its group, keeps its left, and its width is the widest pane's (attained by a pane when there is one) |
| TmuxPane.SumHeightInsert | crates/gwt-core/src/tmux/pane.rs:273 | inserting a pane adds its height to the sum |
| TmuxPane.SumHeightSorted | crates/gwt-core/src/tmux/pane.rs:271-273 | sorting by top does not change the total height |
| TmuxPane.SumHeightSnoc | crates/gwt-core/src/tmux/pane.rs:273 | the last pane's height adds to the sum of the others |
| TmuxPane.SumHeightConcat | crates/gwt-core/src/tmux/pane.rs:273 | the height sum of two lists together is the sum of their sums |
| TmuxPane.ComputeEqualSplits | crates/gwt-core/src/tmux/pane.rs:286-298 | exactly `parts` entries, none when parts is 0, and for parts ≤ 65535 each entry is total / parts plus one for the first total % parts entries |
| TmuxPane.EqualSplitSumsToTotal | crates/gwt-core/src/tmux/pane.rs:285-298 | the splits sum to total, and no two entries differ by more than one |
| TmuxPane.SplitSum | crates/gwt-core/src/tmux/pane.rs:291-296 | base in every entry plus one in the first `rem` entries sums to base × n + rem |
| TmuxPane.IsDuplicateLaunch | crates/gwt-core/src/tmux/pane.rs:593-597 | true iff some running pane has both the same branch and the same agent |
| TmuxPane.FirstContained | crates/gwt-core/src/tmux/pane.rs:747-765 | the result is the first name that occurs in the text, None iff none does |
| TmuxPane.DetectAgentName | crates/gwt-core/src/tmux/pane.rs:743-766 | the lowercased command is searched for claude, codex, aider, cursor, cline, copilot, gemini, gpt in that order; the first hit wins, else None |
| TmuxPane.ColumnHeight | crates/gwt-core/src/tmux/pane.rs:273 | total_height is the u16 sum of the panes' heights: the exact sum while it fits, its low 16 bits past that (the release-build wrap) |
| TuiApp.ResolveOrphanedAgentName | crates/gwt-cli/src/tui/app.rs:56-72 | a non-blank session tool id wins, else the trimmed fallback, else "unknown"; the name is never blank |
| TuiApp.PlainId | crates/gwt-cli/src/tui/app.rs:4357 | an id of lower-case letters and hyphens is unchanged by trimming and lower-casing |
| TuiApp.CanonicalIdsFixed | crates/gwt-cli/src/tui/app.rs:4356-4371 | claude-code, codex-cli, gemini-cli and opencode map to themselves |
| TuiApp.CanonicalClaude | crates/gwt-cli/src/tui/app.rs:4358-4360 | "claude-code" is recognised as Claude |
| TuiApp.CanonicalCodex | crates/gwt-cli/src/tui/app.rs:4361-4363 | "codex-cli" is recognised as Codex, not Claude |
| TuiApp.CanonicalGemini | crates/gwt-cli/src/tui/app.rs:4364-4366 | "gemini-cli" is recognised as Gemini, not Claude or Codex |
| TuiApp.CanonicalOpenCode | crates/gwt-cli/src/tui/app.rs:4367-4369 | "opencode" is recognised as OpenCode and no earlier agent |
| TuiApp.CanonicalIdempotent | crates/gwt-cli/src/tui/app.rs:4356-4371 | canonicalising a canonical id changes nothing |
| TuiApp.IsValidEnvName | crates/gwt-cli/src/tui/app.rs:4504-4511 | a valid variable name has no space, '=', ';', quote or '$' and does not start with a digit |
| TuiApp.UnsetParts | crates/gwt-cli/src/tui/app.rs:4532-4537 | every unset names a valid key to remove, one at most per key |
| TuiApp.ExportParts | crates/gwt-cli/src/tui/app.rs:4540-4546 | every export names a valid key with its shell-escaped value |
| TuiApp.UnsetPartsEmpty | crates/gwt-cli/src/tui/app.rs:4532-4537 | no unset is produced exactly when no key to remove is valid |
| TuiApp.ExportPartsEmpty | crates/gwt-cli/src/tui/app.rs:4540-4546 | no export is produced exactly when no variable name is valid |
| TuiApp.JoinLast | crates/gwt-cli/src/tui/app.rs:4553 | joining ends with the last part |
| TuiApp.TmuxCommandBare | crates/gwt-cli/src/tui/app.rs:4548-4549 | with no valid name the bare command is returned |
| TuiApp.TmuxCommandPrefixed | crates/gwt-cli/src/tui/app.rs:4525-4555 | with a valid name the unsets, then the exports, then the command are joined by "; " |
| TuiApp.BuildTmuxCommand | crates/gwt-cli/src/tui/app.rs:4525-4555 | the loops build exactly the unsets-then-exports command line |
| TuiApp.StripGithubPrefix | crates/gwt-cli/src/tui/app.rs:4564-4576 | the remainder after the first of the five GitHub prefixes; none when the URL has none of them |
| TuiApp.TrimGitSuffixes | crates/gwt-cli/src/tui/app.rs:4578 | every trailing ".git" is removed, leaving a prefix |
| TuiApp.TrimSlashes | crates/gwt-cli/src/tui/app.rs:4578 | every trailing '/' is removed, leaving a prefix |
| TuiApp.GithubRepoSlug | crates/gwt-cli/src/tui/app.rs:4563-4584 | for the first of the five prefixes the URL starts with, the slug is the rest with trailing ".git" then trailing "/" removed, None when that is empty; None when no prefix matches; a slug never ends with "/" |
| TuiApp.TrimSlug | crates/gwt-cli/src/tui/app.rs:4578 | a slug that does not end in ".git" or '/' survives the trimming, with its ".git" ending removed |
| TuiApp.HttpsSlug | crates/gwt-cli/src/tui/app.rs:4563-4584 | https://github.com/<slug>.git gives back the slug |
| TuiApp.SshSlug | crates/gwt-cli/src/tui/app.rs:4563-4584 | git@github.com:<slug>.git gives back the slug |
| TuiApp.NotSet | crates/gwt-cli/src/tui/app.rs:2022 | the kept keys are exactly the disabled keys the profile does not set |
| TuiApp.Dedup | crates/gwt-cli/src/tui/app.rs:2024 | deduplication keeps the same keys and leaves no equal neighbours |
| TuiApp.DedupSorted | crates/gwt-cli/src/tui/app.rs:2023-2024 | deduplicating a sorted list keeps it sorted |
| TuiApp.StrLePreorder | crates/gwt-cli/src/tui/app.rs:2023 | string order is a total preorder |
| TuiApp.ActiveEnvRemovals | crates/gwt-cli/src/tui/app.rs:2017-2028 | exactly the disabled keys not set by the active profile, in strictly increasing order; none without a profile |
| TuiApp.RemovalsStrictlyOrdered | crates/gwt-cli/src/tui/app.rs:2017-2028 | any earlier removal sorts strictly before any later one, so none repeats |
| TuiApp.CanonicalPlain | crates/gwt-cli/src/tui/app.rs:4356-4371 | on a trimmed lower-case id the canonical id depends only on which tool name it contains, claude first |
| TuiApp.GithubSlugRoundTrip | crates/gwt-cli/src/tui/app.rs:4563-4584 | under each of the five prefixes, with or without a trailing ".git", a slug that does not end in ".git" or "/" is read back |
| TuiApp.StripFrom | crates/gwt-cli/src/tui/app.rs:4564-4576 | the prefix chain stops at the first listed prefix the URL starts with and returns the text after it |
| TuiApp.CanonicalToolId | crates/gwt-cli/src/tui/app.rs:4356-4371 | the result is one of the four canonical ids or the trimmed id itself; an id mentioning claude in any case is claude-code |
| TuiApp.TmuxCommand | crates/gwt-cli/src/tui/app.rs:4525-4555 | the agent command always ends the command line |
| TuiError.ErrorState.ScrollDown | crates/gwt-cli/src/tui/screens/error.rs:85-89 | moves one line down only while a later details line exists; the offset stays ≤ details.len() − 1 and nothing else changes |
| TuiError.ErrorState.ScrollUp | crates/gwt-cli/src/tui/screens/error.rs:92-96 | saturating decrement of the offset, never below 0 |
| TuiError.ScrollDownThenUp | crates/gwt-cli/src/tui/screens/error.rs:85-96 | n scrolls down followed by n scrolls up return to the top |
| TuiError.FromError | crates/gwt-cli/src/tui/screens/error.rs:43-50 | title "Error", the message, Error severity, no code/details/suggestions, offset 0 |
| TuiError.WithWarningSeverity | crates/gwt-cli/src/tui/screens/error.rs:71-75 | severity Warning with title "Warning", message and details kept |
| TuiError.WithInfoSeverity | crates/gwt-cli/src/tui/screens/error.rs:78-82 | severity Info with title "Information", message and details kept |
| TuiError.ErrorQueue.Push | crates/gwt-cli/src/tui/screens/error.rs:159-165 | on an empty queue the error becomes current, else it is appended to pending; the queue contents grow by the error at the back |
| TuiError.ErrorQueue.DismissCurrent | crates/gwt-cli/src/tui/screens/error.rs:168-170 | the head of pending becomes current (None when pending is empty); contents lose their first element |
| TuiError.ErrorQueue.IsEmpty | crates/gwt-cli/src/tui/screens/error.rs:183-185 | true iff nothing is queued |
| TuiError.ErrorQueue.TotalCount | crates/gwt-cli/src/tui/screens/error.rs:188-194 | 0 without a current error, else 1 + pending count, i.e. the number of queued errors |
| TuiError.ErrorQueue.PositionString | crates/gwt-cli/src/tui/screens/error.rs:206-213 | Some("(1/n)") iff more than one error is queued |
| TuiError.ErrorQueue.Clear | crates/gwt-cli/src/tui/screens/error.rs:216-219 | no current and no pending errors afterwards |
| TuiError.ErrorQueue.ScrollCurrent | crates/gwt-cli/src/tui/screens/error.rs:178-180 | scrolls the shown error through current_mut, keeping its offset in range |
| TuiError.ErrorQueue.constructor | crates/gwt-cli/src/tui/screens/error.rs:154-156 | an empty queue with nothing current |
| TuiError.ErrorQueue.Contents | crates/gwt-cli/src/tui/screens/error.rs:188-194 | the current error followed by the pending ones; empty when nothing is current |
| TuiError.ErrorQueue.CurrentPosition | crates/gwt-cli/src/tui/screens/error.rs:197-203 | 1 while an error is shown, else 0 |
| TuiError.ScrollDownN | crates/gwt-cli/src/tui/screens/error.rs:85-89 | repeated scrolling down keeps the offset in range and the details unchanged |
| TuiError.ScrollUpN | crates/gwt-cli/src/tui/screens/error.rs:92-96 | repeated scrolling up keeps the offset in range and the details unchanged |
| TuiError.ScrollDownNBound | crates/gwt-cli/src/tui/screens/error.rs:85-89 | n steps down move the offset by at most n |
| TuiError.ScrollUpNFloor | crates/gwt-cli/src/tui/screens/error.rs:92-96 | n steps up are a saturating subtraction of n |
| TuiPortSelect.BuildConflictCandidates | crates/gwt-cli/src/tui/screens/port_select.rs:356-398 | limit 0 gives no candidates; at most `limit` candidates, no duplicates, no 0, none taken; the base port (0 read as 1) comes first when free; a free default port is listed when limit ≥ 2 |
| TuiPortSelect.FirstUnselected | crates/gwt-cli/src/tui/screens/port_select.rs:96-101 | the first candidate index not already picked by an earlier item, None iff all are picked |
| TuiPortSelect.FromConflicts | crates/gwt-cli/src/tui/screens/port_select.rs:70-129 | a sorted permutation of one item per conflict, item i carrying conflict i's env name, default and conflicting port; each picks the first candidate no earlier item picked, else its first candidate, else max(default, 1), and suggests the port it picked; candidates are at most 12 ports, none docker-published or taken |
| TuiPortSelect.ValidateUniquePorts | crates/gwt-cli/src/tui/screens/port_select.rs:213-221 | true iff no two items select the same port |
| TuiPortSelect.ValidateSelectedPorts | crates/gwt-cli/src/tui/screens/port_select.rs:245-279 | Ok iff no port is 0, ports are unique and none is taken; errors come in that order, and a zero port and a taken port are reported for the FIRST item that has one |
| TuiPortSelect.IsPortSelectedElsewhere | crates/gwt-cli/src/tui/screens/port_select.rs:238-243 | true iff an item other than the highlighted one uses the port |
| TuiPortSelect.BuildEnvOverrides | crates/gwt-cli/src/tui/screens/port_select.rs:281-286 | maps exactly the items' env names, the last item's name to its port in decimal |
| TuiPortSelect.PortSelectState.constructor | crates/gwt-cli/src/tui/screens/port_select.rs:70-129 | the state built from conflicts: sorted items, first row highlighted, no custom input or error |
| TuiPortSelect.PortSelectState.SelectNext | crates/gwt-cli/src/tui/screens/port_select.rs:144-149 | moves down, clamped at the last item, and clears the error |
| TuiPortSelect.PortSelectState.SelectPrevious | crates/gwt-cli/src/tui/screens/port_select.rs:151-156 | saturating move up, clears the error |
| TuiPortSelect.PortSelectState.CycleCandidateNext | crates/gwt-cli/src/tui/screens/port_select.rs:158-168 | advances the candidate cursor modulo the candidate count and sets selected_port to that candidate; other items unchanged |
| TuiPortSelect.PortSelectState.CycleCandidatePrev | crates/gwt-cli/src/tui/screens/port_select.rs:170-184 | steps the candidate cursor back, wrapping to the last, keeping selected_port == candidates[selected_candidate] |
| TuiPortSelect.PortSelectState.OpenCustomInput | crates/gwt-cli/src/tui/screens/port_select.rs:186-189 | opens an empty custom-port field and clears the error |
| TuiPortSelect.PortSelectState.InsertCustomChar | crates/gwt-cli/src/tui/screens/port_select.rs:191-197 | appends the char only when the field is open |
| TuiPortSelect.PortSelectState.BackspaceCustom | crates/gwt-cli/src/tui/screens/port_select.rs:199-204 | drops the last char of an open field; clears the error |
| TuiPortSelect.PortSelectState.CancelCustomInput | crates/gwt-cli/src/tui/screens/port_select.rs:206-209 | closes the field and clears the error |
| TuiPortSelect.PortSelectState.ResetSelectedToSuggested | crates/gwt-cli/src/tui/screens/port_select.rs:222-236 | the highlighted item goes back to its suggested port, which is put at the front of the candidates if missing |
| TuiPortSelect.PortSelectState.ApplyCustomPort | crates/gwt-cli/src/tui/screens/port_select.rs:288-344 | rejects non-numeric input, 0 and taken ports with no change; on a duplicate, restores the previous port, cursor and candidate list; on success the item selects the port, ports are unique and the field is closed |
| TuiPortSelect.ScanFreePorts | crates/gwt-cli/src/tui/screens/port_select.rs:364-384 | at most `limit` distinct free ports, and the base port comes first when it is free |
| TuiPortSelect.ShowDefault | crates/gwt-cli/src/tui/screens/port_select.rs:386-395 | the free default port is put second when there is room, keeping the list distinct, free and within the limit |
| TuiPortSelect.IndexOfPort | crates/gwt-cli/src/tui/screens/port_select.rs:226-229 | the index returned holds the port; None exactly when the port is absent |
| TuiPortSelect.SelectedPorts | crates/gwt-cli/src/tui/screens/port_select.rs:213-221 | one selected port per item, in item order |
| TuiPortSelect.InsertSecondKeepsUnique | crates/gwt-cli/src/tui/screens/port_select.rs:389-392 | inserting a port absent from a duplicate-free list at position 1 keeps it duplicate-free |
| TuiPortSelect.EnvLePreorder | crates/gwt-cli/src/tui/screens/port_select.rs:119 | the order by environment name used for sorting is total and transitive |
| TuiPortSelect.Pick | crates/gwt-cli/src/tui/screens/port_select.rs:101-106 | the first candidate no earlier item picked when there is one; otherwise the first candidate; with no candidates, index 0 and max(default, 1) |
| Update.NumericPart | crates/gwt-core/src/update.rs:678-682 | a version component read as a number starts with a digit and fits in 64 bits |
| Update.NatToStringNoLeadingZero | crates/gwt-core/src/update.rs:678-682 | a printed number has no leading zero, as a semantic version requires |
| Update.NumericPartOfNat | crates/gwt-core/src/update.rs:678-682 | a printed 64-bit number reads back as itself |
| Update.CoreTextParts | crates/gwt-core/src/update.rs:678-682 | a printed version core splits at '.' into its three numbers |
| Update.ParseCoreText | crates/gwt-core/src/update.rs:678-682 | printing a release version and parsing it gives the same version |
| Update.TagWithoutV | crates/gwt-core/src/update.rs:1190-1193 | a bare tag "M.m.p" reads as that version |
| Update.TagWithV | crates/gwt-core/src/update.rs:1190-1193 | a tag "vM.m.p" reads as the same version |
| Update.ParsedStartsWithDigit | crates/gwt-core/src/update.rs:678-682 | any text that parses as a version starts with a digit |
| Update.TagShape | crates/gwt-core/src/update.rs:678-682 | a tag that reads as a version is, trimmed, the version itself or one 'v' followed by it |
| Update.DoubleVRejected | crates/gwt-core/src/update.rs:678-682 | only one leading 'v' is dropped: "vv…" is never a version |
| Update.AssetNameFromUrl | crates/gwt-core/src/update.rs:684-690 | an asset name is non-empty and holds no '/' |
| Update.AssetNameAfterSlash | crates/gwt-core/src/update.rs:684-690 | the name after a URL's last '/' is the asset name |
| Update.AssetNameTrailingSlash | crates/gwt-core/src/update.rs:684-690 | a URL ending in '/' has no asset name |
| Update.Artifact | crates/gwt-core/src/update.rs:132-141 | only the five supported os/arch pairs have an artifact |
| Update.BinaryName | crates/gwt-core/src/update.rs:143-149 | the binary name ends in ".exe" exactly on Windows |
| Update.PortableAssetName | crates/gwt-core/src/update.rs:151-158 | a portable asset exists iff an artifact does: a zip on Windows, a tarball elsewhere |
| Update.FindAsset | crates/gwt-core/src/update.rs:692-755 | the first asset a search step accepts, or None when it accepts none |
| Update.FirstTierUrlSpec | crates/gwt-core/src/update.rs:692-755 | the installer search finds nothing iff no step accepts any asset, else the first asset of the first accepting step |
| Update.FirstTierUrlIsAsset | crates/gwt-core/src/update.rs:692-755 | a found installer URL is one of the release's asset URLs |
| Update.WixNameIsLower | crates/gwt-core/src/update.rs:723-735 | the WiX MSI name is lower case, so comparing lowered names is comparing ignoring case |
| Update.LegacyNameIsLower | crates/gwt-core/src/update.rs:731-737 | the legacy MSI name is lower case, so comparing lowered names is comparing ignoring case |
| Update.WindowsNamesAreMsi | crates/gwt-core/src/update.rs:723-737 | both exact Windows installer names end in ".msi" |
| Update.WindowsTiersAreMsi | crates/gwt-core/src/update.rs:721-753 | every Windows search step accepts only MSI assets |
| Update.WindowsInstallerIffMsi | crates/gwt-core/src/update.rs:721-753 | on Windows an installer is found iff some asset is an MSI |
| Update.MacTiersAreDmgOrPkg | crates/gwt-core/src/update.rs:694-719 | every macOS search step accepts only DMG or PKG assets |
| Update.MacInstallerIffDmgOrPkg | crates/gwt-core/src/update.rs:694-719 | on macOS an installer is found iff some asset is a DMG or a PKG |
| Update.WixPreferred | crates/gwt-core/src/update.rs:723-729 | on Windows the first WiX MSI is chosen wherever it is listed |
| Update.ArchDmgPreferred | crates/gwt-core/src/update.rs:696-702 | on macOS the first arch-matching DMG is chosen wherever it is listed |
| Update.InstallerKindForUrl | crates/gwt-core/src/update.rs:768-776 | a kind is returned only on its own system and only for a URL with its suffix, ignoring case |
| Update.KindFromExtension | crates/gwt-core/src/update.rs:768-776 | each kind is recognised on its system from a URL ending in its suffix |
| Update.KindNoneCases | crates/gwt-core/src/update.rs:768-776 | no kind exactly off macOS and Windows or for a URL without the system's suffixes |
| Update.ChooseApplyPlan | crates/gwt-core/src/update.rs:778-828 | a portable plan uses the portable URL and needs a writable (or unknown) directory; an installer plan uses the installer URL and its recognised kind |
| Update.MacInstallerDecides | crates/gwt-core/src/update.rs:784-793 | on macOS an installer URL always decides: an installer plan iff its kind is known, else no plan |
| Update.NotWritableNeedsInstaller | crates/gwt-core/src/update.rs:800-810 | without a writable directory and without an installer there is no plan |
| Update.NotWritableNeverPortable | crates/gwt-core/src/update.rs:800-810 | without a writable directory the portable build is never chosen |
| Update.WritablePrefersPortable | crates/gwt-core/src/update.rs:812-816 | off macOS, with a writable directory, the portable URL is chosen first |
| Update.MacPrefersDmg | crates/gwt-core/src/update.rs:1251-1270 | on macOS a DMG installer is chosen over the portable tarball |
| Update.FirstTierUrlNone | crates/gwt-core/src/update.rs:692-755 | no URL is found exactly when no tier has a matching asset |
| Update.FirstTierUrlFirst | crates/gwt-core/src/update.rs:692-755 | a URL found comes from the first tier that has a matching asset |
| Update.ParseVersion | crates/gwt-core/src/update.rs:678-682 | a parsed version's three numbers each fit in 64 bits |
| Update.ParseTagVersion | crates/gwt-core/src/update.rs:678-682 | only a tag that is not blank once trimmed can read as a version, and its numbers fit in 64 bits |
| Update.FindInstallerAssetUrl | crates/gwt-core/src/update.rs:692-755 | systems other than macOS and Windows have no installer; a found URL is the download URL of one of the release's assets |
| Update.AssetMatchesArch | crates/gwt-core/src/update.rs:756-766 | a name containing the architecture matches it, and an architecture other than aarch64 and x86_64 matches every name |
| VersionHistory.ClassifyByTable | crates/gwt-tauri/src/commands/version_history.rs:575-602 | the chain of prefix tests on the trimmed, ASCII-lowercased subject equals reading the prefix table top to bottom, first match wins |
| VersionHistory.ClassifyOther | crates/gwt-tauri/src/commands/version_history.rs:575-602 | the group is "Other" iff none of feat, fix, docs, doc, perf, refactor, style, test, chore starts the lowered subject |
| VersionHistory.KnownTypeIsMember | crates/gwt-tauri/src/commands/version_history.rs:628-632 | the known-type test is membership of the lowercased type in the nine conventional-commit types |
| VersionHistory.TypeAndScope | crates/gwt-tauri/src/commands/version_history.rs:620-626 | without '(' the prefix is the type and there is no scope; a scope, when present, is non-empty |
| VersionHistory.NormalizeSubjectForChangelog | crates/gwt-tauri/src/commands/version_history.rs:604-609 | a subject without ':' is returned trimmed and otherwise unchanged |
| VersionHistory.NormalizeScoped | crates/gwt-tauri/src/commands/version_history.rs:604-642 | "type(scope): msg" with a known type becomes "**scope:** msg" |
| VersionHistory.NormalizePlain | crates/gwt-tauri/src/commands/version_history.rs:604-642 | "type: msg" with a known type becomes just "msg" |
| VersionHistory.NormalizeUnknownType | crates/gwt-tauri/src/commands/version_history.rs:604-642 | "type: msg" with an unknown type is returned unchanged |
| VersionHistory.BuildSimpleChangelogMarkdown | crates/gwt-tauri/src/commands/version_history.rs:520-573 | the markdown equals the changelog function: groups in the fixed order, "(No commits)" when nothing non-blank was written, the output trimmed at the end |
| VersionHistory.GroupSubjects | crates/gwt-tauri/src/commands/version_history.rs:521-530 | the map holds exactly the groups with entries, each mapped to its normalised non-blank subjects in input order |
| VersionHistory.RenderGroups | crates/gwt-tauri/src/commands/version_history.rs:544-566 | the sections of the non-empty groups, in the fixed group order |
| VersionHistory.WriteSection | crates/gwt-tauri/src/commands/version_history.rs:552-565 | one group's header, its first 20 bullets, the "(+k more)" line when entries were cut, and a blank line |
| VersionHistory.AppendBullets | crates/gwt-tauri/src/commands/version_history.rs:555-560 | a "- " line for each of the first min(len, 20) entries, in order |
| VersionHistory.NoCommitsWhenBlank | crates/gwt-tauri/src/commands/version_history.rs:568-572 | when every subject is blank the changelog is "(No commits)" |
| VersionHistory.SubjectKept | crates/gwt-tauri/src/commands/version_history.rs:521-530 | every non-blank subject appears, normalised, among the entries of the group it is classified into |
| VersionHistory.SectionLineCount | crates/gwt-tauri/src/commands/version_history.rs:552-565 | a section has 2 + min(n, 20) lines, plus one "(+k more)" line when n > 20 |
| VersionHistory.SampleText | crates/gwt-tauri/src/commands/version_history.rs:644-663 | identity when the text fits; otherwise the first 40% of max_chars, the separator and the saturating remainder of the tail, exactly max_chars long when the budget covers the separator |
| VersionHistory.StripOrderedPrefix | crates/gwt-tauri/src/commands/version_history.rs:504-518 | the digit-scanning loop returns the rest after "digits. " or "digits) ", and None otherwise |
| VersionHistory.OrderedPrefixRoundTrip | crates/gwt-tauri/src/commands/version_history.rs:504-518 | any non-empty digit run followed by '.' or ')' and a space is recognised and gives back exactly the rest |
| VersionHistory.BulletCharMissedAsWritten | crates/gwt-tauri/src/commands/version_history.rs:497-502 | a line starting with U+2022 is not a bullet under the test as written, and is one under the intended test |
| VersionHistory.ValidateSummaryLines | crates/gwt-tauri/src/commands/version_history.rs:464-495 | corrected (see Findings): Ok iff there is a Summary header, a Highlights header and at least one bullet line after a Highlights header with no Summary or other "## " header between them |
| VersionHistory.ValidateAiSummaryMarkdown | crates/gwt-tauri/src/commands/version_history.rs:464-495 | the same check on the markdown's lines |
| VersionHistory.ScanLine | crates/gwt-tauri/src/commands/version_history.rs:464-495 | one line updates the scanner state as its kind (summary header, highlights header, bullet, other) dictates |
| VersionHistory.ScanDone | crates/gwt-tauri/src/commands/version_history.rs:464-495 | after the last line, the flags say complete exactly when the summary is complete |
| VersionHistory.ClassifySubjectGroup | crates/gwt-tauri/src/commands/version_history.rs:575-602 | every subject is classified into one of the nine groups the changelog writes, and a subject starting with "feat" (trimmed, any case) into Features |
| VersionHistory.ChangelogMarkdown | crates/gwt-tauri/src/commands/version_history.rs:567-572 | the changelog is never empty and never ends in whitespace, and is the "(No commits)" placeholder whenever the rendered groups are blank |
| VoiceEval.CleanTokens | crates/gwt-tauri/src/bin/voice_eval.rs:143-145 | at most as many tokens as pieces, each non-empty and already trimmed |
| VoiceEval.ParseCsv | crates/gwt-tauri/src/bin/voice_eval.rs:140-147 | every token is non-empty, trimmed and free of commas |
| VoiceEval.ParseCsvJoin | crates/gwt-tauri/src/bin/voice_eval.rs:140-147 | joining trimmed, non-empty, comma-free tokens with ',' and parsing gives the same tokens back |
| VoiceEval.PushUniqueTarget | crates/gwt-tauri/src/bin/voice_eval.rs:149-154 | the list is unchanged when a target with the same id is present, otherwise the target is appended; ids stay unique and the id is present afterwards |
| VoiceEval.PushAllTargets | crates/gwt-tauri/src/bin/voice_eval.rs:316-320 | the earlier targets stay as a prefix, ids stay unique, every resolved id is present and every present id came from one of the two lists |
| VoiceEval.ResolveModelAlias | crates/gwt-tauri/src/bin/voice_eval.rs:181-208 | a target exactly for the eleven known model names, with id and model equal to the name and file "ggml-<name>.bin" |
| VoiceEval.ResolveQualityToken | crates/gwt-tauri/src/bin/voice_eval.rs:164-171 | a target exactly for fast, balanced and accurate, each backed by tiny, base or small |
| VoiceEval.TrimEndMatches | crates/gwt-tauri/src/bin/voice_eval.rs:246-249 | a prefix of the input that no longer ends with the pattern |
| VoiceEval.ResolveModelToken | crates/gwt-tauri/src/bin/voice_eval.rs:210-270 | an empty list exactly for a blank token; every target's id equals its model name; the error names the token |
| VoiceEval.ResolveNormalized | crates/gwt-tauri/src/bin/voice_eval.rs:216-267 | an empty list exactly for the empty token; every target's id equals its model name |
| VoiceEval.PopularPreset | crates/gwt-tauri/src/bin/voice_eval.rs:216-223 | "popular" in any case and spacing gives medium, large-v3-turbo and large-v3 in that order |
| VoiceEval.GgmlFileToken | crates/gwt-tauri/src/bin/voice_eval.rs:246-257 | "ggml-<name>.bin" gives one target with id and model <name> and the token as its file name |
| VoiceEval.MapChar | crates/gwt-tauri/src/bin/voice_eval.rs:662-668 | a character becomes a space or stays as itself, and only letters, digits and CJK characters stay |
| VoiceEval.Collapse | crates/gwt-tauri/src/bin/voice_eval.rs:661-680 | no two spaces in a row, only spaces and kept characters, and no upper-case letter when the input had none |
| VoiceEval.NormalizeText | crates/gwt-tauri/src/bin/voice_eval.rs:658-684 | the lower-cased, mapped, collapsed text, trimmed, with single spaces and no upper-case letters |
| VoiceEval.CollapseLoop | crates/gwt-tauri/src/bin/voice_eval.rs:661-680 | the loop tracking the last written space computes the collapse |
| VoiceEval.CollapseFixed | crates/gwt-tauri/src/bin/voice_eval.rs:661-680 | text of single spaces and kept characters collapses to itself |
| VoiceEval.NormalizeTextIdempotent | crates/gwt-tauri/src/bin/voice_eval.rs:658-684 | normalising normalised text changes nothing |
| VoiceEval.EditDistanceSelf | crates/gwt-tauri/src/bin/voice_eval.rs:700-724 | a sequence is at distance 0 from itself |
| VoiceEval.EditDistanceEmpty | crates/gwt-tauri/src/bin/voice_eval.rs:701-706 | the distance to or from an empty sequence is the other's length |
| VoiceEval.EditDistanceSymmetric | crates/gwt-tauri/src/bin/voice_eval.rs:700-724 | the distance does not depend on argument order |
| VoiceEval.EditDistanceUpper | crates/gwt-tauri/src/bin/voice_eval.rs:700-724 | the distance is at most the longer length |
| VoiceEval.EditDistanceLower | crates/gwt-tauri/src/bin/voice_eval.rs:700-724 | the distance is at least the difference of the lengths |
| VoiceEval.DistanceStep | crates/gwt-tauri/src/bin/voice_eval.rs:713-718 | each cell is the minimum of insertion, deletion and substitution from its three neighbours |
| VoiceEval.Levenshtein | crates/gwt-tauri/src/bin/voice_eval.rs:700-724 | the two-row programme returns the edit distance |
| VoiceEval.FillRow | crates/gwt-tauri/src/bin/voice_eval.rs:711-720 | from row i of distances the inner loop writes row i + 1 |
| VoiceEval.RowStep | crates/gwt-tauri/src/bin/voice_eval.rs:711-720 | one cell of the dynamic programme: the minimum of deletion, insertion and substitution (free when the characters are equal) |
| Wizard.BranchType.Prefix | crates/gwt-cli/src/tui/screens/wizard.rs:699-706 | every branch-type prefix is a non-empty path segment ending in '/' |
| Wizard.SelectedQuickStartAction | crates/gwt-cli/src/tui/screens/wizard.rs:978-1002 | a quick-start row names a recorded tool inside the history and a resume or start-new action; none without history or on the last row |
| Wizard.QuickStartRows | crates/gwt-cli/src/tui/screens/wizard.rs:942-1002 | with history, exactly the last of the 2n+1 rows chooses different settings and every other row is the tool/action pair at 2k or 2k+1 |
| Wizard.QuickStartRowRoundTrip | crates/gwt-cli/src/tui/screens/wizard.rs:978-1002 | each tool's resume and start-new rows lie before the last row and decode back to that tool and action |
| Wizard.NoHistoryNoQuickStart | crates/gwt-cli/src/tui/screens/wizard.rs:942-949 | without history there are no quick-start rows and no action |
| Wizard.QuickStartMode | crates/gwt-cli/src/tui/screens/wizard.rs:1080-1096 | resuming uses the recorded session (Resume) or continues without one; starting new is Normal with no session |
| Wizard.FindAgent | crates/gwt-cli/src/tui/screens/wizard.rs:1008-1013 | the first agent entry with the id, or none when no entry has it |
| Wizard.SupportedModesShape | crates/gwt-cli/src/tui/screens/wizard.rs:1409-1430 | Normal is always first, modes are distinct, Convert only for built-in agents, a custom agent's Continue/Resume exactly when it has arguments for them |
| Wizard.BuiltinModelIds | crates/gwt-cli/src/tui/screens/wizard.rs:611-645 | each built-in agent offers at least two models, the first being the default with an empty id |
| Wizard.CustomModelIds | crates/gwt-cli/src/tui/screens/wizard.rs:1448-1462 | a custom agent's model ids are its models' ids in order |
| Wizard.HasModelsIffModelIds | crates/gwt-cli/src/tui/screens/wizard.rs:1448-1475 | the model step is offered exactly when the model list is non-empty |
| Wizard.VersionOptions | crates/gwt-cli/src/tui/screens/wizard.rs:1353-1390 | the version list holds the installed version first when detected, then "latest", then the registry's versions |
| Wizard.ConvertSources | crates/gwt-cli/src/tui/screens/wizard.rs:1100-1156 | conversion sources are the three other agents, distinct, each with its parser's session count |
| Wizard.BranchTypeIndex | crates/gwt-cli/src/tui/screens/wizard.rs:2266-2275 | a branch type's row is its position in the branch-type list |
| Wizard.BranchTypeIndexRoundTrip | crates/gwt-cli/src/tui/screens/wizard.rs:717-724 | each row of the branch-type list maps back to itself |
| Wizard.NextStepProgress | crates/gwt-cli/src/tui/screens/wizard.rs:1511-1697 | every forward step gets closer to the last step, which is a fixed point; only the conversion steps can stay put |
| Wizard.ReachesSkipPermissions | crates/gwt-cli/src/tui/screens/wizard.rs:1511-1697 | unless a conversion step stalls, enough forward steps from any step reach the final permissions step |
| Wizard.PrevUndoesNext | crates/gwt-cli/src/tui/screens/wizard.rs:1700-1785 | going back after going forward returns to the step left, along the model, reasoning, version, execution-mode, conversion and issue steps |
| Wizard.FirstStepsClose | crates/gwt-cli/src/tui/screens/wizard.rs:1700-1744 | going back from the first step of a flow closes the wizard |
| Wizard.VersionScrollOffset | crates/gwt-cli/src/tui/screens/wizard.rs:2213-2224 | the version row ends up inside the 8-row window, and a row already in view keeps the offset |
| Wizard.TruncateWithEllipsis | crates/gwt-cli/src/tui/screens/wizard.rs:2529-2548 | the result is min(width, max) characters: the text itself when it fits, dots only when max is 3 or less, else the first max-3 characters and "..." |
| Wizard.SkipRowSelectsFirstIssue | crates/gwt-cli/src/tui/screens/wizard.rs:2321-2326 | as written, clicking the "Skip" row selects the first filtered issue, so the next step names the branch after it |
| Wizard.IssueForRow | crates/gwt-cli/src/tui/screens/wizard.rs:1829-1840 | the issue of a row is none for "Skip" and the filtered issue one row up otherwise, the same as the one confirming picks |
| Wizard.SkipRowKeepsName | crates/gwt-cli/src/tui/screens/wizard.rs:1862-1866 | choosing "Skip" keeps the branch name as typed |
| Wizard.StripGeneratedPrefix | crates/gwt-cli/src/tui/screens/wizard.rs:1561-1576 | stripping the type prefix from the generated issue branch name leaves "issue-N" |
| Wizard.PositionByNumber | crates/gwt-cli/src/tui/screens/wizard.rs:2108-2115 | the position of the first issue with the number, or none when no issue has it |
| Wizard.Positions | crates/gwt-cli/src/tui/screens/wizard.rs:2107-2116 | positions found for matching issues are inside the issue list |
| Wizard.PositionsOfMembers | crates/gwt-cli/src/tui/screens/wizard.rs:2107-2116 | every matching issue from the list is found again, one position per match |
| Wizard.AllPositions | crates/gwt-cli/src/tui/screens/wizard.rs:2104 | the positions 0..n-1 in order |
| Wizard.FilteredPositions | crates/gwt-cli/src/tui/screens/wizard.rs:2100-2117 | the filtered rows point into the issue list, and an empty query lists every issue |
| Wizard.FilteredPositionsCount | crates/gwt-cli/src/tui/screens/wizard.rs:2100-2117 | there is one row per issue whose title matches the query |
| Wizard.AgentChoice.SelectAgent | crates/gwt-cli/src/tui/screens/wizard.rs:1902-1913 | highlighting agent row i selects that entry (none past the list) and, for a built-in entry, its agent |
| Wizard.AgentChoice.WithHistory | crates/gwt-cli/src/tui/screens/wizard.rs:1005-1072 | a quick-start entry restores the agent by id (else by built-in tool id), model, reasoning level and version when recorded, and collaboration modes only for Codex |
| Wizard.AgentChoice.FetchVersions | crates/gwt-cli/src/tui/screens/wizard.rs:1353-1390 | versions are fetched once: a fetched list is kept, otherwise the list is built, the first row highlighted and chosen |
| Wizard.SourceSessions | crates/gwt-cli/src/tui/screens/wizard.rs:1233-1235 | the selected conversion source exists exactly when its row is inside the list |
| Wizard.FreshMode | crates/gwt-cli/src/tui/screens/wizard.rs:1595-1601 | entering the execution-mode step selects row 0, Normal |
| Wizard.LeaveFrame | crates/gwt-cli/src/tui/screens/wizard.rs:1511-1697 | leaving a step changes only the selections that step owns |
| Wizard.LeavePreservesValid | crates/gwt-cli/src/tui/screens/wizard.rs:1511-1697 | no step's side effect moves a cursor out of its text or list |
| Wizard.LeavingQuickStart | crates/gwt-cli/src/tui/screens/wizard.rs:1513-1532 | a quick-start pick restores the recorded settings, launches in the action's mode and session, and goes to the last step |
| Wizard.LeavingBranchAction | crates/gwt-cli/src/tui/screens/wizard.rs:1533-1545 | creating a new branch exactly when the second row is chosen, based on the selected branch, and only then going to the branch type |
| Wizard.LeavingIssueSelect | crates/gwt-cli/src/tui/screens/wizard.rs:1561-1576 | leaving the issue list names the branch after the selected issue with the cursor at its end, or keeps the typed name |
| Wizard.LeavingAgentSelect | crates/gwt-cli/src/tui/screens/wizard.rs:1579-1608 | the first model is preselected; the model step follows exactly when there are models; the version step gets a fresh list; the mode step starts at Normal |
| Wizard.EnteringExecutionModeStartsAtNormal | crates/gwt-cli/src/tui/screens/wizard.rs:1579-1651 | every way into the execution-mode step except the retired collaboration step starts at Normal |
| Wizard.LeavingForConversion | crates/gwt-cli/src/tui/screens/wizard.rs:1652-1657 | Convert mode moves to the source list holding the three other agents |
| Wizard.ConversionResumesConvertedSession | crates/gwt-cli/src/tui/screens/wizard.rs:1681-1694 | reaching the last step from the session list needs a successful conversion and launches the converted session |
| Wizard.UnsupportedSkipCleared | crates/gwt-cli/src/tui/screens/wizard.rs:1652-1694 | reaching the last step with an agent that cannot skip permissions always clears the answer |
| Wizard.MoveToSelectsRow | crates/gwt-cli/src/tui/screens/wizard.rs:2295-2376 | highlighting a row makes it the current row, keeps the list length and keeps every cursor in range |
| Wizard.MoveToSelectsValue | crates/gwt-cli/src/tui/screens/wizard.rs:2295-2376 | highlighting a row selects its agent, model, reasoning level, version, execution mode, branch type or permissions answer |
| Wizard.SkipRowWithoutSupport | crates/gwt-cli/src/tui/screens/wizard.rs:2254-2262 | an agent that cannot skip permissions has only the "No" row, and choosing it leaves skipping off |
| Wizard.WizardState.constructor | crates/gwt-cli/src/tui/screens/wizard.rs:841-848 | a hidden wizard at agent selection with only "latest" to choose and valid cursors |
| Wizard.WizardState.ResetSelections | crates/gwt-cli/src/tui/screens/wizard.rs:893-929 | every selection returns to its default: first agent entry, Medium at row 1, "latest", Normal, Feature, empty name |
| Wizard.WizardState.OpenForBranch | crates/gwt-cli/src/tui/screens/wizard.rs:851-879 | opens on quick start when there is history and no running agent, else on the branch action, with selections reset |
| Wizard.WizardState.OpenForNewBranch | crates/gwt-cli/src/tui/screens/wizard.rs:882-890 | opens a new-branch flow at the branch type with no quick start and no branch action |
| Wizard.WizardState.Close | crates/gwt-cli/src/tui/screens/wizard.rs:1402-1404 | the wizard is hidden |
| Wizard.WizardState.QuickStartChoice | crates/gwt-cli/src/tui/screens/wizard.rs:978-1002 | the highlighted quick-start row's action names a tool inside the history |
| Wizard.WizardState.ApplyQuickStartSelection | crates/gwt-cli/src/tui/screens/wizard.rs:1005-1098 | a tool inside the history restores its agent settings, permissions answer, mode and session; another index changes nothing |
| Wizard.WizardState.NextStep | crates/gwt-cli/src/tui/screens/wizard.rs:1511-1697 | the new step is the one NextStepOf names and the selections are those Leave gives; the scroll resets and cursors stay valid |
| Wizard.WizardState.PrevStep | crates/gwt-cli/src/tui/screens/wizard.rs:1700-1785 | moves to the step PrevStepOf names, or closes the wizard and reports false |
| Wizard.WizardState.EnsureVersionVisible | crates/gwt-cli/src/tui/screens/wizard.rs:2213-2224 | the highlighted version is inside the scrolled window |
| Wizard.WizardState.Highlight | crates/gwt-cli/src/tui/screens/wizard.rs:2295-2376 | the selections become those MoveTo gives, with the version window following the row |
| Wizard.WizardState.SelectNext | crates/gwt-cli/src/tui/screens/wizard.rs:1871-1970 | moves one row down where there is one (to the row after), flips the permissions answer, otherwise changes nothing |
| Wizard.WizardState.SelectPrev | crates/gwt-cli/src/tui/screens/wizard.rs:1973-2066 | moves one row up where there is one, flips the permissions answer only when supported, otherwise changes nothing |
| Wizard.WizardState.SetSelectionIndex | crates/gwt-cli/src/tui/screens/wizard.rs:2295-2376 | corrected (see Findings): reports a change exactly for a new row inside the list; that row becomes current, and on the issue list its issue (none for "Skip") is selected |
| Wizard.WizardState.UpdateFilteredIssues | crates/gwt-cli/src/tui/screens/wizard.rs:2100-2122 | the filtered rows are the matching issues' positions, and a highlight past them returns to row 0 |
| Wizard.WizardState.InsertChar | crates/gwt-cli/src/tui/screens/wizard.rs:2069-2082 | inserts at the cursor and advances it in the branch name, or extends the issue query and refilters |
| Wizard.WizardState.DeleteChar | crates/gwt-cli/src/tui/screens/wizard.rs:2085-2097 | removes the character before the cursor, or the query's last character and refilters; nothing at the start or on an empty query |
| Wizard.WizardState.CursorLeft | crates/gwt-cli/src/tui/screens/wizard.rs:2193-2198 | the cursor moves left, stopping at 0 |
| Wizard.WizardState.CursorRight | crates/gwt-cli/src/tui/screens/wizard.rs:2200-2205 | the cursor moves right, stopping at the end of the name |
| Wizard.WizardState.FullBranchName | crates/gwt-cli/src/tui/screens/wizard.rs:2207-2209 | the full name is the type prefix followed by the typed name |
| Wizard.WizardState.CheckIssueDuplicate | crates/gwt-cli/src/tui/screens/wizard.rs:2125-2143 | an existing branch is recorded only for a highlighted issue row, and the error is cleared |
| Wizard.WizardState.ApplyLoadedIssues | crates/gwt-cli/src/tui/screens/wizard.rs:2145-2161 | every loaded issue is listed; with none, the issue state clears and the wizard moves to the name input |
| Wizard.WizardState.LoadIssues | crates/gwt-cli/src/tui/screens/wizard.rs:2163-2191 | issue state clears; without the GitHub CLI nothing is loaded; a failure is reported; a list is applied |
| Wizard.WizardState.ConfirmQuickStart | crates/gwt-cli/src/tui/screens/wizard.rs:1788-1822 | a quick-start pick completes at the last step with the recorded settings; otherwise the branch action opens on its first row |
| Wizard.WizardState.ConfirmIssue | crates/gwt-cli/src/tui/screens/wizard.rs:1831-1867 | an issue row names the branch "issue-N" and moves on unless a branch for it exists, which is reported without moving; "Skip" moves on |
| Wizard.WizardState.Confirm | crates/gwt-cli/src/tui/screens/wizard.rs:1787-1869 | completes on a quick-start pick or the last step, focuses a running agent's pane, otherwise advances as NextStep does |
| WorktreeManager.IsProtected | crates/gwt-core/src/worktree/manager.rs:554-557 | a branch is protected exactly when it is main, master, develop or release |
| WorktreeManager.SlashedNotProtected | crates/gwt-core/src/worktree/manager.rs:554-557 | a name containing '/' is never protected |
| WorktreeManager.NormalizeRemoteRef | crates/gwt-core/src/worktree/manager.rs:702-704 | a leading "remotes/" is removed and the rest kept; other names are returned unchanged |
| WorktreeManager.NormalizeRemoteRefOnce | crates/gwt-core/src/worktree/manager.rs:702-704 | prefixing "remotes/" and normalising is the identity, so at most one prefix is stripped |
| WorktreeManager.SplitRemoteRef | crates/gwt-core/src/worktree/manager.rs:706-708 | None iff there is no '/'; otherwise the name is remote ++ "/" ++ branch with no '/' in remote |
| WorktreeManager.SplitRemoteRefJoin | crates/gwt-core/src/worktree/manager.rs:706-708 | a slash-free remote joined to a branch splits back into the same two parts |
| WorktreeManager.RemoteLePreorder | crates/gwt-core/src/worktree/manager.rs:712-720 | the comparator is a total preorder |
| WorktreeManager.OrderedRemoteNames | crates/gwt-core/src/worktree/manager.rs:710-722 | the result is a permutation of the names ordered by the comparator |
| WorktreeManager.OriginFirst | crates/gwt-core/src/worktree/manager.rs:710-722 | "origin", when present, comes first and the other names follow in lexicographic order |
| WorktreeManager.IsMissingWorktreeError | crates/gwt-core/src/worktree/manager.rs:559-575 | not-found and remove-failed errors always count; a git failure counts only for "worktree remove" with one of the four messages in its lower-cased details; anything else does not |
| WorktreeManager.MissingErrorIgnoresCase | crates/gwt-core/src/worktree/manager.rs:567 | upper-casing the details does not change the verdict |

## Left out

Across the whole model:

- Subprocesses and the network (git, gh, tmux, docker, HTTP clients) are foreign I/O. What they print or answer is a parameter.
- File reading and writing, and serde's JSON, TOML and YAML parsing, are foreign I/O. A parsed record or the file's contents is a parameter.
- Clocks (`SystemTime`, `Instant`, chrono's `Utc::now`) are not modelled. Instants are integer milliseconds and "now" is a parameter.
- Threads, channels, the PTY runtime, Tauri wiring and the event loops are concurrency and framework code, and are not modelled.
- Rendering with ratatui, colours, icons, popup sizing and spinners are UI only, and are not modelled.
- Unicode case mapping, `char::is_alphanumeric` and `str::trim` are modelled on their ASCII subset. The model has no Unicode tables.
- Hash maps are Dafny maps. Where the source walks a `HashMap` in its unspecified order, the model takes the visiting order as a given sequence.
- `usize` and `u64` are unbounded, except where a wrap or a cast is written out (the port scan's `u16` counter, the `u16` split sizes).
- Floating point is not modelled: voice_eval's word and character error rates and their aggregates, git_view's size-change formatting, progress elapsed seconds, popup percentages.

By source file:

- crates/gwt-core/src/terminal/scrollback.rs: the file handles and their I/O are not modelled. The file is a byte sequence, and `write` appends to it or fails as a parameter says.
- Scrollback.StripAnsi: returns the stripped bytes. The source's final `String::from_utf8_lossy` (scrollback.rs:274) is not modelled. That step replaces each invalid UTF-8 sequence with U+FFFD, which this model does not decode.
- crates/gwt-core/src/tmux/pane.rs: the agent start time and the tmux calls are not modelled.
- TmuxPane.ColumnHeight: total_height follows a release build, where the `u16` sum wraps past 65535. A debug build panics there instead.
- AgentPane.MouseScrollToBytes: the border edge `pane_area.x + 1` follows a release build, where it wraps to 0 at x = 65535. A debug build panics there instead.
- TmuxPane.ComputeEqualSplits: a positive part count that is a multiple of 65536 is excluded by its requires, because the source casts the count to `u16`, gets 0 and panics dividing by it; for any other part count above 65535 only the length of the result is stated, because the cast wraps the count.
- crates/gwt-core/src/agent/codex.rs: running `codex --version` is a parameter (its output).
- CliMain.CodexArgs: main.rs:1754-1760 passes a fifth argument, `config.collaboration_modes`, to `codex_default_args`. The codex.rs modelled here is an earlier revision whose `codex_default_args` (codex.rs:195-200) takes four parameters, so the model drops that argument. Whatever a collaboration-modes flag adds to Codex's arguments is not modelled.
- crates/gwt-core/src/git/commit.rs: the git calls behind BranchMeta are not modelled, and relative_time's "now" is a parameter.
- GitIssue.DisplayTruncated: lengths are counted in characters, and the source counts UTF-8 bytes. The two agree on ASCII titles.
- crates/gwt-core/src/git/issue.rs: fetching issues with gh is not modelled.
- crates/gwt-core/src/git/pullrequest.rs: fetching pull requests and the GraphQL queries are not modelled. PrCache holds the fetched records.
- crates/gwt-core/src/terminal/manager.rs: a pane is its id and branch. Its PTY, its scrollback and the resize calls are not modelled.
- crates/gwt-core/src/docker/manager.rs: the docker and compose commands are not modelled. with_retry takes the outcome of each attempt as a parameter and does not sleep.
- crates/gwt-core/src/docker/devcontainer.rs: parsing the stripped JSON into a configuration is serde's work. The configuration record is an input.
- crates/gwt-tauri/src/commands/version_history.rs: the git log calls, the AI request and the summary cache are not modelled.
- crates/gwt-core/src/ai/summary.rs: the session prompt text is modelled only in PromptContent. The tool-usage tally and ordering inside build_session_prompt are not modelled. summarize_session's client call and clock are not modelled.
- AiSummary.NormalizeBullet: idempotence is proved only for non-blank input ("" becomes "- ", then "- -"). The source only passes non-blank text.
- crates/gwt-core/src/ai/session_parser/mod.rs: file parsing and serde extraction are not modelled, and the per-agent parsers are not modelled. That covers extract_message, extract_content, extract_timestamp, parse_timestamp and extract_tool_executions. chrono's largest date, 262143-12-31, is a constant.
- crates/gwt-tauri/src/bin/voice_eval.rs: audio loading, resampling, whisper transcription, model download, manifest parsing and report output are not modelled. Of parse_cli_args, only the `--models` collection loop is modelled.
- VoiceEval.ResolveModelAlias: takes a token that is already trimmed and lower-cased. The source repeats that normalisation, which does not change such a token.
- VoiceEval.ResolveQualityToken: likewise takes a token that is already trimmed and lower-cased.
- crates/gwt-tauri/src/commands/project.rs: probing, opening and creating projects, the clone thread and the migration job are file and process I/O, and are not modelled.
- crates/gwt-tauri/src/commands/cleanup.rs: gathering worktree data from git is a parameter. The sort by safety level is modelled as a stable insertion sort.
- crates/gwt-tauri/src/commands/sessions.rs: only the pure helpers are modelled. Not modelled:
  - the sidebar and summary command handlers;
  - scrollback candidate selection and the summary jobs;
  - the file loading of tasks and sub-agents;
  - derive_worktree_paths, display_tool_name and the task index helpers.
- SessionCommands.NormalizeBranchName: idempotence is stated only for names it leaves without a leading "origin/". Only one prefix is removed, and NormalizeBranchTwice shows that.
- crates/gwt-cli/src/main.rs: PATH lookups, process spawning, terminal setup and the CLI subcommands are not modelled. Their results are parameters.
- crates/gwt-cli/src/tui/app.rs: the event loop, the application state machine and the configuration fields are not modelled. Only the named helpers are modelled.
- crates/gwt-core/src/ai/client.rs: building requests, sending them and decoding replies are not modelled. The loop's sleep is the computed delay, and each reply is a parameter.
- crates/gwt-core/src/update.rs: downloads, the update cache file, pre-release ordering and replacing the executable are not modelled. Whether the directory is writable is a parameter.
- crates/gwt-cli/src/tui/screens/git_view.rs: the diff text, size changes, PR body and timestamps, branch divergence and the PR-link hit region are not modelled.
- crates/gwt-cli/src/tui/screens/branch_list.rs: building items from branches, icons, relative-time text and spinners are not modelled. The items are inputs.
- crates/gwt-cli/src/tui/screens/wizard.rs: fetching versions, detecting installed agents, loading issues and sessions, and conversion errors are not modelled. Their results are parameters.
- crates/gwt-cli/src/tui/screens/wizard.rs: the branch-name cursor is a character index. The source uses a byte offset.
- Wizard.WizardState.SelectPrev: a remembered index past the end of a shorter list is only lowered. The source would panic there.
- rust/crates/gwt-cli/src/tui/screens/wizard.rs: labels and colours are not modelled. The text cursor counts characters, where the source counts bytes (a multibyte character would panic there).
- crates/gwt-cli/src/tui/screens/logs.rs: reading log files, to_clipboard_string's JSON and timestamp formatting are not modelled.
- crates/gwt-cli/src/tui/screens/environment.rs: the variable list is given. Loading profiles and saving are not modelled.
- crates/gwt-cli/src/tui/screens/environment.rs: the editor's cursor counts characters. The source keeps a UTF-8 byte offset, moves it by one byte per character, and panics on a multibyte character once the offset is off a character boundary. The model follows the source exactly on ASCII text only.
- Environment.EnvironmentState.StartEdit: the cursor is put at the value's length in characters. The source uses `value.len()`, its length in bytes.
- Environment.EnvironmentState.SwitchField: the cursor is put at the other field's length in characters. The source uses that field's length in bytes.
- Environment.EnvironmentState.InsertChar: inserts at a character index and advances by one character. The source inserts at a byte offset, advances by one byte, and panics off a character boundary.
- Environment.EnvironmentState.DeleteChar: removes the character before a character index. The source removes at a byte offset and panics off a character boundary.
- Environment.EnvironmentState.CursorRight: is bounded by the field's length in characters. The source bounds it by the length in bytes.
- crates/gwt-cli/src/tui/screens/ai_wizard.rs: the model-list request is a parameter. Title texts and error display text are not modelled. Cursors count characters, where the source counts bytes.
- crates/gwt-cli/src/tui/screens/clone_wizard.rs: start_clone's thread is not modelled. Each poll's answer is a parameter.
- crates/gwt-cli/src/tui/screens/migration_dialog.rs: the migration run itself is not modelled. Its progress and outcome are parameters.
- crates/gwt-cli/src/tui/screens/agent_mode.rs: a character's display width is a parameter (UnicodeWidthChar). The grouping of styled characters into spans is not modelled. Wrapping is stated on the span text.
- crates/gwt-cli/src/tui/widgets/progress_modal.rs: elapsed-time display and rendering are not modelled.
- crates/gwt-cli/src/tui/screens/agent_pane.rs: rendering is not modelled. format_elapsed takes the elapsed whole seconds.
- crates/gwt-core/src/config/tools.rs: reading and saving the global and local files is not modelled.
- crates/gwt-core/src/config/session.rs: loading and saving session files is not modelled.
- crates/gwt-core/src/config/ts_session.rs: loading and saving the history file is not modelled. Absent or unreadable data is a parameter.
- crates/gwt-core/src/ai/agent_history.rs: loading and saving the JSON file is not modelled.
- crates/gwt-core/src/agent/orchestrator.rs: the event loop and its channels are not modelled, and neither are chat messages or calls to the master agent. Launching sub-agents, running tests, creating pull requests and removing worktrees are not modelled either: their outcomes are parameters. task.rs and session.rs are not part of this model, so the task records carry only the fields the bookkeeping reads.
- crates/gwt-core/src/worktree/manager.rs: the git calls of WorktreeManager are not modelled.
- crates/gwt-core/src/git/repository.rs: running git is a parameter (success and output). Porcelain fields are sliced on characters.
- crates/gwt-core/src/git/diff.rs: get_branch_commits and get_git_change_summary are not modelled. Porcelain slicing is on characters.
- crates/gwt-core/src/git/branch.rs: the rev-list call is a parameter.
- crates/gwt-tauri/src/menu.rs: building and rebuilding the menu, window and tab enumeration, and the order of menu entries are not modelled. Paths are split on '/' only, so Windows prefixes are not modelled.
- crates/gwt-core/src/terminal/runner.rs: PATH lookups are parameters.
- crates/gwt-core/src/tmux/launcher.rs: the tmux calls and locale detection are not modelled. The environment's entries are given in visiting order.

## Findings

| source | as written | input that shows it | evidently intended | confidence | as-written member | corrected member |
|---|---|---|---|---|---|---|
| crates/gwt-core/src/terminal/scrollback.rs:254-257 | after ESC, a `(`, `)`, `*` or `+` skips only itself, so the charset byte after it stays in the text | ESC ( B strips to "B" | the designator byte is dropped too, and ESC ( B strips to "" | not executed | Scrollback.CharsetDesignatorKeptAsWritten | Scrollback.StripAnsi |
| crates/gwt-core/src/git/issue.rs:47-48 | with 3 or fewer columns left after the "#N: " prefix, the prefix and a full "..." are returned | issue 42 "Hello" at width 6 gives "#42: ...", 8 characters | the result never exceeds max_width, because "..." is cut to fit | not executed | GitIssue.DisplayTruncatedOverflowAsWritten | GitIssue.DisplayTruncated |
| crates/gwt-tauri/src/commands/version_history.rs:497-502 | the bullet test looks for "â€¢", the UTF-8 bytes of U+2022 misread as Windows-1252 | the line "• item" is not a bullet, so a summary whose highlights use "•" is rejected | a line starting with U+2022 is a bullet | not executed | VersionHistory.BulletCharMissedAsWritten | VersionHistory.ValidateSummaryLines |
| crates/gwt-core/src/ai/summary.rs:328 | normalize_line strips the same misread marker "â€¢" | "• item" becomes "- • item" | "• item" becomes "- item" | not executed | AiSummary.BulletItemAsWritten | AiSummary.BulletItemStripped |
| crates/gwt-cli/src/tui/widgets/progress_modal.rs:188-203 | a long error message is cut with `&msg[..cut]` at a byte count | "ああ" at inner width 10 cuts at byte 1, inside the first character, and panics | the cut moves back to a character boundary | not executed | ProgressModal.ErrorLinePanics | ProgressModal.ErrorLineCorrect |
| crates/gwt-cli/src/tui/screens/git_view.rs:349-370 | update_pr_info shifts the selection when the PR link row appears or goes, but leaves the expanded row indices as they were | first file expanded, then a PR link appears: the PR link row is now the expanded one | the expanded indices shift with the rows, like the selection | not executed | GitView.ExpansionGoesStale | GitView.GitViewState.UpdatePrInfoKeepingExpansion |
| crates/gwt-cli/src/tui/screens/wizard.rs:2321-2326 | set_selection_index on the issue step reads filtered_issues at the row index, ignoring the "Skip" row at row 0 | clicking "Skip" with one issue listed selects that issue, and the branch is named after it | row 0 selects no issue, and row k selects filtered issue k - 1, as confirming does | not executed | Wizard.SkipRowSelectsFirstIssue | Wizard.IssueForRow |
| rust/crates/gwt-cli/src/tui/screens/wizard.rs:368-376 | leaving the agent step sets the model but not model_index | Gemini, sixth model, back, OpenCode, forward, then up: select_prev reads models()[4] of a two-entry list and panics | model_index is reset with the model | not executed | LegacyWizard.StaleModelIndexPanics | LegacyWizard.SelectPrevNeverPanics |
