# AgriSense chat and diagnosis screens, modelled in Dafny

AgriSense is a single-page front end. It lets a farmer chat with a hosted generative model and
ask it to diagnose a photo of a diseased plant. The application owns only a little logic, and
that logic lives inside its React components. This project models it as sequential Dafny:

- **The chat history state machine** (`App.tsx`). `handleSendMessage` ignores a submit while a
  reply is loading. Otherwise it appends the user message and an empty model message, and folds
  each streamed chunk into the model message. On a failure it removes the model message and
  shows an error. It always clears the loading flag. `handleNavigate`, the back button and the
  start-up API-key warning change the same state. The class `App.ChatApp` holds the five pieces
  of React state plus a counter of fresh message ids. Each phase of a submit is a method
  (`BeginSend`, `ReceiveChunk`, `FailSend`, `EndSend`), and `SendMessage` runs one submit from
  start to settlement with a loop over the delivered chunks.
- **The message box** (`components/ChatInput.tsx`). The `onresult` loop folds final speech
  results into a transcript. The callback merges that transcript into the text. The listening
  flag follows the recognizer's events. The submit guard sends the trimmed text. These live in
  the class `ChatInput.ChatInputBox` and in the pure functions beside it.
- **The code-fence splitter** (`components/ChatMessage.tsx`, copied in
  `components/DiseaseDiagnosis.tsx`). `split(/(```[\s\S]*?```)/g)` is modelled as an explicit
  search for three backticks (`ChatMessage.Split`). It is characterised by `IsFenceSplit`, and
  `SplitUnique` proves that this description allows only one split. The rewriting of a fenced
  piece is modelled as the two `replace` calls and a `trim` (`ChatMessage.CodeBody`).
- **The diagnosis screen** (`components/DiseaseDiagnosis.tsx`). `DiagnosisScreen` holds the
  picked file, the result, the loading flag and the error, and models the file picker and the
  diagnose button.

Network replies are inputs to the model. A chat reply is a `Gateway.ChunkStream`: the chunk
texts, plus an optional failure after a given number of chunks. A diagnosis reply is a
`Result<DiagnosisResult, Thrown>`. The only service logic modelled is the API-key check in front
of both calls (`services/geminiService.ts`). JavaScript's `String.prototype.trim` is
`Text.Trim`, over the exact set of characters ECMAScript treats as white space or line
terminators.

Three behaviours of the code that the model keeps:
- The start-up key warning (`App.tsx:18-23`) is stored but never displayed. Only the chat view
  renders the error (`App.tsx:95-101`), the app starts on the dashboard, and the only way into
  the chat view is `handleNavigate`, which clears the error in the same click (`App.tsx:74`).
- Every navigation to the chat screen empties the chat history (`App.tsx:71-73`), whichever
  screen it comes from.
- The chat stream may throw after its last chunk has arrived. The model allows any failure
  point, and a failure at or past the last chunk means a failure at the end.

## Model

| member | source | states |
|---|---|---|
| Types.ErrorText | App.tsx:57 | a thrown `Error` shows its own message; any other thrown value shows the call site's fixed fallback |
| Text.Trim | components/ChatInput.tsx:130-131 | the result has no white space at either end, is no longer than the input, and is empty exactly when the input is all white space |
| Text.TrimAround | components/ChatInput.tsx:130-131 | trimming removes exactly the surrounding white space: white space + trimmed text + white space trims to that text |
| Text.ConcatAppend | App.tsx:51 | joining pieces distributes over appending lists of pieces |
| Gateway.ApiKeyError | services/geminiService.ts:24-26 | a warning exactly when the API key is empty, and then it is the fixed, non-empty start-up text |
| Gateway.Delivered | App.tsx:46-47 | the loop receives a prefix of the chunks: all of them without a failure, the first `after` (at most all) with one |
| Gateway.StreamChat | services/geminiService.ts:28-33 | without a key the stream throws "API key is not configured." before any chunk; with a key the service's reply is passed through |
| Gateway.DiagnoseCropDisease | services/geminiService.ts:48-51 | without a key the diagnosis fails with "API key is not configured."; with a key the parsed reply is passed through |
| ChatMessage.FindFence | components/ChatMessage.tsx:11 | returns the first index at or after the start where three backticks begin, or none when no later index has them |
| ChatMessage.SplitIsFenceSplit | components/ChatMessage.tsx:11 | the pieces alternate plain/fenced with an odd count and reassemble the content exactly; every fenced piece is fence, shortest run, fence; each fenced piece is the leftmost match; the last plain piece contains no fence followed by a later fence |
| ChatMessage.SplitUnique | components/ChatMessage.tsx:11 | any list of pieces meeting that description is the split, so the description is a complete reference for `split` |
| ChatMessage.SplitNoMatch | components/ChatMessage.tsx:11 | content in which no fence is followed by a later fence (for instance an unclosed fence) stays one piece |
| ChatMessage.SplitCons | components/ChatMessage.tsx:11 | a fence-free prefix followed by a shortest fenced span is split off as the first plain and first fenced piece |
| ChatMessage.SplitWithoutFence | components/ChatMessage.tsx:11 | content without any fence is one piece |
| ChatMessage.LowerRun | components/ChatMessage.tsx:18 | the greedy `[a-z]*` takes every lower-case letter from the start position and stops at the first other character or the end |
| ChatMessage.FindLangFence | components/ChatMessage.tsx:18 | finds the leftmost position where `/```[a-z]*\n/` matches (fence, lower-case letters, newline), or none when no position matches |
| ChatMessage.CodeBodyOfTaggedBlock | components/ChatMessage.tsx:18-21 | a block written fence + lower-case tag + newline + body + fence is shown as the trimmed body: both fences and the tag are gone |
| ChatMessage.CodeBodyWithoutTag | components/ChatMessage.tsx:18-21 | when no fence-tag-newline line exists, only the opening fence is removed before trimming |
| ChatMessage.CodeBodyOneLine | components/ChatMessage.tsx:18-21 | a fenced piece without any newline is shown as its text after the opening fence, trimmed |
| ChatMessage.OneLineBlockKeepsClosingFence | components/ChatMessage.tsx:18-21 | "```" + t + "```" on one line shows as t + "```", e.g. "```abc```" shows as "abc```": the closing fence stays |
| ChatMessage.RenderContentShape | components/ChatMessage.tsx:11-26 | one rendered segment per piece; fenced pieces become code blocks of their code body; every plain piece except possibly the last is shown verbatim |
| ChatMessage.RenderUnclosedFence | components/ChatMessage.tsx:16-21 | content that opens with a fence that is never closed is rendered entirely as one code block |
| ChatMessage.RenderWithoutFence | components/ChatMessage.tsx:11-26 | content without a fence is rendered as one verbatim text segment |
| ChatMessage.RenderMessage | components/ChatMessage.tsx:33-50 | a user message is shown exactly as typed; a model message is shown through the splitter |
| ChatMessage.UserBypassesSplitter | components/ChatMessage.tsx:50 | content holding a fence followed by a later fence is one verbatim bubble from the user, but from the model it is at least three segments, the second a code block |
| ChatInput.CollectFinal | components/ChatInput.tsx:60-66 | the loop's accumulated transcript is the in-order concatenation of the transcripts of the final results from `resultIndex` on |
| ChatInput.FinalTranscriptSnoc | components/ChatInput.tsx:62-65 | one more result adds its transcript when final and nothing when not |
| ChatInput.NonFinalIgnored | components/ChatInput.tsx:63-65 | the transcript of a result that is not final never affects the folded transcript |
| ChatInput.EarlierResultsIgnored | components/ChatInput.tsx:62 | results before `resultIndex` never affect the folded transcript |
| ChatInput.TranscriptToDeliver | components/ChatInput.tsx:67-69 | the callback fires exactly when the transcript is not all white space, and it receives the trimmed, non-empty transcript |
| ChatInput.MergeTranscript | components/ChatInput.tsx:108-110 | a blank previous text is replaced by the transcript; otherwise the result is the previous text, one space, then the transcript |
| ChatInput.ChatInputBox.constructor | components/ChatInput.tsx:104-105 | the text starts as the initial prompt or the empty string; not listening |
| ChatInput.ChatInputBox.InitialPromptChanged | components/ChatInput.tsx:113-118 | a non-empty new prompt replaces the text; an absent or empty one leaves it |
| ChatInput.ChatInputBox.Edited | components/ChatInput.tsx:149 | typing sets the text to the textarea's value |
| ChatInput.ChatInputBox.Submit | components/ChatInput.tsx:128-134 | sends exactly when the text is not blank and nothing is loading; then it sends the trimmed text and clears the box; otherwise the text is unchanged |
| ChatInput.ChatInputBox.KeyDown | components/ChatInput.tsx:136-141 | Enter without Shift behaves as submit; Shift+Enter and every other key send nothing and change nothing |
| ChatInput.ChatInputBox.ReceiveResults | components/ChatInput.tsx:60-70 | a result event folds the final transcripts and, when non-blank, merges the trimmed transcript into the text; otherwise the text stays |
| ChatInput.ChatInputBox.Toggle | components/ChatInput.tsx:86-92 | asks the recognizer to stop when listening and to start otherwise; does nothing without a recognizer |
| ChatInput.ChatInputBox.Started | components/ChatInput.tsx:72 | `onstart` sets listening and leaves the text |
| ChatInput.ChatInputBox.Ended | components/ChatInput.tsx:73 | `onend` clears listening and leaves the text |
| ChatInput.ChatInputBox.Failed | components/ChatInput.tsx:74-77 | `onerror` clears listening and leaves the text |
| App.AppendChunk | App.tsx:48-54 | the history keeps its length; the message with the given id gets the chunk appended to its content; every other message is unchanged |
| App.RemoveByIdMembers | App.tsx:59 | the filter keeps exactly the messages of the history whose id differs from the given one, and never lengthens it |
| App.RemoveAbsent | App.tsx:59 | filtering out an id that no message has leaves the history unchanged |
| App.RemoveLast | App.tsx:56-59 | removing the newest message by its fresh id gives back the history before it, keeping the user message and all earlier ones |
| App.AppendToLast | App.tsx:48-54 | a chunk for the newest message, whose id is fresh, extends only that message |
| App.ChunkStep | App.tsx:47-55 | one turn of the chunk loop takes the model message from the first i chunks joined to the first i+1 chunks joined |
| App.AppendChunkKeepsIds | App.tsx:48-54 | appending a chunk keeps message ids bounded and strictly increasing |
| App.RemoveByIdKeepsIds | App.tsx:59 | removing a message keeps message ids bounded and strictly increasing |
| App.ChatApp.constructor | App.tsx:11-23 | empty history, not loading, dashboard view, no prompt; the error is the start-up API-key warning, present exactly when the key is empty |
| App.ChatApp.BeginSend | App.tsx:31-43 | while loading, nothing changes; otherwise the prompt is cleared, the user message and an empty model message with fresh ids are appended, loading is set and the error cleared |
| App.ChatApp.ReceiveChunk | App.tsx:47-55 | the history becomes the per-chunk update of the old history |
| App.ChatApp.ReceiveAll | App.tsx:46-55 | after the loop over the delivered chunks, the fresh model message holds the chunks joined in order, and earlier messages are unchanged |
| App.ChatApp.FailSend | App.tsx:56-59 | the error becomes the thrown message (or "An unknown error occurred.") and the model message is removed |
| App.ChatApp.EndSend | App.tsx:60-62 | loading is cleared |
| App.ChatApp.SendMessage | App.tsx:31-63 | while loading, nothing changes; otherwise, on success the history grows by the user message and a model message holding the chunks joined in order, with no error; on failure it grows by the user message only, and the error is set; either way loading ends, the prompt is cleared and the view is kept |
| App.ChatApp.Navigate | App.tsx:65-75 | the view is set; the error is cleared; the prompt changes only for a non-empty prompt; the history is emptied exactly when entering the chat view |
| App.ChatApp.Back | App.tsx:119 | the view becomes the dashboard; nothing else changes |
| App.SendWithoutKey | services/geminiService.ts:28-33 | without an API key the start-up warning is stored in the error state; after opening the chat, a submit leaves only the user message in the history and stores "API key is not configured." as the error, whatever the service would reply |
| App.ShownError | App.tsx:95-101 | the screen shows the error notice exactly when the chat view is open and an error with non-empty text is stored (an empty message is falsy and shows nothing), and then it shows that error |
| App.StartupWarningNeverShown | App.tsx:18-23 | the start-up key warning is stored in the error state, yet after start-up and after every sequence of card clicks and back presses nothing of it is displayed |
| Diagnosis.RemedyView | components/DiseaseDiagnosis.tsx:6-7 | the remedy is displayed as one segment per piece of the same split |
| Diagnosis.RemedyViewFaithful | components/DiseaseDiagnosis.tsx:6-23 | the duplicated splitter reassembles the remedy, shows plain pieces between blocks verbatim, and shows a remedy without fences as one text |
| Diagnosis.DiagnosisScreen.constructor | components/DiseaseDiagnosis.tsx:26-30 | no image, no result, not loading, no error |
| Diagnosis.DiagnosisScreen.FileChange | components/DiseaseDiagnosis.tsx:32-44 | an empty selection changes nothing; otherwise the first file is kept and the result and error are cleared |
| Diagnosis.DiagnosisScreen.BeginDiagnose | components/DiseaseDiagnosis.tsx:46-50 | without an image nothing changes; otherwise loading is set and error and result are cleared |
| Diagnosis.DiagnosisScreen.SettleDiagnose | components/DiseaseDiagnosis.tsx:51-61 | success stores the parsed record; failure sets the error to the thrown message or "Failed to analyze image. Please try again."; loading ends |
| Diagnosis.DiagnosisScreen.Diagnose | components/DiseaseDiagnosis.tsx:46-62 | without an image nothing changes; otherwise, after settling, the result holds the record on success, or is empty with the error set on failure, and loading is off |
| Diagnosis.DiagnoseWithoutKey | services/geminiService.ts:48-51 | without an API key, diagnosing a picked image yields no result and the error "API key is not configured.", whatever the service would reply |

## Left out

- The hosted model and its SDK are left out: the chat session singleton, the system instruction, model selection, the request format and the schema the server enforces. Replies are inputs.
- `JSON.parse` and `response.text.trim()` of the diagnosis reply are folded into the parse outcome given as input, because they are library behaviour.
- Diagnosis.DiagnosisScreen.SettleDiagnose: only a complete record (disease, description, remedy) or a thrown value can be given as the parse outcome. `JSON.parse` may also return `null`, a number or an object without `remedy`, which the source stores unchecked; rendering then fails on `content.split`. Those values are not representable in the model.
- The base64 conversion of the picked image and the FileReader preview (`imagePreview`) are left out because they are browser I/O. An image file is only a name and a MIME type.
- Message ids are natural numbers from a counter, not strings from `Date.now()`, so two ids can never collide as clock readings could.
- A chunk's `text` is taken to be a string. The SDK may leave it undefined, and JavaScript would then append "undefined"; that case is not modelled.
- Asynchronous interleaving and React's batching of state updates are left out. That covers the stale `isLoading` read in a closure, navigating while a reply streams, and a diagnose click while one is loading (the button is disabled then). Each submit and each diagnosis is one sequential run, with the phase methods exposing the intermediate states.
- Speech recognition setup is reduced to the constant `speechSupported`: feature detection, the recognizer settings (continuous, interim results, language) and event delivery are browser behaviour.
- ChatInput.ChatInputBox.Started: the listening flag follows only `onstart`, `onend` and `onerror`. The effect that creates the recognizer (`components/ChatInput.tsx:48-84`) depends on `onTranscript`, and the message box passes a new function on every render, so the effect's cleanup stops the recognizer after every re-render and a new one replaces it. That includes the re-render caused by `onstart` itself, so in the source listening stops almost as soon as it starts. The model does not capture this stop and the recognizer replacement.
- Auto-scrolling, textarea auto-resize, focus, console logging, class names and the JSX markup are left out because they are rendering.
- The dashboard is markup; only its two fixed prompts appear, as constants in `App`.
- Strings are sequences of Unicode scalar values, while JavaScript indexes UTF-16 code units. The fence search only looks at ASCII backticks, newlines and letters, so splitting gives the same pieces.
