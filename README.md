# HeartGuard (rural-helper) core, modelled in Dafny

HeartGuard is a browser application for teachers and children in rural schools. It has four parts:

- a counselling chat with a model called "康康老师", whose reply streams in;
- a drawing board that turns a prompt or a sketch into an image;
- a materials page with a child assessment form, a story writer and a tagged reading catalogue;
- a four-page first-visit walkthrough.

This project models the logic beneath those screens. Every call to the model provider becomes a parameter standing for what the provider answered. The modules are:

- `GeminiService` (`gemini_service.dfy`) covers the generation service without its network calls:
  - the story parser (title line, body, numbered morals and their fallbacks);
  - the length and tone instructions;
  - the data-URL handling of images;
  - the forwarding of non-empty stream chunks;
  - the fallback text of an empty assessment report.
- `StoryExamples` (`story_examples.dfy`) proves what the parser returns for concrete replies.
- `ChatTab` (`chat_tab.dfy`) is a class with the chat's state:
  - the conversation, the input box, the busy flag, the saved conversations and the dictation flag;
  - one method per handler: send, save, load, delete, clear, the microphone toggle and the recognizer's four callbacks.
- `ImageGenTab` (`image_gen_tab.dfy`) holds the recent-prompt history (de-duplicated, newest first, at most 8) and the generate button in both modes.
- `MaterialsTab` (`materials_tab.dfy`) holds:
  - the assessment form and its history, which is uncapped;
  - the story writer and its history, which is uncapped;
  - concern toggling;
  - the resource tag list and filter.
- `TutorialModal` (`tutorial_modal.dfy`) is the walkthrough's step counter.
- `Types` (`types.dfy`) holds the records of `types.ts`.
- `Utf16` (`text.dfy`) holds the JavaScript string operations the code relies on. Strings are sequences of UTF-16 code units, as JavaScript counts them, so `slice(0, 20)` cuts 20 code units. The operations are `trim`, `indexOf`, `substring` with its argument swap, `split` and the one-shot `replace`.
- `Lists` (`lists.dfy`) holds `filter`, `slice`, `flat` and `Array.from(new Set(...))`.
- `Wrappers` (`wrappers.dfy`) holds `Option` and `Result`.

Each event handler is one atomic method. Ids, timestamps and dates are parameters, as are the provider's answers and the browser's capabilities.

The code uses these fallbacks and behaviours, and so does the model:

- The title fallback is "无题" and the moral fallback is `["勇敢面对挑战", "相信自己"]`.
- Empty numbered moral items are kept.
- The assessment and story histories have no cap.
- A text-mode image prompt is saved before the provider is called, so it is saved even when generation fails.
- An unknown speech-recognition error shows nothing.

## Model

| member | source | states |
|---|---|---|
| GeminiService.LengthInstructionCases | services/geminiService.ts:126-133 | 'short' and 'long' each get their own instruction; exactly the other values get the medium one (both directions) |
| GeminiService.ToneInstructionCases | services/geminiService.ts:135-141 | 'adventure', 'happy' and 'brave' each get their own instruction; exactly the other values get the warm one (both directions) |
| GeminiService.LineEnd | services/geminiService.ts:173 | where a regular-expression `.*` stops: the first line terminator at or after the start, or the end of the text |
| GeminiService.MatchTitle | services/geminiService.ts:173 | the match of `/标题：(.*?)\n/` is the leftmost position where the label is followed by a line whose first terminator is a line feed; its group is the text between them; no earlier position matches; no match when there is no such position |
| GeminiService.FirstTitleLineIsMatch | services/geminiService.ts:173 | when the first title line starts at p, the match is at p, with the rest of that line as group, ending just past the line feed |
| GeminiService.NoTitleLineNoMatch | services/geminiService.ts:173 | without a title line there is no match |
| GeminiService.TitleOfFirstTitleLine | services/geminiService.ts:173-174 | the title is the trimmed rest of the first line that starts with "标题：" and ends in a line feed |
| GeminiService.UntitledWithoutTitleLine | services/geminiService.ts:174 | without such a line the title is "无题" |
| GeminiService.TitleIsOneLine | services/geminiService.ts:173-174 | a title never holds a line terminator |
| GeminiService.TitleIsTrimmed | services/geminiService.ts:174 | a title has no white space at either end |
| GeminiService.GroupIsOneLine | services/geminiService.ts:173 | the captured group holds no line terminator |
| GeminiService.LeadingDigits | services/geminiService.ts:184-185 | the length of the run of decimal digits a line starts with, and the unit after it is not a digit |
| GeminiService.NumberedLines | services/geminiService.ts:183-184 | every line kept starts with digits and a dot and holds no line feed, and every numbered line of the section is kept |
| GeminiService.NumberedLinesOfLine | services/geminiService.ts:183-184 | a single line yields itself when numbered and nothing otherwise |
| GeminiService.NumberedLinesAppend | services/geminiService.ts:183-184 | lines are taken one at a time in their order: a numbered first line comes before the numbered lines after it, an unnumbered one is dropped |
| GeminiService.StoryMoral | services/geminiService.ts:176-193 | the list of morals is never empty |
| GeminiService.MoralFallback | services/geminiService.ts:176-193 | with no moral label, or no numbered line after it, the morals are exactly `["勇敢面对挑战", "相信自己"]` |
| GeminiService.MoralItemsOfNumberedLines | services/geminiService.ts:183-185 | otherwise there is one moral per numbered line after the label, in order; each is the line after its number and dot, trimmed, so "1." gives an empty item that is kept |
| GeminiService.StrippedNumberedLines | services/geminiService.ts:185 | mapping the strip over numbered lines keeps their count and strips each line |
| GeminiService.StripNumberedLine | services/geminiService.ts:185 | removing `^\d+\.\s*` and trimming equals trimming what follows the number and dot |
| GeminiService.ContentOfUnmarkedText | services/geminiService.ts:186-187 | with neither the moral label nor a title line, the content is the whole text trimmed |
| GeminiService.ContentWithoutMoralLabel | services/geminiService.ts:186-187 | without the moral label, the content is the text with its first title line cut out, trimmed |
| GeminiService.ContentBeforeMoralLabel | services/geminiService.ts:180-182 | with the label and no title line, the content is what precedes the label with its first "---" removed, trimmed |
| GeminiService.ContentBetweenTitleAndMoralLabel | services/geminiService.ts:180-182 | with both, the content lies between the end of the title line and the label, taken in either order as `substring` does, with its first "---" removed, trimmed |
| GeminiService.ParseStory | services/geminiService.ts:171-194 | a parse never fails and never leaves the morals empty |
| GeminiService.ParseUnmarkedText | services/geminiService.ts:171-194 | text with no markers parses to "无题", the whole text trimmed, and the two fallback morals |
| GeminiService.GenerateStory | services/geminiService.ts:166-194 | the story call fails exactly when the provider rejects it; a missing text parses as ""; a story always has morals |
| GeminiService.AnalyzeAssessment | services/geminiService.ts:116-121 | the call fails exactly when the provider rejects it; a report is never empty; a non-empty reply text is the report itself; a missing or empty text gives exactly "无法生成评估报告" |
| GeminiService.FirstImageIndex | services/geminiService.ts:54-58 | the index of the first part carrying inline data; no earlier part carries any |
| GeminiService.ExtractImage | services/geminiService.ts:54-59 | the loop's early return yields the data URL of the first part with inline data, and "no image data" exactly when no part has any |
| GeminiService.GenerateImage | services/geminiService.ts:45-64 | an image call yields what the extraction yields, and fails when the provider rejects it |
| GeminiService.StripImagePrefixRemovesOne | services/geminiService.ts:67 | exactly one leading PNG, JPEG or JPG base64 data-URL prefix is removed |
| GeminiService.StripImagePrefixKeepsOthers | services/geminiService.ts:67 | a string with none of those prefixes passes unchanged |
| GeminiService.SketchRequest | services/geminiService.ts:66-83 | a sketch is sent as PNG data holding the image with its data-URL prefix stripped, followed by the fixed sketch instruction and then the prompt |
| GeminiService.NonEmptyTexts | services/geminiService.ts:37-41 | the chunks passed on are those with a non-empty text; together they spell everything the stream delivered |
| GeminiService.NonEmptyTextsAppend | services/geminiService.ts:37-41 | forwarding works chunk by chunk, in order |
| GeminiService.ForwardChunks | services/geminiService.ts:37-41 | the `for await` loop forwards exactly those chunks, in order |
| StoryExamples.ParseWellFormedReply | services/geminiService.ts:171-194 | "标题：Hello\nBody text\n---\n故事里的小道理：\n1. First\n2. Second" parses to title "Hello", content "Body text", morals ["First", "Second"] |
| StoryExamples.BareNumberGivesEmptyItem | services/geminiService.ts:185 | the line "1." gives the empty item |
| ChatTab.SessionTitle | components/ChatTab.tsx:175 | a title is never empty: the first question when it has at most 20 units, its first 20 units and "..." when longer, "新对话" when it is empty |
| ChatTab.PushSession | components/ChatTab.tsx:179 | the new conversation is first, the earlier ones follow in order, and only the oldest beyond 20 are dropped |
| ChatTab.PushSessionBounded | components/ChatTab.tsx:179 | the history never exceeds 20, and below the cap nothing is dropped |
| ChatTab.WithContentTwice | components/ChatTab.tsx:211 | rewriting the reply twice keeps only the second text |
| ChatTab.WithContentOfLast | components/ChatTab.tsx:211 | when only the last message has the id, the rewrite touches that message alone |
| ChatTab.Sent | components/ChatTab.tsx:199-204 | a send appends exactly two messages, the question and then an empty model reply, and keeps the rest |
| ChatTab.RepliedWithFreshIds | components/ChatTab.tsx:199-214 | with fresh ids, the conversation after a send is the old one plus the question and the whole reply, or the apology when the stream failed |
| ChatTab.FinalTranscriptAppend | components/ChatTab.tsx:123-127 | the final transcript of a run of results is built result by result |
| ChatTab.InterimOnlyTranscript | components/ChatTab.tsx:124-130 | results that are all interim contribute nothing |
| ChatTab.CollectFinalTranscript | components/ChatTab.tsx:121-127 | the loop gathers the final transcripts from `resultIndex` on, in order |
| ChatTab.ErrorNoticeCases | components/ChatTab.tsx:137-143 | 'not-allowed' and 'permission-denied' show the permission alert, 'network' and 'no-speech' their own toasts, and exactly the other codes show nothing |
| ChatTab.ChatTab.constructor | components/ChatTab.tsx:35-53 | the tab starts with the greeting alone, an empty input, not busy, no saved conversations, not listening |
| ChatTab.ChatTab.HandleSend | components/ChatTab.tsx:197-218 | a blank text, or a send while busy, changes nothing; otherwise the history sent is the conversation before the question, the conversation ends as the question plus the streamed reply or the apology, the input is empty and the tab is not busy |
| ChatTab.ChatTab.BeginSend | components/ChatTab.tsx:199-204 | before the reply arrives, the question and an empty placeholder are appended, the input is cleared and the tab is busy |
| ChatTab.ChatTab.ReceiveReply | components/ChatTab.tsx:206-217 | the forwarded chunks fill the placeholder; a failure then replaces its text with the apology; the tab ends not busy |
| ChatTab.ChatTab.StreamInto | components/ChatTab.tsx:208-212 | after each chunk the placeholder holds the text so far, and nothing else changes |
| ChatTab.ChatTab.SaveCurrentSession | components/ChatTab.tsx:171-183 | saving does nothing when only the greeting is there; otherwise the titled conversation goes first and the history stays within 20 |
| ChatTab.ChatTab.LoadSession | components/ChatTab.tsx:185-188 | opening a saved conversation makes it the current one |
| ChatTab.ChatTab.DeleteSession | components/ChatTab.tsx:190-195 | every saved conversation with that id goes, and the others stay |
| ChatTab.ChatTab.Clear | components/ChatTab.tsx:272 | clearing leaves the first message alone |
| ChatTab.ChatTab.ToggleVoiceInput | components/ChatTab.tsx:84-161 | a file page or a browser without speech input only gets an alert; otherwise the recognizer exists afterwards and is told to stop when listening, else to start, and to stop when starting throws; the toggle never sets `isListening` itself |
| ChatTab.ChatTab.OnStart | components/ChatTab.tsx:110-113 | listening is on, with its toast |
| ChatTab.ChatTab.OnEnd | components/ChatTab.tsx:115-118 | listening is off, with its toast |
| ChatTab.ChatTab.OnError | components/ChatTab.tsx:134-144 | listening is off, and the notice depends on the error code |
| ChatTab.ChatTab.OnResult | components/ChatTab.tsx:120-132 | the final transcripts from `resultIndex` on are appended to the input; interim results leave it as it was |
| Lists.Filter | components/ChatTab.tsx:192 | `filter` keeps exactly the elements that pass, and no more elements than it was given |
| Lists.FilterKeepsOrder | components/MaterialsTab.tsx:189 | `filter` keeps the order of what it keeps |
| Lists.Take | components/ChatTab.tsx:179 | `slice(0, n)` is the first n elements, or all of them when there are fewer |
| Lists.Without | components/ChatTab.tsx:192 | removing by id drops every element with that id and keeps every other |
| Lists.WithoutAppend | components/MaterialsTab.tsx:50 | removal works element by element, so the survivors keep their order |
| Lists.WithoutAbsent | components/MaterialsTab.tsx:273 | removing an id nothing has changes nothing |
| Lists.WithoutIdempotent | components/ChatTab.tsx:192 | deleting twice is deleting once |
| Lists.FlattenHas | components/MaterialsTab.tsx:188 | every tag of every resource is in the flattened list |
| Lists.Distinct | components/MaterialsTab.tsx:188 | `Array.from(new Set(...))` holds every value once, in the order of first appearance |
| Utf16.Trim | services/geminiService.ts:174 | `trim` cuts exactly the leading and trailing white space |
| Utf16.BlankIsAllSpace | components/ChatTab.tsx:198 | `!text.trim()` holds exactly when the text is all white space |
| Utf16.IndexOf | services/geminiService.ts:176 | `indexOf` gives the first occurrence, or -1 when there is none |
| Utf16.RemoveFirst | services/geminiService.ts:182 | `replace(/---/, '')` removes the first occurrence only: what precedes it is kept and what follows it closes up; text without one is unchanged |
| Utf16.RemoveFirstKeepsLaterOccurrences | services/geminiService.ts:182 | a later "---" survives the removal |
| Utf16.Substring | services/geminiService.ts:182 | `substring` gives the slice between its arguments, in either order |
| Utf16.Split | services/geminiService.ts:184 | `split('\n')` gives pieces without the separator that join back into the text |
| ImageGenTab.SavePrompt | components/ImageGenTab.tsx:43 | the saved prompt is first and appears once; the others come from the earlier history; there are at most 8 |
| ImageGenTab.SavePromptRepeated | components/ImageGenTab.tsx:43 | in a history without repeats and of at most 8, a prompt already there moves to the front and every other prompt stays, in order, so the length is unchanged |
| ImageGenTab.SavePromptFresh | components/ImageGenTab.tsx:43 | a new prompt goes in front of the whole history while there is room; when the history is full, only the oldest prompt falls off |
| ImageGenTab.SavePromptKeepsOthers | components/ImageGenTab.tsx:43 | the history keeps no duplicates, and the other prompts keep their relative order |
| ImageGenTab.SavePromptAtFront | components/ImageGenTab.tsx:43 | saving the prompt already in front changes nothing |
| ImageGenTab.SavePromptRepeat | components/ImageGenTab.tsx:43 | saving a, b, a leaves [a, b] |
| ImageGenTab.SaveCatDogCat | components/ImageGenTab.tsx:43 | saving "cat", "dog", "cat" in turn leaves ["cat", "dog"] |
| ImageGenTab.EnhancedPrompt | components/ImageGenTab.tsx:52 | the enhanced prompt starts with the prompt and is never empty, so the sketch fallback text is never sent |
| ImageGenTab.CallProvider | components/ImageGenTab.tsx:54-64 | text mode sends the enhanced prompt; sketch mode sends the canvas with it when the canvas exists and sends nothing otherwise |
| ImageGenTab.ImageGenTab.constructor | components/ImageGenTab.tsx:12-18 | text mode, empty prompt, cartoon style, no image, no error, empty history |
| ImageGenTab.ImageGenTab.HandleGenerate | components/ImageGenTab.tsx:48-71 | a blank prompt in text mode changes nothing; otherwise text mode saves the raw prompt whatever the outcome, sketch mode leaves the history alone, success shows the image, failure keeps the old image and shows the fixed error, and generation ends not busy |
| ImageGenTab.ImageGenTab.Generate | components/ImageGenTab.tsx:50-70 | the handler past its guard, with the same outcomes |
| MaterialsTab.Toggled | components/MaterialsTab.tsx:71-73 | a ticked concern is removed, every copy of it, and the others keep their order; any other concern is appended at the end |
| MaterialsTab.ToggledTwice | components/MaterialsTab.tsx:72 | ticking and unticking a concern gives back the list it started from |
| MaterialsTab.ToggledTwiceMoves | components/MaterialsTab.tsx:72 | unticking and ticking again moves the concern to the end |
| MaterialsTab.AssessmentSection.constructor | components/MaterialsTab.tsx:8-11 | the form's starting values, no report, not loading, empty history |
| MaterialsTab.AssessmentSection.HandleSubmit | components/MaterialsTab.tsx:61-69 | without a name nothing is sent or saved; a report is shown and its record put first in the history; a failed call saves nothing; loading ends false |
| MaterialsTab.AssessmentSection.ToggleConcern | components/MaterialsTab.tsx:71-73 | only the concern list of the form changes |
| MaterialsTab.AssessmentSection.DeleteHistoryItem | components/MaterialsTab.tsx:48-53 | every record with that id goes, and the others stay |
| MaterialsTab.AssessmentSection.LoadHistoryItem | components/MaterialsTab.tsx:55-59 | a saved record brings back its form and its report |
| MaterialsTab.StorySection.constructor | components/MaterialsTab.tsx:239-244 | empty theme, no story, medium length, warm tone, empty history |
| MaterialsTab.StorySection.HandleGenerate | components/MaterialsTab.tsx:285-293 | only an empty theme is refused; the request carries the theme, the age group "7-12岁" and the instructions for the chosen length and tone; a story is shown and saved first with those inputs; a failure saves nothing and raises the failure alert; loading ends false |
| MaterialsTab.StorySection.DeleteFromHistory | components/MaterialsTab.tsx:271-276 | every record with that id goes, and the others stay |
| MaterialsTab.StorySection.LoadFromHistory | components/MaterialsTab.tsx:278-283 | a saved record brings back its story, theme, length and tone |
| MaterialsTab.AllTagLists | components/MaterialsTab.tsx:188 | one tag list per resource, in order |
| MaterialsTab.AllTags | components/MaterialsTab.tsx:188 | the filter buttons are "全部" followed by every tag once, in order of first appearance |
| MaterialsTab.Filtered | components/MaterialsTab.tsx:189 | "全部" shows every resource; any other filter shows exactly the resources tagged with it |
| MaterialsTab.FilteredKeepsOrder | components/MaterialsTab.tsx:189 | a filter shows its resources in catalogue order |
| MaterialsTab.CatalogueDistinct | components/MaterialsTab.tsx:174-187 | the twelve catalogue entries are all different |
| MaterialsTab.CatalogueFilterInOrder | components/MaterialsTab.tsx:174-189 | every filter of the catalogue keeps catalogue order |
| TutorialModal.AfterNext | components/TutorialModal.tsx:41-44 | "next" stays within the four pages and leaves the page unchanged exactly when it closes |
| TutorialModal.AfterPrev | components/TutorialModal.tsx:46-48 | "previous" goes one page back, and does nothing on the first page |
| TutorialModal.PrimaryLabelCases | components/TutorialModal.tsx:82 | the main button reads "开始体验" exactly on the last page and "下一步" on every other |
| TutorialModal.PrevUndoesNext | components/TutorialModal.tsx:41-48 | "previous" undoes a "next" that turned the page |
| TutorialModal.FirstCloseFrom | components/TutorialModal.tsx:10-44 | from the first page, "next" closes for the first time on its fourth press |
| TutorialModal.TutorialModal.constructor | components/TutorialModal.tsx:9 | the walkthrough opens on the first page |
| TutorialModal.TutorialModal.HandleNext | components/TutorialModal.tsx:41-44 | turns the page, or closes on the last page without moving; the page stays in range |
| TutorialModal.TutorialModal.HandlePrev | components/TutorialModal.tsx:46-48 | goes one page back except on the first, and the page stays in range |

## Left out

- Rendering, styling and icons: everything inside the components' `return (...)`, the question buttons' tabs, and the routing in `App.tsx`. The quick-question buttons call `HandleSend` with their text.
- The wording of alerts and toasts: the model records which notice is shown (`Notice`), not its text.
- The toast timer, scrolling, `window.scrollTo`, the camera and its photo capture, sketch drawing on the canvas, and the download button. These are DOM and hardware effects.
- Persistent storage: reading histories from `localStorage` at mount, and writing them back. Every history starts empty in the constructors, and each save or delete is modelled as its in-memory update. The `useEffect` in `ImageGenTab.tsx` that reloads the prompt history on every mode switch is storage I/O too.
- Calls to the model provider: the chat system instruction, the prompt templates' wording, and the models chosen. Each call becomes a parameter: a rejection or an answer, plus a `failed` flag for the chat stream.
- Interleaving of asynchronous completions. Each handler runs to completion as one step, so a second send while one is streaming is seen only through the `isLoading` guard.
- `Date.now()` ids and timestamps, and `toLocaleDateString()` dates: these are parameters.
- The recognizer's `abort()` when the chat is unmounted (`ChatTab.tsx`, the effect's cleanup): the model has no unmount event.
- The first-visit flag of `App.tsx` that decides whether the walkthrough is shown.
- Speech recognition is abstract: the page's protocol, the API's presence and whether `start()` throws become an `Environment`; the commands sent to the recognizer become a `RecognizerCommand`. Its settings (`zh-CN`, interim results) are not modelled.
- Mode and style selection, and the form fields' individual `onChange` setters, are plain assignments and are not modelled.
- The assessment form's initial `mood`, `social` and `study` fields are not part of the `AssessmentData` record (`types.ts`), so the model's form does not carry them.
- `Utf16.Units` builds string literals from characters of the Basic Multilingual Plane only. The greeting's 🌻 is encoded as a surrogate pair through `Utf16.EncodeChar`.
- MaterialsTab.StorySection.HandleGenerate: takes the outcome of `generateStory` (`GenerateStory` of the provider's reply) rather than the reply itself.
- ChatTab.ChatTab.LoadSession: requires the conversation to come from the saved list, since loaded conversations are the only ones offered.
- MaterialsTab.Filtered: the catalogue-order statement needs distinct entries. `CatalogueDistinct` shows the shipped catalogue has them. No lemma evaluates a concrete filter of the twelve entries.
