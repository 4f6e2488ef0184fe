# Wellness client logic, modelled in Dafny

This project models the deterministic client-side logic of a wellness web
app. The rest of the app is prompt templates sent to hosted
generative-model services. The model covers five parts:

- **Suggested tasks** (`DailyTasks`). A nine-entry catalog of activities, each tagged with risk levels. It is filtered by the user's assessed level, and the first three matches are shown uncompleted.
- **Daily progress tracker** (`TodaysProgress`). There is one row per soul-sprint badge, each with a random XP reward between 10 and 29. The tracker reports a completed count and a completion percentage.
- **Task completion** (`TaskCompletion`). Both task lists use the same proof-of-activity dialog. The user picks an uncompleted row and submits a description or image. When the image service judges the proof valid, the row with the selected id is marked completed.
- **Onboarding questionnaire** (`Gad9Onboarding`). There are seven items, with the wording of the GAD-7 screener though the app calls it "GAD-9", each answered 0 to 3. Answers are collected one by one. After the last item the total goes to the risk-analysis service, and the verdict is stored with the score.
- **Chat transcript** (`ChatInterface`) and **chat analysis** (`ChatAnalysis`). The chat panel:
  - rejects blank input;
  - appends the user's message to the transcript, then one reply, or a fixed apology if a service fails;
  - forwards the assessed risk level only when an assessment exists.

  The analysis dialog:
  - refuses to analyse an empty transcript;
  - serialises the transcript as one `User:`/`AI:` line per message;
  - maps the returned intensity to a badge style, and the suggested action to a page link or an urgent-support notice.

Each hosted-model call is a function parameter returning `Outcome<T>`: either `Ok(value)` or `Failed(message)`. These calls are the risk analysis, chat analysis, guidance chat, video recommendation and image validation. Each event handler is modelled as one atomic transition on an immutable state record. A handler that awaits is split into its synchronous part and its continuation wherever the state in between can be seen (the chat send and the chat analysis). `Math.random()` draws are real parameters in [0, 1). Message ids come from a counter instead of the clock. The percentage is an exact real instead of a floating-point number.

The risk tier is whatever the risk-analysis service returns; the client never derives it from the score. The answer handler accepts any number of answers.

Files: `common.dfy` (shared vocabulary), `text.dfy` (join/split/trim), `task_completion.dfy`, `daily_tasks.dfy`, `todays_progress.dfy`, `gad9_onboarding.dfy`, `chat_interface.dfy`, `chat_analysis.dfy`.

## Model

| member | source | states |
|---|---|---|
| `DailyTasks.MatchingSpec` | src/components/daily-tasks.tsx:49-50 | The risk filter keeps exactly the catalog entries whose risk list contains the level, in catalog order, and no more entries than the catalog has |
| `DailyTasks.MatchingMultiplicity` | src/components/daily-tasks.tsx:49-50 | The filter keeps each tagged entry as many times as the catalog lists it, and drops every untagged one |
| `DailyTasks.Select` | src/components/daily-tasks.tsx:48-53 | For any catalog, the initial rows number min(limit, matches). Row i is the i-th matching entry with its id, name and icon. Every row comes from an entry tagged with the level and starts uncompleted |
| `DailyTasks.InitialTasks` | src/components/daily-tasks.tsx:47-53 | At most three rows. Each is a catalog entry tagged with the user's level, and none is completed |
| `DailyTasks.InitialTasksPerLevel` | src/components/daily-tasks.tsx:35-53 | Every level has at least three tagged entries, so exactly three rows are shown. These are ids 1,3,4 for low, 1,2,3 for medium and 2,4,7 for high, the same list every time |
| `DailyTasks.Card` | src/components/daily-tasks.tsx:47-61 | The card starts with the initial selection for the level, the dialog closed and nothing selected |
| `TaskCompletion.MarkCompletedOnlyTarget` | src/components/daily-tasks.tsx:96-100 | Completing by id keeps the list length. A row with the id becomes the same row with `completed` set, and every other row is unchanged |
| `TaskCompletion.MarkCompletedMonotone` | src/components/todays-progress.tsx:103-107 | Completing by id never turns a completed row back to uncompleted |
| `TaskCompletion.MarkCompletedIdempotent` | src/components/todays-progress.tsx:125-131 | Completing the same id twice has the same effect as once |
| `TaskCompletion.MarkCompletedCommute` | src/components/daily-tasks.tsx:117-123 | Completing two tasks in either order gives the same list |
| `TaskCompletion.CompletedCount` | src/components/todays-progress.tsx:62-63 | The completed count never exceeds the number of tasks |
| `TaskCompletion.CompletedCountFull` | src/components/todays-progress.tsx:62-63 | The count equals the total exactly when every row is completed |
| `TaskCompletion.CompletedCountZero` | src/components/todays-progress.tsx:62 | The count is zero exactly when no row is completed |
| `TaskCompletion.MarkCompletedCount` | src/components/todays-progress.tsx:102-107 | A valid result raises the completed count by exactly the number of uncompleted rows with the selected id, so the count never decreases |
| `TaskCompletion.ClickComplete` | src/components/todays-progress.tsx:70-77 | A row can be opened for completion exactly when it exists and is uncompleted, because its button is rendered only then. Opening selects it, empties the description, drops the picked file, and clears the verdict and error without touching the list |
| `TaskCompletion.CloseDialog` | src/components/daily-tasks.tsx:132-135 | Closing the dialog forgets the selection and keeps the list, the description, the picked file, the verdict and the error |
| `TaskCompletion.Submit` | src/components/daily-tasks.tsx:78-130 | With nothing selected, nothing happens. A request goes out unless the file cannot be read. It carries the description, or the task name when that is empty, plus the uploaded file's data URI exactly when one was uploaded. The description and the picked file are left as they were. An unreadable file shows the read error and sends nothing. When the service answers, its verdict is shown with no error, and the selected id is completed exactly when the verdict is valid. When the service throws, no verdict is shown, the list is unchanged, and the error text depends on whether an image was uploaded |
| `TaskCompletion.SubmitNeverUncompletes` | src/components/todays-progress.tsx:85-138 | Whatever the image service answers, a submit keeps the list length, never un-completes a row and never lowers the completed count |
| `TodaysProgress.XpFromDraw` | src/components/todays-progress.tsx:56 | Every XP reward from a random draw in [0, 1) lies in [10, 29] |
| `TodaysProgress.XpRangeCovered` | src/components/todays-progress.tsx:56 | Every reward in [10, 29] is produced by some draw, so the range is exactly [10, 29] |
| `TodaysProgress.Seed` | src/components/todays-progress.tsx:53-60 | The seeded rows are the badges in order, with their id, name and icon, an XP reward in [10, 29], and not completed |
| `TodaysProgress.SeedComplete` | src/components/todays-progress.tsx:54-58 | Every list of badge rows with rewards in [10, 29], none completed, is a possible seeding |
| `TodaysProgress.ProgressBounds` | src/components/todays-progress.tsx:64 | The percentage is in [0, 100]. It is 0 exactly when nothing is completed, including the empty list. It is 100 exactly when there are rows and all are completed |
| `TodaysProgress.ProgressMonotone` | src/components/todays-progress.tsx:62-64 | Completing by id never lowers the percentage |
| `TodaysProgress.Tracker` | src/components/todays-progress.tsx:53-64 | After seeding, the tracker's rows are exactly the seeded badge rows: one per badge, in order, with rewards in [10, 29]. None is completed, the percentage is 0, and the dialog is closed |
| `Gad9Onboarding.QuestionnaireShape` | src/components/gad-9-onboarding.tsx:11-26 | There are seven questions, so the last index is 6. The answer option values are exactly 0, 1, 2 and 3 |
| `Gad9Onboarding.RestartResets` | src/components/gad-9-onboarding.tsx:41-46 | Restarting opens the dialog at question 0 with no answers and no result, whatever the state was before |
| `Gad9Onboarding.Score` | src/components/gad-9-onboarding.tsx:59-71 | The total of the final answers is sent to the risk service. Its verdict is stored with that total as `score`. A failure stores nothing new |
| `Gad9Onboarding.SelectAnswerAsWritten` | src/components/gad-9-onboarding.tsx:48-57 | As written, every selection appends its value to the end of the answers |
| `Gad9Onboarding.RetryAfterFailureOverflows` | src/components/gad-9-onboarding.tsx:48-71 | As written, seven 3s with a failing analysis leave question 7 showing with no result. One more 3 appends an eighth answer and stores a score of 24 |
| `Gad9Onboarding.AsWrittenAgreesOnFreshQuestion` | src/components/gad-9-onboarding.tsx:48-50 | While the answer count equals the question index, the handler as written and the corrected handler coincide |
| `Gad9Onboarding.SelectAnswerSteps` | src/components/gad-9-onboarding.tsx:48-56 | When the answer count equals the index, a selection appends its value. Below the last question it advances the index by exactly one and does not score. On the last question it scores the full answer list |
| `Gad9Onboarding.SelectAnswerPreservesValid` | src/components/gad-9-onboarding.tsx:48-57 | With the corrected handler `SelectAnswer`, restarting establishes the invariant, and option clicks on the answer screen preserve it. The handler as written does not preserve it after a failed analysis; see Findings. The invariant: the index stays on a question; the answer count equals the index, or is seven on the last question; answers are option values; a stored result scores exactly seven answers |
| `Gad9Onboarding.ValidScoreInRange` | src/components/gad-9-onboarding.tsx:111 | With the corrected handler `SelectAnswer`, a stored score lies in [0, 21] in every state satisfying its invariant |
| `Gad9Onboarding.RunBeforeLast` | src/components/gad-9-onboarding.tsx:52-53 | With the corrected handler, the first six clicks store their values in order and advance the index one by one without scoring. `AsWrittenRunAgrees` carries this to the handler as written |
| `Gad9Onboarding.AsWrittenRunAgrees` | src/components/gad-9-onboarding.tsx:48-57 | Until a result is stored and while at most one answer per question is given, the handler as written and the corrected handler reach the same states |
| `Gad9Onboarding.FullQuestionnaire` | src/components/gad-9-onboarding.tsx:48-78 | With the handler as written, which here agrees with the corrected one, answering all seven questions after a restart stores exactly those answers. A result exists exactly when the service answers. Its score is their sum, in [0, 21], and finishing forwards it |
| `Gad9Onboarding.FinishOnboarding` | src/components/gad-9-onboarding.tsx:73-78 | Finishing forwards the stored result exactly when one exists, always closes the dialog, and keeps the answers and result |
| `Text.BlankIffAllWhitespace` | src/components/chat-interface.tsx:50 | `!text.trim()` holds exactly when every character is ECMAScript whitespace or a line terminator, including for the empty text |
| `Text.OrElse` | src/components/daily-tasks.tsx:93 | `a \|\| b` on strings yields `a` when `a` is non-empty and `b` otherwise, so it is empty only when both are |
| `ChatInterface.ChooseText` | src/components/chat-interface.tsx:49 | The text sent is the explicit text when one is given and non-empty, and the input box otherwise |
| `ChatInterface.RequestFor` | src/components/chat-interface.tsx:60-65 | The chat request carries the text. It carries a risk level exactly when an assessment result exists, and then that result's level |
| `ChatInterface.BeginSend` | src/components/chat-interface.tsx:48-57 | Blank text is rejected. Otherwise the chosen text is appended untrimmed as a user message after the existing ones, with a fresh id. The input is cleared, loading is set, recommendations are cleared, and the request and video query are formed from the text |
| `ChatInterface.FinishSend` | src/components/chat-interface.tsx:67-82 | After the calls settle, exactly one AI message follows. It holds the reply when both calls succeed, otherwise the fixed apology. Recommendations are shown only on success, earlier messages are untouched and loading ends |
| `ChatInterface.SendMessage` | src/components/chat-interface.tsx:48-83 | Blank text leaves the state unchanged and sends nothing. Otherwise exactly two messages are appended: the user's untrimmed text, then one reply or the apology. The request has the assessment's risk level only when an assessment exists |
| `ChatInterface.SendAcceptsNonBlank` | src/components/chat-interface.tsx:49-50 | A send goes out exactly when the chosen text has a character that `trim` keeps |
| `ChatInterface.SendKeepsSettled` | src/components/chat-interface.tsx:52-79 | Every send keeps the transcript as user messages each followed by exactly one AI message, with strictly increasing ids |
| `ChatInterface.ConverseAppendOnly` | src/components/chat-interface.tsx:53-73 | Over any conversation the transcript is append-only: earlier messages stay in place unchanged and the pairing invariant holds after every turn |
| `ChatAnalysis.IntensityVariantCases` | src/components/chat-analysis.tsx:30-36 | High maps to destructive and medium to secondary. Anything else, including no intensity, maps to default. Each of these holds in both directions |
| `ChatAnalysis.ResultBadgeAgrees` | src/components/gad-9-onboarding.tsx:108 | The questionnaire's result badge colours a risk level the same way the analysis dialog colours an intensity |
| `ChatAnalysis.ParseLineInverse` | src/components/chat-analysis.tsx:54 | A serialised line can be read back into its speaker and text |
| `ChatAnalysis.TranscriptRoundTrip` | src/components/chat-analysis.tsx:54 | A non-empty transcript without embedded line breaks serialises to one line per message, in order. Reading it back gives every message's speaker and text |
| `ChatAnalysis.TranscriptAmbiguous` | src/components/chat-analysis.tsx:54 | The serialisation is not injective once messages contain line breaks: an AI reply holding "\nUser: " reads back as two entries, the same as a separate user message |
| `ChatAnalysis.BeginAnalyze` | src/components/chat-analysis.tsx:38-51 | An empty transcript only raises the "No History" toast and sends nothing. Otherwise the dialog opens loading, the previous analysis and error are cleared, and the serialised transcript is sent |
| `ChatAnalysis.FinishAnalyze` | src/components/chat-analysis.tsx:53-62 | On success the analysis is shown. On failure the error is set to the error's message, or the fixed text when that is empty, and no new analysis appears |
| `ChatAnalysis.Analyze` | src/components/chat-analysis.tsx:38-63 | With no messages, the panel is unchanged apart from the toast. Otherwise the transcript is sent, and the dialog ends showing either the service's analysis or an error, never both |
| `ChatAnalysis.RecommendationAction` | src/components/chat-analysis.tsx:65-100 | Soul sprints render the "Explore Soul Sprints" link to /soul-sprint, and meeting pods the "Find a Meeting Pod" link to /meeting-pods. Nothing is rendered exactly when there is no analysis. Every rendered link points to a page of the app |
| `ChatAnalysis.RecommendationActionFaithful` | src/components/chat-analysis.tsx:65-100 | Nothing is rendered exactly when there is no analysis. The support notice appears exactly for professional help. The suggested action can be read back from what is rendered |

## Left out

- The hosted-model flows under `src/ai/flows/`. They are prompt templates for external services and appear only as the function parameters described above. The risk level is never computed from the score: the score-to-level thresholds are prompt text, not code.
- Image generation/validation internals, sign-in and sign-up, storage configuration, and purely presentational components.
- Rendering, icons, the progress chart and `Math.round` in the percentage label.
- The questionnaire's and the task dialog's `isLoading`/`loading` flags. Those handlers are single atomic steps here. The chat panel's flag is modelled.
- `FileReader` callbacks: reading the picked file is folded into the dialog state as an already-read data URI or a read failure. `handleFileChange` and typing into the inputs are plain field updates and are not separate operations.
- `Promise.all` concurrency and the order in which React applies queued state updates. Both service calls of a chat send are taken as settled together.
- Closing the questionnaire dialog from its overlay (`onOpenChange`). It only toggles `open`.
- The chat page's own badge mapping for the risk badge (outline for no level). Only the analysis dialog's mapping and the questionnaire's result badge are modelled.
- ChatInterface.Message: ids come from a counter in the state, so they are always distinct. The source uses `Date.now()` and `Date.now() + 1`, which can collide across quick sends. Id freshness is therefore a property of the model, not of the source.
- ChatAnalysis.TranscriptRoundTrip: the round trip is proved only for messages without line breaks. Guidance replies are free text, and a reply line starting with "User: " or "AI: " reads back as a separate message (`ChatAnalysis.TranscriptAmbiguous`), so the transcript the analysis service receives is not faithful in general.
- TaskCompletion.Submit: the request's image is the data URI already read from the picked file. The `FileReader` step is not modelled.

## Findings

| source | as written | input that shows it | evidently intended | confidence | as-written member | corrected member |
|---|---|---|---|---|---|---|
| src/components/gad-9-onboarding.tsx:48-57 | If the risk analysis fails after the seventh answer, no result is stored and loading ends, so question 7 is shown again. The next click appends an eighth answer, and all eight are scored | Answer "Nearly every day" seven times while the analysis fails, then again while it succeeds. The score sent and stored is 24, shown as "24 / 21" | A retry replaces the seventh answer, so the score is always the sum of seven answers in [0, 21] | medium, not executed | `Gad9Onboarding.RetryAfterFailureOverflows` | `Gad9Onboarding.SelectAnswerPreservesValid` |
