# nevermore: a verified model of its core

nevermore is a terminal coding agent written in C. This project models the parts of
it whose comments state invariants about whole conversations, and the small modules
that refine a simple specification, and proves those statements for every input,
every run or every reachable state.

- **The agent turn machine** (`src/agent.c`, `src/session.c`). `AgentMachine` is the
  loop as a state and one function per entry point; the provider's stream, the tools,
  the config store, the catalog, the git job and the clock are inputs of each event.
  `AgentGroups`, `AgentRounds`, `AgentSpeech`, `AgentPrefix` with `AgentRequests`,
  `AgentLedger`, `AgentTurn` and `AgentDeadline` prove what every run keeps, as folds of
  what was streamed and returned; `Agent` is the object whose fields each step updates
  in place, proved method by method against the machine.
- **Images** (`src/session.c`, `src/agent.c`). `ImageWindow` is which images one request
  carries and which markers stand in, `ImageRuns` what that makes of every run;
  `AgentImages` and `AgentWire` compose it with the turn machine's requests.
- **The prompt buffer** (`src/context.c`, `src/reminder.c`). `Prompt` is the list of named
  segments, `ContextWalk` and `ContextFiles` which project files are found and loaded,
  `Reminder` the boundary they pass, `ProjectBlock` the capped block they make,
  `GitSection` the scan of the git command's output, `PromptBuffer` the flat buffer
  edited at two recorded offsets.
- **The config store** (`src/conf.c`). `Decimal` and `DecimalScans`, `ConfValues` and
  `ConfFamilies` are the canonicalisers, `ConfKeys` the key table and `ConfTable` what
  it says by name and word, `ConfFile` the printer and the parser of the shadow file,
  `ConfLines` what any file says line by line, `ConfRoundTrip` when one undoes the other, `ConfLayer` what calls do to the layer, `ConfWriteSet` the sets of writes,
  `ConfShadow` the program's tables.
- **Bounded memories** (`src/file_ledger.c`, `src/addr_cache.c`). `FileLedger` with
  `FileRuns` and `AddrCache` with `AddrRuns`, each refined against its whole history.
- **Scanners** (`src/chat_app.c`, `src/highlight.c`, `src/authinfo.c`). `HoldBack`,
  `HighlightSpec` with `FenceResume`, `FenceTokens` (what stands where in a line, by its
  text alone) with `FenceReading`, `Highlighter`, `AuthinfoSpec` and `Authinfo`.
- **Credits** (`src/credit.c`, `src/chat_app.c`). `Timestamps` with `Calendar`,
  `StatusCells` and `RefreshTimer`.

Fields that a method updates are fields of a class; what a method does is stated
against a function of the values, and the laws are lemmas about those functions.
Ghost fields (`past`, `history`, `puts`, `out`, `received`) record what happened and
are read by no program code.

## Where the code does something else than it says

- The refresh timer (`src/chat_app.c:2250-2264`) is meant never to spin. It converts
  the time left to an `int` of milliseconds, and a Retry-After of 2147484 s or more
  makes that conversion overflow: `RefreshTimer.SpacingHoldsIff` is the exact bound
  and `RefreshTimer.HugeRetryAfterSpins` the run. The opposite overflow, a deadline
  2^31 + 1 ms past or more, is reached on a machine with that much uptime when nothing
  was ever fetched; it can only delay the refresh (`RefreshTimer.NeverLateIff`).
- The purse is meant to be fetched at most once a TTL (`src/chat_app.c:2246-2248`). A
  landing in the first second of the monotonic clock counts as none
  (`src/chat_app.c:2178`): `RefreshTimer.TickFiresIff` is the condition and
  `RefreshTimer.FirstSecondIsForgotten` the run.
- A key of the key file that is too long is said to be skipped with its value
  (`src/authinfo.c:253`). Its value is read as the next key:
  `AuthinfoSpec.LongKeyIsSkippedAlone`.
- A value of 1024 characters or more is cut to its slot (`src/conf.c:1011-1091`), so a
  verbatim decimal of that length may be stored as one the key refuses:
  `ConfKeys.NormalizeIsIdempotentIff` is the condition.
- The MIDDLE fallback of `nm_credit_status_cells` (`src/credit.c:434-436`) is dead:
  `StatusCells.FallbackNeverPicks`.
- `nm_credit_parse_iso8601` takes any day up to 31 (`src/credit.c:50-52`); one past its
  month's end rolls over: `Calendar.AcceptedDayRollsOver`.
- The project block is capped at 32768 bytes (`src/context.h:31,55`). No room is set
  aside for the truncation notice (`src/context.c:405-414`), and an entry's scaffolding
  is written even where it does not fit (`src/context.c:366-371`).
  `ContextFiles.BlockKeepsCapIff` is the condition; `ContextFiles.BigFileOverrunsCap` is
  one file, and `ProjectBlock.ScaffoldingOverrunsCap` two, that exceed the cap.
- The repository documents the git section as the branch, the status up to 20 lines
  and the last commits (`README.md:190-192`), and each of them goes through a 512-byte line
  (`src/context.c:622-638`): `GitSection.SectionIsWholeIff` is the condition and
  `GitSection.LongStatusIsCut` the input.
- A full address table is said to give up the oldest answer first
  (`src/addr_cache.c:123-125`). It gives up the hand's (`AddrCache.ChoiceMeans`), which
  is the oldest in every run in which no put finds its own name and none reuses an
  expired slot, and not in every other run: `AddrRuns.OldestGoesIff`, with two runs in
  `AddrRuns.LosesTheNewest`.
- A set of writes is promised to be stored whole or not at all (`src/conf.h:658-662`).
  A full pool of scoped keys would stop it half way: `ConfWriteSet.SetManyIsAllOrNothing`
  is the condition. With the five names of the installed registry, or any eight, it is
  always met (`ConfWriteSet.InstalledStoreWhole`, `ConfWriteSet.FewProvidersStoreWhole`);
  it takes more names, or no validator installed, to fail (`ConfWriteSet.HalfASetIsStored`).
- The stamp of a time after 2038-01-19 03:14:07 overflows a 32-bit `long`
  (`src/credit.c:69`), which the source expects on Windows (`src/conf.c:678`):
  `Calendar.Defined32Iff`.
- An attachment that never reached a request is not meant to age
  (`src/session.c:632-637`). The stamp is made when a request is composed, so one whose
  stream does not open uses up the window: `ImageRuns.SeenIff` is the condition and
  `ImageRuns.AnUnopenedRequestAgesAnImage` the run.
- The branch of `finish_round` for a round with a trace alone (`src/agent.c:2211-2213`)
  is never reached, because such a round is void: `AgentObject.Agent.FinishRound` is
  proved without it.

## Model

| member | source | states |
|---|---|---|
| `Session.ClosedAppend` | src/session.c:125-185 | a transcript made of complete tool-call groups stays so when more complete groups are appended |
| `Session.ClosedMeansAnswered` | src/session.c:170-185 | in a well-formed transcript the k-th call of a message is answered by the k-th message after it, by id |
| `Session.ClosedMeansAsked` | src/session.c:170-185 | conversely every tool result belongs to a call of the assistant message it follows, with the same id |
| `Session.PlainMessageKeepsClosed` | src/session.c:125-168 | a message that neither calls nor answers keeps every group complete |
| `Session.FullGroupCloses` | src/session.c:170-185 | an open group whose last result is in place is complete |
| `Session.ResultsExtendGroup` | src/session.c:170-185 | results for the next calls, in call order, keep a group open and move it forward by their number |
| `Session.SetSystemKeepsClosed` | src/session.c:75-99 | replacing message 0 moves no group |
| `Session.SetSystemKeepsOpen` | src/session.c:75-99 | replacing message 0 leaves an open group open, with as many results |
| `AgentGroups.FinishRoundKeepsShape` | src/agent.c:2118-2243 | a finished round leaves a plain message, or opens a group with no result yet |
| `AgentGroups.FinishCallKeepsShape` | src/agent.c:2270-2373 | one finished call adds exactly its own result to the open group |
| `AgentGroups.ToolsDoneKeepsShape` | src/agent.c:2444-2514 | the group is complete before the image fan-out or the next request's reminder is appended |
| `AgentGroups.CancelKeepsShape` | src/agent.c:2769-2811 | a cancel in the middle of a tool phase answers every call that is left, in order |
| `AgentGroups.EnvDriveKeepsShape` | src/agent.c:2525-2567 | the git stage ends with the published prompt as message 0 and no group touched |
| `AgentGroups.ChangeModelKeepsShape` | src/agent.c:832-860 | a model change in any phase republishes message 0 and leaves an open group open |
| `AgentGroups.ApplyKeepsShape` | src/agent.c:2573-2811 | every entry point keeps the phases consistent, message 0 current, image ids resolvable and groups well formed |
| `AgentGroups.ReachableShape` | src/agent.c:2573-2811 | that holds after every run from construction, whatever the provider, the tools, the store and the catalog answered |
| `AgentGroups.EverySentCallIsAnswered` | src/agent.c:1597-1960 | in every request ever accepted, each tool call is answered in place by its own id |
| `AgentRounds.DeltasAccumulate` | src/agent.c:1313-1459 | a stream's chunks add up in arrival order: its text, its trace, its last details array, its last call list and as many images as were attached |
| `AgentRounds.CompletedKeeps` | src/agent.c:2118-2243 | a completed round leaves one assistant message, what its stream delivered |
| `AgentRounds.ReachableRounds` | src/agent.c:1313-2243 | in every reachable state the assistant messages are the completed rounds in order, each with the concatenation of its content chunks and of its trace chunks, its last details array and its last call list; a round is void exactly when nothing came of it |
| `AgentRounds.RoundEndsBy` | src/agent.c:2118-2243 | how a round ends is told by its status and by all its stream delivered: refused or void it adds no message and no count, else it leaves its message, and runs its calls or ends the turn |
| `AgentSpeech.ResultsAreReturned` | src/agent.c:2270-2373 | over any run the tool results of the transcript are, in order, what each call's own tool returned, or the notice of the cancel that cut it off |
| `AgentSpeech.TurnOpensWithInput` | src/agent.c:2573-2628 | a turn appends the user's text with its images, then the notes in order, and nothing but a reminder after them |
| `AgentSpeech.RoundSaysTheReminder` | src/agent.c:1608-1637 | a round's request ends with the reminder that fired, if one did, and is otherwise the transcript as it was |
| `AgentSpeech.PicturesFanOut` | src/agent.c:2444-2490 | the pictures of a round's tools go out in one message after the last result, in the order of their calls |
| `AgentSpeech.RequestsAskTheModel` | src/agent.c:832-860 | every accepted request of any run asks the model that the last change before it named |
| `AgentSpeech.ClauseFollowsCatalog` | src/agent.c:403-412 | until a model's first request the prompt follows the catalog's vision and after that is left alone; a model change opens it again |
| `AgentPrefix.SendKeepsEcho` | src/agent.c:1694-1700 | a request composed under the mode in force keeps the latch's meaning: nothing carried before it, one mode from the first carrier on |
| `AgentPrefix.OpenedKeepsHistory` | src/agent.c:1876-1984 | an accepted request repeats the transcript and the current prompt, and closes each latch at most once |
| `AgentPrefix.StartKeepsHistory` | src/agent.c:2573-2628 | the start of a turn rewrites message 0 only while no request of the model is out |
| `AgentPrefix.ToolStepKeepsHistory` | src/agent.c:2444-2514 | the tool phase only appends to what was sent |
| `AgentPrefix.EnvDriveKeepsHistory` | src/agent.c:2525-2567 | the git section is published before the first request or never |
| `AgentPrefix.ReachableHistory` | src/agent.c:1597-1984 | the facts about sent requests hold after every run |
| `AgentRequests.SystemPromptIsFrozen` | src/agent.c:403-412 | any two accepted requests with no model change between them carry the identical message 0 |
| `AgentRequests.TranscriptOnlyGrows` | src/agent.c:1597-1614 | every later request repeats each earlier message of an earlier one, position by position, as the transcript holds it |
| `AgentRequests.EchoPrefixIsStable` | src/agent.c:1254-1289 | from the first request that carries a field, every later one gives each earlier message the identical field; the two fields are independent |
| `AgentRequests.LayoutChangesAtMostOnce` | src/agent.c:1968-1977 | so the shared prefix's layout of a field changes at most once in a conversation |
| `AgentRequests.RequestPrefixIsStable` | src/agent.c:1597-1984 | with the model unchanged and no latch closing between them, the text, calls and echoed fields of an earlier request are a prefix of a later one's |
| `AgentRequests.RequestEchoes` | src/agent.c:1254-1289 | an accepted request is the transcript, each message with its own trace and details exactly where the mode in force says: never, with tool calls, or wherever there is one; the first to carry a field freezes its mode |
| `AgentLedger.CompletingFolds` | src/agent.c:1994-2021 | a completed round's last report is added exactly once to each sum it reports |
| `AgentLedger.FinishRoundKeepsLedger` | src/agent.c:2118-2186 | a failed or void round adds nothing, a completed one its report |
| `AgentLedger.LedgerIsConserved` | src/agent.c:1452-1459 | after every run each session total is the sum of the last reported value over completed, non-void rounds that reported it, and the published report is the latest such round's |
| `AgentLedger.UnknownMeansNeverReported` | src/agent.c:1070-1108 | each accessor is -1 if and only if no such round exists |
| `AgentLedger.CacheReadsWithinBase` | src/agent.c:1994-2021 | cached tokens never exceed the cache base when every cached report stays within its own prompt count |
| `AgentTurn.StepMakesProgress` | src/agent.c:2644-2708 | a step of a busy agent either meets an unfinished handle and stands still, or decreases (rounds left, phase, calls left, call not begun), or fails |
| `AgentTurn.StepSendsOne` | src/agent.c:1597-1608 | a step sends at most one request, only as a round under the cap, and does nothing outside a turn |
| `AgentTurn.TurnIsBounded` | src/agent.c:1597-1608 | with the cap fixed a turn sends at most cap requests, whatever else happens meanwhile, a cancel included |
| `AgentTurn.RoundIsSentIff` | src/agent.c:1597-1614 | a turn that has sent fewer requests than its cap sends the next one if and only if it is composed and its stream opens; one that ends at the cap has sent exactly that many |
| `AgentTurn.AnsweredRoundGoesOn` | src/agent.c:2444-2514 | once every call of a round is answered the next step is that request |
| `AgentTurn.GitStageEnds` | src/agent.c:2525-2567 | the git stage holds the turn exactly while its job lives before its deadline, and only a job that exited puts its section into the prompt |
| `AgentDeadline.NextTimeoutMs` | src/agent.c:1171-1231 | the reported wait is the least of the armed deadlines, and -1 exactly when none is armed |
| `AgentDeadline.ZeroMeansTheStepEnforces` | src/agent.c:1146-1231 | the inactivity wait reads 0 exactly when the step made then ends the turn; a wait over 1 ms never exceeds the time left |
| `AgentDeadline.EveryDeadlineIsArmed` | src/agent.c:1171-1231 | every deadline in force is among those the wait is the least of |
| `AgentDeadline.WaitIsClose` | src/agent.c:1144-1155 | a wait is within one millisecond of the time left, below the clamp, and never beyond it |
| `AgentDeadline.SilenceIsMeasured` | src/agent.c:2644-2708 | a stream is given up exactly when nothing but usage reports has come for the whole budget |
| `AgentDeadline.OpeningStartsTheBudget` | src/agent.c:1960-1990 | an opened stream starts its budget |
| `AgentObject.Agent.constructor` | src/agent.c:453-518 | a new agent is the machine's initial state |
| `AgentObject.Agent.ApplyVisionClause` | src/agent.c:403-412 | the clause follows the catalog only while it is pending |
| `AgentObject.Agent.BuildMessages` | src/agent.c:1876-1906 | the message loop composes the request field by field and learns whether a field is carried |
| `AgentObject.Agent.StreamOpened` | src/agent.c:1960-1977 | an accepted request counts its round and closes each latch on its first carrier only |
| `AgentObject.Agent.BeginRound` | src/agent.c:1597-1984 | the fields after it are the machine's transition, cap refusal and failed opens included |
| `AgentObject.Agent.OnStream` | src/agent.c:1313-1459 | the callbacks of one step, in order, accumulate what the machine receives, which AgentRounds says is what the stream delivered |
| `AgentObject.Agent.SessionAccountRound` | src/agent.c:1994-2021 | the field-by-field fold is the ledger's |
| `AgentObject.Agent.FinishRound` | src/agent.c:2118-2243 | void, failed, answered and tool-calling rounds end as the machine's do |
| `AgentObject.Agent.StepTool` | src/agent.c:2444-2514 | one notch of the tool phase, up to the next round it opens |
| `AgentObject.Agent.DriveEnv` | src/agent.c:2525-2567 | the git stage driven one notch |
| `AgentObject.Agent.Start` | src/agent.c:2573-2628 | nm_agent_start is the machine's start |
| `AgentObject.Agent.Step` | src/agent.c:2644-2708 | nm_agent_step is the machine's step |
| `AgentObject.Agent.Cancel` | src/agent.c:2769-2811 | nm_agent_cancel is the machine's cancel: it answers the remaining calls one by one |
| `AgentObject.Agent.SetModel` | src/agent.c:832-860 | a model change reopens the clause gate; the same id changes nothing |
| `AgentObject.Agent.Turn` | src/agent.c:2822-2882 | when every handle finishes in finitely many steps a blocking turn terminates, in DONE or ERROR |
| `ImageWindow.StampIsStill` | src/session.c:603-645 | the stamp of a first ride changes no choice in the request that makes it |
| `ImageWindow.Store.IsLive` | src/session.c:603-614 | an image is live before its first ride, within the window after it, and always without a window |
| `ImageWindow.Store.PartOf` | src/session.c:623-645 | the live part, stamped on its first ride, or the marker |
| `ImageWindow.Store.PartsOf` | src/agent.c:1738-1790 | a message's parts in order; an assistant's aged images contribute none |
| `ImageWindow.Store.Derived` | src/agent.c:1791-1860 | the markers of an assistant's aged images follow its own text |
| `ImageWindow.Store.Compose` | src/agent.c:1638-1860 | a request shows every message with the choices of that request's number, and stamps every image it shows |
| `ImageWindow.WireSays` | src/agent.c:1717-1860 | what a message says on the wire: its own text, a tool result its output, and after an assistant's text the markers of its aged images, in order, a space before each |
| `ImageWindow.WireShows` | src/agent.c:1738-1790 | what it shows: each of its images or its marker, in order; an assistant's aged images none |
| `ImageRuns.EveryRunKeeps` | src/session.c:585-645 | after any run an image's stamp is the number of the first request that shows it, and every request carried what the stamps say |
| `ImageRuns.ImagesRideTheirWindow` | src/agent.c:1645-1654 | an image is carried by the first request that shows it and by those within the window in force, its marker by every other; a user message never changes its shape |
| `ImageRuns.MessagesAreByteStable` | src/agent.c:1733-1738 | a message is identical in two requests under one window when its images are still live in the later or aged in the earlier |
| `ImageRuns.MessagesOnlyAge` | src/agent.c:1733-1738 | under one window a later request shows a message differently only where a picture has become its marker |
| `ImageRuns.SeenIff` | src/session.c:623-640 | the provider is shown an image if and only if the stream of one of the requests in its window opened |
| `ImageRuns.AnUnopenedRequestAgesAnImage` | src/session.c:631-637 | with the built-in window of one, an image whose first request does not open is never seen |
| `AgentImages.BeginRoundKeeps` | src/agent.c:1597-1860 | a numbered request shows every image an earlier one showed, and only images of the session |
| `AgentImages.ApplyKeeps` | src/agent.c:2573-2811 | every entry point keeps that, and appends only messages whose images are attached |
| `AgentImages.ReachablePictured` | src/agent.c:2573-2811 | so the requests of every run of the agent are a run of ImageRuns, with the accepted ones in order |
| `AgentWire.ScriptRuns` | src/agent.c:1638-1960 | the history of numbered requests as that run, request by request |
| `AgentWire.LaterRequestsOnlyAge` | src/agent.c:1597-1860 | every later request repeats each earlier message of an earlier one, and under one window shows it differently only where a picture has become its marker |
| `AgentWire.WholeRequestPrefixIsStable` | src/agent.c:1597-1984 | with the model unchanged, no latch closing and no image aging between them, an earlier request, parts included, is literally a prefix of a later one |
| `AgentWire.ImageIsSeenIff` | src/session.c:623-640 | an image of the conversation is seen by the provider if and only if one of the requests in its window opened |
| `Prompt.FooterIsThere` | src/context.c:746-800 | the footer offset indexes the newline of the env footer |
| `Prompt.VisionIsASplice` | src/context.c:690-713 | filling the clause's slot is an insertion at its recorded offset |
| `Prompt.GitIsASplice` | src/context.c:587-672 | a git section is an insertion at the footer's newline, which moves by its length |
| `Prompt.EditsCommuteIntoSlots` | src/context.c:690-713 | after any interleaving of the three edits the prompt is base, clause of the last vision answer, env head, sections in order, footer, project block, menus |
| `Prompt.SwitchingBackRestores` | src/context.c:690-713 | vision switched any number of times and back restores the bytes exactly |
| `PromptBuffer.Context.constructor` | src/context.c:715-939 | the assembled buffer is the rendering of its segments: the env block of the working directory and the project files found from it |
| `PromptBuffer.Context.InsertAt` | src/context.c:181-191 | the memmove and memcpy put the text at the offset and keep the rest; past the end it appends |
| `PromptBuffer.Context.RemoveAt` | src/context.c:690-713 | the memmove of a removal closes the gap |
| `PromptBuffer.Context.SetVision` | src/context.c:690-713 | the buffer stays the rendering and both offsets stay in step; 0 means nothing changed |
| `PromptBuffer.Context.ApplyGit` | src/context.c:587-672 | the section the command's output gives lands before the footer and the offset follows it; no section, no change |
| `PromptBuffer.Context.SetSkills` | src/context.c:948-966 | the menu is appended, no offset moves |
| `PromptBuffer.Calls` | src/context.c:690-713 | after any run of the three calls the buffer holds the clause of the last vision answer, every section and every menu in its slot; vision calls that end as they began restore the bytes |
| `PromptBuffer.Context.AppendEntry` | src/context.c:361-415 | the entry's text and, when it was cut, the notice |
| `PromptBuffer.Context.AppendFiles` | src/context.c:879-939 | the loop writes the entries up to and including the first that is cut |
| `GitSection.MarkerSection` | src/context.c:512-562 | the piece between two markers: the first line that starts with the one, up to the next line that starts with the other, trimmed |
| `GitSection.KeepLines` | src/context.c:564-574 | the text before the 20th line break |
| `GitSection.Assemble` | src/context.c:614-640 | branch, status and commits, each through the 512-byte line, in a buffer that is always large enough |
| `GitSection.BuildSection` | src/context.c:587-645 | the loops build the specified section |
| `GitSection.PrintedIsRecovered` | src/context.c:466-562 | whatever is printed between the markers, with no line that starts with a later marker, each piece is recovered whole but for the blanks at its ends |
| `GitSection.TrimMeans` | src/context.c:492-506 | a piece is trimmed of the line breaks it starts with and of every blank at its end, and of nothing else |
| `GitSection.NthBreakMeans` | src/context.c:564-574 | the status is kept whole when it has fewer than 20 line breaks and else up to the 20th |
| `GitSection.SectionIsWholeIff` | src/context.c:617-640 | the section is the documented one if and only if branch, status and commits, each with its label, fit 511 bytes |
| `GitSection.SectionShows` | src/context.c:614-640 | of a printed repository the section holds, in this order and each under its label, the branch if there is one, the first twenty lines of the status or that it is clean, and the commits if there are any |
| `GitSection.LongStatusIsCut` | src/context.c:627-629 | up to twenty lines of status, of 504 characters or more, are cut after 503 |
| `GitSection.LongPathIsCut` | src/context.c:627-629 | one file modified in the worktree, with a path of 501 characters or more, is such a status |
| `GitSection.NoSectionIff` | src/context.c:595-645 | no section exactly when there is no status piece and the other pieces are missing or empty |
| `ProjectBlock.EntryKeepsCap` | src/context.c:361-415 | an entry that is not cut keeps the block within the cap, and one that is cut does if and only if the line it dropped left room for the notice |
| `ProjectBlock.FilesKeepCapIff` | src/context.c:361-415 | files with bodies keep the cap if and only if none is cut, or the cut one leaves room for its notice |
| `ProjectBlock.LongFirstLineOverruns` | src/context.c:381-414 | a file whose first line exceeds the room puts the block over the cap by the whole notice |
| `ContextFiles.BlockKeepsCapIff` | src/context.c:876-930 | so for any candidates at all the block keeps the cap exactly under that condition |
| `ContextFiles.BigFileOverrunsCap` | src/context.c:876-930 | one AGENTS.md of 40000 letters exceeds it |
| `ProjectBlock.ScaffoldingOverrunsCap` | src/context.c:366-371 | a first file that just fits leaves one byte; the next one is still announced and ends 36 bytes over the cap, before its notice |
| `ProjectBlock.CutIsALineEnd` | src/context.c:361-415 | a cut is the last line end that fits, unless the first line alone exceeds the room |
| `ProjectBlock.FilesShow` | src/context.c:361-415 | the block shows the files that fit, whole and in order, each under its label, and of the next one what the cap leaves with how many bytes are missing |
| `ProjectBlock.DecimalReads` | src/context.c:405-413 | the numbers of the notice read back as the numbers |
| `ProjectBlock.NoticeFits` | src/context.c:405-414 | the notice fits its 192-byte buffer for every 64-bit size |
| `ProjectBlock.FilesStayNearCap` | src/context.c:361-415 | the block exceeds the cap by less than one entry's scaffolding and one notice |
| `ContextFiles.Load` | src/context.c:892-919 | blank and absent files are passed over, the others are read up to one byte past the cap and sanitized |
| `ContextFiles.LoadedInOrder` | src/context.c:892-919 | the entries are the candidates with text, in their order, each up to one character past the cap |
| `ContextFiles.LoadedBodies` | src/context.c:903-919 | every entry has a body, and no reminder tag in it |
| `ContextFiles.CutBodyHasNoTag` | src/context.c:381-400 | nor in as much of it as the cap lets through |
| `ContextWalk.Parent` | src/context.c:213-239 | the parent by text: trailing separators dropped, none for a root or a bare name |
| `ContextWalk.CollectDirs` | src/context.c:802-834 | the walk collects the directories up to the nearest marker, and without one the working directory alone |
| `ContextWalk.ListCandidates` | src/context.c:836-874 | the loop lists the candidates of the specification, whose order and contents are FilesRunFromRoot's |
| `ContextWalk.ParentIff` | src/context.c:213-237 | one directory is another's parent exactly when the other is its path, a separator and one name, but for separators at the end |
| `ContextWalk.FilesRunFromRoot` | src/context.c:836-874 | after the global file the project's files run from the root's down to the working directory's own, each directory a child of the one before by path, each file what is found at that very path and labelled by the path below the root |
| `ContextWalk.MarkerIsFound` | src/context.c:802-834 | a marker at most 64 directories up is found, and the files are those of the directories from it down |
| `ContextWalk.NeverAboveTheRoot` | src/context.c:802-834 | no file above the project root is looked for, and the root is the nearest ancestor with the marker |
| `ContextWalk.LabelIsRelative` | src/context.c:859-872 | a label is the path from the root |
| `ContextWalk.EnvFits` | src/context.c:782-795 | the env block always fits its buffer |
| `ContextWalk.EnvSaysRepo` | src/context.c:776-791 | the env block says yes exactly when the working directory holds the marker |
| `Reminder.Sanitize` | src/reminder.c:140-173 | run by run, every tag's opening bracket is escaped and everything else copied, with the number of tags |
| `Reminder.HasTag` | src/reminder.c:188-198 | whether a tag, either spelling in any case, starts anywhere |
| `Reminder.TagIff` | src/reminder.c:105-138 | a tag is exactly one of its two spellings, in any case |
| `Reminder.NoTagIsLeft` | src/reminder.c:124-173 | sanitized text holds no tag, whatever the text was |
| `Reminder.SanitizeIsIdempotent` | src/reminder.c:140-173 | sanitizing twice is sanitizing once |
| `Reminder.EscapesAreCounted` | src/reminder.c:140-173 | the text grows by three characters for each tag counted |
| `Reminder.SanitizeKeepsIff` | src/reminder.c:140-173 | the text is unchanged, and no tag counted, if and only if it holds none |
| `FileLedger.MemoryIsLatestRead` | src/file_ledger.c:88-110 | what is remembered of a window is its latest read, marked ours exactly when its path was written since |
| `FileLedger.ReadsAreRemembered` | src/file_ledger.c:112-145 | every window ever read is remembered |
| `FileLedger.RepeatIsProof` | src/file_ledger.c:112-145 | the unbounded memory says repeat if and only if the latest read of that exact window had the same hash and no write followed |
| `FileLedger.EvictionIsForced` | src/file_ledger.c:60-86 | another record is overwritten only when 64 other windows have been recorded |
| `FileLedger.ChosenIsSlotFor` | src/file_ledger.c:60-86 | the slot chosen is the key's own, else the first vacant one, else the one with the least stamp |
| `FileLedger.RecordKeepsTable` | src/file_ledger.c:88-110 | recording keeps keys unique, stamps ordered and the table in agreement with the memory |
| `FileLedger.WriteKeepsTable` | src/file_ledger.c:147-156 | marking a path ours does too |
| `FileLedger.EveryHistoryKeepsTable` | src/file_ledger.c:112-156 | after every history the table agrees with the unbounded memory |
| `FileLedger.ScanAgreesWithMemory` | src/file_ledger.c:112-145 | the table never claims a repeat the memory would not, and gives its every verdict while at most 64 windows were recorded |
| `FileLedger.Ledger.EntryFor` | src/file_ledger.c:60-86 | the key's own slot, else the first vacant one, else the least recently recorded |
| `FileLedger.Ledger.NoteRead` | src/file_ledger.c:112-145 | the verdict over the history of reads and writes, and exactly one slot rewritten unless it was a repeat |
| `FileLedger.Ledger.NoteWrite` | src/file_ledger.c:147-156 | every live record of the path is marked ours, nothing else |
| `FileLedger.Ledger.Count` | src/file_ledger.c:47-56 | the number of taken slots |
| `FileRuns.SlotsAreLastRecords` | src/file_ledger.c:88-110 | every taken slot is the last record of its window in the history, with what it saw and whether the path was written since |
| `FileRuns.LongestAgoGoes` | src/file_ledger.c:60-86 | the record a full table gives up is the one of the 64 whose last record is earliest in the history |
| `FileRuns.ChangedHasAReason` | src/file_ledger.c:112-145 | whatever was given up, a changed verdict has an earlier read of the path, not written since, with another size or time |
| `FileRuns.MemoryIsLatestNews` | src/file_ledger.c:88-145 | what is remembered of a window is the latest read of it that was news |
| `FileRuns.ChangedIsProof` | src/file_ledger.c:112-145 | the unbounded memory says changed if and only if the read is no repeat, something is still known of the path, and none of it has the file's size and time |
| `AddrCache.HostEq` | src/addr_cache.c:48-60 | two names are equal exactly when they are after ASCII case folding |
| `AddrCache.FoldedAlikeIff` | src/addr_cache.c:48-60 | and they are then exactly when they differ in the case of ASCII letters alone |
| `AddrCache.StoreKeepsTable` | src/addr_cache.c:101-145 | storing the newest put keeps one slot per folded host and port, each holding the latest put of its key |
| `AddrCache.Cache.Find` | src/addr_cache.c:66-74 | a slot for the key if there is one, expired or not |
| `AddrCache.Cache.Get` | src/addr_cache.c:76-99 | a hit is the leading addresses of the key's latest accepted put, under 60 s old; a miss means no live slot; only an expired match is freed |
| `AddrCache.Cache.Put` | src/addr_cache.c:101-145 | exactly one slot is rewritten: the name's own, else the first that is not live, else the hand's, which alone then moves |
| `AddrCache.ChoiceMeans` | src/addr_cache.c:119-136 | another live answer goes exactly when all eight are live and none is the name's, and then it is the hand's |
| `AddrRuns.HitIff` | src/addr_cache.c:76-145 | over every run a lookup finds the latest accepted put of its name if and only if it is under 60 s old and no later put took its slot from a full table |
| `AddrRuns.NeverPutIsAMiss` | src/addr_cache.c:76-99 | a name no accepted put has named finds nothing |
| `AddrRuns.StepKeepsOrder` | src/addr_cache.c:119-136 | filling and displacing keep the expiries in order round the table from the hand |
| `AddrRuns.RewritingKeepsOrderIff` | src/addr_cache.c:119-145 | rewriting a slot of a full table keeps that order exactly when nothing after it is older |
| `AddrRuns.LosesTheNewest` | src/addr_cache.c:119-136 | a refreshed name, or a reused expired slot, is the newest answer and the next to go |
| `AddrRuns.OldestGoesIff` | src/addr_cache.c:123-125 | in every run the oldest answer is the one displaced, if and only if no put may find its own name and none may reuse an expired slot |
| `HoldBack.FeedKeeps` | src/chat_app.c:557-582 | one more chunk: nothing lost or reordered, and what is forwarded is the body plus at most one terminator |
| `HoldBack.EveryChunkingConserves` | src/chat_app.c:557-582 | for every chunking of a text, bytes forwarded then bytes held are the bytes received |
| `HoldBack.ForwardedIs` | src/chat_app.c:557-582 | exactly what is forwarded of any chunking: all up to the end of the last chunk's body that has one, and the first line break of the run after it |
| `HoldBack.ChunkingsDifferByATerminator` | src/chat_app.c:507-582 | two chunkings of one text, both ended, differ by at most one line terminator |
| `HoldBack.BlankKeeps` | src/chat_app.c:497-503 | between two separator rows something other than newlines was forwarded |
| `HoldBack.ChatApp.EmitSeparator` | src/chat_app.c:497-503 | a row exactly when one is owed |
| `HoldBack.ChatApp.Split` | src/chat_app.c:557-575 | body, then one terminator, then the rest of the run |
| `HoldBack.ChatApp.StreamText` | src/chat_app.c:557-582 | the stream's forwarded and held bytes are the fold's, the other stream is untouched |
| `HoldBack.ChatApp.CloseReasoningPhase` | src/chat_app.c:591-599 | an open trace ends, with its separator if one is owed |
| `HoldBack.ChatApp.StreamEndAll` | src/chat_app.c:603-613 | both streams end, held newlines are dropped, one separator if owed |
| `HoldBack.ChatApp.OnDelta` | src/chat_app.c:619-667 | content closes the trace first; empty text does nothing |
| `FenceResume.CloseInLine` | src/highlight.c:313-320 | no comment close straddles a line's end |
| `FenceResume.QuotedStaysInLine` | src/highlight.c:327-341 | a literal ends at the newline in the reference as at the end of the line in the program |
| `FenceResume.SameToken` | src/highlight.c:381-539 | on a text's first line the reference takes the line's own token, unless that is a comment the line leaves open |
| `FenceResume.LineThenRest` | src/highlight.c:561-581 | the reference scan of a text is its first line's scan, the break, and the scan of the rest in the state the line left |
| `FenceResume.FenceIsResumable` | src/highlight.c:561-581 | scanning a fence line by line gives the classes and final comment state of one scan of the whole text |
| `FenceTokens.StandsOnce` | src/highlight.c:381-539 | what stands at a place of a line, its class and its extent, is told by the text |
| `FenceTokens.ReadingIsUnique` | src/highlight.c:381-539 | so a line reads in one way only |
| `FenceReading.TokenStands` | src/highlight.c:381-539 | the scan's token is what stands there: a comment, a literal or a number exactly where its opener is, a keyword exactly where a whole identifier of the table is, each as far as the text says |
| `FenceReading.LineIsRead` | src/highlight.c:561-581 | the scan of a line is its one reading, with the comment state it leaves |
| `FenceReading.RunsAreTokens` | src/highlight.c:302-307 | the runs that are not plain are the tokens that are not, and no two plain runs are neighbours |
| `FenceReading.RunsAreMarks` | src/highlight.c:381-539 | a run that is not plain is what stands at its place, and each token that is not plain is a run |
| `Highlighter.TilesCoverEveryPosition` | src/highlight.c:302-307 | a list of non-empty contiguous runs gives every position exactly one run, whose class is its own |
| `Highlighter.Emit` | src/highlight.c:302-307 | a non-empty run is reported and an empty one is not |
| `Highlighter.NumberJsonEnd` | src/highlight.c:355-375 | the JSON number scan |
| `Highlighter.QuotedEnd` | src/highlight.c:327-341 | the literal through its closing quote, escapes skipped |
| `Highlighter.BlockEnd` | src/highlight.c:313-320 | the comment through its close, or to the end of the line and open |
| `Highlighter.Highlight.TokenC` | src/highlight.c:381-445 | the branches of the C scan give the line's token, which TokenStands characterises |
| `Highlighter.Highlight.TokenSh` | src/highlight.c:451-496 | the branches of the shell scan, likewise |
| `Highlighter.Highlight.TokenJson` | src/highlight.c:502-539 | the branches of the JSON scan, likewise |
| `Highlighter.Highlight.Line` | src/highlight.c:561-581 | the reported runs are those of the line's one reading, and the comment state is what that leaves; they tile the line and carry the scan's classes |
| `AuthinfoSpec.GapIsSkipped` | src/authinfo.c:148-165 | any run of blanks and comments between tokens is skipped whole |
| `AuthinfoSpec.NextIsWord` | src/authinfo.c:148-192 | after a gap a bare word is the next token |
| `AuthinfoSpec.NextIsQuoted` | src/authinfo.c:148-192 | after a gap a value in quotes of either kind is the next token, whatever follows it |
| `AuthinfoSpec.PairParses` | src/authinfo.c:223-289 | a printed key and its value, each bare or quoted, are one step of the parser |
| `AuthinfoSpec.FileParses` | src/authinfo.c:208-289 | a printed file from any parser state: pairs, key=value tokens and default entries, bare and quoted |
| `AuthinfoSpec.ItemParses` | src/authinfo.c:223-289 | each printed piece is one step, and leaves its gap before the next |
| `AuthinfoSpec.CollectedIsSaid` | src/authinfo.c:208-289 | what the parser collects is, per entry, the last password it gives, whatever other keys stand between |
| `AuthinfoSpec.LongKeyIsSkippedAlone` | src/authinfo.c:250-253 | a word too long for a key is skipped without its value |
| `AuthinfoSpec.PrintedFileParses` | src/authinfo.c:223-289 | the slots of a printed file are the machines and secrets of its entries that have one, in order, up to 64, whatever logins, accounts, spellings, comments and blanks lie between |
| `AuthinfoSpec.PrintedFileAnswers` | src/authinfo.c:291-307 | looking a machine up in a printed file with up to 64 secrets finds a secret if and only if it is the one of the first entry of that machine that has one |
| `Authinfo.NextToken` | src/authinfo.c:148-192 | the tokenizer computes the specification's token and every success advances the position |
| `Authinfo.KeyFile.EntryFlush` | src/authinfo.c:208-217 | a pending secret becomes a slot while there is room |
| `Authinfo.KeyFile.SlotsRebuild` | src/authinfo.c:223-289 | the rebuilt table is the parse of the cached text |
| `Authinfo.KeyFile.Password` | src/authinfo.c:291-307 | the answer is the lookup in the cached file, read again only for another path |
| `Calendar.ParseIso8601` | src/credit.c:44-70 | the stamp of the six numbers the text spells, 0 when it is refused, and no answer where a product or a sum overflows its type |
| `Timestamps.PrintedIsRead` | src/credit.c:48-49 | any digits in the six places are read back for their values, and a tail that does not go on with a digit is ignored, a zone offset among them |
| `Calendar.TextIsItsInstant` | src/credit.c:44-70 | the printed time of the n-th day after the epoch stamps as n days and its seconds, wherever the computation is defined |
| `Calendar.Defined32Iff` | src/credit.c:55-69 | with a 32-bit long the stamp is defined for a calendar time if and only if it is not later than 2038-01-19 03:14:07 |
| `Calendar.Defined64Iff` | src/credit.c:55-69 | with a 64-bit long if and only if the year is at most 5885486 |
| `Calendar.TomorrowIsOneDay` | src/credit.c:55-69 | every date's successor is exactly one day later, across months, leap years and centuries |
| `Calendar.DaysCountsDays` | src/credit.c:55-69 | the closed formula is the iterated day count from the epoch |
| `Calendar.EveryDateIsCounted` | src/credit.c:55-69 | and every valid date from 1970 on is reached by it |
| `Calendar.OrderIsKept` | src/credit.c:44-70 | stamps are ordered exactly as the dates and the seconds within them |
| `Calendar.AcceptedDayRollsOver` | src/credit.c:50-69 | a day past its month's end is accepted and rolls over, so the stamp is the date's own if and only if the day is in the month |
| `StatusCells.PickGate` | src/credit.c:366-380 | the most pressed bracket left, the earlier one on a tie |
| `StatusCells.GateIsNearest` | src/credit.c:342-380 | which is an exhausted one if there is one, else the remaining figure with the smallest share left |
| `StatusCells.PickLongest` | src/credit.c:384-400 | the longest window of a kind, the later one on a tie |
| `StatusCells.LongestOutlasts` | src/credit.c:310-326 | no other candidate outlasts it: a purse, a paid period, a week, a day, hours |
| `StatusCells.FallbackNeverPicks` | src/credit.c:432-437 | the second attempt at MIDDLE can never pick anything |
| `StatusCells.PickRoles` | src/credit.c:417-437 | the three roles as specified |
| `StatusCells.PickedIsUnique` | src/credit.c:417-437 | the specification determines them |
| `StatusCells.RolesAreDistinct` | src/credit.c:417-437 | no bracket plays two roles, none is unknown, and a spend meter takes the budget only when nothing remains anywhere |
| `StatusCells.ChosenIsALadder` | src/credit.c:438-476 | the cells come out in declaration order, one rank each |
| `StatusCells.ChosenHasEveryRole` | src/credit.c:438-476 | every role that was given a bracket gets its cell |
| `StatusCells.Cells` | src/credit.c:402-476 | the emission loop gives those cells, cut at the caller's capacity |
| `StatusCells.Admit` | src/chat_app.c:5522-5550 | a cell is admitted if and only if it and every cell ranked before it fit together |
| `StatusCells.AdmittedFits` | src/chat_app.c:5522-5550 | what is admitted fits the columns left, and a dropped cell takes every later rank with it |
| `StatusCells.BudgetLeavesLast` | src/chat_app.c:5522-5550 | as the row narrows the middle figure leaves first, then the gate, and the budget last |
| `RefreshTimer.NeverLateIff` | src/chat_app.c:2250-2257 | the wait never sleeps past the deadline, whatever an out-of-range conversion leaves, exactly when the deadline is less than 2^31 + 1 ms past |
| `RefreshTimer.NeverEarlyIff` | src/chat_app.c:2250-2257 | due now is never a millisecond early exactly when the deadline is less than 2^31 ms ahead |
| `RefreshTimer.RefreshNeverSpins` | src/chat_app.c:2250-2264 | over every run, whether fetches start, fail or are latched, fires are more than TTL - 1 ms apart while no reply asks for more than 2147483 s |
| `RefreshTimer.HugeRetryAfterSpins` | src/credit.c:1305-1312 | any longer Retry-After has a run that fires twice at one instant |
| `RefreshTimer.SpacingHoldsIff` | src/chat_app.c:2250-2264 | so the spacing holds in all runs if and only if Retry-After stays within 2147483 s |
| `RefreshTimer.FetchWaitsForTheLatch` | src/credit.c:1211-1327 | no fetch starts, by timer or by hand, before the time any earlier 429 asked for |
| `RefreshTimer.TickFiresIff` | src/chat_app.c:2162-2264 | in every plausible run a tick fires if and only if the refresh is on, no fetch is running, and a TTL has passed since the last fire and the last landing and the last reply no longer holds it back, each to the millisecond; after 24 idle days the conversion decides |
| `RefreshTimer.FireWaitsForLanding` | src/chat_app.c:2178-2182 | no fire comes earlier than TTL - 1 ms after the second the last landing recorded, whoever began the fetch |
| `RefreshTimer.FirstSecondIsForgotten` | src/chat_app.c:2178-2182 | but for a landing in the clock's first second, which is fetched again at once |
| `RefreshTimer.FetchStartsIff` | src/credit.c:1211-1249 | a fetch asked for starts if and only if none is running, no reply holds it back and the machine lets it |
| `RefreshTimer.ReplyEndsFetchIff` | src/credit.c:1251-1327 | a reply ends the fetch, but for the first of the two documents of a chain |
| `RefreshTimer.Refresh.CreditsDue` | src/chat_app.c:2162-2185 | the latest of the three gates, which TickFiresIff says what they are; none when no attempt can be made |
| `RefreshTimer.Refresh.Begin` | src/credit.c:1211-1249 | refused while one is in flight or latched |
| `RefreshTimer.Refresh.Step` | src/credit.c:1251-1327 | the latches after a document, a chained request, a 429 and any other failure |
| `RefreshTimer.Refresh.TickRefresh` | src/chat_app.c:2259-2289 | the refresh entry's turn is the transition of TickFiresIff: the next window is armed before the fetch is asked for |
| `RefreshTimer.TickMs` | src/chat_app.c:2291-2310 | the least armed entry of the table and the spinner's frame, -1 exactly when nothing is armed |
| `Decimal.ReadIffSpells` | src/conf.c:443-470 | the scan accepts exactly the grammar and finds its two digit runs |
| `Decimal.CanonKeepsValue` | src/conf.c:493-504 | stripping zeros keeps the exact rational value |
| `Decimal.CanonicalIsUnique` | src/conf.c:493-504 | a number has one canonical spelling |
| `Decimal.TemperatureIff` | src/conf.c:443-506 | a temperature is accepted exactly when it spells a number from 0 to 2 |
| `Decimal.TemperatureIsExact` | src/conf.c:443-506 | its canonical text denotes the same number and is its own canonical text |
| `Decimal.TemperatureTextIsTheNumber` | src/conf.c:443-506 | two accepted spellings get one text if and only if they denote one number |
| `Decimal.PriceIff` | src/conf.c:527-581 | a price is accepted exactly when it spells a positive number |
| `Decimal.PriceIsExact` | src/conf.c:527-581 | its canonical text denotes the same number and is its own canonical text |
| `Decimal.PriceTextIsTheNumber` | src/conf.c:527-581 | two accepted prices get one text if and only if they denote one number |
| `Decimal.MaxPriceIsExact` | src/conf.c:583-600 | a canonical pair is its own canonical pair |
| `Decimal.ScaledValue` | src/conf.c:473-488 | the whole digit string is the value times the scale |
| `DecimalScans.WholeDigitsFit` | src/conf.c:434-441 | an accepted spelling's digits stay below 3e9, so both operands of the division are exact |
| `DecimalScans.DivisionIsExact` | src/conf.c:488-492 | the one division gives the exact value |
| `DecimalScans.TemperatureScan` | src/conf.c:443-506 | the program's scan computes the canonical text and the value |
| `DecimalScans.PriceScan` | src/conf.c:527-581 | the program's scan computes the canonical price |
| `DecimalScans.MaxPriceCanon` | src/conf.c:583-600 | exactly one comma, both halves canonical |
| `ConfValues.DurationParse` | src/conf.c:669-685 | exactly the digit strings that denote 1 to 2147483647, with no intermediate beyond 32 bits |
| `ConfValues.ValidPositiveInt` | src/conf.c:366-377 | exactly the digit strings that denote 1 to 1000009 |
| `ConfValues.ModeIsIdempotent` | src/conf.c:812-974 | the canonical word of a mode table is its own canonical word, given that no earlier row lists it |
| `ConfValues.EchoIsSettled` | src/conf.c:824-843 | the echo table has that property |
| `ConfValues.KbdIsSettled` | src/conf.c:897-915 | the kbd table has it |
| `ConfValues.ColorIsSettled` | src/conf.c:955-974 | the color table has it |
| `ConfValues.ByLetterIsTheMode` | src/conf.c:716-724 | the letters normalize_bool looks at decide as the whole word does |
| `ConfValues.TokenCanon` | src/conf.c:812-843 | the table walk finds the first row that lists the word |
| `ConfValues.BoolCanon` | src/conf.c:637-724 | a bool is accepted by its word and normalized by its letters, consistently |
| `ConfFamilies.FamilySetCanon` | src/conf.c:748-798 | the scan computes the set's text |
| `ConfFamilies.PrintedWords` | src/conf.c:748-798 | a list printed with any blanks and any case reads back as the list |
| `ConfFamilies.FamilySetIsCanonical` | src/conf.c:783-797 | the text depends on the list of words alone |
| `ConfFamilies.FamilySetIsIdempotent` | src/conf.c:748-798 | the text is its own canonical text |
| `ConfKeys.NamesAreDistinct` | src/conf.c:134-185 | no two keys, and no key and scoped base, share a name |
| `ConfKeys.NormalizeIsIdempotentIff` | src/conf.c:1011-1091 | an accepted value's canonical text is accepted unchanged exactly when the 1023 characters the slot holds are still acceptable |
| `ConfKeys.OverlongIsRefusedNextTime` | src/conf.c:1011-1091 | 1023 zeros and a five are accepted, stored as zeros and then refused |
| `ConfTable.EchoWords` | src/conf.c:824-843 | the words of the echo keys, each in any case, and the value each stands for |
| `ConfTable.KbdWords` | src/conf.c:897-915 | the words of the kbd key |
| `ConfTable.ColorWords` | src/conf.c:955-974 | the words of the color key |
| `ConfTable.FlagWords` | src/conf.c:637-724 | the words of the on and off keys |
| `ConfTable.TakesIff` | src/conf.c:1011-1091 | what a key of each kind takes and what it then holds: a count and its range, off in any case, a word, a number, a set of families or any text |
| `ConfTable.KeysByName` | src/conf.c:1011-1091 | the keys of each kind, by name |
| `ConfTable.KeyTakesIff` | src/conf.c:1011-1091 | so what the key of a name takes |
| `ConfFile.ScopedNamesAreClean` | src/conf.c:236-260 | a scoped key's name is read back whole and is never a plain key |
| `ConfFile.PrintedLineIsAccepted` | src/conf.c:1255-1397 | a clean name and value, printed and scanned, are accepted as they are |
| `ConfLines.AssignsOnce` | src/conf.c:1268-1297 | a line assigns at most one value to one key: up to its first =, both trimmed, and not a comment |
| `ConfLines.ScanIsTaken` | src/conf.c:1255-1397 | for every text the scan is the reading of its lines, one after the other |
| `ConfLines.ScanReadsLines` | src/conf.c:1255-1397 | so after the scan of any text each plain key, and each scoped name the pool has, holds the canonical value of the last line that gives it one, and the count is the number of accepted lines |
| `ConfLines.FileIsItsLines` | src/conf.c:1230-1273 | a file is read by the lines of its first 16384 characters |
| `ConfLines.PoolMeans` | src/conf.c:1340-1350 | a scoped name that a line gives a value is in the pool unless the pool is full |
| `ConfRoundTrip.WrittenReadsBack` | src/conf.c:1814-1849 | a layer whose values survive is read back slot for slot, and the scan counts its values |
| `ConfRoundTrip.ScanRestores` | src/conf.c:1255-1397 | whatever a file holds, what is read from it survives being written back |
| `ConfRoundTrip.RoundTripIff` | src/conf.c:1814-1849 | the file gives back every key's value if and only if every value is clean and its own canonical text |
| `ConfLayer.StoreWritesOneKey` | src/conf.c:1929-1948 | the written key reads back as written and no other key changes |
| `ConfLayer.RemoveClearsOneKey` | src/conf.c:1952-1968 | a removed key reads as unset and no other key changes |
| `ConfLayer.ResetClearsEveryKey` | src/conf.c:2012-2041 | a reset leaves every key unset |
| `ConfLayer.StoreKeepsLayer` | src/conf.c:1929-1948 | a write moves the running count with the number of values, whatever the slot held |
| `ConfLayer.RemoveKeepsLayer` | src/conf.c:1952-1968 | a removal keeps it too |
| `ConfLayer.EveryRunKeeps` | src/conf.c:1909-2041 | from any well-kept layer, after any calls it is well kept and its count is off by as much as before, or not at all after a reset; after clean ones it survives the file |
| `ConfLayer.SavedSettingsReadBack` | src/conf.c:1814-1849 | from any such layer, whatever clean values were set, replaced, removed and reset, the file gives back every key's value and their number |
| `ConfLayer.FromFileIsKept` | src/conf.c:1421-1423 | any file at all loads as such a layer |
| `ConfLayer.SessionsReadBack` | src/conf.c:1814-1903 | so a session that starts from any file gets every key's value back from the file it writes |
| `ConfLayer.RewritingAFileIsHarmless` | src/conf.c:1255-1397 | rewriting what was read from any file changes no value |
| `ConfWriteSet.OneWriteNames` | src/conf.c:1929-1948 | a write has its slot exactly when its name is short and known or the pool has room, and adds that name alone |
| `ConfWriteSet.StoredIffFits` | src/conf.c:2001-2008 | the second pass goes through if and only if the names it stores are short and the new ones fit the pool |
| `ConfWriteSet.PassStops` | src/conf.c:2001-2008 | a pass that stops has stored exactly the writes before the one it stops at |
| `ConfWriteSet.SetManyIsAllOrNothing` | src/conf.c:1984-2010 | a set is accepted if and only if it is of a legal size, every value is acceptable and the pool holds it; refused for size or value it changes nothing, refused for room it has stored the writes before the first without a slot |
| `ConfWriteSet.SetLeaves` | src/conf.c:1984-2010 | a stored set leaves each key it names what its last write of it says, and every other key as it was |
| `ConfWriteSet.FewProvidersFit` | src/conf.c:245-260 | with at most eight known names the pool holds every set of short keys, whatever is stored already |
| `ConfWriteSet.FewProvidersStoreWhole` | src/conf.c:1984-2010 | so with at most eight names of at most 117 characters a set is stored whole or changes nothing |
| `ConfWriteSet.InstalledStoreWhole` | src/nevermore.c:29-35 | the five names of the installed registry among them |
| `ConfWriteSet.HalfASetIsStored` | src/conf.c:1984-2010 | with a registry of more names: after a model was picked for 31 providers, a set for two more is refused and the first of them is stored |
| `ConfShadow.NextLine` | src/conf.c:1265-1305 | one turn of the scan, as the specification reads it, comment and malformed lines skipped to their end |
| `ConfShadow.Config.AcceptLine` | src/conf.c:1299-1395 | one assignment stored, or ignored, as specified |
| `ConfShadow.Config.ScanFile` | src/conf.c:1255-1397 | the character scan is the specification's parser, which ScanReadsLines says what it loads |
| `ConfShadow.Config.Load` | src/conf.c:1421-1423 | the loaded layer and its count are what the file reads back as |
| `ConfShadow.Config.ShadowRender` | src/conf.c:1814-1849 | the printer's loops give the specified text |
| `ConfShadow.Config.ShadowFlush` | src/conf.c:1853-1903 | a successful write leaves the rendering in the file, a failed one leaves the file alone |
| `ConfShadow.Config.ShadowStore` | src/conf.c:1929-1948 | one checked write, refused only without a slot |
| `ConfShadow.Config.ShadowRemoveOne` | src/conf.c:1952-1968 | one removal |
| `ConfShadow.Config.ShadowSet` | src/conf.c:1970-1982 | one write or reset, and the file when the flush succeeds |
| `ConfShadow.Config.ShadowSetMany` | src/conf.c:1984-2010 | every value checked before any is stored |
| `ConfShadow.Config.ShadowReset` | src/conf.c:2012-2041 | one key, or all of them |

## Left out

- Sockets, TLS, HTTP, subprocesses, file reads and writes, and path resolution: their
  answers are arguments (`opens`, `memory`, `hasPath`, `wrote`, `content`).
- Rendering, keys, popups, colors, the banner and the spinner; of the status row only
  the choice and admission of cells, with each cell's width as an argument.
- AgentRequests.TranscriptOnlyGrows: compares messages as the transcript holds them;
  `AgentWire.LaterRequestsOnlyAge` is the law with their images.
- AgentRequests.RequestPrefixIsStable: the text, calls and echoed fields of a request;
  `AgentWire.WholeRequestPrefixIsStable` is the law with its parts.
- AgentObject.Agent.BuildMessages: composes text, calls and echo fields; the parts of
  the same loop are `ImageWindow.Store.Compose`.
- The callbacks to the interface, the START and END announcements of a call among
  them: they change no field that is modelled.
- The tool schema, effort, temperature and token limits of a request: not part of the
  message list.
- Reminder and mention text, and when a reminder fires: arguments.
- In the turn machine the git job's section is an input (`GitSection` is what its
  output gives).
- Allocation failure, except where a branch of the turn machine keeps it as an input.
- A NULL string and an empty one are not told apart in a message (content, trace,
  details).
- The keyword tables of the highlighter: the scan is proved for any table.
- Layer precedence (`resolve_slot`), the user, environment and command-line layers,
  and the hints printed for ignored lines. The scoped pool is the shadow's own: slots
  that the user's file takes in the shared pool are not counted against it.
- The registry of providers and the vocabulary of their knobs: `Registry`, with clean
  names and idempotent, clean knob values as its `Sound` condition. The gate that
  refuses the `ultrafast` tier without a token limit reads other layers and is not
  modelled.
- A file with a NUL byte: the text is what precedes it.
- How far a loaded file's count is off: the scan counts a repeated or empty line too,
  and `ConfLayer.EveryRunKeeps` proves that the difference stays.
- A timestamp field beyond the range of an `int`: `sscanf` leaves it undefined, and
  `Timestamps` reads the number.
- Counter wrap-around and floating-point rounding: integers are unbounded and time is
  real, except where a conversion or a 32-bit bound is the point.
- The other three entries of the timer table, beyond the wait they report, and the
  reset of the retry gate when the provider changes.
- Provider credit mappers, the money formatter and the cell text.
- Key files with a NUL, and tokens of 1024 bytes or more, in the round trip; the
  tokenizer itself is modelled for them.
