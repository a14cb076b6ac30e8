# johnny-bmad in Dafny

johnny-bmad is a command-line tool that automates the implementation phase of a
BMAD project. It picks an epic, then walks that epic's stories. For each story
it creates the story file if needed, then runs a dev agent and a review agent
in a loop of at most 10 rounds until a review passes. Afterwards it optionally
commits and records the story as completed in a session-state file, so an
interrupted run can resume.

This project models the logic of that tool:

- `Files` (`files.dfy`, with the line predicates in `patterns.dfy`): the
  sprint-status work locator (`findOngoingWork`, `getAllStoriesForEpic`), the
  epic and story markdown scanners, and the story-file lookup. The
  `development_status` map is a sequence of `(key, status)` pairs, because the
  code depends on its iteration order.
- `Config` (`config.dfy`): the session-state record on a `Disk` class whose
  field is an abstract file map.
- `Orchestrator` (`orchestrator.dfy`): `runOrchestrator`. This covers epic
  resolution, epic lookup and its fallbacks, the story loop, the bounded
  dev-review loop and the max-iterations choice.
  - Every agent run, prompt answer, directory listing and clock reading comes
    from a `World` value.
  - Every externally visible step is an `Event` in a trace. The predicate
    `Disciplined` states the order the code keeps: save before work, dev
    before review, commit only after a passing review.
- `Reviewer` (`reviewer.dfy`): the review agent's output capture, its verbose
  echo, and the pass/fail decision of its `close` handler.
- `StreamWrapper` (`stream_wrapper.dfy`): the line-buffering labelled stream,
  as a class.
- `Timer` (`timer.dfy`): `formatDuration` and the module-level session timer.
- `CliArgsParsing` (`cli_args.dfy`): `parseArgs`, including JavaScript's
  `parseInt` on a leading digit run.
- `Types`, `Strings` and `Wrappers` hold the records of `src/types.ts` and
  shared string helpers.

Methods that change state (`Disk`, `LabeledStream`, `ReviewCapture`,
`SessionTimer`, the orchestrator's loops) are proved against specification
functions: `StateIn`, `Split`/`Labeled`, `ClassifyReview`, `Scan`/`Parsed`,
`OngoingWorkOf`, `ResolveEpic`, `EpicFor`. The lemmas beside those functions
state what the source promises.

`src/utils/files.test.ts:59-79` expects a `backlog` story to count as ongoing
work. The code's list of actionable statuses (`src/utils/files.ts:237`) does
not include it. The model follows the code.

The max-iterations prompt describes its `complete` answer as "Mark as complete
(run final dev pass, then commit)" (`src/utils/user-input.ts:50`). The switch
in `src/orchestrator.ts:217-236` has no `complete` case, so that answer acts
like `skip`: there is no final dev run and no commit, and the story is added to
the completed list. The model follows the code (`AnswerStep`).

## Model

| member | source | states |
|---|---|---|
| Files.Select | src/utils/files.ts:243-251 | the selected records number at most the entries |
| Files.SelectMembership | src/utils/files.ts:243-251 | a record is selected iff some entry has that id and status and passes the filter |
| Files.SelectAppend | src/utils/files.ts:243-251 | selection distributes over concatenation, so map order is kept |
| Files.SelectFirst | src/utils/files.ts:259-261 | the first selected record comes from the first entry that passes the filter |
| Files.NothingSelected | src/utils/files.ts:253 | nothing is selected iff no entry passes the filter |
| Files.LastInProgressEpic | src/utils/files.ts:244-247 | the result is the last `epic-` key with status `in-progress`; it is absent iff there is none |
| Files.FindOngoingWork | src/utils/files.ts:233-274 | the loop computes `OngoingWorkOf` |
| Files.OngoingWorkAbsent | src/utils/files.ts:233-255 | no work iff there is no document, no `development_status`, or neither an actionable story nor an in-progress epic marker |
| Files.OngoingStories | src/utils/files.ts:237-273 | the stories are exactly the entries whose key is not `epic-` and whose status is `review`, `in-progress` or `ready-for-dev`, in map order; the source is `sprint-status` |
| Files.OngoingEpicFromFirstStory | src/utils/files.ts:259-262 | with an actionable story, the epic is `epic-` plus the first actionable id up to its first `-`, and the stories are not filtered to it |
| Files.OngoingEpicFromMarker | src/utils/files.ts:243-264 | with no actionable story, the epic is the last in-progress `epic-` key and the stories are empty |
| Files.EpicNumberPrefix | src/utils/files.ts:261 | the derived epic number is a dash-free prefix of the id followed by `-` |
| Files.GetAllStoriesForEpic | src/utils/files.ts:280-300 | the loop computes `AllStoriesForEpicOf` |
| Files.AllStoriesMembership | src/utils/files.ts:284-297 | a record is returned iff some non-`epic-` entry has that id and status and its id starts with the epic number and `-`, whatever its status |
| Files.ActionableStoriesAreEpicStories | src/utils/files.ts:287-295 | an actionable story of epic `n` is among all stories of `epic-n` |
| Files.FirstStoryInChosenEpic | src/utils/files.ts:259-295 | the first ongoing story belongs to the epic derived from it |
| Files.NoSectionNoItems | src/utils/files.ts:92-97 | without a section heading the scanner collects nothing |
| Files.ScanPrefix | src/utils/files.ts:92-138 | scanning more lines only appends items, so file order is kept |
| Files.ItemsComeFromSection | src/utils/files.ts:92-138 | every collected item comes from a line inside the section that is neither its opening heading nor a closing H2 |
| Files.NextSectionItems | src/utils/files.ts:92-138 | one line adds at most the item it captures, and only inside the section away from its headings |
| Files.StoryEntry | src/utils/files.ts:107-136 | an entry's id has the story-id shape; status `done` iff a checkbox holds lower-case `x`, `pending` for other checkboxes, no status for simple and numbered entries |
| Files.EpicMatchFrom | src/utils/files.ts:81 | a match position starts `epic-` with a slash-free id before the final `.md` |
| Files.EpicIdFromPath | src/utils/files.ts:81-82 | the id is `unknown` or a non-empty slash-free text that the path ends with after `epic-` and before `.md` |
| Files.EpicMatchSkips | src/utils/files.ts:81 | the leftmost match is found by skipping non-matching positions |
| Files.EpicIdOfEpicFile | src/utils/files.ts:81-82 | a file named `epic-<name>.md` in any directory gets id `<name>` |
| Files.EpicIdAt | src/utils/files.ts:81-82 | a path whose last component is `epic-<name>.md` gets id `<name>`, since every earlier `epic-` has a `/` after it |
| Files.ParseEpicFile | src/utils/files.ts:77-146 | the loop gives the id from the path, the first H1 as title (else `Epic <id>`), and the stories of the stories section |
| Files.ScanStoryLine | src/utils/files.ts:92-137 | one pass of the loop is one step of the section scanner for the stories section |
| Files.MatchStoryLine | src/utils/files.ts:105-136 | the checkbox, simple and numbered patterns tried in order give `StoryEntry` of the line |
| Files.CriterionEntry | src/utils/files.ts:195-200 | a line is a criterion iff it is a checkbox line; it is done iff the box holds `x` |
| Files.ParseStoryFile | src/utils/files.ts:169-211 | the loop gives the caller's id, the first H1 as title (else `Story <id>`), and the criteria of the acceptance-criteria section |
| Files.ScanCriterionLine | src/utils/files.ts:180-204 | one pass of the loop is one step of the section scanner for the criteria section |
| Files.MatchCriterionLine | src/utils/files.ts:197-203 | the checkbox pattern gives `CriterionEntry` of the line |
| Files.AllCriteriaDone | src/utils/files.ts:226-231 | true iff there is at least one criterion and every criterion is done |
| Files.AreAllAcceptanceCriteriaDone | src/utils/files.ts:226-231 | false for a story without criteria, else true iff every criterion is done |
| Files.FindStoryFile | src/utils/files.ts:153-155 | the result is the first file whose lower-cased name contains the lower-cased id and ends with `.md`; absent iff there is none |
| Files.LoadStory | src/utils/files.ts:148-167 | a story is loaded iff the listing is readable, a matching file exists and can be read; it has the requested id, the joined path and the parsed criteria |
| Files.StoryFileExistsIffFound | src/utils/files.ts:213-224 | `storyFileExists` holds iff `loadStory` would find a matching file |
| Patterns.SkipWhile | src/utils/files.ts:86 | the index stops at the first character failing the test |
| Patterns.HeadingMentioningIsH2 | src/utils/files.ts:94-100 | a line that opens a section is itself an H2 that mentions the section's words |
| Patterns.SpacesThenWordsMention | src/utils/files.ts:94 | the opening pattern implies the closing test's mention test |
| Patterns.WordsAfterAnythingMention | src/utils/files.ts:94 | the same, at any later position |
| Patterns.IdAndTitle | src/utils/files.ts:109-130 | a matched id has the `\w+-[\w-]+` shape and is followed by `:` in the line |
| Patterns.EpicCheckbox | src/utils/files.ts:109 | the box holds a space, `x` or `X`, and the line starts with `-` |
| Patterns.BoxedEntry | src/utils/files.ts:109 | after the dash and blanks, the box holds a space, `x` or `X` and the id has the story-id shape |
| Patterns.SimpleEntry | src/utils/files.ts:120 | a matched id has the story-id shape and the line starts with `-` |
| Patterns.NumberedEntry | src/utils/files.ts:130 | a matched id has the story-id shape and the line starts with a digit |
| Patterns.CriterionCheckbox | src/utils/files.ts:195 | the box holds a space or a lower-case `x`, and the line starts with `-` |
| Patterns.HeadingText | src/utils/files.ts:86 | the title is a proper suffix of the line without leading whitespace |
| Patterns.FirstH1From | src/utils/files.ts:85 | the first line starting with `# `; absent iff there is none |
| Patterns.TitleOf | src/utils/files.ts:85-86 | without an H1 line the fallback title is used |
| Config.StateFilePath | src/config.ts:6-10 | the path ends with `.johnny-bmad-state.json` |
| Config.CreateInitialState | src/config.ts:32-40 | the epic given, index 0, iteration 0, no completed stories |
| Config.StateIn | src/config.ts:12-23 | a state is read iff the file exists and holds a state document |
| Config.Disk.LoadState | src/config.ts:12-23 | the result is what `StateIn` reads; a missing or unparseable file gives none, not an error |
| Config.Disk.SaveState | src/config.ts:25-30 | only `lastUpdated` changes, only the state file is written, and reading it back gives the saved record |
| Config.Disk.ClearState | src/config.ts:42-50 | the state file is removed iff `unlink` succeeds; a failed `unlink` is ignored and leaves the files as they were; nothing else changes |
| StreamWrapper.Prefix | src/utils/stream-wrapper.ts:21-22 | `[<role>] ` for stdout, `[<role>:ERR] ` for stderr |
| StreamWrapper.Labeled | src/utils/stream-wrapper.ts:35-38 | one write per line, each the prefix, the line and a newline, in order |
| StreamWrapper.LinesOfText | src/utils/stream-wrapper.ts:28-48 | no emitted line holds a newline; the newline-terminated lines give back the input, plus one newline iff a non-empty tail was unterminated |
| StreamWrapper.PiecesAsLines | src/utils/stream-wrapper.ts:28-48 | for separator-free pieces joining to the text, the forwarded lines are separator-free and give back the text, plus one newline when it is not newline-terminated |
| StreamWrapper.TerminatedEndsWithSeparator | src/utils/stream-wrapper.ts:36 | terminated lines end with the separator |
| StreamWrapper.LastPieceKept | src/utils/stream-wrapper.ts:44-46 | a flushed non-empty tail adds exactly one newline |
| StreamWrapper.SplitExtend | src/utils/stream-wrapper.ts:29-33 | appending a chunk only re-splits the last piece |
| StreamWrapper.JoinExtend | src/utils/stream-wrapper.ts:29-33 | the complete pieces followed by the re-split last piece join to the extended text and hold no newline |
| StreamWrapper.LabeledStream.constructor | src/utils/stream-wrapper.ts:16-24 | an empty buffer, nothing written, the prefix for the role and stream |
| StreamWrapper.LabeledStream.Transform | src/utils/stream-wrapper.ts:27-41 | each complete line of buffer plus chunk is written once, prefixed and in order; the buffer keeps the text after the last newline |
| StreamWrapper.LabeledStream.WriteLines | src/utils/stream-wrapper.ts:35-38 | the loop appends one prefixed, newline-terminated write per complete line, in order, and touches nothing but the writes |
| StreamWrapper.LabeledStream.Flush | src/utils/stream-wrapper.ts:42-49 | writes the buffer once iff it is non-empty; all writes together are the labelled lines of everything received |
| StreamWrapper.ReceiveChunk | src/utils/stream-wrapper.ts:28-33 | the buffer invariant is kept by each chunk |
| StreamWrapper.LabeledAppend | src/utils/stream-wrapper.ts:35-38 | labelling distributes over concatenation |
| Reviewer.StatusOf | src/agents/reviewer.ts:89 | the status recorded for the story key, absent iff the key is missing |
| Reviewer.ClassifyReview | src/agents/reviewer.ts:71-122 | a result iff the process closed with code 0; with a readable document, passed iff the story's status is `done`; otherwise passed iff the output holds `REVIEW_PASSED`; output and duration are returned |
| Reviewer.MarkerIgnoredWhenStatusReadable | src/agents/reviewer.ts:84-101 | with a readable document the output does not affect the verdict |
| Reviewer.PassedMeansDone | src/agents/reviewer.ts:89-90 | a pass from the document means the story's entry says `done` |
| Reviewer.StripPrefix | src/agents/reviewer.ts:60-64 | one stripped write per write |
| Reviewer.StripLabeled | src/agents/reviewer.ts:59-61 | stripping the prefix from labelled lines gives the lines, newline-terminated |
| Reviewer.StripAppend | src/agents/reviewer.ts:59-65 | stripping distributes over concatenation |
| Reviewer.EchoConservesChunk | src/agents/reviewer.ts:55-65 | every verbose echo write starts with `[Review] ` and the stripped writes give back the chunk |
| Reviewer.ReviewCapture.constructor | src/agents/reviewer.ts:49 | no chunks captured, nothing echoed |
| Reviewer.ReviewCapture.OnData | src/agents/reviewer.ts:51-69 | the chunk is appended to the capture and echoed per chunk |
| Reviewer.ReviewCapture.OnClose | src/agents/reviewer.ts:71-118 | the outcome is `ClassifyReview` of all chunks concatenated in arrival order |
| Timer.FormatDuration | src/utils/timer.ts:14-30 | a rendering has at least a number and a unit |
| Timer.FormatDurationReadsBack | src/utils/timer.ts:14-30 | the rendering reads back as the duration rounded down to a minute from one hour on, else to a second |
| Timer.FormatDurationZero | src/utils/timer.ts:29 | a duration renders as `0s` iff it is under a second |
| Timer.SecondaryFieldInRange | src/utils/timer.ts:19-27 | one or two parts; a second part shows a value from 1 to 59 |
| Timer.TwoUnitsReadBack | src/utils/timer.ts:21-26 | a two-unit rendering reads back as its value |
| Timer.HoursReadBack | src/utils/timer.ts:19-22 | from one hour on, seconds are dropped |
| Timer.MinutesReadBack | src/utils/timer.ts:24-27 | under one hour, seconds are kept |
| Timer.SessionTimer.constructor | src/utils/timer.ts:45 | not started |
| Timer.SessionTimer.Start | src/utils/timer.ts:50-52 | started at the current clock reading |
| Timer.SessionTimer.ElapsedMs | src/utils/timer.ts:69-74 | 0 before the start, else the time since the start |
| Timer.SessionTimer.Elapsed | src/utils/timer.ts:58-63 | `0s` before the start, else the formatted time since the start |
| CliArgsParsing.Defaults | src/index.ts:21-26 | all flags false and no `maxIterations` |
| CliArgsParsing.DigitPrefix | src/index.ts:47 | the longest run of leading digits |
| CliArgsParsing.ParseIntReadsLeadingDigits | src/index.ts:47 | `parseInt` reads the leading digits and ignores what follows |
| CliArgsParsing.ParseIntOfNumeral | src/index.ts:47 | `parseInt` of a decimal numeral is its value |
| CliArgsParsing.ParseIntNaN | src/index.ts:47-48 | without a leading digit (after blanks and a sign) the value is NaN |
| CliArgsParsing.OptionsAreDashed | src/index.ts:30-59 | every recognised option starts with `-` |
| CliArgsParsing.AcceptedCount | src/index.ts:45-48 | a value token is accepted iff it is non-empty, does not start with `-`, and parses to a number above 0 |
| CliArgsParsing.Counts | src/index.ts:45-48 | the acceptance of every token, position by position |
| CliArgsParsing.ParseArgs | src/index.ts:20-63 | the loop computes `Parsed` |
| CliArgsParsing.ApplyArg | src/index.ts:30-59 | one pass of the switch is one scan step; it skips the value exactly when a `-m` takes it |
| CliArgsParsing.ClassifyNames | src/index.ts:30-58 | a token is classified as a flag iff it is one of that flag's two spellings |
| CliArgsParsing.ScanFlag | src/index.ts:28-60 | a flag ends up set iff it was set or some scanned token names it |
| CliArgsParsing.FlagsFromArguments | src/index.ts:28-60 | each flag is set iff some token names it, so repetition is idempotent and unknown tokens change nothing; a rejected `-m` value is still scanned |
| CliArgsParsing.LastSetsMaxIsLast | src/index.ts:43-54 | no accepted `-m` follows the last one |
| CliArgsParsing.TakenValueIsNotFlag | src/index.ts:46-50 | a consumed value token cannot itself be an accepted `-m` |
| CliArgsParsing.ScanMax | src/index.ts:28-60 | the final `maxIterations` is what the last accepted `-m` sets |
| CliArgsParsing.MaxIterationsFromLastValid | src/index.ts:43-54 | `maxIterations` is absent iff no `-m` is accepted; else it is the positive value of the token after the last accepted `-m` |
| CliArgsParsing.LastCountTaken | src/index.ts:43-54 | for any count table, `maxIterations` is the count taken by the last `-m` that takes one, absent iff there is none |
| CliArgsParsing.RejectedValueIsScanned | src/index.ts:46-52 | for every argument list, a `-m`/`--max-iterations` whose next argument starts with `-` does not set the count, and that next argument is then scanned as an option in its own right |
| CliArgsParsing.AcceptedNumeral | src/index.ts:46-48 | a numeral token is accepted iff its value is above 0 |
| CliArgsParsing.MaxIterationsPair | src/index.ts:43-54 | at any position and after any earlier options, `-m t` with `t` not an option sets `maxIterations` to `t`'s accepted count and skips `t` when it has one; otherwise the pair changes nothing, so `-m 5 -m abc` keeps 5 |
| CliArgsParsing.PairScan | src/index.ts:43-54 | the same two cases for any count table the scan may be given |
| Orchestrator.ResolveEpic | src/orchestrator.ts:63-115 | a saved epic wins; else `findOngoingWork`; the SM agent runs iff both give nothing; failure there ends the run; the latter two paths start from a fresh state |
| Orchestrator.OngoingEpicNamed | src/utils/files.ts:259-264 | ongoing work always names an epic |
| Orchestrator.FindEpicIndex | src/orchestrator.ts:118 | the first epic with the id; absent iff there is none |
| Orchestrator.ChooseEpic | src/orchestrator.ts:118-137 | none iff the id is not found and there are no ongoing stories; else the found epic, or one synthesized with title `Epic <id>`, story titles equal to ids and an empty path |
| Orchestrator.ResumeNeedsEpicFile | src/orchestrator.ts:69-137 | on the resume path the ongoing list is empty, so a missing epic file ends the run |
| Orchestrator.WithFallback | src/orchestrator.ts:140-151 | an epic without stories takes all sprint-status stories of the epic when there are any; otherwise it is unchanged |
| Orchestrator.ExtendsAppend | src/orchestrator.ts:172-248 | appending an id not yet present keeps the completed list duplicate-free beyond its start |
| Orchestrator.DisciplinedAppend | src/orchestrator.ts:162-249 | an event fitting the trace keeps it disciplined |
| Orchestrator.DisciplinedAt | src/orchestrator.ts:162-249 | in a disciplined trace every event fits what precedes it |
| Orchestrator.DevRunAfterSave | src/orchestrator.ts:196-203 | every dev run directly follows a save of an iteration from 1 to 10 at an open story |
| Orchestrator.SavesExtend | src/orchestrator.ts:164-249 | every save keeps the epic and only appends new ids to the completed list |
| Orchestrator.Record | src/orchestrator.ts:162-249 | appending an event that fits keeps the trace disciplined |
| Orchestrator.DevReviewRound | src/orchestrator.ts:196-213 | saves the iteration number, then records a dev run, then a review run; the round fails iff the dev agent's run fails or `ClassifyReview` rejects the review agent's run; a recorded review carries `ClassifyReview`'s `passed` for that run |
| Orchestrator.NextRound | src/orchestrator.ts:195-214 | one iteration of the loop: after a reviewed round the rounds so far grow by one; after a rejected run the trace ends with the save and the dev run, no review before it passed, and the cause is the failed dev run or the rejected review |
| Orchestrator.RoundsStep | src/orchestrator.ts:195-214 | a reviewed round after a failed review extends the rounds so far, and every recorded review stays equal to the review agent's verdict |
| Orchestrator.RoundsCrash | src/orchestrator.ts:201-204 | a round ended by a rejected agent run leaves no passed review and every recorded review matching the agents' runs |
| Orchestrator.DevReview | src/orchestrator.ts:192-214 | at most 10 rounds of three events; complete iff the last review passed; no review passed earlier; incomplete only after 10 rounds; every recorded review is `ClassifyReview` of the review agent's run after a dev run that succeeded; a crash is a failed dev run or a rejected review |
| Orchestrator.ProcessStory | src/orchestrator.ts:163-249 | saves index `i` and iteration 0 before anything else; a completed story is skipped with no agent run; an open story is worked on as `OpenStoryWork` states, with its file looked up right after the save; moving on leaves the story in the completed list unless its file failed to load; the story is appended only if not yet completed; an abort means the max-iterations prompt was answered `abort` |
| Orchestrator.PrepareStory | src/orchestrator.ts:177-189 | the story creator runs iff no story file matches the id, and fails iff that run is rejected; otherwise the story is what `loadStory` gives from the directory as read after the creator, present iff a matching file is readable, and it has the epic story's id |
| Orchestrator.WorkOnStory | src/orchestrator.ts:177-249 | `OpenStoryWork`: a rejected creator run ends the run after the creator event; a story that fails to load is passed over with the state unchanged and never appended; a loaded story gets a dev run right after its load, every review matches the agents' runs, every passed review is followed by a commit iff git is present and the user confirms, and moving on appends it; the completed list changes only for a story that loaded |
| Orchestrator.WorkOnLoaded | src/orchestrator.ts:192-249 | the dev-review loop and then `FinishStory` on a loaded story: the first event after the iteration save is its dev run; every passed review is followed by a commit iff git is present and the user confirms; moving on appends the story; a crash is a failed dev run or a rejected review; an abort follows an `abort` answer |
| Orchestrator.CommitsAfterFinish | src/orchestrator.ts:239-245 | after the dev-review loop and the finish, the only passed review is the loop's last event, and a commit follows it iff git is present and the user confirms |
| Orchestrator.NoPassedReview | src/orchestrator.ts:202-207 | a round cut short by a failed agent run leaves no passed review, so no commit can be owed |
| Orchestrator.ReviewsMatchExtend | src/orchestrator.ts:239-249 | events other than reviews (the commit and the saves) keep every recorded review matching the agents' runs |
| Orchestrator.FinishStory | src/orchestrator.ts:216-249 | the step is `AnswerStep` of the completion and the prompt's answer: a complete story moves on with no prompt, `continue` retries, `abort` stops, `skip` and `complete` move on; a `Committed` event is recorded iff the story is complete, git is present and the user confirms; the last event saves the new state; moving on appends the story |
| Orchestrator.SaveIteration | src/orchestrator.ts:222-234 | the state is saved with the given iteration number and the clock reading, and the trace gains exactly that save |
| Orchestrator.CompleteStory | src/orchestrator.ts:239-249 | a commit is recorded iff the story is complete, git is present and the user confirms; then the story is appended to the completed list and the state saved |
| Orchestrator.StoryPass | src/orchestrator.ts:162-249 | one story pass extends the trace, starts with a save of the current index at iteration 0, and leaves the pass record valid for the next index (or the same one after `continue`); after moving on, the story is completed or its failed load is recorded at this pass; an abort ends with a save after an `abort` answer |
| Orchestrator.CoveredStep | src/orchestrator.ts:162-249 | a longer trace and a completed list that only grew keep every earlier story completed or recorded as failing to load, and the current story can be added |
| Orchestrator.PassesAppend | src/orchestrator.ts:162-166 | a story pass that starts with a save of its index keeps the pass record of the earlier passes valid when the trace grows |
| Orchestrator.ProgressStep | src/orchestrator.ts:162-250 | after a `next` or `continue` step the pass record covers every index up to the next one to run |
| Orchestrator.StoryLoop | src/orchestrator.ts:159-250 | runs from the saved index; each story pass begins with a save of its index at iteration 0 and the passes visit consecutive indices, repeating an index only after `continue`, which saves it at iteration 0 again; on finishing, every index from the saved one to the end had a pass, and each such story is in the final completed list unless its file failed to load at one of its passes; no event iff that index is past the end; an abort follows an `abort` answer and leaves the saved state at iteration 10 |
| Orchestrator.EpicFor | src/orchestrator.ts:117-151 | no epic iff resolution failed or the lookup failed; else the chosen id |
| Orchestrator.FindEpic | src/orchestrator.ts:117-151 | the lookup and fallback compute `EpicFor` |
| Orchestrator.ResolveWork | src/orchestrator.ts:63-115 | the steps compute `ResolveEpic` of the saved state; the SM agent is the only event |
| Orchestrator.RunEpic | src/orchestrator.ts:159-268 | the story passes are those of `StoryLoop`; on completion every story from the saved index on had a pass and is in the final completed list (which extends the starting one and is what the state file keeps if `unlink` fails) unless its file failed to load at its pass; removal of the state file is attempted and succeeds iff `unlink` does, and the exit code is 0; exit 1 comes from a crash or from a save after an `abort` answer |
| Orchestrator.RunOrchestrator | src/orchestrator.ts:17-268 | failed pre-flight checks exit 1 with no event; the epic worked on is `EpicFor` the resolution; the SM agent ran iff resolution needed it; the story passes start at the resolved state's index as in `StoryLoop`; exit 0 only after every story from there had a pass and was completed unless its file failed to load, and clearing the state was attempted, which removes it when `unlink` succeeds |

## Left out

- Files.FindStoryFile: lower-casing is ASCII-only, whereas JavaScript's `toLowerCase` also maps non-ASCII letters (for instance U+212A KELVIN SIGN to `k`); `Files.LoadStory` and `Files.StoryFileExistsIffFound` inherit this.
- StreamWrapper.LabeledStream.Transform: chunks are modelled as already-decoded text; the source decodes each `Buffer` chunk on its own, so a multi-byte UTF-8 character split across two chunks comes out as U+FFFD replacement characters in the labelled output.
- Reviewer.ReviewCapture.OnData: as for `Transform`, each chunk is taken as decoded text, so the verbose echo of a UTF-8 character split across chunks is not modelled; the verdict decodes the joined buffer and is unaffected.
- Config.Disk.SaveState: every save succeeds; a rejected `writeFile`, which ends the run with exit 1 through `src/index.ts:114-119`, is not modelled.
- Process spawning, stream piping and the Claude CLI (`src/claude/cli.ts`, `src/agents/*.ts` apart from the reviewer's capture and decision). Each agent run is an outcome read from `World`.
- Git (`src/git/commit.ts`). A commit is the `Committed` event; its message and shell calls are not modelled.
- The inquirer prompts (`src/utils/user-input.ts`). The epic pick, the max-iterations answer and the commit confirmation are inputs.
- Logging, colours and console output (`src/utils/logger.ts`, `chalk`, the `AGENT_COLORS` lookup). `src/claude/prompts.ts` is fixed text and is not part of this model.
- YAML and JSON parsing. Documents are given parsed. A state file is either a state document or unparseable, so a file that parses as JSON but is not shaped like a state is not modelled.
- Directory reading for `loadEpics` and its `readdir` order. The epics are given parsed, before and after the SM agent ran.
- `isBmadProject`, `isGitRepo`, `checkClaudeInstalled` and `ensureOutputDir`. Their results are inputs; the created directory is not modelled.
- The clock, `process.exit` and the `unhandledRejection` handler (`src/index.ts:6-18`). Clock readings are inputs and exits are `Outcome` values.
- Orchestrator.RunOrchestrator: a `continue` answer may repeat a story without bound; the model takes a `fuel` bound and ends with `OutOfFuel` when it is used up.
- Orchestrator.RunOrchestrator: a rejected agent run or a thrown error ends the run with exit 1 through `main`'s handler (`src/index.ts:114-119`); the model stops at that point and does not model what a partially run step left behind.
- Types.State: `currentStoryIndex` and `devReviewIteration` are natural numbers; a saved file with a negative or fractional index is not modelled.
- CliArgsParsing.ParseIntPrefix: values beyond 2^53, which JavaScript rounds, and leading whitespace other than the blanks `TrimStart` removes are not modelled.
- `--resume`, `--yolo` and `maxIterations` are parsed but the orchestrator does not read them. It has no retries, no status write-back and no continuation to the next epic, so none of these are modelled.
- `--verbose` only switches logging on (`src/orchestrator.ts:23-25`), and `--help` only prints the usage text (`src/index.ts:64-102`); both are left out with the logger.
- `getSessionElapsed` reads the clock; `Timer.SessionTimer` takes the reading as a parameter.
