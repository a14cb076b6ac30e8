/**
 * The orchestrator (`runOrchestrator` in src/orchestrator.ts): pre-flight
 * checks, choice of the epic to work on, the story loop with its bounded
 * dev-review loop, and the bookkeeping on the persisted session state.
 *
 * Everything the orchestrator learns from outside (agent runs, prompt
 * answers, directory listings, the status document, the clock) comes from a
 * `World`. What changes over a run is read through functions of the number
 * of events so far, so a file read twice with no event in between gives the
 * same answer, while an agent run may change what is read next. The session
 * state file lives on a `Config.Disk`; every externally visible step is
 * recorded as an `Event` in a trace.
 */
module Orchestrator {

  import opened Wrappers
  import opened Strings
  import opened Types
  import opened Files
  import opened Config
  import opened Reviewer

  const MAX_DEV_REVIEW_ITERATIONS := 10

  /** The answers of the prompt shown after the last failed review. */
  datatype MaxIterationsAction = Continue | Complete | Skip | Abort

  /** How a review agent run ended: the process end, the status re-read, the captured output and the duration. */
  datatype ReviewRunData = ReviewRunData(end: ProcessEnd, read: StatusRead, output: string, durationMs: int)

  /**
   * Everything outside the orchestrator. Functions of `nat` are read with the
   * number of events recorded so far.
   */
  datatype World = World(
    claudeInstalled: bool,
    isBmad: bool,
    hasGit: bool,
    // the sprint-status document, before and after the SM agent ran
    sprintStatus: Option<SprintStatus>,
    sprintStatusAfterSm: Option<SprintStatus>,
    // the parsed epic files, before and after the SM agent ran
    epics: seq<Epic>,
    epicsAfterSm: seq<Epic>,
    smOk: bool,
    // the index of the epic picked in the selection prompt, if any
    pick: Option<nat>,
    creatorOk: nat -> bool,
    devOk: nat -> bool,
    review: nat -> ReviewRunData,
    storyListing: nat -> Option<seq<string>>,
    storyContents: nat -> map<string, string>,
    maxIterationsAction: nat -> MaxIterationsAction,
    confirmCommit: nat -> bool,
    // whether `unlink` of the state file succeeds when the epic is finished
    unlinkOk: bool,
    clock: nat -> string)

  /** A selection prompt answers with one of the epics it lists. */
  predicate PickInRange(world: World) {
    world.pick.Some? ==> world.pick.value < |world.epicsAfterSm|
  }

  /** The externally visible steps of a run. */
  datatype Event =
    | Saved(state: State)
    | Cleared
    | SmRun
    | CreatorRun(storyId: string)
    | DevRun(storyId: string)
    | ReviewRun(storyId: string, passed: bool)
    | Committed(storyId: string, title: string)

  /** How a run ends: `process.exit` with a code, or the bound on `continue` answers ran out. */
  datatype Outcome = Exit(code: int) | OutOfFuel

  // ---------------------------------------------------------------------------
  // Which epic to work on
  // ---------------------------------------------------------------------------

  /** The epic chosen, the state to start from, and the sprint-status stories known for it. */
  datatype Chosen = Chosen(epicId: string, state: State, ongoing: seq<StoryRef>)

  /** Whether the SM agent ran, and the choice, absent when the run exits. */
  datatype Resolution = Resolution(smRan: bool, chosen: Option<Chosen>)

  /**
   * The three priorities of epic resolution: a saved state naming an epic,
   * then the ongoing work in the sprint status, then the SM agent followed by
   * the selection prompt. The last two start from a fresh state.
   */
  function ResolveEpic(saved: Option<State>, world: World): (r: Resolution)
    requires PickInRange(world)
    ensures saved.Some? && saved.value.currentEpic != "" ==>
      r == Resolution(false, Some(Chosen(saved.value.currentEpic, saved.value, [])))
    ensures r.smRan <==> (saved.None? || saved.value.currentEpic == "") && OngoingWorkOf(world.sprintStatus).None?
    ensures r.chosen.None? <==> r.smRan && (!world.smOk || |world.epicsAfterSm| == 0 || world.pick.None?)
    ensures r.chosen.Some? ==> r.chosen.value.state.currentEpic == r.chosen.value.epicId
    ensures r.chosen.Some? && r.smRan ==>
      && r.chosen.value.epicId == world.epicsAfterSm[world.pick.value].id
      && r.chosen.value.ongoing == []
    ensures r.chosen.Some? && (saved.None? || saved.value.currentEpic == "") ==>
      r.chosen.value.state == CreateInitialState(r.chosen.value.epicId, r.chosen.value.state.lastUpdated)
  {
    if saved.Some? && saved.value.currentEpic != "" then
      Resolution(false, Some(Chosen(saved.value.currentEpic, saved.value, [])))
    else
      match OngoingWorkOf(world.sprintStatus)
      case Some(work) =>
        OngoingEpicNamed(world.sprintStatus);
        Resolution(false, Some(Chosen(work.epicId, CreateInitialState(work.epicId, world.clock(0)), work.stories)))
      case None =>
        if !world.smOk || |world.epicsAfterSm| == 0 || world.pick.None? then Resolution(true, None)
        else
          var epicId := world.epicsAfterSm[world.pick.value].id;
          Resolution(true, Some(Chosen(epicId, CreateInitialState(epicId, world.clock(1)), [])))
  }

  /** The ongoing work always names an epic, so the third priority is not reached once it is found. */
  lemma OngoingEpicNamed(doc: Option<SprintStatus>)
    requires OngoingWorkOf(doc).Some?
    ensures OngoingWorkOf(doc).value.epicId != ""
  {
    var entries := doc.value.developmentStatus.value;
    if |Select(entries, IsActionableStory)| == 0 {
      var epic := LastInProgressEpic(entries);
      assert IsEpicKey(epic.value);
    }
  }

  /** `epics.find(e => e.id === id)`: the first epic with the id. */
  function FindEpicIndex(epics: seq<Epic>, id: string): (r: Option<nat>)
    ensures r.Some? ==>
      && r.value < |epics| && epics[r.value].id == id
      && forall j | 0 <= j < r.value :: epics[j].id != id
    ensures r.None? <==> forall j | 0 <= j < |epics| :: epics[j].id != id
    decreases |epics|
  {
    if |epics| == 0 then None
    else if epics[0].id == id then Some(0)
    else
      match FindEpicIndex(epics[1..], id)
      case None => None
      case Some(k) => Some(k + 1)
  }

  /** Sprint-status entries as epic stories: the id doubles as the title. */
  function AsEpicStories(refs: seq<StoryRef>): seq<EpicStory> {
    seq(|refs|, k requires 0 <= k < |refs| => EpicStory(refs[k].id, refs[k].id, Some(refs[k].status)))
  }

  /** The epic built from sprint-status data when no epic file has the id. */
  function SynthesizedEpic(epicId: string, ongoing: seq<StoryRef>): Epic {
    Epic(epicId, "Epic " + epicId, AsEpicStories(ongoing), "")
  }

  /**
   * The epic to work on: the loaded one with the id, else one synthesized
   * from the ongoing stories; absent (the run exits) when neither exists.
   */
  function ChooseEpic(epics: seq<Epic>, epicId: string, ongoing: seq<StoryRef>): (r: Option<Epic>)
    ensures r.None? <==> FindEpicIndex(epics, epicId).None? && |ongoing| == 0
    ensures r.Some? ==> r.value.id == epicId
    ensures r.Some? && FindEpicIndex(epics, epicId).None? ==>
      && r.value.title == "Epic " + epicId && r.value.filePath == ""
      && |r.value.stories| == |ongoing|
      && forall k | 0 <= k < |ongoing| ::
           r.value.stories[k] == EpicStory(ongoing[k].id, ongoing[k].id, Some(ongoing[k].status))
  {
    match FindEpicIndex(epics, epicId)
    case Some(k) => Some(epics[k])
    case None => if |ongoing| > 0 then Some(SynthesizedEpic(epicId, ongoing)) else None
  }

  /**
   * On resume no sprint-status stories are carried over, so an epic whose
   * file is gone ends the run.
   */
  lemma ResumeNeedsEpicFile(saved: State, world: World, epics: seq<Epic>)
    requires PickInRange(world) && saved.currentEpic != ""
    ensures var c := ResolveEpic(Some(saved), world).chosen.value;
      ChooseEpic(epics, c.epicId, c.ongoing).None? <==> forall j | 0 <= j < |epics| :: epics[j].id != saved.currentEpic
  {
  }

  /**
   * An epic without parsed stories takes every sprint-status story of the
   * epic instead, when there are any; otherwise it is kept as it is.
   */
  function WithFallback(epic: Epic, allStories: seq<StoryRef>): (r: Epic)
    ensures r.id == epic.id && r.title == epic.title && r.filePath == epic.filePath
    ensures |epic.stories| > 0 || |allStories| == 0 ==> r == epic
    ensures |epic.stories| == 0 && |allStories| > 0 ==>
      && |r.stories| == |allStories|
      && forall k | 0 <= k < |allStories| ::
           r.stories[k] == EpicStory(allStories[k].id, allStories[k].id, Some(allStories[k].status))
  {
    if |epic.stories| == 0 && |allStories| > 0 then epic.(stories := AsEpicStories(allStories)) else epic
  }

  // ---------------------------------------------------------------------------
  // The order of steps in a run
  // ---------------------------------------------------------------------------

  /**
   * `c` keeps `base` in front and every id added after it is new: the run
   * never appends a story twice.
   */
  predicate Extends(base: seq<string>, c: seq<string>) {
    base <= c && forall k | |base| <= k < |c| :: c[k] !in c[..k]
  }

  lemma ExtendsAppend(base: seq<string>, c: seq<string>, id: string)
    requires Extends(base, c) && id !in c
    ensures Extends(base, c + [id])
  {
    assert (c + [id])[..|c|] == c;
    forall k | |base| <= k < |c| + 1
      ensures (c + [id])[k] !in (c + [id])[..k]
    {
      if k < |c| {
        assert (c + [id])[..k] == c[..k];
      }
    }
  }

  /** The state saved just before the last event of `before`, if that event is a save. */
  predicate SavedBefore(before: seq<Event>) {
    |before| > 0 && before[|before| - 1].Saved?
  }

  /**
   * The saved state is at story `id` of `stories` and the story is not
   * completed.
   */
  predicate AtOpenStory(s: State, stories: seq<EpicStory>, id: string) {
    s.currentStoryIndex < |stories| && stories[s.currentStoryIndex].id == id && id !in s.completedStories
  }

  /**
   * What an event may follow, in a run on `epicId` over `stories` whose
   * completed list started as `base`:
   * - every save keeps the epic and only ever appends new ids;
   * - the story creator runs right after the save of iteration 0 of an open story;
   * - the dev agent runs right after the save of an iteration 1..10 of an open story;
   * - a review follows the dev run of its story, and a commit a passed review.
   */
  predicate Fits(before: seq<Event>, e: Event, epicId: string, stories: seq<EpicStory>, base: seq<string>) {
    match e
    case Saved(s) => s.currentEpic == epicId && Extends(base, s.completedStories)
    case CreatorRun(id) =>
      && SavedBefore(before)
      && var s := before[|before| - 1].state;
         s.devReviewIteration == 0 && AtOpenStory(s, stories, id)
    case DevRun(id) =>
      && SavedBefore(before)
      && var s := before[|before| - 1].state;
         1 <= s.devReviewIteration <= MAX_DEV_REVIEW_ITERATIONS && AtOpenStory(s, stories, id)
    case ReviewRun(id, _) => |before| > 0 && before[|before| - 1] == DevRun(id)
    case Committed(id, _) => |before| > 0 && before[|before| - 1] == ReviewRun(id, true)
    case Cleared => true
    case SmRun => true
  }

  /** Every event of the trace fits what precedes it. */
  predicate Disciplined(trace: seq<Event>, epicId: string, stories: seq<EpicStory>, base: seq<string>)
    decreases |trace|
  {
    |trace| == 0
    || (Disciplined(trace[..|trace| - 1], epicId, stories, base)
        && Fits(trace[..|trace| - 1], trace[|trace| - 1], epicId, stories, base))
  }

  lemma DisciplinedAppend(trace: seq<Event>, e: Event, epicId: string, stories: seq<EpicStory>, base: seq<string>)
    requires Disciplined(trace, epicId, stories, base) && Fits(trace, e, epicId, stories, base)
    ensures Disciplined(trace + [e], epicId, stories, base)
  {
    assert (trace + [e])[..|trace|] == trace;
  }

  /** A disciplined trace stays so in every prefix, and each event fits what precedes it. */
  lemma {:induction false} DisciplinedAt(trace: seq<Event>, k: nat, epicId: string, stories: seq<EpicStory>, base: seq<string>)
    requires Disciplined(trace, epicId, stories, base) && k < |trace|
    ensures Fits(trace[..k], trace[k], epicId, stories, base)
    decreases |trace|
  {
    if k < |trace| - 1 {
      var init := trace[..|trace| - 1];
      DisciplinedAt(init, k, epicId, stories, base);
      assert init[..k] == trace[..k];
    }
  }

  /**
   * Save before work: in a disciplined trace every dev run comes right after
   * the save of its iteration, numbered 1 to 10, at an open story of the epic.
   */
  lemma DevRunAfterSave(trace: seq<Event>, k: nat, epicId: string, stories: seq<EpicStory>, base: seq<string>)
    requires Disciplined(trace, epicId, stories, base) && k < |trace| && trace[k].DevRun?
    ensures 0 < k && trace[k - 1].Saved?
    ensures 1 <= trace[k - 1].state.devReviewIteration <= MAX_DEV_REVIEW_ITERATIONS
    ensures AtOpenStory(trace[k - 1].state, stories, trace[k].storyId)
  {
    DisciplinedAt(trace, k, epicId, stories, base);
    assert trace[..k][k - 1] == trace[k - 1];
  }

  /**
   * Every saved state of a disciplined trace keeps the epic and extends the
   * starting completed list with new ids only.
   */
  lemma SavesExtend(trace: seq<Event>, k: nat, epicId: string, stories: seq<EpicStory>, base: seq<string>)
    requires Disciplined(trace, epicId, stories, base) && k < |trace| && trace[k].Saved?
    ensures trace[k].state.currentEpic == epicId && Extends(base, trace[k].state.completedStories)
  {
    DisciplinedAt(trace, k, epicId, stories, base);
  }

  /** Appends one event, keeping the trace disciplined. */
  function Record(trace: seq<Event>, e: Event, epicId: string, stories: seq<EpicStory>, base: seq<string>): (r: seq<Event>)
    requires Disciplined(trace, epicId, stories, base) && Fits(trace, e, epicId, stories, base)
    ensures r == trace + [e] && Disciplined(r, epicId, stories, base)
  {
    DisciplinedAppend(trace, e, epicId, stories, base);
    trace + [e]
  }

  // ---------------------------------------------------------------------------
  // The dev-review loop
  // ---------------------------------------------------------------------------

  /** The outcome of the review agent's run started with the trace at length `at`. */
  function ReviewAt(world: World, storyId: string, at: nat): ReviewOutcome {
    var run := world.review(at);
    ClassifyReview(run.end, run.read, storyId, run.output, run.durationMs)
  }

  /**
   * Every review of `storyId` recorded in `trace` from `from` on follows a
   * dev run that succeeded and records the verdict of the review agent's
   * run at that point.
   */
  ghost predicate ReviewsMatchWorld(trace: seq<Event>, from: nat, world: World, storyId: string) {
    forall p {:trigger ReviewMatches(trace, p, world, storyId)} | from <= p < |trace| && trace[p].ReviewRun? ::
      ReviewMatches(trace, p, world, storyId)
  }

  /** The event at `p` records the review agent's verdict there, after a dev run that succeeded. */
  ghost predicate ReviewMatches(trace: seq<Event>, p: nat, world: World, storyId: string) {
    && 0 < p < |trace| && world.devOk(p - 1)
    && ReviewAt(world, storyId, p).Resolved?
    && trace[p] == ReviewRun(storyId, ReviewAt(world, storyId, p).result.passed)
  }

  /**
   * The trace after `iteration` reviewed rounds on `storyId` from `trace0`:
   * three events a round, the first round's dev run right after its save,
   * the last review recording `complete`, no passed review before the last
   * event, and every review matching the agents' runs.
   */
  ghost predicate RoundsSoFar(trace: seq<Event>, trace0: seq<Event>, world: World, storyId: string, iteration: nat, complete: bool) {
    && trace0 <= trace && |trace| == |trace0| + 3 * iteration
    && (iteration == 0 ==> !complete)
    && (iteration > 0 ==> trace[|trace| - 1] == ReviewRun(storyId, complete) && trace[|trace0| + 1] == DevRun(storyId))
    && (forall k | |trace0| <= k < |trace| - 1 :: trace[k] != ReviewRun(storyId, true))
    && ReviewsMatchWorld(trace, |trace0|, world, storyId)
  }

  /** A reviewed round after a failed review extends the rounds so far. */
  lemma RoundsStep(before: seq<Event>, trace: seq<Event>, trace0: seq<Event>, world: World, storyId: string,
                   iteration: nat, s: State, passed: bool)
    requires RoundsSoFar(before, trace0, world, storyId, iteration, false)
    requires trace == before + [Saved(s), DevRun(storyId), ReviewRun(storyId, passed)]
    requires world.devOk(|before| + 1) && ReviewAt(world, storyId, |before| + 2).Resolved?
    requires passed == ReviewAt(world, storyId, |before| + 2).result.passed
    ensures RoundsSoFar(trace, trace0, world, storyId, iteration + 1, passed)
  {
    forall k | |trace0| <= k < |trace| - 1
      ensures trace[k] != ReviewRun(storyId, true)
    {
      if k < |before| {
        assert trace[k] == before[k];
      }
    }
    forall p | |trace0| <= p < |trace| && trace[p].ReviewRun?
      ensures ReviewMatches(trace, p, world, storyId)
    {
      if p < |before| {
        assert ReviewMatches(before, p, world, storyId);
      }
    }
    if iteration > 0 {
      assert trace[|trace0| + 1] == before[|trace0| + 1];
    }
  }

  /** A round whose agent run failed leaves a trace ending with its save and dev run. */
  lemma RoundsCrash(before: seq<Event>, trace: seq<Event>, trace0: seq<Event>, world: World, storyId: string,
                    iteration: nat, s: State)
    requires RoundsSoFar(before, trace0, world, storyId, iteration, false)
    requires trace == before + [Saved(s), DevRun(storyId)]
    ensures trace0 <= trace && |trace| >= |trace0| + 2 && trace[|trace0| + 1] == DevRun(storyId)
    ensures forall k | |trace0| <= k < |trace| - 1 :: trace[k] != ReviewRun(storyId, true)
    ensures ReviewsMatchWorld(trace, |trace0|, world, storyId)
  {
    forall k | |trace0| <= k < |trace|
      ensures trace[k] != ReviewRun(storyId, true)
    {
      if k < |before| {
        assert trace[k] == before[k];
      }
    }
    forall p | |trace0| <= p < |trace| && trace[p].ReviewRun?
      ensures ReviewMatches(trace, p, world, storyId)
    {
      assert p < |before| && trace[p] == before[p];
      assert ReviewMatches(before, p, world, storyId);
    }
    if iteration > 0 {
      assert trace[|trace0| + 1] == before[|trace0| + 1];
    }
  }

  /** How one dev-review round ends. */
  datatype RoundEnd = Reviewed(passed: bool) | AgentFailed

  /**
   * One round: save the iteration number, run the dev agent, then the review
   * agent; a rejected agent run ends the round with `AgentFailed`.
   */
  method DevReviewRound(disk: Disk, world: World, cwd: string, epicId: string, stories: seq<EpicStory>, base: seq<string>,
                        state0: State, iteration: nat, storyId: string, trace0: seq<Event>)
    returns (round: RoundEnd, state: State, trace: seq<Event>)
    modifies disk
    requires 1 <= iteration <= MAX_DEV_REVIEW_ITERATIONS
    requires AtOpenStory(state0, stories, storyId) && state0.currentEpic == epicId && Extends(base, state0.completedStories)
    requires Disciplined(trace0, epicId, stories, base)
    ensures Disciplined(trace, epicId, stories, base)
    ensures state == state0.(devReviewIteration := iteration, lastUpdated := world.clock(|trace0|))
    ensures StateIn(disk.files, cwd) == Some(state)
    ensures trace[..] == trace0 + [Saved(state), DevRun(storyId)] + (if round.Reviewed? then [ReviewRun(storyId, round.passed)] else [])
    ensures round.AgentFailed? <==> !world.devOk(|trace0| + 1) || ReviewAt(world, storyId, |trace0| + 2).Rejected?
    ensures round.Reviewed? ==> round.passed == ReviewAt(world, storyId, |trace0| + 2).result.passed
  {
    state := disk.SaveState(cwd, state0.(devReviewIteration := iteration), world.clock(|trace0|));
    trace := Record(trace0, Saved(state), epicId, stories, base);

    var devOk := world.devOk(|trace|);
    trace := Record(trace, DevRun(storyId), epicId, stories, base);
    if !devOk {
      return AgentFailed, state, trace;
    }

    var run := world.review(|trace|);
    var outcome := ClassifyReview(run.end, run.read, storyId, run.output, run.durationMs);
    if outcome.Rejected? {
      return AgentFailed, state, trace;
    }
    trace := Record(trace, ReviewRun(storyId, outcome.result.passed), epicId, stories, base);
    round := Reviewed(outcome.result.passed);
  }

  /**
   * Up to ten rounds of save, dev agent and review agent on one story,
   * stopping at the first passed review. `crashed` is a rejected agent run,
   * which ends the process with exit code 1.
   */
  method DevReview(disk: Disk, world: World, cwd: string, epicId: string, stories: seq<EpicStory>, base: seq<string>,
                   state0: State, storyId: string, trace0: seq<Event>)
    returns (complete: bool, crashed: bool, state: State, trace: seq<Event>)
    modifies disk
    requires AtOpenStory(state0, stories, storyId) && state0.currentEpic == epicId && Extends(base, state0.completedStories)
    requires Disciplined(trace0, epicId, stories, base)
    ensures Disciplined(trace, epicId, stories, base) && trace0 <= trace
    ensures state.currentEpic == epicId && state.currentStoryIndex == state0.currentStoryIndex
    ensures state.completedStories == state0.completedStories
    ensures complete ==> !crashed
    ensures !crashed ==>
      && 1 <= state.devReviewIteration <= MAX_DEV_REVIEW_ITERATIONS
      && StateIn(disk.files, cwd) == Some(state)
      && |trace| == |trace0| + 3 * state.devReviewIteration
      && (complete <==> trace[|trace| - 1] == ReviewRun(storyId, true))
      && (!complete ==> state.devReviewIteration == MAX_DEV_REVIEW_ITERATIONS)
    ensures forall k | |trace0| <= k < |trace| - 1 :: trace[k] != ReviewRun(storyId, true)
    ensures |trace| >= |trace0| + 2 && trace[|trace0| + 1] == DevRun(storyId)
    ensures ReviewsMatchWorld(trace, |trace0|, world, storyId)
    ensures crashed ==> trace[|trace| - 1] == DevRun(storyId)
    ensures crashed ==> !world.devOk(|trace| - 1) || ReviewAt(world, storyId, |trace|).Rejected?
  {
    state, trace := state0, trace0;
    complete, crashed := false, false;
    var iteration := 0;
    while !complete && iteration < MAX_DEV_REVIEW_ITERATIONS
      invariant 0 <= iteration <= MAX_DEV_REVIEW_ITERATIONS
      invariant Disciplined(trace, epicId, stories, base)
      invariant state.currentEpic == epicId && state.currentStoryIndex == state0.currentStoryIndex
      invariant state.completedStories == state0.completedStories
      invariant iteration > 0 ==> state.devReviewIteration == iteration && StateIn(disk.files, cwd) == Some(state)
      invariant RoundsSoFar(trace, trace0, world, storyId, iteration, complete)
      decreases MAX_DEV_REVIEW_ITERATIONS - iteration
    {
      iteration := iteration + 1;
      var round;
      round, state, trace := NextRound(disk, world, cwd, epicId, stories, base, state, iteration, storyId, trace, trace0);
      if round.AgentFailed? {
        crashed := true;
        return;
      }
      complete := round.passed;
    }
  }

  /** Round `iteration` after `iteration - 1` failed reviews since `start`, with the rounds so far extended by it. */
  method NextRound(disk: Disk, world: World, cwd: string, epicId: string, stories: seq<EpicStory>, base: seq<string>,
                   state0: State, iteration: nat, storyId: string, trace0: seq<Event>, ghost start: seq<Event>)
    returns (round: RoundEnd, state: State, trace: seq<Event>)
    modifies disk
    requires 1 <= iteration <= MAX_DEV_REVIEW_ITERATIONS
    requires AtOpenStory(state0, stories, storyId) && state0.currentEpic == epicId && Extends(base, state0.completedStories)
    requires Disciplined(trace0, epicId, stories, base)
    requires RoundsSoFar(trace0, start, world, storyId, iteration - 1, false)
    ensures Disciplined(trace, epicId, stories, base)
    ensures state == state0.(devReviewIteration := iteration, lastUpdated := state.lastUpdated)
    ensures StateIn(disk.files, cwd) == Some(state)
    ensures round.Reviewed? ==> RoundsSoFar(trace, start, world, storyId, iteration, round.passed)
    ensures round.AgentFailed? ==>
      && start <= trace && |trace| >= |start| + 2 && trace[|start| + 1] == DevRun(storyId)
      && trace[|trace| - 1] == DevRun(storyId)
      && (forall k | |start| <= k < |trace| - 1 :: trace[k] != ReviewRun(storyId, true))
      && ReviewsMatchWorld(trace, |start|, world, storyId)
      && (!world.devOk(|trace| - 1) || ReviewAt(world, storyId, |trace|).Rejected?)
  {
    round, state, trace := DevReviewRound(disk, world, cwd, epicId, stories, base, state0, iteration, storyId, trace0);
    if round.AgentFailed? {
      RoundsCrash(trace0, trace, start, world, storyId, iteration - 1, state);
    } else {
      RoundsStep(trace0, trace, start, world, storyId, iteration - 1, state, round.passed);
    }
  }

  // ---------------------------------------------------------------------------
  // One story
  // ---------------------------------------------------------------------------

  /** How the work on one story index ends. */
  datatype StepEnd = NextStory | RetryStory | AbortRun | CrashRun

  /**
   * One pass of the story loop at index `i`: save the index with iteration
   * 0, then skip a completed story or work on it.
   */
  method ProcessStory(disk: Disk, world: World, cwd: string, epicId: string, stories: seq<EpicStory>, base: seq<string>,
                      i: nat, state0: State, trace0: seq<Event>)
    returns (step: StepEnd, state: State, trace: seq<Event>)
    modifies disk
    requires i < |stories|
    requires state0.currentEpic == epicId && Extends(base, state0.completedStories)
    requires Disciplined(trace0, epicId, stories, base)
    ensures Disciplined(trace, epicId, stories, base) && |trace| > |trace0| && trace0 <= trace
    ensures trace[|trace0|] == Saved(state0.(currentStoryIndex := i, devReviewIteration := 0, lastUpdated := world.clock(|trace0|)))
    ensures state.currentEpic == epicId && state.currentStoryIndex == i && Extends(base, state.completedStories)
    ensures !step.CrashRun? ==> StateIn(disk.files, cwd) == Some(state)
    ensures step.AbortRun? || step.RetryStory? ==> trace[|trace| - 1] == Saved(state)
    ensures stories[i].id in state0.completedStories ==>
      step.NextStory? && |trace| == |trace0| + 1 && state.completedStories == state0.completedStories
    ensures step.NextStory? ==>
      || state.completedStories == state0.completedStories
      || (stories[i].id !in state0.completedStories && state.completedStories == state0.completedStories + [stories[i].id])
    ensures step.RetryStory? ==> state.devReviewIteration == 0 && state.completedStories == state0.completedStories
    ensures step.AbortRun? ==>
      && state.devReviewIteration == MAX_DEV_REVIEW_ITERATIONS && state.completedStories == state0.completedStories
      && world.maxIterationsAction(|trace| - 1).Abort?
    ensures stories[i].id !in state0.completedStories ==>
      OpenStoryWork(world, stories[i].id, |trace0| + 1, trace, step, state0.completedStories, state.completedStories)
    ensures step.NextStory? ==> stories[i].id in state.completedStories || !Loads(world, stories[i].id, |trace0| + 1)
  {
    state := disk.SaveState(cwd, state0.(currentStoryIndex := i, devReviewIteration := 0), world.clock(|trace0|));
    trace := Record(trace0, Saved(state), epicId, stories, base);
    if stories[i].id in state.completedStories {
      return NextStory, state, trace;
    }
    ghost var saved := trace;
    step, state, trace := WorkOnStory(disk, world, cwd, epicId, stories, base, state, trace);
    assert trace[|trace0|] == saved[|trace0|];
  }

  /**
   * The work on an open story whose index has just been saved: create the
   * story file when it is missing, load it, run the dev-review loop and
   * finish the story. A story that cannot be loaded is passed over.
   */
  method WorkOnStory(disk: Disk, world: World, cwd: string, epicId: string, stories: seq<EpicStory>, base: seq<string>,
                     state0: State, trace0: seq<Event>)
    returns (step: StepEnd, state: State, trace: seq<Event>)
    modifies disk
    requires state0.currentStoryIndex < |stories| && AtOpenStory(state0, stories, stories[state0.currentStoryIndex].id)
    requires state0.currentEpic == epicId && Extends(base, state0.completedStories) && state0.devReviewIteration == 0
    requires Disciplined(trace0, epicId, stories, base) && trace0 != [] && trace0[|trace0| - 1] == Saved(state0)
    requires StateIn(disk.files, cwd) == Some(state0)
    ensures Disciplined(trace, epicId, stories, base) && trace0 <= trace
    ensures state.currentEpic == epicId && state.currentStoryIndex == state0.currentStoryIndex
    ensures Extends(base, state.completedStories)
    ensures !step.CrashRun? ==> StateIn(disk.files, cwd) == Some(state)
    ensures step.AbortRun? || step.RetryStory? ==> trace[|trace| - 1] == Saved(state)
    ensures step.NextStory? ==>
      || state.completedStories == state0.completedStories
      || state.completedStories == state0.completedStories + [stories[state0.currentStoryIndex].id]
    ensures step.RetryStory? ==> state.devReviewIteration == 0 && state.completedStories == state0.completedStories
    ensures step.AbortRun? ==>
      && state.devReviewIteration == MAX_DEV_REVIEW_ITERATIONS && state.completedStories == state0.completedStories
      && world.maxIterationsAction(|trace| - 1).Abort?
    ensures OpenStoryWork(world, stories[state0.currentStoryIndex].id, |trace0|, trace, step,
                          state0.completedStories, state.completedStories)
    ensures !Loads(world, stories[state0.currentStoryIndex].id, |trace0|) && !step.CrashRun? ==> state == state0
  {
    state := state0;
    var story, creatorFailed;
    story, creatorFailed, trace := PrepareStory(world, cwd, epicId, stories, base, state0, trace0);
    if creatorFailed {
      return CrashRun, state, trace;
    }
    if story.None? {
      return NextStory, state, trace;
    }
    step, state, trace := WorkOnLoaded(disk, world, cwd, epicId, stories, base, story.value, state, trace);
  }

  /**
   * The work on open story `id` whose story file is looked up at trace
   * position `at`, ending with `trace`, `step` and the completed list
   * `completed` (from `completed0`):
   * - a rejected story-creator run ends the run right after it;
   * - a story whose file cannot be loaded is passed over, not appended;
   * - a loaded story's dev run comes right after the load, every review
   *   records the review agent's verdict and every passed review is
   *   followed by a commit iff git is present and the user agrees;
   * - a loaded story that is moved on from is appended;
   * - any other crash is a failed dev run or a rejected review.
   */
  ghost predicate OpenStoryWork(world: World, id: string, at: nat, trace: seq<Event>, step: StepEnd,
                                completed0: seq<string>, completed: seq<string>) {
    var loadAt := LoadAt(world, id, at);
    && (CreatorFails(world, id, at) ==> step.CrashRun? && |trace| == at + 1 && trace[at] == CreatorRun(id))
    && (!CreatorFails(world, id, at) && !Loads(world, id, at) ==>
          step.NextStory? && completed == completed0 && |trace| == loadAt)
    && (Loads(world, id, at) ==>
          && |trace| > loadAt + 1 && trace[loadAt + 1] == DevRun(id)
          && ReviewsMatchWorld(trace, loadAt, world, id) && CommitsMatchWorld(trace, loadAt, world, id))
    && (Loads(world, id, at) && step.NextStory? ==> completed == completed0 + [id])
    && (completed != completed0 ==> Loads(world, id, at))
    && (step.CrashRun? && !CreatorFails(world, id, at) ==>
          !world.devOk(|trace| - 1) || ReviewAt(world, id, |trace|).Rejected?)
  }

  /**
   * The dev-review loop on a loaded story, then its finish. Everything the
   * agents and the prompts answer is read from `world` at the position in
   * the trace where it happens.
   */
  method WorkOnLoaded(disk: Disk, world: World, cwd: string, epicId: string, stories: seq<EpicStory>, base: seq<string>,
                      story: Story, state0: State, trace0: seq<Event>)
    returns (step: StepEnd, state: State, trace: seq<Event>)
    modifies disk
    requires state0.currentStoryIndex < |stories| && story.id == stories[state0.currentStoryIndex].id
    requires AtOpenStory(state0, stories, story.id)
    requires state0.currentEpic == epicId && Extends(base, state0.completedStories)
    requires Disciplined(trace0, epicId, stories, base)
    ensures Disciplined(trace, epicId, stories, base) && trace0 <= trace
    ensures |trace| > |trace0| + 1 && trace[|trace0| + 1] == DevRun(story.id)
    ensures state.currentEpic == epicId && state.currentStoryIndex == state0.currentStoryIndex
    ensures Extends(base, state.completedStories)
    ensures !step.CrashRun? ==> StateIn(disk.files, cwd) == Some(state)
    ensures step.AbortRun? || step.RetryStory? ==> trace[|trace| - 1] == Saved(state)
    ensures step.NextStory? ==> state.completedStories == state0.completedStories + [story.id]
    ensures step.CrashRun? || step.RetryStory? || step.AbortRun? ==> state.completedStories == state0.completedStories
    ensures step.RetryStory? ==> state.devReviewIteration == 0
    ensures step.AbortRun? ==>
      state.devReviewIteration == MAX_DEV_REVIEW_ITERATIONS && world.maxIterationsAction(|trace| - 1).Abort?
    ensures ReviewsMatchWorld(trace, |trace0|, world, story.id)
    ensures CommitsMatchWorld(trace, |trace0|, world, story.id)
    ensures step.CrashRun? ==> !world.devOk(|trace| - 1) || ReviewAt(world, story.id, |trace|).Rejected?
  {
    var complete, crashed;
    complete, crashed, state, trace := DevReview(disk, world, cwd, epicId, stories, base, state0, story.id, trace0);
    if crashed {
      NoPassedReview(trace, |trace0|, world, story.id);
      return CrashRun, state, trace;
    }
    ghost var reviewed := trace;
    var epicStory := stories[state0.currentStoryIndex];
    step, state, trace := FinishStory(disk, world, cwd, epicId, stories, base, complete, epicStory, state, trace);
    ReviewsMatchExtend(reviewed, trace, |trace0|, world, story.id);
    CommitsAfterFinish(reviewed, trace, |trace0|, world, story.id, complete, epicStory.title, state);
    assert trace[|trace0| + 1] == reviewed[|trace0| + 1];
  }

  /**
   * The event after a passed review at `p` is a commit exactly when git is
   * present and the confirmation prompt there is answered yes.
   */
  ghost predicate CommitMatches(trace: seq<Event>, p: nat, world: World) {
    p + 1 < |trace| && (trace[p + 1].Committed? <==> world.hasGit && world.confirmCommit(p + 1))
  }

  /** Every passed review of `storyId` recorded from `from` on is followed by a commit iff git is present and the user agrees. */
  ghost predicate CommitsMatchWorld(trace: seq<Event>, from: nat, world: World, storyId: string) {
    forall p {:trigger CommitMatches(trace, p, world)} | from <= p < |trace| && trace[p] == ReviewRun(storyId, true) ::
      CommitMatches(trace, p, world)
  }

  /** A trace with no passed review of `storyId` from `from` on says nothing about commits. */
  lemma NoPassedReview(trace: seq<Event>, from: nat, world: World, storyId: string)
    requires |trace| > 0 && trace[|trace| - 1] == DevRun(storyId)
    requires forall k | from <= k < |trace| - 1 :: trace[k] != ReviewRun(storyId, true)
    ensures CommitsMatchWorld(trace, from, world, storyId)
  {
  }

  /**
   * After the dev-review loop ended in `reviewed` and `FinishStory` ran, the
   * only passed review is the loop's last event, and what follows it is the
   * commit that `Commits` allows.
   */
  lemma CommitsAfterFinish(reviewed: seq<Event>, trace: seq<Event>, from: nat, world: World, storyId: string,
                           complete: bool, title: string, s: State)
    requires from < |reviewed|
    requires forall k | from <= k < |reviewed| - 1 :: reviewed[k] != ReviewRun(storyId, true)
    requires complete <==> reviewed[|reviewed| - 1] == ReviewRun(storyId, true)
    requires trace == (if Commits(world, complete, |reviewed|) then reviewed + [Committed(storyId, title)] else reviewed) + [Saved(s)]
    ensures CommitsMatchWorld(trace, from, world, storyId)
  {
    forall p | from <= p < |trace| && trace[p] == ReviewRun(storyId, true)
      ensures CommitMatches(trace, p, world)
    {
      assert p < |reviewed| && trace[p] == reviewed[p];
      assert p == |reviewed| - 1;
    }
  }

  /** Events that are not reviews keep the recorded reviews matching the agents' runs. */
  lemma ReviewsMatchExtend(before: seq<Event>, trace: seq<Event>, from: nat, world: World, storyId: string)
    requires ReviewsMatchWorld(before, from, world, storyId) && before <= trace
    requires forall p | |before| <= p < |trace| :: !trace[p].ReviewRun?
    ensures ReviewsMatchWorld(trace, from, world, storyId)
  {
    forall p | from <= p < |trace| && trace[p].ReviewRun?
      ensures ReviewMatches(trace, p, world, storyId)
    {
      assert p < |before| && trace[p] == before[p];
      assert ReviewMatches(before, p, world, storyId);
    }
  }

  /**
   * The trace position at which the story file of `storyId` is loaded when
   * its lookup happens at `at`: right after the story creator's run when no
   * file matched.
   */
  function LoadAt(world: World, storyId: string, at: nat): nat {
    if StoryFileExists(world.storyListing(at), storyId) then at else at + 1
  }

  /** No story file matches `storyId` at `at` and the story creator's run there is rejected. */
  predicate CreatorFails(world: World, storyId: string, at: nat) {
    !StoryFileExists(world.storyListing(at), storyId) && !world.creatorOk(at)
  }

  /** The story file of `storyId` is there and readable when it is loaded after a lookup at `at`. */
  predicate Loads(world: World, storyId: string, at: nat) {
    && !CreatorFails(world, storyId, at)
    && StoryFileName(world.storyListing(LoadAt(world, storyId, at)), world.storyContents(LoadAt(world, storyId, at)), storyId).Some?
  }

  /**
   * `story` is what `loadStory` gives for `storyId` from the directory as
   * read at `at`. Stated for the listing read there under a trigger on the
   * `StoryFrom` term, so that a proof unfolds the parse only where it
   * mentions that term.
   */
  ghost predicate LoadedAs(story: Option<Story>, world: World, cwd: string, storyId: string, at: nat) {
    forall listing {:trigger StoryFrom(listing, world.storyContents(at), cwd, storyId)} | listing == world.storyListing(at) ::
      story == StoryFrom(listing, world.storyContents(at), cwd, storyId)
  }

  /** A story whose dev-review loop ended with `complete` is committed when the prompt at `at` is answered. */
  predicate Commits(world: World, complete: bool, at: nat) {
    complete && world.hasGit && world.confirmCommit(at)
  }

  /**
   * The story file of an open story: the story creator runs when no file
   * matches the id, then the file is loaded; `None` when it cannot be.
   */
  method PrepareStory(world: World, cwd: string, epicId: string, stories: seq<EpicStory>, base: seq<string>,
                      state0: State, trace0: seq<Event>)
    returns (story: Option<Story>, creatorFailed: bool, trace: seq<Event>)
    requires state0.currentStoryIndex < |stories| && AtOpenStory(state0, stories, stories[state0.currentStoryIndex].id)
    requires state0.devReviewIteration == 0
    requires Disciplined(trace0, epicId, stories, base) && trace0 != [] && trace0[|trace0| - 1] == Saved(state0)
    ensures Disciplined(trace, epicId, stories, base)
    ensures var storyId := stories[state0.currentStoryIndex].id;
      && trace == trace0 + (if StoryFileExists(world.storyListing(|trace0|), storyId) then [] else [CreatorRun(storyId)])
      && (!creatorFailed ==> |trace| == LoadAt(world, storyId, |trace0|))
      && (creatorFailed <==> CreatorFails(world, storyId, |trace0|))
      && (story.Some? <==> Loads(world, storyId, |trace0|))
      && (!creatorFailed ==> LoadedAs(story, world, cwd, storyId, |trace|))
    ensures creatorFailed ==> story.None?
    ensures story.Some? ==> story.value.id == stories[state0.currentStoryIndex].id
  {
    var storyId := stories[state0.currentStoryIndex].id;
    trace := trace0;
    creatorFailed := false;
    var storyExists := StoryFileExists(world.storyListing(|trace|), storyId);
    if !storyExists {
      var creatorOk := world.creatorOk(|trace|);
      trace := Record(trace, CreatorRun(storyId), epicId, stories, base);
      if !creatorOk {
        return None, true, trace;
      }
    }
    story := LoadStory(world.storyListing(|trace|), world.storyContents(|trace|), cwd, storyId);
  }

  /**
   * How the work on a story goes on after its dev-review loop: a completed
   * story goes to the next index without a prompt; otherwise `continue`
   * retries the index, `abort` stops the run, and `skip` and `complete` go
   * to the next index.
   */
  function AnswerStep(complete: bool, answer: MaxIterationsAction): StepEnd {
    if complete then NextStory
    else
      match answer
      case Continue => RetryStory
      case Abort => AbortRun
      case Skip => NextStory
      case Complete => NextStory
  }

  /**
   * After the dev-review loop: the prompt after ten failed reviews
   * (`continue` resets the iteration and retries the index, `abort` saves
   * and stops, `skip` and `complete` go on), then `CompleteStory`, which
   * every story reaching it gets.
   */
  method FinishStory(disk: Disk, world: World, cwd: string, epicId: string, stories: seq<EpicStory>, base: seq<string>,
                     complete: bool, epicStory: EpicStory, state0: State, trace0: seq<Event>)
    returns (step: StepEnd, state: State, trace: seq<Event>)
    modifies disk
    requires state0.currentStoryIndex < |stories| && stories[state0.currentStoryIndex] == epicStory
    requires AtOpenStory(state0, stories, epicStory.id)
    requires state0.currentEpic == epicId && Extends(base, state0.completedStories)
    requires Disciplined(trace0, epicId, stories, base)
    requires complete ==> trace0 != [] && trace0[|trace0| - 1] == ReviewRun(epicStory.id, true)
    requires !complete ==> state0.devReviewIteration == MAX_DEV_REVIEW_ITERATIONS
    ensures Disciplined(trace, epicId, stories, base) && trace0 <= trace
    ensures state.currentEpic == epicId && state.currentStoryIndex == state0.currentStoryIndex
    ensures StateIn(disk.files, cwd) == Some(state) && |trace| > |trace0| && trace[|trace| - 1] == Saved(state)
    ensures Extends(base, state.completedStories)
    ensures !step.CrashRun?
    ensures step == AnswerStep(complete, world.maxIterationsAction(|trace0|))
    ensures step.AbortRun? ==> world.maxIterationsAction(|trace| - 1).Abort?
    ensures trace == (if Commits(world, complete, |trace0|) then trace0 + [Committed(epicStory.id, epicStory.title)] else trace0) + [Saved(state)]
    ensures step.NextStory? ==> state.completedStories == state0.completedStories + [epicStory.id]
    ensures step.RetryStory? ==> state.devReviewIteration == 0 && state.completedStories == state0.completedStories
    ensures step.AbortRun? ==>
      state.devReviewIteration == MAX_DEV_REVIEW_ITERATIONS && state.completedStories == state0.completedStories
  {
    step := AnswerStep(complete, world.maxIterationsAction(|trace0|));
    if step.RetryStory? {
      state, trace := SaveIteration(disk, world, cwd, epicId, stories, base, state0, 0, trace0);
    } else if step.AbortRun? {
      state, trace := SaveIteration(disk, world, cwd, epicId, stories, base, state0, state0.devReviewIteration, trace0);
    } else {
      state, trace := CompleteStory(disk, world, cwd, epicId, stories, base, complete, epicStory, state0, trace0);
    }
  }

  /** Saves the state with the iteration counter set to `iteration`, as the `continue` and `abort` answers do. */
  method SaveIteration(disk: Disk, world: World, cwd: string, epicId: string, stories: seq<EpicStory>, base: seq<string>,
                       state0: State, iteration: nat, trace0: seq<Event>)
    returns (state: State, trace: seq<Event>)
    modifies disk
    requires state0.currentEpic == epicId && Extends(base, state0.completedStories)
    requires Disciplined(trace0, epicId, stories, base)
    ensures state == state0.(devReviewIteration := iteration, lastUpdated := world.clock(|trace0|))
    ensures StateIn(disk.files, cwd) == Some(state)
    ensures trace == trace0 + [Saved(state)] && Disciplined(trace, epicId, stories, base)
  {
    state := disk.SaveState(cwd, state0.(devReviewIteration := iteration), world.clock(|trace0|));
    trace := Record(trace0, Saved(state), epicId, stories, base);
  }

  /**
   * The end of a story that is not retried: the commit of a completed story
   * when git is present and the user agrees, then the append of the story to
   * the completed list and its save.
   */
  method CompleteStory(disk: Disk, world: World, cwd: string, epicId: string, stories: seq<EpicStory>, base: seq<string>,
                       complete: bool, epicStory: EpicStory, state0: State, trace0: seq<Event>)
    returns (state: State, trace: seq<Event>)
    modifies disk
    requires AtOpenStory(state0, stories, epicStory.id)
    requires state0.currentEpic == epicId && Extends(base, state0.completedStories)
    requires Disciplined(trace0, epicId, stories, base)
    requires complete ==> trace0 != [] && trace0[|trace0| - 1] == ReviewRun(epicStory.id, true)
    ensures Disciplined(trace, epicId, stories, base)
    ensures state == state0.(completedStories := state0.completedStories + [epicStory.id], lastUpdated := state.lastUpdated)
    ensures StateIn(disk.files, cwd) == Some(state) && Extends(base, state.completedStories)
    ensures trace == (if Commits(world, complete, |trace0|) then trace0 + [Committed(epicStory.id, epicStory.title)] else trace0) + [Saved(state)]
  {
    trace := trace0;
    if complete && world.hasGit {
      if world.confirmCommit(|trace|) {
        trace := Record(trace, Committed(epicStory.id, epicStory.title), epicId, stories, base);
      }
    }
    ExtendsAppend(base, state0.completedStories, epicStory.id);
    state := disk.SaveState(cwd, state0.(completedStories := state0.completedStories + [epicStory.id]), world.clock(|trace|));
    trace := Record(trace, Saved(state), epicId, stories, base);
  }

  // ---------------------------------------------------------------------------
  // The story loop
  // ---------------------------------------------------------------------------

  /** How the story loop ends. */
  datatype LoopEnd = Finished(state: State) | AbortedRun(state: State) | CrashedRun | FuelOut

  /** The index the pass after one at `index` ending with `step` works on: the same after `continue`, else the next. */
  function NextIndex(index: nat, step: StepEnd): nat {
    if step.RetryStory? then index else index + 1
  }

  /** Event `p` of `trace` is the save of story index `index` with iteration 0. */
  ghost predicate SavedAt(trace: seq<Event>, p: nat, index: nat) {
    && p < |trace| && trace[p].Saved?
    && trace[p].state.currentStoryIndex == index && trace[p].state.devReviewIteration == 0
  }

  /**
   * The passes of the story loop recorded in `trace` from position `from`
   * on: pass `k` works on story `visited[k]`, begins at `starts[k]` with the
   * save of that index and iteration 0, and ends with `steps[k]`. The first
   * pass is at `start`, each later one at `NextIndex` of the one before, and
   * a pass ended by `continue` has as its last event the save of its index
   * with iteration 0.
   */
  ghost predicate Passes(trace: seq<Event>, from: nat, start: nat, stories: seq<EpicStory>,
                         visited: seq<nat>, steps: seq<StepEnd>, starts: seq<nat>) {
    && PassOrder(from, start, visited, steps, starts)
    && PassSaves(trace, from, stories, visited, starts)
    && RetrySaves(trace, visited, steps, starts)
  }

  /** The order of the passes: from `start`, each at `NextIndex` of the one before, beginning later in the trace. */
  ghost predicate PassOrder(from: nat, start: nat, visited: seq<nat>, steps: seq<StepEnd>, starts: seq<nat>) {
    && |visited| == |steps| == |starts|
    && (|visited| > 0 ==> visited[0] == start && starts[0] == from)
    && (forall k | 0 < k < |visited| :: visited[k] == NextIndex(visited[k - 1], steps[k - 1]) && starts[k - 1] < starts[k])
  }

  /** Each pass begins with the save of its story index and iteration 0. */
  ghost predicate PassSaves(trace: seq<Event>, from: nat, stories: seq<EpicStory>, visited: seq<nat>, starts: seq<nat>)
    requires |visited| == |starts|
  {
    forall k {:trigger SavedAt(trace, starts[k], visited[k])} | 0 <= k < |visited| ::
      visited[k] < |stories| && from <= starts[k] && SavedAt(trace, starts[k], visited[k])
  }

  /** The pass after pass `k` begins right after the save of story `visited[k]` with iteration 0. */
  ghost predicate RetryEnd(trace: seq<Event>, visited: seq<nat>, starts: seq<nat>, k: nat) {
    k < |visited| && k + 1 < |starts| && 0 < starts[k + 1] && SavedAt(trace, starts[k + 1] - 1, visited[k])
  }

  /** A pass ended by `continue` ends with the save of its index and iteration 0. */
  ghost predicate RetrySaves(trace: seq<Event>, visited: seq<nat>, steps: seq<StepEnd>, starts: seq<nat>)
    requires |visited| == |steps| == |starts|
  {
    forall k {:trigger RetryEnd(trace, visited, starts, k)} | 0 <= k < |visited| - 1 && steps[k].RetryStory? ::
      RetryEnd(trace, visited, starts, k)
  }

  lemma PassOrderAppend(from: nat, start: nat, visited: seq<nat>, steps: seq<StepEnd>, starts: seq<nat>,
                        i: nat, step: StepEnd, at: nat)
    requires PassOrder(from, start, visited, steps, starts)
    requires |visited| == 0 ==> i == start && at == from
    requires |visited| > 0 ==> i == NextIndex(visited[|visited| - 1], steps[|steps| - 1]) && starts[|starts| - 1] < at
    ensures PassOrder(from, start, visited + [i], steps + [step], starts + [at])
  {
    var v, st, ss := visited + [i], steps + [step], starts + [at];
    forall k | 0 < k < |v|
      ensures v[k] == NextIndex(v[k - 1], st[k - 1]) && ss[k - 1] < ss[k]
    {
      if k < |visited| {
        assert v[k] == visited[k] && v[k - 1] == visited[k - 1] && st[k - 1] == steps[k - 1];
      }
    }
  }

  lemma PassSavesAppend(trace: seq<Event>, trace2: seq<Event>, from: nat, stories: seq<EpicStory>,
                        visited: seq<nat>, starts: seq<nat>, i: nat)
    requires |visited| == |starts| && PassSaves(trace, from, stories, visited, starts)
    requires from <= |trace| && trace <= trace2 && i < |stories| && SavedAt(trace2, |trace|, i)
    ensures PassSaves(trace2, from, stories, visited + [i], starts + [|trace|])
  {
    var v, ss := visited + [i], starts + [|trace|];
    forall k | 0 <= k < |v|
      ensures v[k] < |stories| && from <= ss[k] && SavedAt(trace2, ss[k], v[k])
    {
      if k < |visited| {
        assert ss[k] == starts[k] && v[k] == visited[k];
        assert SavedAt(trace, starts[k], visited[k]);
      }
    }
  }

  lemma RetrySavesAppend(trace: seq<Event>, trace2: seq<Event>, visited: seq<nat>, steps: seq<StepEnd>, starts: seq<nat>,
                         i: nat, step: StepEnd)
    requires |visited| == |steps| == |starts| && RetrySaves(trace, visited, steps, starts)
    requires trace <= trace2
    requires |visited| > 0 && steps[|steps| - 1].RetryStory? ==>
      |trace| > 0 && SavedAt(trace, |trace| - 1, visited[|visited| - 1])
    ensures RetrySaves(trace2, visited + [i], steps + [step], starts + [|trace|])
  {
    var v, st, ss := visited + [i], steps + [step], starts + [|trace|];
    var n := |visited|;
    forall k | 0 <= k < |v| - 1 && st[k].RetryStory?
      ensures RetryEnd(trace2, v, ss, k)
    {
      assert v[k] == visited[k] && st[k] == steps[k];
      if k < n - 1 {
        assert RetryEnd(trace, visited, starts, k);
        assert ss[k + 1] == starts[k + 1];
      } else {
        assert ss[k + 1] == |trace|;
      }
    }
  }

  /** A pass that begins right after the recorded ones, at the index they hand on, extends them. */
  lemma PassesAppend(trace: seq<Event>, trace2: seq<Event>, from: nat, start: nat, stories: seq<EpicStory>,
                     visited: seq<nat>, steps: seq<StepEnd>, starts: seq<nat>, i: nat, step: StepEnd)
    requires Passes(trace, from, start, stories, visited, steps, starts)
    requires from <= |trace| && trace <= trace2 && i < |stories| && SavedAt(trace2, |trace|, i)
    requires |visited| == 0 ==> i == start && |trace| == from
    requires |visited| > 0 ==> i == NextIndex(visited[|visited| - 1], steps[|steps| - 1]) && starts[|starts| - 1] < |trace|
    requires |visited| > 0 && steps[|steps| - 1].RetryStory? ==>
      |trace| > 0 && SavedAt(trace, |trace| - 1, visited[|visited| - 1])
    ensures Passes(trace2, from, start, stories, visited + [i], steps + [step], starts + [|trace|])
  {
    PassOrderAppend(from, start, visited, steps, starts, i, step, |trace|);
    PassSavesAppend(trace, trace2, from, stories, visited, starts, i);
    RetrySavesAppend(trace, trace2, visited, steps, starts, i, step);
  }

  /** Events added after the recorded passes leave them as they were. */
  lemma PassesExtend(trace: seq<Event>, trace2: seq<Event>, from: nat, start: nat, stories: seq<EpicStory>,
                     visited: seq<nat>, steps: seq<StepEnd>, starts: seq<nat>)
    requires Passes(trace, from, start, stories, visited, steps, starts) && trace <= trace2
    ensures Passes(trace2, from, start, stories, visited, steps, starts)
  {
    forall k | 0 <= k < |visited|
      ensures visited[k] < |stories| && from <= starts[k] && SavedAt(trace2, starts[k], visited[k])
    {
      assert SavedAt(trace, starts[k], visited[k]);
    }
    forall k | 0 <= k < |visited| - 1 && steps[k].RetryStory?
      ensures RetryEnd(trace2, visited, starts, k)
    {
      assert RetryEnd(trace, visited, starts, k);
    }
  }

  /**
   * The story loop's progress before index `i`: the passes so far, each
   * ended by moving on or by `continue`, hand on `i`, and every index from
   * `start` up to `i` has had a pass.
   */
  ghost predicate Progress(trace: seq<Event>, from: nat, start: nat, stories: seq<EpicStory>,
                           visited: seq<nat>, steps: seq<StepEnd>, starts: seq<nat>, i: nat) {
    && Passes(trace, from, start, stories, visited, steps, starts)
    && (forall k | 0 <= k < |steps| :: steps[k].NextStory? || steps[k].RetryStory?)
    && (visited == [] ==> i == start && |trace| == from)
    && (visited != [] ==>
          && i == NextIndex(visited[|visited| - 1], steps[|steps| - 1])
          && starts[|starts| - 1] < |trace|)
    && (visited != [] && steps[|steps| - 1].RetryStory? ==>
          |trace| > 0 && SavedAt(trace, |trace| - 1, visited[|visited| - 1]))
    && start <= i
    && (forall j | start <= j < i :: j in visited)
  }

  /** A pass at `i` that moves on or ends with the save of `continue` keeps the progress, at `NextIndex`. */
  lemma ProgressStep(trace: seq<Event>, trace2: seq<Event>, from: nat, start: nat, stories: seq<EpicStory>,
                     visited: seq<nat>, steps: seq<StepEnd>, starts: seq<nat>, i: nat, step: StepEnd)
    requires Progress(trace, from, start, stories, visited, steps, starts, i)
    requires from <= |trace| && trace <= trace2 && i < |stories| && SavedAt(trace2, |trace|, i)
    requires step.NextStory? || step.RetryStory?
    requires step.RetryStory? ==> |trace2| > 0 && SavedAt(trace2, |trace2| - 1, i)
    ensures Progress(trace2, from, start, stories, visited + [i], steps + [step], starts + [|trace|], NextIndex(i, step))
  {
    PassesAppend(trace, trace2, from, start, stories, visited, steps, starts, i, step);
    var v := visited + [i];
    forall j | start <= j < NextIndex(i, step)
      ensures j in v
    {
      if j < i {
        assert j in visited;
      } else {
        assert v[|visited|] == j;
      }
    }
  }

  /**
   * Story `j`'s file failed to load at its pass whose save of index `j`
   * with iteration 0 is event `p - 1`: the file lookup there is at `p`.
   */
  ghost predicate FailedLoadAt(trace: seq<Event>, world: World, stories: seq<EpicStory>, j: nat, p: nat) {
    0 < p <= |trace| && j < |stories| && SavedAt(trace, p - 1, j) && !Loads(world, stories[j].id, p)
  }

  /** Story `j` is in the completed list, or `failedAt` records the pass where its file failed to load. */
  ghost predicate Covered(trace: seq<Event>, world: World, stories: seq<EpicStory>, completed: seq<string>,
                          failedAt: map<nat, nat>, j: nat) {
    && j < |stories|
    && (stories[j].id in completed || (j in failedAt && FailedLoadAt(trace, world, stories, j, failedAt[j])))
  }

  /** Every story from `start` up to `i` is covered. */
  ghost predicate CoveredUpTo(trace: seq<Event>, world: World, stories: seq<EpicStory>, completed: seq<string>,
                              failedAt: map<nat, nat>, start: nat, i: nat) {
    forall j {:trigger Covered(trace, world, stories, completed, failedAt, j)} | start <= j < i ::
      Covered(trace, world, stories, completed, failedAt, j)
  }

  /**
   * A longer trace, a completed list that only grew, and a record of failed
   * loads that keeps the earlier entries keep the stories covered, and
   * story `i` may be added to them.
   */
  lemma CoveredStep(trace: seq<Event>, trace2: seq<Event>, world: World, stories: seq<EpicStory>,
                    completed: seq<string>, completed2: seq<string>, failedAt: map<nat, nat>, failedAt2: map<nat, nat>,
                    start: nat, i: nat, i2: nat)
    requires CoveredUpTo(trace, world, stories, completed, failedAt, start, i)
    requires trace <= trace2 && completed <= completed2 && i <= i2 <= i + 1
    requires forall j | j in failedAt && j < i :: j in failedAt2 && failedAt2[j] == failedAt[j]
    requires i2 == i + 1 ==> Covered(trace2, world, stories, completed2, failedAt2, i)
    ensures CoveredUpTo(trace2, world, stories, completed2, failedAt2, start, i2)
  {
    forall j | start <= j < i2
      ensures Covered(trace2, world, stories, completed2, failedAt2, j)
    {
      if j < i {
        assert Covered(trace, world, stories, completed, failedAt, j);
        if stories[j].id !in completed {
          var p := failedAt[j];
          assert SavedAt(trace, p - 1, j);
          assert trace2[p - 1] == trace[p - 1];
        }
      }
    }
  }

  /** One pass of the story loop at index `i`, recorded after the passes before it. */
  method StoryPass(disk: Disk, world: World, cwd: string, epicId: string, stories: seq<EpicStory>, base: seq<string>,
                   i: nat, state0: State, trace0: seq<Event>, from: nat, start: nat,
                   ghost visited0: seq<nat>, ghost steps0: seq<StepEnd>, ghost starts0: seq<nat>, ghost failedAt0: map<nat, nat>)
    returns (step: StepEnd, state: State, trace: seq<Event>, ghost visited: seq<nat>, ghost steps: seq<StepEnd>, ghost starts: seq<nat>,
             ghost failedAt: map<nat, nat>)
    modifies disk
    requires i < |stories| && from <= |trace0|
    requires state0.currentEpic == epicId && Extends(base, state0.completedStories)
    requires Disciplined(trace0, epicId, stories, base)
    requires Progress(trace0, from, start, stories, visited0, steps0, starts0, i)
    requires CoveredUpTo(trace0, world, stories, state0.completedStories, failedAt0, start, i)
    ensures Disciplined(trace, epicId, stories, base) && trace0 <= trace && trace != trace0
    ensures visited == visited0 + [i] && steps == steps0 + [step]
    ensures state.currentEpic == epicId && Extends(base, state.completedStories)
    ensures !step.CrashRun? ==> StateIn(disk.files, cwd) == Some(state)
    ensures step.NextStory? || step.RetryStory? ==> Progress(trace, from, start, stories, visited, steps, starts, NextIndex(i, step))
    ensures step.AbortRun? || step.CrashRun? ==> Passes(trace, from, start, stories, visited, steps, starts)
    ensures step.NextStory? || step.RetryStory? ==>
      CoveredUpTo(trace, world, stories, state.completedStories, failedAt, start, NextIndex(i, step))
    ensures step.AbortRun? ==>
      && |trace| > 0 && trace[|trace| - 1] == Saved(state)
      && state.devReviewIteration == MAX_DEV_REVIEW_ITERATIONS
      && world.maxIterationsAction(|trace| - 1).Abort?
  {
    step, state, trace := ProcessStory(disk, world, cwd, epicId, stories, base, i, state0, trace0);
    failedAt := failedAt0;
    if step.AbortRun? || step.CrashRun? {
      PassesAppend(trace0, trace, from, start, stories, visited0, steps0, starts0, i, step);
    } else {
      ProgressStep(trace0, trace, from, start, stories, visited0, steps0, starts0, i, step);
      if step.NextStory? && stories[i].id !in state.completedStories {
        failedAt := failedAt0[i := |trace0| + 1];
        assert FailedLoadAt(trace, world, stories, i, |trace0| + 1);
      }
      CoveredStep(trace0, trace, world, stories, state0.completedStories, state.completedStories, failedAt0, failedAt,
                  start, i, NextIndex(i, step));
    }
    visited, steps, starts := visited0 + [i], steps0 + [step], starts0 + [|trace0|];
  }

  /**
   * The stories from the saved index on. A `continue` answer runs the same
   * index again and uses up one unit of `fuel`, since nothing else bounds
   * how often it is given.
   */
  method StoryLoop(disk: Disk, world: World, cwd: string, epicId: string, stories: seq<EpicStory>,
                   state0: State, trace0: seq<Event>, fuel: nat)
    returns (end: LoopEnd, trace: seq<Event>, ghost visited: seq<nat>, ghost steps: seq<StepEnd>, ghost starts: seq<nat>,
             ghost failedAt: map<nat, nat>)
    modifies disk
    requires state0.currentEpic == epicId
    requires Disciplined(trace0, epicId, stories, state0.completedStories)
    ensures Disciplined(trace, epicId, stories, state0.completedStories) && trace0 <= trace
    ensures Passes(trace, |trace0|, state0.currentStoryIndex, stories, visited, steps, starts)
    ensures trace == trace0 <==> visited == []
    ensures forall k | 0 <= k < |steps| - 1 :: steps[k].NextStory? || steps[k].RetryStory?
    ensures end.Finished? ==>
      && (forall k | 0 <= k < |steps| :: steps[k].NextStory? || steps[k].RetryStory?)
      && (forall j | state0.currentStoryIndex <= j < |stories| :: j in visited)
      && CoveredUpTo(trace, world, stories, end.state.completedStories, failedAt, state0.currentStoryIndex, |stories|)
    ensures end.AbortedRun? ==> |steps| > 0 && steps[|steps| - 1].AbortRun?
    ensures end.CrashedRun? ==> |steps| > 0 && steps[|steps| - 1].CrashRun?
    ensures end.FuelOut? ==> |steps| > 0 && steps[|steps| - 1].RetryStory?
    ensures end.Finished? || end.AbortedRun? ==>
      end.state.currentEpic == epicId && Extends(state0.completedStories, end.state.completedStories)
    ensures end.Finished? ==> (trace == trace0 <==> state0.currentStoryIndex >= |stories|)
    ensures end.Finished? && trace != trace0 ==> StateIn(disk.files, cwd) == Some(end.state)
    ensures end.AbortedRun? ==>
      && StateIn(disk.files, cwd) == Some(end.state)
      && |trace| > 0 && trace[|trace| - 1] == Saved(end.state)
      && end.state.devReviewIteration == MAX_DEV_REVIEW_ITERATIONS
      && world.maxIterationsAction(|trace| - 1).Abort?
  {
    var base := state0.completedStories;
    var state := state0;
    trace := trace0;
    visited, steps, starts, failedAt := [], [], [], map[];
    var i: nat := state0.currentStoryIndex;
    var budget := fuel;
    while i < |stories|
      invariant state.currentEpic == epicId && Extends(base, state.completedStories)
      invariant Disciplined(trace, epicId, stories, base) && trace0 <= trace
      invariant Progress(trace, |trace0|, state0.currentStoryIndex, stories, visited, steps, starts, i)
      invariant trace == trace0 <==> visited == []
      invariant visited != [] ==> StateIn(disk.files, cwd) == Some(state)
      invariant CoveredUpTo(trace, world, stories, state.completedStories, failedAt, state0.currentStoryIndex, i)
      decreases budget, |stories| - i
    {
      var step;
      step, state, trace, visited, steps, starts, failedAt :=
        StoryPass(disk, world, cwd, epicId, stories, base, i, state, trace, |trace0|, state0.currentStoryIndex,
                  visited, steps, starts, failedAt);
      match step
      case NextStory =>
        i := i + 1;
      case RetryStory =>
        if budget == 0 {
          return FuelOut, trace, visited, steps, starts, failedAt;
        }
        budget := budget - 1;
      case AbortRun =>
        return AbortedRun(state), trace, visited, steps, starts, failedAt;
      case CrashRun =>
        return CrashedRun, trace, visited, steps, starts, failedAt;
    }
    if visited != [] {
      assert SavedAt(trace, starts[0], visited[0]);
    }
    end := Finished(state);
  }

  // ---------------------------------------------------------------------------
  // A whole run
  // ---------------------------------------------------------------------------

  /** The sprint-status document and the epics as read after epic resolution. */
  function DocumentAfter(res: Resolution, world: World): Option<SprintStatus> {
    if res.smRan then world.sprintStatusAfterSm else world.sprintStatus
  }

  function EpicsAfter(res: Resolution, world: World): seq<Epic> {
    if res.smRan then world.epicsAfterSm else world.epics
  }

  /**
   * The epic a run works on once epic resolution gave `res`: the resolved
   * id looked up among the epics (or synthesized), with the sprint-status
   * fallback for an empty story list.
   */
  function EpicFor(res: Resolution, world: World): (r: Option<Epic>)
    ensures r.Some? ==> res.chosen.Some? && r.value.id == res.chosen.value.epicId
    ensures r.None? <==>
      || res.chosen.None?
      || ChooseEpic(EpicsAfter(res, world), res.chosen.value.epicId, res.chosen.value.ongoing).None?
  {
    match res.chosen
    case None => None
    case Some(c) =>
      match ChooseEpic(EpicsAfter(res, world), c.epicId, c.ongoing)
      case None => None
      case Some(epic) => Some(WithFallback(epic, AllStoriesForEpicOf(DocumentAfter(res, world), c.epicId)))
  }

  /** Epic lookup and the story fallback as `runOrchestrator` performs them. */
  method FindEpic(world: World, res: Resolution) returns (epic: Option<Epic>)
    ensures epic == EpicFor(res, world)
  {
    if res.chosen.None? {
      return None;
    }
    var chosen := res.chosen.value;
    epic := ChooseEpic(EpicsAfter(res, world), chosen.epicId, chosen.ongoing);
    if epic.None? {
      return;
    }
    if |epic.value.stories| == 0 {
      var allStories := GetAllStoriesForEpic(DocumentAfter(res, world), chosen.epicId);
      epic := Some(WithFallback(epic.value, allStories));
    }
  }

  /**
   * Epic resolution as `runOrchestrator` performs it: the saved state, then
   * `findOngoingWork`, then the SM agent and the selection prompt.
   */
  method ResolveWork(disk: Disk, world: World, cwd: string)
    returns (res: Resolution, trace: seq<Event>)
    requires PickInRange(world)
    ensures res == ResolveEpic(StateIn(disk.files, cwd), world)
    ensures trace == if res.smRan then [SmRun] else []
  {
    var saved := disk.LoadState(cwd);
    var state := saved;
    var selectedEpicId := "";
    var ongoing: seq<StoryRef> := [];
    trace := [];
    if saved.Some? {
      selectedEpicId := saved.value.currentEpic;
    }
    if selectedEpicId == "" {
      var work := FindOngoingWork(world.sprintStatus);
      if work.Some? {
        OngoingEpicNamed(world.sprintStatus);
        selectedEpicId := work.value.epicId;
        ongoing := work.value.stories;
        state := Some(CreateInitialState(selectedEpicId, world.clock(|trace|)));
      }
    }
    if selectedEpicId == "" {
      trace := [SmRun];
      if !world.smOk || |world.epicsAfterSm| == 0 || world.pick.None? {
        return Resolution(true, None), trace;
      }
      selectedEpicId := world.epicsAfterSm[world.pick.value].id;
      state := Some(CreateInitialState(selectedEpicId, world.clock(|trace|)));
      return Resolution(true, Some(Chosen(selectedEpicId, state.value, ongoing))), trace;
    }
    res := Resolution(false, Some(Chosen(selectedEpicId, state.value, ongoing)));
  }

  /**
   * The part of `runOrchestrator` after an epic was found: the story loop,
   * then on completion the removal of the state file, whose failure is
   * ignored.
   */
  method RunEpic(disk: Disk, world: World, cwd: string, epic: Epic, state0: State, trace0: seq<Event>, fuel: nat)
    returns (outcome: Outcome, trace: seq<Event>, ghost visited: seq<nat>, ghost steps: seq<StepEnd>, ghost starts: seq<nat>,
             ghost completed: seq<string>, ghost failedAt: map<nat, nat>)
    modifies disk
    requires state0.currentEpic == epic.id
    requires Disciplined(trace0, epic.id, epic.stories, state0.completedStories)
    ensures Disciplined(trace, epic.id, epic.stories, state0.completedStories) && trace0 <= trace
    ensures Passes(trace, |trace0|, state0.currentStoryIndex, epic.stories, visited, steps, starts)
    ensures |trace| > |trace0| ==> trace[|trace0|].Saved? || trace[|trace0|] == Cleared
    ensures outcome.Exit? ==> outcome.code == 0 || outcome.code == 1
    ensures outcome == Exit(0) ==>
      && (forall j | state0.currentStoryIndex <= j < |epic.stories| :: j in visited)
      && (forall k | 0 <= k < |steps| :: steps[k].NextStory? || steps[k].RetryStory?)
      && |trace| > 0 && trace[|trace| - 1] == Cleared
      && (world.unlinkOk ==> StateIn(disk.files, cwd) == None)
      && Extends(state0.completedStories, completed)
      && CoveredUpTo(trace, world, epic.stories, completed, failedAt, state0.currentStoryIndex, |epic.stories|)
      && (!world.unlinkOk && visited != [] ==>
            StateIn(disk.files, cwd).Some? && StateIn(disk.files, cwd).value.completedStories == completed)
    ensures outcome == Exit(1) ==>
      && |steps| > 0 && (steps[|steps| - 1].AbortRun? || steps[|steps| - 1].CrashRun?)
      && (steps[|steps| - 1].AbortRun? ==>
            |trace| > 0 && trace[|trace| - 1].Saved? && world.maxIterationsAction(|trace| - 1).Abort?)
  {
    var end;
    end, trace, visited, steps, starts, failedAt := StoryLoop(disk, world, cwd, epic.id, epic.stories, state0, trace0, fuel);
    completed := state0.completedStories;
    if visited != [] {
      assert SavedAt(trace, starts[0], visited[0]);
    }
    match end
    case Finished(s) =>
      completed := s.completedStories;
      disk.ClearState(cwd, world.unlinkOk);
      var loopTrace := trace;
      trace := Record(trace, Cleared, epic.id, epic.stories, state0.completedStories);
      PassesExtend(loopTrace, trace, |trace0|, state0.currentStoryIndex, epic.stories, visited, steps, starts);
      CoveredStep(loopTrace, trace, world, epic.stories, completed, completed, failedAt, failedAt,
                  state0.currentStoryIndex, |epic.stories|, |epic.stories|);
      outcome := Exit(0);
    case AbortedRun(_) =>
      outcome := Exit(1);
    case CrashedRun =>
      outcome := Exit(1);
    case FuelOut =>
      outcome := OutOfFuel;
  }

  /**
   * `runOrchestrator`: pre-flight checks, epic resolution, epic lookup with
   * its fallbacks, then the stories of that epic. `epic` is the epic worked
   * on, when one was found.
   */
  method RunOrchestrator(disk: Disk, world: World, cwd: string, fuel: nat)
    returns (outcome: Outcome, trace: seq<Event>, epic: Option<Epic>,
             ghost visited: seq<nat>, ghost steps: seq<StepEnd>, ghost starts: seq<nat>,
             ghost completed: seq<string>, ghost failedAt: map<nat, nat>)
    modifies disk
    requires PickInRange(world)
    ensures !world.claudeInstalled || !world.isBmad ==>
      outcome == Exit(1) && trace == [] && disk.files == old(disk.files)
    ensures world.claudeInstalled && world.isBmad ==>
      && epic == EpicFor(ResolveEpic(StateIn(old(disk.files), cwd), world), world)
      && (|trace| > 0 && trace[0] == SmRun <==> ResolveEpic(StateIn(old(disk.files), cwd), world).smRan)
    ensures epic.None? ==> outcome == Exit(1) && disk.files == old(disk.files)
    ensures epic.Some? ==>
      && ResolveEpic(StateIn(old(disk.files), cwd), world).chosen.Some?
      && Disciplined(trace, epic.value.id, epic.value.stories,
                     ResolveEpic(StateIn(old(disk.files), cwd), world).chosen.value.state.completedStories)
    ensures epic.Some? ==>
      var start := ResolveEpic(StateIn(old(disk.files), cwd), world).chosen.value.state.currentStoryIndex;
      && Passes(trace, if ResolveEpic(StateIn(old(disk.files), cwd), world).smRan then 1 else 0,
                start, epic.value.stories, visited, steps, starts)
      && (outcome == Exit(0) ==> forall j | start <= j < |epic.value.stories| :: j in visited)
      && (outcome == Exit(0) ==> CoveredUpTo(trace, world, epic.value.stories, completed, failedAt, start, |epic.value.stories|))
    ensures outcome == Exit(0) ==>
      && epic.Some? && (world.unlinkOk ==> StateIn(disk.files, cwd) == None)
      && |trace| > 0 && trace[|trace| - 1] == Cleared
  {
    epic := None;
    trace := [];
    visited, steps, starts, completed, failedAt := [], [], [], [], map[];
    if !world.claudeInstalled || !world.isBmad {
      outcome := Exit(1);
      return;
    }

    var res;
    res, trace := ResolveWork(disk, world, cwd);
    epic := FindEpic(world, res);
    if epic.None? {
      outcome := Exit(1);
      return;
    }
    var chosen := res.chosen.value;
    var base := chosen.state.completedStories;
    if trace != [] {
      trace := Record([], SmRun, epic.value.id, epic.value.stories, base);
    }
    outcome, trace, visited, steps, starts, completed, failedAt := RunEpic(disk, world, cwd, epic.value, chosen.state, trace, fuel);
  }
}
