/**
 * The records shared by the orchestrator and its helpers (src/types.ts).
 * Optional fields that nothing in the core reads (`description`, the
 * sprint-status metadata) are not part of these records.
 */
module Types {

  import opened Wrappers
  import opened Strings

  /** No key of the status mapping occurs twice (a YAML mapping with a repeated key does not parse). */
  predicate DistinctKeys(m: seq<(string, string)>) {
    forall i, j | 0 <= i < j < |m| :: m[i].0 != m[j].0
  }

  /**
   * `development_status`: key and status pairs in the order `Object.entries`
   * yields them. A key is an epic marker (`epic-<n>`) or a story id (`<n>-<m>-<slug>`).
   */
  type StatusMap = m: seq<(string, string)> | DistinctKeys(m) witness []

  /** The parsed sprint-status document; only `development_status` is read by the core. */
  datatype SprintStatus = SprintStatus(developmentStatus: Option<StatusMap>)

  /** The `{ id, status }` pairs that the work locator returns. */
  datatype StoryRef = StoryRef(id: string, status: string)

  datatype WorkSource = FromState | FromSprintStatus

  /** Work found in the sprint-status document: an epic and its actionable stories. */
  datatype OngoingWork = OngoingWork(epicId: string, stories: seq<StoryRef>, source: WorkSource)

  /** A story as listed in an epic file; `status` is set only for checkbox entries. */
  datatype EpicStory = EpicStory(id: string, title: string, status: Option<string>)

  datatype Epic = Epic(id: string, title: string, stories: seq<EpicStory>, filePath: string)

  datatype AcceptanceCriterion = AcceptanceCriterion(text: string, done: bool)

  /** A story file's content: its title and acceptance criteria. */
  datatype Story = Story(id: string, title: string, acceptanceCriteria: seq<AcceptanceCriterion>, filePath: string)

  /** The session state persisted between runs. */
  datatype State = State(
    currentEpic: string,
    currentStoryIndex: nat,
    devReviewIteration: nat,
    completedStories: seq<string>,
    lastUpdated: string)

  /** The command-line options; `maxIterations` is absent unless given validly. */
  datatype CliArgs = CliArgs(resume: bool, help: bool, verbose: bool, maxIterations: Option<int>, yolo: bool)

  /** `path.join(dir, name)` for a name without separators (no `.`/`..` normalisation). */
  function JoinPath(dir: string, name: string): (r: string)
    ensures EndsWith(r, name)
  {
    if dir == "" then name
    else if EndsWith(dir, "/") then dir + name
    else dir + "/" + name
  }
}
