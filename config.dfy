/**
 * The persisted session state (src/config.ts): one JSON file in the working
 * directory, read back on resume, rewritten after every step and removed
 * when an epic is finished. The file system is a map from paths to what the
 * file holds; the clock is a parameter.
 */
module Config {

  import opened Wrappers
  import opened Strings
  import opened Types

  const STATE_FILE := ".johnny-bmad-state.json"

  /** What a file holds, as far as `JSON.parse` is concerned. */
  datatype Content = StateDocument(state: State) | Unparseable(text: string)

  /** `getStateFilePath`. */
  function StateFilePath(cwd: string): (r: string)
    ensures EndsWith(r, STATE_FILE)
  {
    JoinPath(cwd, STATE_FILE)
  }

  /** `createInitialState`: the epic, at its first story, with nothing completed. */
  function CreateInitialState(epicId: string, now: string): (r: State)
    ensures r.currentEpic == epicId && r.currentStoryIndex == 0 && r.devReviewIteration == 0
    ensures r.completedStories == [] && r.lastUpdated == now
  {
    State(epicId, 0, 0, [], now)
  }

  /** `loadState`: the saved state, or `None` when the file is missing or does not parse. */
  function StateIn(files: map<string, Content>, cwd: string): (r: Option<State>)
    ensures r.Some? <==> StateFilePath(cwd) in files && files[StateFilePath(cwd)].StateDocument?
  {
    var path := StateFilePath(cwd);
    if path in files && files[path].StateDocument? then Some(files[path].state) else None
  }

  /** The files of the working directory that the session state lives in. */
  class Disk {
    var files: map<string, Content>

    constructor(initial: map<string, Content>)
      ensures files == initial
    {
      files := initial;
    }

    /** `loadState`. */
    method LoadState(cwd: string) returns (state: Option<State>)
      ensures state == StateIn(files, cwd)
    {
      var path := StateFilePath(cwd);
      if path !in files {
        return None;
      }
      match files[path]
      case StateDocument(s) => state := Some(s);
      case Unparseable(_) => state := None;
    }

    /**
     * `saveState`: stamps the state with the time and writes it; the caller's
     * state object is updated in place, so the stamped state is returned.
     */
    method SaveState(cwd: string, state: State, now: string) returns (saved: State)
      modifies this
      ensures saved == state.(lastUpdated := now)
      ensures files == old(files)[StateFilePath(cwd) := StateDocument(saved)]
      ensures StateIn(files, cwd) == Some(saved)
    {
      saved := state.(lastUpdated := now);
      files := files[StateFilePath(cwd) := StateDocument(saved)];
    }

    /**
     * `clearState`: removes the file. `unlinkOk` is whether `unlink` succeeds;
     * its failure, for a missing file or any other reason, is ignored, and
     * the file then stays as it was.
     */
    method ClearState(cwd: string, unlinkOk: bool)
      modifies this
      ensures files == if unlinkOk then old(files) - {StateFilePath(cwd)} else old(files)
      ensures unlinkOk ==> StateIn(files, cwd) == None
      ensures !unlinkOk ==> StateIn(files, cwd) == StateIn(old(files), cwd)
    {
      if unlinkOk {
        files := files - {StateFilePath(cwd)};
      }
    }
  }
}
