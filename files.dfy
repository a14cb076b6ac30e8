/**
 * The work locator and the markdown readers of src/utils/files.ts.
 *
 * `FindOngoingWork` and `GetAllStoriesForEpic` walk the sprint-status
 * `development_status` entries in order; `ParseEpicFile` and
 * `ParseStoryFile` walk a file line by line, collecting entries inside one
 * level-two section. Each of these loops is a method proved equal to a
 * specification function, and the lemmas below state what those functions
 * mean.
 */
module Files {

  import opened Wrappers
  import opened Strings
  import opened Types
  import opened Patterns

  const STORIES_DIR := "_bmad-output/implementation-artifacts"

  // ---------------------------------------------------------------------------
  // Classifying status entries
  // ---------------------------------------------------------------------------

  /** Keys starting with `epic-` are epic markers; every other key is a story id. */
  predicate IsEpicKey(id: string) {
    StartsWith(id, "epic-")
  }

  /** The statuses `findOngoingWork` treats as actionable. */
  predicate IsActionableStatus(status: string) {
    status == "review" || status == "in-progress" || status == "ready-for-dev"
  }

  predicate IsActionableStory(id: string, status: string) {
    !IsEpicKey(id) && IsActionableStatus(status)
  }

  predicate IsInProgressEpic(id: string, status: string) {
    IsEpicKey(id) && status == "in-progress"
  }

  /** `storyId.split('-')[0]`: the epic number of a story id. */
  function EpicNumber(storyId: string): string {
    Split(storyId, '-')[0]
  }

  /** The entries that `keep` accepts, as `{ id, status }` records, in entry order. */
  function Select(entries: seq<(string, string)>, keep: (string, string) -> bool): (r: seq<StoryRef>)
    ensures |r| <= |entries|
    decreases |entries|
  {
    if |entries| == 0 then []
    else
      var e := entries[|entries| - 1];
      Select(entries[..|entries| - 1], keep) + (if keep(e.0, e.1) then [StoryRef(e.0, e.1)] else [])
  }

  /** A record is selected iff some entry with that key and status is accepted. */
  lemma {:induction false} SelectMembership(entries: seq<(string, string)>, keep: (string, string) -> bool, s: StoryRef)
    ensures s in Select(entries, keep) <==>
      exists k | 0 <= k < |entries| :: entries[k] == (s.id, s.status) && keep(s.id, s.status)
    decreases |entries|
  {
    if |entries| > 0 {
      var init := entries[..|entries| - 1];
      SelectMembership(init, keep, s);
      if exists k | 0 <= k < |init| :: init[k] == (s.id, s.status) && keep(s.id, s.status) {
        var k :| 0 <= k < |init| && init[k] == (s.id, s.status) && keep(s.id, s.status);
        assert entries[k] == init[k];
      }
      if exists k | 0 <= k < |entries| :: entries[k] == (s.id, s.status) && keep(s.id, s.status) {
        var k :| 0 <= k < |entries| && entries[k] == (s.id, s.status) && keep(s.id, s.status);
        if k < |init| { assert init[k] == entries[k]; }
      }
    }
  }

  /** Selection keeps entry order: it distributes over concatenation. */
  lemma {:induction false} SelectAppend(a: seq<(string, string)>, b: seq<(string, string)>, keep: (string, string) -> bool)
    ensures Select(a + b, keep) == Select(a, keep) + Select(b, keep)
    decreases |b|
  {
    if |b| == 0 {
      assert a + b == a;
    } else {
      SelectAppend(a, b[..|b| - 1], keep);
      assert (a + b)[..|a + b| - 1] == a + b[..|b| - 1];
      assert (a + b)[|a + b| - 1] == b[|b| - 1];
    }
  }

  /** The first selected record comes from the first accepted entry, `k`. */
  lemma {:induction false} SelectFirst(entries: seq<(string, string)>, keep: (string, string) -> bool) returns (k: nat)
    requires |Select(entries, keep)| > 0
    ensures k < |entries| && keep(entries[k].0, entries[k].1)
    ensures Select(entries, keep)[0] == StoryRef(entries[k].0, entries[k].1)
    ensures forall j | 0 <= j < k :: !keep(entries[j].0, entries[j].1)
    decreases |entries|
  {
    var init := entries[..|entries| - 1];
    if |Select(init, keep)| > 0 {
      k := SelectFirst(init, keep);
      assert entries[k] == init[k];
      assert forall j | 0 <= j < k :: entries[j] == init[j];
    } else {
      NothingSelected(init, keep);
      assert forall j | 0 <= j < |init| :: entries[j] == init[j];
      k := |entries| - 1;
    }
  }

  /** Nothing is selected iff no entry is accepted. */
  lemma {:induction false} NothingSelected(entries: seq<(string, string)>, keep: (string, string) -> bool)
    ensures Select(entries, keep) == [] <==> forall k | 0 <= k < |entries| :: !keep(entries[k].0, entries[k].1)
    decreases |entries|
  {
    if |entries| > 0 {
      var init := entries[..|entries| - 1];
      NothingSelected(init, keep);
      assert forall k | 0 <= k < |init| :: entries[k] == init[k];
    }
  }

  // ---------------------------------------------------------------------------
  // findOngoingWork
  // ---------------------------------------------------------------------------

  /** The key of the last `epic-*` entry whose status is `in-progress`. */
  function LastInProgressEpic(entries: seq<(string, string)>): (r: Option<string>)
    ensures r.Some? ==> exists k | 0 <= k < |entries| ::
      && entries[k] == (r.value, "in-progress") && IsEpicKey(r.value)
      && forall j | k < j < |entries| :: !IsInProgressEpic(entries[j].0, entries[j].1)
    ensures r.None? <==> forall k | 0 <= k < |entries| :: !IsInProgressEpic(entries[k].0, entries[k].1)
    decreases |entries|
  {
    if |entries| == 0 then None
    else
      var e := entries[|entries| - 1];
      if IsInProgressEpic(e.0, e.1) then Some(e.0)
      else
        var r := LastInProgressEpic(entries[..|entries| - 1]);
        assert forall k | 0 <= k < |entries| - 1 :: entries[..|entries| - 1][k] == entries[k];
        r
  }

  /** What `findOngoingWork` returns for a parsed (or missing) sprint-status document. */
  function OngoingWorkOf(doc: Option<SprintStatus>): Option<OngoingWork> {
    if doc.None? || doc.value.developmentStatus.None? then None
    else
      var entries := doc.value.developmentStatus.value;
      var stories := Select(entries, IsActionableStory);
      var epic := LastInProgressEpic(entries);
      if |stories| == 0 && epic.None? then None
      else if |stories| > 0 then Some(OngoingWork("epic-" + EpicNumber(stories[0].id), stories, FromSprintStatus))
      else Some(OngoingWork(epic.value, [], FromSprintStatus))
  }

  /** `findOngoingWork`: one pass over the entries, then the epic is derived. */
  method FindOngoingWork(doc: Option<SprintStatus>) returns (r: Option<OngoingWork>)
    ensures r == OngoingWorkOf(doc)
  {
    if doc.None? || doc.value.developmentStatus.None? {
      return None;
    }
    var entries := doc.value.developmentStatus.value;
    var inProgressEpicId: Option<string> := None;
    var actionableStories: seq<StoryRef> := [];
    for i := 0 to |entries|
      invariant actionableStories == Select(entries[..i], IsActionableStory)
      invariant inProgressEpicId == LastInProgressEpic(entries[..i])
    {
      assert entries[..i + 1][..i] == entries[..i];
      var (id, status) := entries[i];
      if IsEpicKey(id) {
        if status == "in-progress" {
          inProgressEpicId := Some(id);
        }
      } else if IsActionableStatus(status) {
        actionableStories := actionableStories + [StoryRef(id, status)];
      }
    }
    assert entries[..|entries|] == entries;
    if |actionableStories| == 0 && inProgressEpicId.None? {
      return None;
    }
    var epicId: string;
    if |actionableStories| > 0 {
      var storyId := actionableStories[0].id;
      var epicNum := Split(storyId, '-')[0];
      epicId := "epic-" + epicNum;
    } else {
      epicId := inProgressEpicId.value;
    }
    r := Some(OngoingWork(epicId, actionableStories, FromSprintStatus));
  }

  /**
   * No ongoing work exactly when there is no document, no status mapping, or
   * neither an actionable story nor an in-progress epic marker in it.
   */
  lemma OngoingWorkAbsent(doc: Option<SprintStatus>)
    ensures OngoingWorkOf(doc).None? <==>
      || doc.None? || doc.value.developmentStatus.None?
      || (var m := doc.value.developmentStatus.value;
          && (forall k | 0 <= k < |m| :: !IsActionableStory(m[k].0, m[k].1))
          && (forall k | 0 <= k < |m| :: !IsInProgressEpic(m[k].0, m[k].1)))
  {
    if doc.Some? && doc.value.developmentStatus.Some? {
      NothingSelected(doc.value.developmentStatus.value, IsActionableStory);
    }
  }

  /**
   * The stories found are exactly the non-epic entries whose status is
   * actionable, in entry order; epic markers never appear among them.
   */
  lemma OngoingStories(m: StatusMap, s: StoryRef)
    requires OngoingWorkOf(Some(SprintStatus(Some(m)))).Some?
    ensures var w := OngoingWorkOf(Some(SprintStatus(Some(m)))).value;
      && w.source == FromSprintStatus
      && w.stories == Select(m, IsActionableStory)
      && (s in w.stories <==> exists k | 0 <= k < |m| :: m[k] == (s.id, s.status) && IsActionableStory(s.id, s.status))
      && (s in w.stories ==> !IsEpicKey(s.id) && IsActionableStatus(s.status))
  {
    SelectMembership(m, IsActionableStory, s);
  }

  /**
   * With an actionable story, the epic is `epic-` followed by the part before
   * the first `-` of the FIRST actionable entry; `stories` is not narrowed to that epic.
   */
  lemma OngoingEpicFromFirstStory(m: StatusMap, i: nat)
    requires i < |m| && IsActionableStory(m[i].0, m[i].1)
    ensures exists k | 0 <= k < |m| ::
      && IsActionableStory(m[k].0, m[k].1)
      && (forall j | 0 <= j < k :: !IsActionableStory(m[j].0, m[j].1))
      && OngoingWorkOf(Some(SprintStatus(Some(m)))) ==
           Some(OngoingWork("epic-" + EpicNumber(m[k].0), Select(m, IsActionableStory), FromSprintStatus))
  {
    SelectMembership(m, IsActionableStory, StoryRef(m[i].0, m[i].1));
    var k := SelectFirst(m, IsActionableStory);
    assert OngoingWorkOf(Some(SprintStatus(Some(m)))) ==
      Some(OngoingWork("epic-" + EpicNumber(m[k].0), Select(m, IsActionableStory), FromSprintStatus));
  }

  /**
   * Without an actionable story, the epic is the LAST in-progress epic marker
   * and the story list is empty.
   */
  lemma OngoingEpicFromMarker(m: StatusMap, i: nat)
    requires forall k | 0 <= k < |m| :: !IsActionableStory(m[k].0, m[k].1)
    requires i < |m| && IsInProgressEpic(m[i].0, m[i].1)
    ensures exists k | 0 <= k < |m| ::
      && IsInProgressEpic(m[k].0, m[k].1)
      && (forall j | k < j < |m| :: !IsInProgressEpic(m[j].0, m[j].1))
      && OngoingWorkOf(Some(SprintStatus(Some(m)))) == Some(OngoingWork(m[k].0, [], FromSprintStatus))
  {
    NothingSelected(m, IsActionableStory);
    var e := LastInProgressEpic(m);
    var k :| 0 <= k < |m|
      && m[k] == (e.value, "in-progress") && IsEpicKey(e.value)
      && forall j | k < j < |m| :: !IsInProgressEpic(m[j].0, m[j].1);
    assert OngoingWorkOf(Some(SprintStatus(Some(m)))) == Some(OngoingWork(m[k].0, [], FromSprintStatus));
  }

  /** The text before the first `-`, followed by `-`, starts any id that contains a `-`. */
  lemma {:induction false} EpicNumberPrefix(id: string)
    requires '-' in id
    ensures StartsWith(id, EpicNumber(id) + "-")
    ensures '-' !in EpicNumber(id)
    decreases |id|
  {
    SplitPiecesHaveNoSeparator(id, '-');
    if id[0] != '-' {
      EpicNumberPrefix(id[1..]);
      var rest := Split(id[1..], '-');
      assert EpicNumber(id) == [id[0]] + rest[0];
    } else {
      assert EpicNumber(id) == "";
    }
  }

  // ---------------------------------------------------------------------------
  // getAllStoriesForEpic
  // ---------------------------------------------------------------------------

  /** The entries `getAllStoriesForEpic` keeps for epic number `epicNum`. */
  function BelongsTo(epicNum: string): (string, string) -> bool {
    (id: string, status: string) => !IsEpicKey(id) && StartsWith(id, epicNum + "-")
  }

  /** What `getAllStoriesForEpic` returns. */
  function AllStoriesForEpicOf(doc: Option<SprintStatus>, epicId: string): seq<StoryRef> {
    if doc.None? || doc.value.developmentStatus.None? then []
    else Select(doc.value.developmentStatus.value, BelongsTo(RemoveFirst(epicId, "epic-")))
  }

  /** `getAllStoriesForEpic`: every story entry of the epic, whatever its status. */
  method GetAllStoriesForEpic(doc: Option<SprintStatus>, epicId: string) returns (stories: seq<StoryRef>)
    ensures stories == AllStoriesForEpicOf(doc, epicId)
  {
    if doc.None? || doc.value.developmentStatus.None? {
      return [];
    }
    var entries := doc.value.developmentStatus.value;
    var epicNum := RemoveFirst(epicId, "epic-");
    stories := [];
    for i := 0 to |entries|
      invariant stories == Select(entries[..i], BelongsTo(epicNum))
    {
      assert entries[..i + 1][..i] == entries[..i];
      var (id, status) := entries[i];
      if IsEpicKey(id) {
        continue;
      }
      if StartsWith(id, epicNum + "-") {
        stories := stories + [StoryRef(id, status)];
      }
    }
    assert entries[..|entries|] == entries;
  }

  /**
   * A record is returned iff the mapping has that entry, its key is not an
   * epic marker and it starts with the epic number followed by `-`.
   */
  lemma AllStoriesMembership(m: StatusMap, epicId: string, s: StoryRef)
    ensures var epicNum := RemoveFirst(epicId, "epic-");
      s in AllStoriesForEpicOf(Some(SprintStatus(Some(m))), epicId) <==>
        exists k | 0 <= k < |m| :: m[k] == (s.id, s.status) && !IsEpicKey(s.id) && StartsWith(s.id, epicNum + "-")
  {
    SelectMembership(m, BelongsTo(RemoveFirst(epicId, "epic-")), s);
  }

  /**
   * For `epic-<n>` the epic number is `n`; every actionable story of that
   * epic is among the epic's full story list (the fallback list used when an
   * epic file has no parseable stories).
   */
  lemma ActionableStoriesAreEpicStories(m: StatusMap, n: string, s: StoryRef)
    requires s in Select(m, IsActionableStory) && StartsWith(s.id, n + "-")
    ensures RemoveFirst("epic-" + n, "epic-") == n
    ensures s in AllStoriesForEpicOf(Some(SprintStatus(Some(m))), "epic-" + n)
  {
    assert StartsWith("epic-" + n, "epic-");
    assert ("epic-" + n)[5..] == n;
    SelectMembership(m, IsActionableStory, s);
    AllStoriesMembership(m, "epic-" + n, s);
  }

  /** The first actionable story belongs to the epic `findOngoingWork` picks, when its id has a `-`. */
  lemma FirstStoryInChosenEpic(m: StatusMap)
    requires OngoingWorkOf(Some(SprintStatus(Some(m)))).Some?
    requires var w := OngoingWorkOf(Some(SprintStatus(Some(m)))).value; |w.stories| > 0 && '-' in w.stories[0].id
    ensures var w := OngoingWorkOf(Some(SprintStatus(Some(m)))).value;
      w.stories[0] in AllStoriesForEpicOf(Some(SprintStatus(Some(m))), w.epicId)
  {
    var w := OngoingWorkOf(Some(SprintStatus(Some(m)))).value;
    EpicNumberPrefix(w.stories[0].id);
    ActionableStoriesAreEpicStories(m, EpicNumber(w.stories[0].id), w.stories[0]);
  }

  // ---------------------------------------------------------------------------
  // Section scanning (parseEpicFile / parseStoryFile)
  // ---------------------------------------------------------------------------

  /** The scanner's state after some lines: inside the section or not, and the items so far. */
  datatype Section<T> = Section(inside: bool, items: seq<T>)

  /** The items `entry` yields for one line. */
  function ItemsOf<T>(e: Option<T>): seq<T> {
    match e
    case Some(x) => [x]
    case None => []
  }

  /**
   * The line-by-line section scanner: a line satisfying `opens` enters the
   * section; inside it, a level-two heading that does not satisfy `mentions`
   * leaves it; any other line inside contributes what `entry` captures.
   */
  function ScanSection<T>(lines: seq<string>, opens: string -> bool, mentions: string -> bool,
                          entry: string -> Option<T>): Section<T>
    decreases |lines|
  {
    if |lines| == 0 then Section(false, [])
    else NextSection(ScanSection(lines[..|lines| - 1], opens, mentions, entry), lines[|lines| - 1], opens, mentions, entry)
  }

  /** The scanner's step over one line. */
  function NextSection<T>(prev: Section<T>, line: string, opens: string -> bool, mentions: string -> bool,
                          entry: string -> Option<T>): Section<T>
  {
    if opens(line) then Section(true, prev.items)
    else if prev.inside && IsH2(line) && !mentions(line) then Section(false, prev.items)
    else if prev.inside then Section(true, prev.items + ItemsOf(entry(line)))
    else prev
  }

  /** Without an opening heading nothing is collected. */
  lemma {:induction false} NoSectionNoItems<T>(lines: seq<string>, opens: string -> bool, mentions: string -> bool,
                                               entry: string -> Option<T>)
    requires forall k | 0 <= k < |lines| :: !opens(lines[k])
    ensures ScanSection(lines, opens, mentions, entry) == Section(false, [])
    decreases |lines|
  {
    if |lines| > 0 {
      NoSectionNoItems(lines[..|lines| - 1], opens, mentions, entry);
    }
  }

  /** What the scanner collected from a prefix of the lines is a prefix of what it collects in all. */
  lemma {:induction false} ScanPrefix<T>(lines: seq<string>, k: nat, opens: string -> bool, mentions: string -> bool,
                                         entry: string -> Option<T>)
    requires k <= |lines|
    ensures ScanSection(lines[..k], opens, mentions, entry).items <= ScanSection(lines, opens, mentions, entry).items
    decreases |lines| - k
  {
    if k < |lines| {
      ScanPrefix(lines, k + 1, opens, mentions, entry);
      assert lines[..k + 1][..k] == lines[..k];
    } else {
      assert lines[..k] == lines;
    }
  }

  /**
   * Every collected item was captured from a line that lies inside the
   * section: the scanner was inside before it, and it neither opens nor
   * closes the section.
   */
  lemma {:induction false} ItemsComeFromSection<T>(lines: seq<string>, opens: string -> bool, mentions: string -> bool,
                                                   entry: string -> Option<T>, i: nat)
    requires i < |ScanSection(lines, opens, mentions, entry).items|
    ensures exists k | 0 <= k < |lines| ::
      && ScanSection(lines[..k], opens, mentions, entry).inside
      && !opens(lines[k]) && !(IsH2(lines[k]) && !mentions(lines[k]))
      && entry(lines[k]) == Some(ScanSection(lines, opens, mentions, entry).items[i])
    decreases |lines|
  {
    var init := lines[..|lines| - 1];
    var prev := ScanSection(init, opens, mentions, entry);
    var line := lines[|lines| - 1];
    NextSectionItems(prev, line, opens, mentions, entry);
    if i < |prev.items| {
      ItemsComeFromSection(init, opens, mentions, entry, i);
      var k :| 0 <= k < |init|
        && ScanSection(init[..k], opens, mentions, entry).inside
        && !opens(init[k]) && !(IsH2(init[k]) && !mentions(init[k]))
        && entry(init[k]) == Some(prev.items[i]);
      assert init[..k] == lines[..k];
      assert init[k] == lines[k];
    } else {
      var k := |lines| - 1;
      assert lines[..k] == init && lines[k] == line;
      assert entry(lines[k]) == Some(ScanSection(lines, opens, mentions, entry).items[i]);
    }
  }

  /** A step keeps the items it had and adds at most the one the line captures, and only from inside the section. */
  lemma NextSectionItems<T>(prev: Section<T>, line: string, opens: string -> bool, mentions: string -> bool,
                            entry: string -> Option<T>)
    ensures var next := NextSection(prev, line, opens, mentions, entry);
      next.items == if prev.inside && !opens(line) && !(IsH2(line) && !mentions(line)) then prev.items + ItemsOf(entry(line)) else prev.items
  {
  }

  // ---------------------------------------------------------------------------
  // parseEpicFile
  // ---------------------------------------------------------------------------

  /** `/^##\s+.*stories/i` */
  predicate OpensStories(line: string) {
    IsHeadingMentioning(line, ["stories"])
  }

  /** `/stories/i` */
  predicate MentionsStories(line: string) {
    MentionsIgnoreCase(line, ["stories"])
  }

  /**
   * The story one line of the stories section lists: a checkbox entry (status
   * `done` only for a lower-case `x`), else a `- id: title` entry, else a
   * numbered `1. id: title` entry; the last two carry no status.
   */
  function StoryEntry(line: string): (r: Option<EpicStory>)
    ensures r.Some? ==> IsStoryIdShape(r.value.id)
    ensures r.Some? && r.value.status == Some("done") <==> EpicCheckbox(line).Some? && EpicCheckbox(line).value.0 == 'x'
    ensures r.Some? && r.value.status == Some("pending") <==> EpicCheckbox(line).Some? && EpicCheckbox(line).value.0 != 'x'
    ensures EpicCheckbox(line).None? ==> r.None? || r.value.status.None?
  {
    match EpicCheckbox(line)
    case Some(c) => Some(EpicStory(c.1, c.2, Some(if c.0 == 'x' then "done" else "pending")))
    case None =>
      match SimpleEntry(line)
      case Some(g) => Some(EpicStory(g.0, g.1, None))
      case None =>
        match NumberedEntry(line)
        case Some(g) => Some(EpicStory(g.0, g.1, None))
        case None => None
  }

  /** The index of the leftmost `epic-` from which `/epic-([^/]+)\.md$/` matches. */
  function EpicMatchFrom(path: string, i: nat): (r: Option<nat>)
    requires EndsWith(path, ".md")
    ensures r.Some? ==>
      && i <= r.value && r.value + 5 < |path| - 3 && OccursAt(path, r.value, "epic-")
      && '/' !in path[r.value + 5..|path| - 3]
    decreases |path| - i
  {
    if i + 5 >= |path| - 3 then None
    else if OccursAt(path, i, "epic-") && '/' !in path[i + 5..|path| - 3] then Some(i)
    else EpicMatchFrom(path, i + 1)
  }

  /** The id `parseEpicFile` takes from the path: the capture of `/epic-([^/]+)\.md$/`, else `unknown`. */
  function EpicIdFromPath(path: string): (r: string)
    ensures r == "unknown" || (|r| > 0 && '/' !in r && EndsWith(path, "epic-" + r + ".md"))
  {
    if !EndsWith(path, ".md") then "unknown"
    else
      match EpicMatchFrom(path, 0)
      case None => "unknown"
      case Some(i) =>
        var r := path[i + 5..|path| - 3];
        assert path[|path| - |"epic-" + r + ".md"|..] == path[i..i + 5] + r + path[|path| - 3..];
        r
  }

  lemma {:induction false} EpicMatchSkips(path: string, i: nat, start: nat)
    requires EndsWith(path, ".md") && i <= start
    requires forall j | i <= j < start :: !(j + 5 < |path| - 3 && OccursAt(path, j, "epic-") && '/' !in path[j + 5..|path| - 3])
    ensures start + 5 < |path| - 3 ==> EpicMatchFrom(path, i) == EpicMatchFrom(path, start)
    decreases start - i
  {
    if i < start && start + 5 < |path| - 3 {
      EpicMatchSkips(path, i + 1, start);
    }
  }

  /** For a file `epic-<name>.md` in a directory, the id is `<name>`. */
  lemma EpicIdOfEpicFile(dir: string, name: string)
    requires |name| > 0 && '/' !in name
    ensures EpicIdFromPath(JoinPath(dir, "epic-" + name + ".md")) == name
  {
    var file := "epic-" + name + ".md";
    var path := JoinPath(dir, file);
    var start := |path| - |file|;
    assert path[start..] == file;
    assert start > 0 ==> path[start - 1] == '/';
    EpicIdAt(path, start, name);
  }

  /** A path whose last component is `epic-<name>.md` has the id `<name>`. */
  lemma EpicIdAt(path: string, start: nat, name: string)
    requires |name| > 0 && '/' !in name
    requires start <= |path| && path[start..] == "epic-" + name + ".md"
    requires start > 0 ==> path[start - 1] == '/'
    ensures EpicIdFromPath(path) == name
  {
    var file := "epic-" + name + ".md";
    assert EndsWith(path, ".md") by { assert path[|path| - 3..] == file[|file| - 3..]; }
    assert OccursAt(path, start, "epic-") by { assert path[start..start + 5] == file[..5]; }
    assert path[start + 5..|path| - 3] == name;
    NoEarlierEpic(path, start);
    EpicMatchSkips(path, 0, start);
  }

  /** No `epic-` before the last path component can start the match: a `/` follows it. */
  lemma NoEarlierEpic(path: string, start: nat)
    requires start + 5 < |path| - 3
    requires start > 0 ==> path[start - 1] == '/'
    ensures forall j | 0 <= j < start :: !(j + 5 < |path| - 3 && OccursAt(path, j, "epic-") && '/' !in path[j + 5..|path| - 3])
  {
    forall j | 0 <= j < start
      ensures !(j + 5 < |path| - 3 && OccursAt(path, j, "epic-") && '/' !in path[j + 5..|path| - 3])
    {
      if j + 5 < |path| - 3 && OccursAt(path, j, "epic-") {
        if j + 5 <= start - 1 {
          assert path[j + 5..|path| - 3][start - 1 - (j + 5)] == '/';
        }
      }
    }
  }

  /** `parseEpicFile`: the id from the path, the first H1 as title, and the stories section's entries. */
  method ParseEpicFile(content: string, filePath: string) returns (epic: Epic)
    ensures var lines := Split(content, '\n');
      && epic.id == EpicIdFromPath(filePath)
      && epic.title == TitleOf(lines, "Epic " + epic.id)
      && epic.stories == ScanSection(lines, OpensStories, MentionsStories, StoryEntry).items
      && epic.filePath == filePath
  {
    var lines := Split(content, '\n');
    var id := EpicIdFromPath(filePath);
    var title := TitleOf(lines, "Epic " + id);
    var stories: seq<EpicStory> := [];
    var inStoriesSection := false;
    for k := 0 to |lines|
      invariant Section(inStoriesSection, stories) == ScanSection(lines[..k], OpensStories, MentionsStories, StoryEntry)
    {
      assert lines[..k + 1][..k] == lines[..k];
      inStoriesSection, stories := ScanStoryLine(inStoriesSection, stories, lines[k]);
    }
    assert lines[..|lines|] == lines;
    epic := Epic(id, title, stories, filePath);
  }

  /** One pass of `parseEpicFile`'s loop: the stories heading enters the section, another H2 leaves it. */
  method ScanStoryLine(inside: bool, stories: seq<EpicStory>, line: string) returns (insideAfter: bool, storiesAfter: seq<EpicStory>)
    ensures Section(insideAfter, storiesAfter) == NextSection(Section(inside, stories), line, OpensStories, MentionsStories, StoryEntry)
  {
    if OpensStories(line) {
      return true, stories;
    }
    if inside && IsH2(line) && !MentionsStories(line) {
      return false, stories;
    }
    if inside {
      var story := MatchStoryLine(line);
      return true, stories + ItemsOf(story);
    }
    return inside, stories;
  }

  /** The three patterns `parseEpicFile` tries, in order, on a line of the stories section. */
  method MatchStoryLine(line: string) returns (story: Option<EpicStory>)
    ensures story == StoryEntry(line)
  {
    var checkboxMatch := EpicCheckbox(line);
    if checkboxMatch.Some? {
      var c := checkboxMatch.value;
      return Some(EpicStory(c.1, c.2, Some(if c.0 == 'x' then "done" else "pending")));
    }
    var simpleMatch := SimpleEntry(line);
    if simpleMatch.Some? {
      return Some(EpicStory(simpleMatch.value.0, simpleMatch.value.1, None));
    }
    var numberedMatch := NumberedEntry(line);
    if numberedMatch.Some? {
      return Some(EpicStory(numberedMatch.value.0, numberedMatch.value.1, None));
    }
    return None;
  }

  // ---------------------------------------------------------------------------
  // parseStoryFile, loadStory, storyFileExists, areAllAcceptanceCriteriaDone
  // ---------------------------------------------------------------------------

  /** `/^##\s+.*acceptance.*criteria/i` */
  predicate OpensCriteria(line: string) {
    IsHeadingMentioning(line, ["acceptance", "criteria"])
  }

  /** `/acceptance.*criteria/i` */
  predicate MentionsCriteria(line: string) {
    MentionsIgnoreCase(line, ["acceptance", "criteria"])
  }

  /** The criterion a checkbox line of the section lists; done iff the box holds `x`. */
  function CriterionEntry(line: string): (r: Option<AcceptanceCriterion>)
    ensures r.Some? <==> CriterionCheckbox(line).Some?
    ensures r.Some? ==> (r.value.done <==> CriterionCheckbox(line).value.0 == 'x')
  {
    match CriterionCheckbox(line)
    case Some(c) => Some(AcceptanceCriterion(c.1, c.0 == 'x'))
    case None => None
  }

  /** `parseStoryFile`: the first H1 as title and the acceptance-criteria section's checkboxes. */
  method ParseStoryFile(content: string, storyId: string, filePath: string) returns (story: Story)
    ensures var lines := Split(content, '\n');
      && story.id == storyId
      && story.title == TitleOf(lines, "Story " + storyId)
      && story.acceptanceCriteria == ScanSection(lines, OpensCriteria, MentionsCriteria, CriterionEntry).items
      && story.filePath == filePath
  {
    var lines := Split(content, '\n');
    var title := TitleOf(lines, "Story " + storyId);
    var acceptanceCriteria: seq<AcceptanceCriterion> := [];
    var inACSection := false;
    for k := 0 to |lines|
      invariant Section(inACSection, acceptanceCriteria) == ScanSection(lines[..k], OpensCriteria, MentionsCriteria, CriterionEntry)
    {
      assert lines[..k + 1][..k] == lines[..k];
      inACSection, acceptanceCriteria := ScanCriterionLine(inACSection, acceptanceCriteria, lines[k]);
    }
    assert lines[..|lines|] == lines;
    story := Story(storyId, title, acceptanceCriteria, filePath);
  }

  /** One pass of `parseStoryFile`'s loop: the criteria heading enters the section, another H2 leaves it. */
  method ScanCriterionLine(inside: bool, criteria: seq<AcceptanceCriterion>, line: string)
    returns (insideAfter: bool, criteriaAfter: seq<AcceptanceCriterion>)
    ensures Section(insideAfter, criteriaAfter) == NextSection(Section(inside, criteria), line, OpensCriteria, MentionsCriteria, CriterionEntry)
  {
    if OpensCriteria(line) {
      return true, criteria;
    }
    if inside && IsH2(line) && !MentionsCriteria(line) {
      return false, criteria;
    }
    if inside {
      var criterion := MatchCriterionLine(line);
      return true, criteria + ItemsOf(criterion);
    }
    return inside, criteria;
  }

  /** The checkbox pattern `parseStoryFile` tries on a line of the acceptance criteria section. */
  method MatchCriterionLine(line: string) returns (criterion: Option<AcceptanceCriterion>)
    ensures criterion == CriterionEntry(line)
  {
    var checkboxMatch := CriterionCheckbox(line);
    if checkboxMatch.Some? {
      return Some(AcceptanceCriterion(checkboxMatch.value.1, checkboxMatch.value.0 == 'x'));
    }
    return None;
  }

  /** `areAllAcceptanceCriteriaDone`: false for no criteria, else whether every one is done. */
  function AllCriteriaDone(criteria: seq<AcceptanceCriterion>): (r: bool)
    ensures r <==> |criteria| > 0 && forall i | 0 <= i < |criteria| :: criteria[i].done
  {
    if |criteria| == 0 then false
    else criteria[0].done && (|criteria| == 1 || AllCriteriaDone(criteria[1..]))
  }

  function AreAllAcceptanceCriteriaDone(story: Story): (r: bool)
    ensures r <==> |story.acceptanceCriteria| > 0 && forall i | 0 <= i < |story.acceptanceCriteria| :: story.acceptanceCriteria[i].done
  {
    AllCriteriaDone(story.acceptanceCriteria)
  }

  /** A directory entry is the story's file: its lower-cased name contains the lower-cased id and it ends in `.md`. */
  predicate StoryFileMatches(fileName: string, storyId: string) {
    Contains(ToLower(fileName), ToLower(storyId)) && EndsWith(fileName, ".md")
  }

  /** `files.find(...)`: the index of the first matching entry. */
  function FindStoryFile(files: seq<string>, storyId: string, k: nat): (r: Option<nat>)
    requires k <= |files|
    ensures r.Some? ==>
      && k <= r.value < |files| && StoryFileMatches(files[r.value], storyId)
      && forall j | k <= j < r.value :: !StoryFileMatches(files[j], storyId)
    ensures r.None? ==> forall j | k <= j < |files| :: !StoryFileMatches(files[j], storyId)
    decreases |files| - k
  {
    if k == |files| then None
    else if StoryFileMatches(files[k], storyId) then Some(k)
    else FindStoryFile(files, storyId, k + 1)
  }

  /** `storyFileExists`: false when the directory cannot be listed. */
  predicate StoryFileExists(listing: Option<seq<string>>, storyId: string) {
    listing.Some? && exists f | f in listing.value :: StoryFileMatches(f, storyId)
  }

  /**
   * The file `loadStory` reads for `storyId`: the first file of the listing
   * that matches the id, when it can be read; none when the directory
   * cannot be listed, no file matches, or that file cannot be read.
   */
  function StoryFileName(listing: Option<seq<string>>, contents: map<string, string>, storyId: string): (r: Option<string>)
    ensures r.Some? ==> listing.Some? && r.value in listing.value && r.value in contents && StoryFileMatches(r.value, storyId)
  {
    if listing.None? then None
    else
      match FindStoryFile(listing.value, storyId, 0)
      case None => None
      case Some(k) => if listing.value[k] in contents then Some(listing.value[k]) else None
  }

  /** A story file that exists is the one read whenever every listed file is readable. */
  lemma StoryFileNameExists(listing: Option<seq<string>>, contents: map<string, string>, storyId: string)
    ensures StoryFileName(listing, contents, storyId).Some? ==> StoryFileExists(listing, storyId)
    ensures StoryFileExists(listing, storyId) && (forall f | f in listing.value :: f in contents) ==>
      StoryFileName(listing, contents, storyId).Some?
  {
    if listing.Some? {
      StoryFileExistsIffFound(listing.value, storyId);
      var r := FindStoryFile(listing.value, storyId, 0);
      if r.Some? {
        assert listing.value[r.value] in listing.value;
      }
    }
  }

  /** The story `loadStory` gives: the file `StoryFileName` names, parsed. */
  function StoryFrom(listing: Option<seq<string>>, contents: map<string, string>, cwd: string, storyId: string): (r: Option<Story>)
    ensures r.Some? <==> StoryFileName(listing, contents, storyId).Some?
    ensures r.Some? ==>
      && r.value.id == storyId
      && r.value.filePath == JoinPath(JoinPath(cwd, STORIES_DIR), StoryFileName(listing, contents, storyId).value)
  {
    match StoryFileName(listing, contents, storyId)
    case None => None
    case Some(name) =>
      var lines := Split(contents[name], '\n');
      Some(Story(storyId, TitleOf(lines, "Story " + storyId),
                 ScanSection(lines, OpensCriteria, MentionsCriteria, CriterionEntry).items,
                 JoinPath(JoinPath(cwd, STORIES_DIR), name)))
  }

  /**
   * `loadStory`: the first matching file of the stories directory, parsed;
   * `None` when the directory cannot be listed, no file matches, or the file
   * cannot be read. `contents` maps the directory's readable file names to their text.
   */
  method LoadStory(listing: Option<seq<string>>, contents: map<string, string>, cwd: string, storyId: string)
    returns (story: Option<Story>)
    ensures story == StoryFrom(listing, contents, cwd, storyId)
    ensures story.Some? ==> StoryFileExists(listing, storyId)
    ensures story.Some? <==>
      && listing.Some? && FindStoryFile(listing.value, storyId, 0).Some?
      && listing.value[FindStoryFile(listing.value, storyId, 0).value] in contents
    ensures story.Some? ==>
      var name := listing.value[FindStoryFile(listing.value, storyId, 0).value];
      && story.value.id == storyId
      && story.value.filePath == JoinPath(JoinPath(cwd, STORIES_DIR), name)
      && story.value.acceptanceCriteria
           == ScanSection(Split(contents[name], '\n'), OpensCriteria, MentionsCriteria, CriterionEntry).items
  {
    if listing.None? {
      return None;
    }
    var found := FindStoryFile(listing.value, storyId, 0);
    if found.None? {
      return None;
    }
    var name := listing.value[found.value];
    if name !in contents {
      return None;
    }
    var s := ParseStoryFile(contents[name], storyId, JoinPath(JoinPath(cwd, STORIES_DIR), name));
    story := Some(s);
  }

  /** `storyFileExists` and `loadStory` look for the same file. */
  lemma StoryFileExistsIffFound(files: seq<string>, storyId: string)
    ensures StoryFileExists(Some(files), storyId) <==> FindStoryFile(files, storyId, 0).Some?
  {
    var r := FindStoryFile(files, storyId, 0);
    if r.Some? {
      assert files[r.value] in files;
    }
  }
}
