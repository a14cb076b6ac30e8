/**
 * The review agent's result handling (src/agents/reviewer.ts): the captured
 * standard output, the per-chunk echo in verbose mode, and the pass/fail
 * decision taken when the process closes. Spawning the process is not
 * modelled; how it ended, what the status document held afterwards and the
 * chunks it printed are inputs.
 */
module Reviewer {

  import opened Wrappers
  import opened Strings
  import opened Types
  import opened StreamWrapper

  const REVIEW_PREFIX := "[Review] "
  const PASS_MARKER := "REVIEW_PASSED"

  /** How the process ended: `close` with its exit code (`None` for a signal), or an `error` event. */
  datatype ProcessEnd = Closed(code: Option<int>) | SpawnError

  /** Re-reading the status document: it could not be read or parsed, or it parsed to this value. */
  datatype StatusRead = ReadFailed | Parsed(doc: Option<SprintStatus>)

  datatype ReviewResult = ReviewResult(passed: bool, output: string, durationMs: int)

  /** The promise `runReviewAgent` returns: resolved with a result, or rejected. */
  datatype ReviewOutcome = Resolved(result: ReviewResult) | Rejected

  /** `development_status[storyId]`. */
  function StatusOf(m: seq<(string, string)>, storyId: string): (r: Option<string>)
    ensures r.Some? ==> (storyId, r.value) in m
    ensures r.None? <==> forall k | 0 <= k < |m| :: m[k].0 != storyId
    decreases |m|
  {
    if |m| == 0 then None
    else if m[0].0 == storyId then Some(m[0].1)
    else
      var r := StatusOf(m[1..], storyId);
      assert forall k | 1 <= k < |m| :: m[k] == m[1..][k - 1];
      r
  }

  /** `status?.development_status?.[storyId]`. */
  function RecordedStatus(doc: Option<SprintStatus>, storyId: string): Option<string> {
    if doc.None? || doc.value.developmentStatus.None? then None
    else StatusOf(doc.value.developmentStatus.value, storyId)
  }

  /** The `close` and `error` handlers: the outcome of one review run. */
  function ClassifyReview(end: ProcessEnd, read: StatusRead, storyId: string, output: string, durationMs: int): (r: ReviewOutcome)
    ensures r.Resolved? <==> end == Closed(Some(0))
    ensures r.Resolved? ==> r.result.output == output && r.result.durationMs == durationMs
    ensures r.Resolved? && read.Parsed? ==> (r.result.passed <==> RecordedStatus(read.doc, storyId) == Some("done"))
    ensures r.Resolved? && read.ReadFailed? ==> (r.result.passed <==> Contains(output, PASS_MARKER))
  {
    match end
    case SpawnError => Rejected
    case Closed(code) =>
      if code != Some(0) then Rejected
      else
        match read
        case Parsed(doc) => Resolved(ReviewResult(RecordedStatus(doc, storyId) == Some("done"), output, durationMs))
        case ReadFailed => Resolved(ReviewResult(Contains(output, PASS_MARKER), output, durationMs))
  }

  /**
   * With a readable status document the output marker is not consulted: two
   * runs that differ only in their output reach the same verdict.
   */
  lemma MarkerIgnoredWhenStatusReadable(doc: Option<SprintStatus>, storyId: string, out1: string, out2: string, d: int)
    ensures ClassifyReview(Closed(Some(0)), Parsed(doc), storyId, out1, d).result.passed
      == ClassifyReview(Closed(Some(0)), Parsed(doc), storyId, out2, d).result.passed
  {
  }

  /** A review passes on a readable document only if the document lists the story as `done`. */
  lemma PassedMeansDone(m: StatusMap, storyId: string, output: string, d: int)
    requires ClassifyReview(Closed(Some(0)), Parsed(Some(SprintStatus(Some(m)))), storyId, output, d).result.passed
    ensures (storyId, "done") in m
    ensures forall k | 0 <= k < |m| && m[k].0 == storyId :: m[k].1 == "done"
  {
    var s := StatusOf(m, storyId);
    assert s == Some("done");
    forall k | 0 <= k < |m| && m[k].0 == storyId
      ensures m[k].1 == "done"
    {
      var j :| 0 <= j < |m| && m[j] == (storyId, "done");
    }
  }

  // ---------------------------------------------------------------------------
  // Capture and verbose echo
  // ---------------------------------------------------------------------------

  /**
   * What one chunk of standard output is echoed as: in verbose mode each
   * complete line with the prefix and a newline, then a non-empty trailing
   * fragment with the prefix only; otherwise the chunk unchanged.
   */
  function Echo(verbose: bool, data: string): (r: seq<string>) {
    if !verbose then [data]
    else
      var lines := Split(data, '\n');
      var last := lines[|lines| - 1];
      Labeled(REVIEW_PREFIX, lines[..|lines| - 1]) + (if last != "" then [REVIEW_PREFIX + last] else [])
  }

  /** Each write without its leading `prefix`. */
  function StripPrefix(prefix: string, writes: seq<string>): (r: seq<string>)
    ensures |r| == |writes|
    decreases |writes|
  {
    if |writes| == 0 then []
    else [if StartsWith(writes[0], prefix) then writes[0][|prefix|..] else writes[0]] + StripPrefix(prefix, writes[1..])
  }

  lemma StripLabeled(prefix: string, lines: seq<string>)
    ensures StripPrefix(prefix, Labeled(prefix, lines)) == Terminated(lines, '\n')
    decreases |lines|
  {
    if |lines| > 0 {
      var w := Labeled(prefix, lines);
      assert w[1..] == Labeled(prefix, lines[1..]);
      StripLabeled(prefix, lines[1..]);
      assert w[0][|prefix|..] == lines[0] + "\n";
    }
  }

  lemma StripAppend(prefix: string, a: seq<string>, b: seq<string>)
    ensures StripPrefix(prefix, a + b) == StripPrefix(prefix, a) + StripPrefix(prefix, b)
    decreases |a|
  {
    if |a| > 0 {
      StripAppend(prefix, a[1..], b);
      assert (a + b)[1..] == a[1..] + b;
    } else {
      assert a + b == b;
    }
  }

  /**
   * In verbose mode every echoed write starts with the prefix, and with the
   * prefixes removed the writes concatenate to exactly the (decoded) chunk:
   * nothing is lost, added or held back between chunks.
   */
  lemma EchoConservesChunk(data: string)
    ensures forall k | 0 <= k < |Echo(true, data)| :: StartsWith(Echo(true, data)[k], REVIEW_PREFIX)
    ensures Concat(StripPrefix(REVIEW_PREFIX, Echo(true, data))) == data
  {
    var lines := Split(data, '\n');
    var init := lines[..|lines| - 1];
    var last := lines[|lines| - 1];
    var tail := if last != "" then [REVIEW_PREFIX + last] else [];
    JoinSplit(data, '\n');
    JoinAsTerminated(lines, '\n');
    StripLabeled(REVIEW_PREFIX, init);
    StripAppend(REVIEW_PREFIX, Labeled(REVIEW_PREFIX, init), tail);
    ConcatAppend(Terminated(init, '\n'), StripPrefix(REVIEW_PREFIX, tail));
    if last != "" {
      assert StripPrefix(REVIEW_PREFIX, tail) == [last];
      assert Concat([last]) == last;
    }
  }

  /** The `data` and `close` handlers of one review run, with standard output reduced to its writes. */
  class ReviewCapture {
    const verbose: bool
    /** The chunks received, in arrival order. */
    var chunks: seq<string>
    /** What was written to standard output. */
    var echoed: seq<string>

    constructor(verbose: bool)
      ensures this.verbose == verbose && chunks == [] && echoed == []
    {
      this.verbose := verbose;
      chunks := [];
      echoed := [];
    }

    /** The `data` handler: keep the chunk, and echo it. */
    method OnData(data: string)
      modifies this
      ensures chunks == old(chunks) + [data]
      ensures echoed == old(echoed) + Echo(verbose, data)
    {
      chunks := chunks + [data];
      if verbose {
        var lines := Split(data, '\n');
        ghost var before := echoed;
        for k := 0 to |lines| - 1
          invariant echoed == before + Labeled(REVIEW_PREFIX, lines[..k])
          invariant chunks == old(chunks) + [data]
        {
          assert lines[..k + 1] == lines[..k] + [lines[k]];
          LabeledAppend(REVIEW_PREFIX, lines[..k], [lines[k]]);
          echoed := echoed + [REVIEW_PREFIX + lines[k] + "\n"];
        }
        if lines[|lines| - 1] != "" {
          echoed := echoed + [REVIEW_PREFIX + lines[|lines| - 1]];
        }
      } else {
        echoed := echoed + [data];
      }
    }

    /** The `close` handler: decide on the concatenated output. */
    method OnClose(end: ProcessEnd, read: StatusRead, storyId: string, durationMs: int) returns (r: ReviewOutcome)
      ensures r == ClassifyReview(end, read, storyId, Concat(chunks), durationMs)
    {
      if end.SpawnError? || end.code != Some(0) {
        return Rejected;
      }
      var output := Concat(chunks);
      match read
      case Parsed(doc) =>
        var storyStatus := RecordedStatus(doc, storyId);
        r := Resolved(ReviewResult(storyStatus == Some("done"), output, durationMs));
      case ReadFailed =>
        r := Resolved(ReviewResult(Contains(output, PASS_MARKER), output, durationMs));
    }
  }
}
