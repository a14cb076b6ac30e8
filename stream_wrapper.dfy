/**
 * The labelled output stream of src/utils/stream-wrapper.ts: text written
 * by an agent's process arrives in chunks of any size, and every complete
 * line is forwarded with the agent's prefix; an unterminated last line is
 * forwarded, with a newline added, when the stream ends.
 */
module StreamWrapper {

  import opened Strings

  /** The label in front of every forwarded line: `[Role] ` or `[Role:ERR] `. */
  function Prefix(agentRole: string, isStderr: bool): (r: string)
    ensures StartsWith(r, "[" + agentRole) && EndsWith(r, "] ")
  {
    "[" + agentRole + (if isStderr then ":ERR" else "") + "] "
  }

  /** The writes that forward `lines`: each line with the prefix in front and a newline after. */
  function Labeled(prefix: string, lines: seq<string>): (r: seq<string>)
    ensures |r| == |lines|
    ensures forall k | 0 <= k < |lines| :: r[k] == prefix + lines[k] + "\n"
    decreases |lines|
  {
    if |lines| == 0 then [] else [prefix + lines[0] + "\n"] + Labeled(prefix, lines[1..])
  }

  /** The lines forwarded for the whole of `text`: every piece between newlines, the last only when non-empty. */
  function LinesOf(text: string): (r: seq<string>)
  {
    Completed(Split(text, '\n'))
  }

  /** The pieces of a split with an empty last piece (the text ended in a newline) dropped. */
  function Completed(pieces: seq<string>): (r: seq<string>)
    requires |pieces| >= 1
  {
    if pieces[|pieces| - 1] == "" then pieces[..|pieces| - 1] else pieces
  }

  /**
   * The forwarded lines hold no newline, and with a newline after each they
   * give back the input: exactly the input when it is empty or ends with a
   * newline, otherwise the input with one newline added.
   */
  lemma LinesOfText(text: string)
    ensures forall k | 0 <= k < |LinesOf(text)| :: '\n' !in LinesOf(text)[k]
    ensures Concat(Terminated(LinesOf(text), '\n')) ==
      if text == "" || text[|text| - 1] == '\n' then text else text + "\n"
  {
    SplitPiecesHaveNoSeparator(text, '\n');
    JoinSplit(text, '\n');
    PiecesAsLines(text, Split(text, '\n'));
  }

  /** `LinesOfText` stated on the pieces: separator-free pieces whose join is the text. */
  lemma PiecesAsLines(text: string, pieces: seq<string>)
    requires |pieces| >= 1
    requires forall k | 0 <= k < |pieces| :: '\n' !in pieces[k]
    requires Join(pieces, '\n') == text
    ensures var r := Completed(pieces);
      && (forall k | 0 <= k < |r| :: '\n' !in r[k])
      && Concat(Terminated(r, '\n')) == if text == "" || text[|text| - 1] == '\n' then text else text + "\n"
  {
    JoinAsTerminated(pieces, '\n');
    var init := pieces[..|pieces| - 1];
    var last := pieces[|pieces| - 1];
    if last == "" {
      assert text == Concat(Terminated(init, '\n'));
      if |init| > 0 {
        TerminatedEndsWithSeparator(init, '\n');
      }
    } else {
      assert '\n' !in last;
      assert pieces == init + [last];
      LastPieceKept(init, last, '\n');
    }
  }

  /** A non-empty run of terminated lines ends with the separator. */
  lemma TerminatedEndsWithSeparator(lines: seq<string>, sep: char)
    requires |lines| > 0
    ensures var c := Concat(Terminated(lines, sep)); |c| > 0 && c[|c| - 1] == sep
  {
    var t := Terminated(lines, sep);
    assert t == t[..|t| - 1] + [t[|t| - 1]];
    ConcatAppend(t[..|t| - 1], [t[|t| - 1]]);
    assert Concat([t[|t| - 1]]) == t[|t| - 1];
  }

  /** Terminating a last piece without the separator adds one separator after the text. */
  lemma LastPieceKept(init: seq<string>, last: string, sep: char)
    requires last != "" && sep !in last
    ensures var text := Concat(Terminated(init, sep)) + last;
      && text[|text| - 1] != sep
      && Concat(Terminated(init + [last], sep)) == text + [sep]
  {
    assert last[|last| - 1] in last;
    assert Terminated(init + [last], sep) == Terminated(init, sep) + [last + [sep]];
    ConcatAppend(Terminated(init, sep), [last + [sep]]);
    assert Concat([last + [sep]]) == last + [sep];
  }

  /** Splitting more text onto the end of a split keeps the complete pieces and re-splits the last one. */
  lemma SplitExtend(s: string, t: string)
    ensures var p := Split(s, '\n');
      Split(s + t, '\n') == p[..|p| - 1] + Split(p[|p| - 1] + t, '\n')
  {
    var p := Split(s, '\n');
    var q := Split(p[|p| - 1] + t, '\n');
    SplitPiecesHaveNoSeparator(s, '\n');
    SplitPiecesHaveNoSeparator(p[|p| - 1] + t, '\n');
    JoinSplit(s, '\n');
    JoinSplit(p[|p| - 1] + t, '\n');
    JoinExtend(p, q, s, t);
    SplitJoin(p[..|p| - 1] + q, '\n');
  }

  /** `SplitExtend` stated on separator-free pieces and their joins. */
  lemma JoinExtend(p: seq<string>, q: seq<string>, s: string, t: string)
    requires |p| >= 1 && |q| >= 1
    requires forall k | 0 <= k < |p| :: '\n' !in p[k]
    requires forall k | 0 <= k < |q| :: '\n' !in q[k]
    requires Join(p, '\n') == s && Join(q, '\n') == p[|p| - 1] + t
    ensures var r := p[..|p| - 1] + q;
      && |r| >= 1
      && (forall k | 0 <= k < |r| :: '\n' !in r[k])
      && Join(r, '\n') == s + t
  {
    var init := p[..|p| - 1];
    if |init| == 0 {
      assert p == [p[0]];
      assert init + q == q;
    } else {
      assert p == init + [p[|p| - 1]];
      JoinAppend(init, [p[|p| - 1]], '\n');
      JoinAppend(init, q, '\n');
    }
    forall k | 0 <= k < |init + q|
      ensures '\n' !in (init + q)[k]
    {
      if k < |init| { assert (init + q)[k] == p[k]; } else { assert (init + q)[k] == q[k - |init|]; }
    }
  }

  /**
   * The Transform stream that `createLabeledStream` returns, with the stream
   * it forwards to reduced to the sequence of strings written to it.
   */
  class LabeledStream {
    const prefix: string
    var lineBuffer: string
    /** Everything written to the underlying stream, one element per `write`. */
    var written: seq<string>
    /** Everything the stream has received so far. */
    ghost var received: string
    /** The complete lines received so far. */
    ghost var lines: seq<string>

    /**
     * The lines forwarded so far and the buffer are exactly the pieces of
     * the decoded text received, however that text was cut into chunks.
     */
    ghost predicate Valid()
      reads this
    {
      && Split(received, '\n') == lines + [lineBuffer]
      && written == Labeled(prefix, lines)
    }

    constructor(agentRole: string, isStderr: bool)
      ensures Valid()
      ensures prefix == Prefix(agentRole, isStderr)
      ensures lineBuffer == "" && written == [] && received == ""
    {
      prefix := Prefix(agentRole, isStderr);
      lineBuffer := "";
      written := [];
      received := "";
      lines := [];
    }

    /** `transform`: forward every line the chunk completes, keep the rest buffered. */
    method Transform(chunk: string)
      requires Valid()
      modifies this
      ensures Valid()
      ensures received == old(received) + chunk
      ensures var pieces := Split(old(lineBuffer) + chunk, '\n');
        && written == old(written) + Labeled(prefix, pieces[..|pieces| - 1])
        && lineBuffer == pieces[|pieces| - 1]
    {
      ReceiveChunk(received, lines, lineBuffer, chunk);
      var pieces := Split(lineBuffer + chunk, '\n');
      lineBuffer := pieces[|pieces| - 1];
      WriteLines(pieces[..|pieces| - 1]);
      LabeledAppend(prefix, lines, pieces[..|pieces| - 1]);
      received := received + chunk;
      lines := lines + pieces[..|pieces| - 1];
    }

    /** The loop of `transform`: each complete line is written with the prefix and a newline. */
    method WriteLines(complete: seq<string>)
      modifies this`written
      ensures written == old(written) + Labeled(prefix, complete)
    {
      ghost var before := written;
      for k := 0 to |complete|
        invariant written == before + Labeled(prefix, complete[..k])
      {
        assert complete[..k + 1] == complete[..k] + [complete[k]];
        LabeledAppend(prefix, complete[..k], [complete[k]]);
        written := written + [prefix + complete[k] + "\n"];
      }
      assert complete[..|complete|] == complete;
    }

    /** `flush`: forward the buffered line, if any, with a newline added. */
    method Flush()
      requires Valid()
      modifies this
      ensures written == old(written) + (if old(lineBuffer) == "" then [] else [prefix + old(lineBuffer) + "\n"])
      ensures written == Labeled(prefix, LinesOf(received))
      ensures lineBuffer == old(lineBuffer) && received == old(received)
    {
      CompletedBuffer(lines, lineBuffer);
      assert LinesOf(received) == Completed(lines + [lineBuffer]);
      if lineBuffer != "" {
        LabeledAppend(prefix, lines, [lineBuffer]);
        written := written + [prefix + lineBuffer + "\n"];
      }
    }
  }

  /** Receiving a chunk completes the buffered piece's lines and leaves the earlier lines as they were. */
  lemma ReceiveChunk(received: string, lines: seq<string>, lineBuffer: string, chunk: string)
    requires Split(received, '\n') == lines + [lineBuffer]
    ensures var pieces := Split(lineBuffer + chunk, '\n');
      Split(received + chunk, '\n') == (lines + pieces[..|pieces| - 1]) + [pieces[|pieces| - 1]]
  {
    var p := Split(received, '\n');
    SplitExtend(received, chunk);
    var pieces := Split(lineBuffer + chunk, '\n');
    Regroup(p, lines, lineBuffer, pieces);
  }

  /** Sequence bookkeeping for `ReceiveChunk`, kept apart from `Split`. */
  lemma Regroup(p: seq<string>, lines: seq<string>, lineBuffer: string, pieces: seq<string>)
    requires p == lines + [lineBuffer] && |pieces| > 0
    ensures p[..|p| - 1] == lines && p[|p| - 1] == lineBuffer
    ensures lines + pieces == (lines + pieces[..|pieces| - 1]) + [pieces[|pieces| - 1]]
  {
    assert pieces == pieces[..|pieces| - 1] + [pieces[|pieces| - 1]];
  }

  /** Dropping an empty buffered piece leaves the complete lines; a non-empty one is kept as a line. */
  lemma CompletedBuffer(lines: seq<string>, lineBuffer: string)
    ensures Completed(lines + [lineBuffer]) == if lineBuffer == "" then lines else lines + [lineBuffer]
  {
    assert (lines + [lineBuffer])[..|lines|] == lines;
  }

  lemma LabeledAppend(prefix: string, a: seq<string>, b: seq<string>)
    ensures Labeled(prefix, a + b) == Labeled(prefix, a) + Labeled(prefix, b)
  {
  }
}
