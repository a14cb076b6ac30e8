/**
 * The regular expressions of src/utils/files.ts, written out as predicates
 * and capture functions over one line. Each follows JavaScript's matching
 * rules for its pattern: `\s`, `\w`, `\d` and `.` are the classes of the
 * Strings module, `+`/`*` are greedy with backtracking, and the `i` flag
 * folds ASCII letters only (for the lower-case ASCII words used here that
 * is exactly what JavaScript does).
 */
module Patterns {

  import opened Wrappers
  import opened Strings

  /** The index just past the run of characters satisfying `p` that starts at `k`. */
  function SkipWhile(s: string, k: nat, p: char -> bool): (r: nat)
    requires k <= |s|
    ensures k <= r <= |s|
    ensures forall i | k <= i < r :: p(s[i])
    ensures r < |s| ==> !p(s[r])
    decreases |s| - k
  {
    if k < |s| && p(s[k]) then SkipWhile(s, k + 1, p) else k
  }

  /** `w` occurs at `i` ignoring ASCII case (the `i` flag). */
  predicate OccursAtIgnoreCase(s: string, i: int, w: string) {
    0 <= i && i + |w| <= |s| && ToLower(s[i..i + |w|]) == ToLower(w)
  }

  /** `s[k..]` begins with a match of `.*w1.*w2...` (each `.*` stops at line terminators). */
  predicate WordsAfterAnything(s: string, k: nat, words: seq<string>)
    requires k <= |s|
    decreases |words|, |s| - k
  {
    if |words| == 0 then true
    else
      || (OccursAtIgnoreCase(s, k, words[0]) && WordsAfterAnything(s, k + |words[0]|, words[1..]))
      || (k < |s| && !IsLineTerminator(s[k]) && WordsAfterAnything(s, k + 1, words))
  }

  /** `s[k..]` begins with a match of `\s+.*w1.*w2...`. */
  predicate SpacesThenWords(s: string, k: nat, words: seq<string>)
    requires k <= |s|
    decreases |s| - k
  {
    && k < |s| && IsSpace(s[k])
    && (WordsAfterAnything(s, k + 1, words) || SpacesThenWords(s, k + 1, words))
  }

  /** `/^##\s+.*w1.*w2.../i`: a level-two heading mentioning the words in order. */
  predicate IsHeadingMentioning(line: string, words: seq<string>) {
    StartsWith(line, "##") && SpacesThenWords(line, 2, words)
  }

  /** `/^##\s+/`: any level-two heading. */
  predicate IsH2(line: string) {
    StartsWith(line, "##") && |line| > 2 && IsSpace(line[2])
  }

  /** The unanchored `/w1.*w2.../i`. */
  predicate MentionsIgnoreCase(s: string, words: seq<string>)
    requires |words| >= 1
  {
    exists i | 0 <= i <= |s| ::
      OccursAtIgnoreCase(s, i, words[0]) && WordsAfterAnything(s, i + |words[0]|, words[1..])
  }

  /** A heading that mentions the words is a level-two heading that mentions them. */
  lemma {:induction false} HeadingMentioningIsH2(line: string, words: seq<string>)
    requires |words| >= 1
    requires IsHeadingMentioning(line, words)
    ensures IsH2(line)
    ensures MentionsIgnoreCase(line, words)
  {
    SpacesThenWordsMention(line, 2, words);
  }

  lemma {:induction false} SpacesThenWordsMention(s: string, k: nat, words: seq<string>)
    requires |words| >= 1 && k <= |s|
    requires SpacesThenWords(s, k, words)
    ensures MentionsIgnoreCase(s, words)
    decreases |s| - k
  {
    if WordsAfterAnything(s, k + 1, words) {
      WordsAfterAnythingMention(s, k + 1, words);
    } else {
      SpacesThenWordsMention(s, k + 1, words);
    }
  }

  lemma {:induction false} WordsAfterAnythingMention(s: string, k: nat, words: seq<string>)
    requires |words| >= 1 && k <= |s|
    requires WordsAfterAnything(s, k, words)
    ensures MentionsIgnoreCase(s, words)
    decreases |s| - k
  {
    if !(OccursAtIgnoreCase(s, k, words[0]) && WordsAfterAnything(s, k + |words[0]|, words[1..])) {
      WordsAfterAnythingMention(s, k + 1, words);
    }
  }

  // ---------------------------------------------------------------------------
  // Story entries
  // ---------------------------------------------------------------------------

  /** The characters of `[\w-]`. */
  predicate IsIdChar(c: char) {
    IsWordChar(c) || c == '-'
  }

  /** `id` is matched as a whole by `[\w]+-[\w-]+`. */
  predicate IsStoryIdShape(id: string) {
    && (forall j | 0 <= j < |id| :: IsIdChar(id[j]))
    && match IndexOfFrom(id, "-", 0)
       case None => false
       case Some(d) => 1 <= d < |id| - 1
  }

  /** `\s*(.+)` matches at the start of `rest`: some non-terminator follows only whitespace. */
  predicate HasText(rest: string)
    decreases |rest|
  {
    |rest| > 0 && (!IsLineTerminator(rest[0]) || (IsSpace(rest[0]) && HasText(rest[1..])))
  }

  /** The group `(.+)` of `\s*(.+)`, trimmed as the parser trims it. */
  function TextGroup(rest: string): string {
    Trim(UpToLineEnd(TrimStart(rest)))
  }

  /** The captures `(id, title)` of `([\w]+-[\w-]+):\s*(.+)` matched at index `q`. */
  function IdAndTitle(line: string, q: nat): (r: Option<(string, string)>)
    requires q <= |line|
    ensures r.Some? ==> IsStoryIdShape(r.value.0) && OccursAt(line, q, r.value.0 + ":")
  {
    var e := SkipWhile(line, q, IsIdChar);
    if e < |line| && line[e] == ':' && IsStoryIdShape(line[q..e]) && HasText(line[e + 1..]) then
      assert line[q..e + 1] == line[q..e] + ":";
      Some((line[q..e], TextGroup(line[e + 1..])))
    else None
  }

  /** `/^-\s+\[([ x])\]\s+([\w]+-[\w-]+):\s*(.+)/i`: captures (mark, id, title). */
  function EpicCheckbox(line: string): (r: Option<(char, string, string)>)
    ensures r.Some? ==> r.value.0 in {' ', 'x', 'X'} && IsStoryIdShape(r.value.1)
    ensures r.Some? ==> StartsWith(line, "-")
  {
    if |line| == 0 || line[0] != '-' then None
    else
      var p := SkipWhile(line, 1, IsSpace);
      if p > 1 then BoxedEntry(line, p) else None
  }

  /** `\[([ x])\]\s+([\w]+-[\w-]+):\s*(.+)` matched at index `p`: captures (mark, id, title). */
  function BoxedEntry(line: string, p: nat): (r: Option<(char, string, string)>)
    requires p <= |line|
    ensures r.Some? ==> r.value.0 in {' ', 'x', 'X'} && IsStoryIdShape(r.value.1)
  {
    if p + 2 < |line| && line[p] == '[' && line[p + 1] in {' ', 'x', 'X'} && line[p + 2] == ']' then
      var q := SkipWhile(line, p + 3, IsSpace);
      if q > p + 3 then
        match IdAndTitle(line, q)
        case Some(g) => Some((line[p + 1], g.0, g.1))
        case None => None
      else None
    else None
  }

  /** `/^-\s+([\w]+-[\w-]+):\s*(.+)/i`: captures (id, title). */
  function SimpleEntry(line: string): (r: Option<(string, string)>)
    ensures r.Some? ==> IsStoryIdShape(r.value.0) && StartsWith(line, "-")
  {
    if |line| == 0 || line[0] != '-' then None
    else
      var q := SkipWhile(line, 1, IsSpace);
      if q > 1 then IdAndTitle(line, q) else None
  }

  /** `/^\d+\.\s+([\w]+-[\w-]+):\s*(.+)/i`: captures (id, title). */
  function NumberedEntry(line: string): (r: Option<(string, string)>)
    ensures r.Some? ==> IsStoryIdShape(r.value.0) && |line| > 0 && IsDigit(line[0])
  {
    var p := SkipWhile(line, 0, IsDigit);
    if p > 0 && p < |line| && line[p] == '.' then
      var q := SkipWhile(line, p + 1, IsSpace);
      if q > p + 1 then IdAndTitle(line, q) else None
    else None
  }

  /** `/^-\s+\[([ x])\]\s*(.+)/` (no `i` flag): captures (mark, text). */
  function CriterionCheckbox(line: string): (r: Option<(char, string)>)
    ensures r.Some? ==> r.value.0 in {' ', 'x'} && StartsWith(line, "-")
  {
    if |line| == 0 || line[0] != '-' then None
    else
      var p := SkipWhile(line, 1, IsSpace);
      if p > 1 && p + 2 < |line| && line[p] == '[' && line[p + 1] in {' ', 'x'} && line[p + 2] == ']'
         && HasText(line[p + 3..])
      then Some((line[p + 1], TextGroup(line[p + 3..])))
      else None
  }

  /** `line.replace(/^#\s+/, '')` for a line that starts with `# `. */
  function HeadingText(line: string): (r: string)
    requires StartsWith(line, "# ")
    ensures |r| < |line| && r == line[|line| - |r|..]
    ensures |r| > 0 ==> !IsSpace(r[0])
  {
    line[SkipWhile(line, 1, IsSpace)..]
  }

  /** The index of the first line from `k` on that starts with `# ` (the line `lines.find` returns). */
  function FirstH1From(lines: seq<string>, k: nat): (r: Option<nat>)
    requires k <= |lines|
    ensures r.Some? ==> k <= r.value < |lines| && StartsWith(lines[r.value], "# ")
    ensures r.Some? ==> forall j | k <= j < r.value :: !StartsWith(lines[j], "# ")
    ensures r.None? ==> forall j | k <= j < |lines| :: !StartsWith(lines[j], "# ")
    decreases |lines| - k
  {
    if k == |lines| then None
    else if StartsWith(lines[k], "# ") then Some(k)
    else FirstH1From(lines, k + 1)
  }

  /** The heading text of the first `# ` line, or `fallback` when there is none. */
  function TitleOf(lines: seq<string>, fallback: string): (r: string)
    ensures (forall j | 0 <= j < |lines| :: !StartsWith(lines[j], "# ")) ==> r == fallback
  {
    match FirstH1From(lines, 0)
    case Some(k) => HeadingText(lines[k])
    case None => fallback
  }
}
