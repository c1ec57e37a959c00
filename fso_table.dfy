/**
 * The input cursor, its lexical scanners and the output builder of the table
 * engine (fso_tables/src/fso_table.rs).
 *
 * Every scanner is given twice: as a function over the cursor state `St`
 * (the text not yet consumed and the current line), and as a method of the
 * cursor class `TableParser` whose postcondition says that it moved the cursor
 * exactly as that function says.
 */
module FsoTable {
  import opened Wrappers
  import opened Text

  /** A parse failure: its line, its reason and the comment and version text pending there. */
  datatype ParseError = ParseError(line: nat, reason: string, comments: Option<string>, version: Option<string>)

  /** How a failure is shown: `Error at line <line>: <reason>`. */
  function Display(e: ParseError): (r: string)
    ensures StartsWith(r, "Error at line ")
    ensures var n := |NatToString(e.line)|;
      && |r| == 16 + n + |e.reason|
      && r[14..14 + n] == NatToString(e.line) && r[14 + n..16 + n] == ": "
      && r[16 + n..] == e.reason
  {
    "Error at line " + NatToString(e.line) + ": " + e.reason
  }

  /**
   * The shown text reads back: after the prefix, the run of digits has the
   * line as its value, and `: ` and the reason follow it.
   */
  lemma {:induction false} DisplayReadsBack(e: ParseError)
    ensures var r := Display(e);
      var n := DigitRun(r[14..]);
      && 0 < n && 16 + n <= |r|
      && DigitsValue(r[14..14 + n]) == e.line
      && r[14 + n..16 + n] == ": " && r[16 + n..] == e.reason
  {
    var r := Display(e);
    var d := NatToString(e.line);
    var n := DigitRun(r[14..]);
    assert r[14..][|d|] == ':';
    assert n == |d|;
    assert r[14..][..n] == r[14..14 + n];
    NatToStringValue(e.line);
  }

  /** The cursor as the specification sees it: the text not yet consumed and the current line. */
  datatype St = St(rest: string, line: nat)

  /** The effect of `consume(count)`: drop `count` chars and count the line feeds among them. */
  function Advance(st: St, count: nat): (r: St)
    requires count <= |st.rest|
  {
    St(st.rest[count..], st.line + Newlines(st.rest[..count]))
  }

  /** Consuming nothing changes nothing. */
  lemma AdvanceZero(st: St)
    ensures Advance(st, 0) == st
  {
    assert st.rest[..0] == [];
  }

  /** Two consumes in a row are one consume of their total. */
  lemma AdvanceAdd(st: St, a: nat, b: nat)
    requires a + b <= |st.rest|
    ensures Advance(Advance(st, a), b) == Advance(st, a + b)
  {
    assert st.rest[..a + b] == st.rest[..a] + st.rest[a..][..b];
    NewlinesAppend(st.rest[..a], st.rest[a..][..b]);
    assert st.rest[a..][b..] == st.rest[a + b..];
  }

  // ---------------------------------------------------------------------------
  // Scanner specifications

  /** What `consume_whitespace_inline` skips: non-newline whitespace, ',' and the extra chars. */
  predicate InlineWsChar(c: char, also: seq<char>) {
    (c != '\n' && IsWhitespace(c)) || c == ',' || c in also
  }

  /** The length of the maximal prefix of inline whitespace. */
  function InlineWsLen(s: string, also: seq<char>): (n: nat)
    ensures n <= |s|
    ensures forall i :: 0 <= i < n ==> InlineWsChar(s[i], also)
    ensures n < |s| ==> !InlineWsChar(s[n], also)
  {
    if s != [] && InlineWsChar(s[0], also) then 1 + InlineWsLen(s[1..], also) else 0
  }

  /** What `read_until_whitespace` keeps: neither whitespace nor ','. */
  predicate TokenChar(c: char) {
    !IsWhitespace(c) && c != ','
  }

  /** The length of the maximal prefix of token chars. */
  function TokenLen(s: string): (n: nat)
    ensures n <= |s|
    ensures forall i :: 0 <= i < n ==> TokenChar(s[i])
    ensures n < |s| ==> !TokenChar(s[n])
  {
    if s != [] && TokenChar(s[0]) then 1 + TokenLen(s[1..]) else 0
  }

  /** The length of the text in front of the first `target`, or of all of `s` when there is none. */
  function ContentSize(s: string, target: string): (n: nat)
    ensures n <= |s|
  {
    match Find(s, target)
    case Some(i) => i
    case None => |s|
  }

  /**
   * The count that `read_until_target` as written hands to `consume`. When
   * `target` is absent this is more than what is left, and the slice in
   * `consume` panics (see ReadUntilTargetOverrun).
   */
  function ReadUntilTargetRequest(s: string, target: string, consumeTarget: bool): (n: nat)
    ensures Find(s, target).Some? ==> n <= |s|
    ensures Find(s, target).None? ==> n == |s| + (if consumeTarget then |target| else 0)
  {
    ContentSize(s, target) + (if consumeTarget then |target| else 0)
  }

  /**
   * The count the model consumes: the request clamped to what is left, so an
   * absent target consumes the rest of the input.
   */
  function ReadUntilTargetCount(s: string, target: string, consumeTarget: bool): (n: nat)
    ensures ContentSize(s, target) <= n <= |s|
    ensures Find(s, target).Some? ==> n == ReadUntilTargetRequest(s, target, consumeTarget)
    ensures Find(s, target).None? ==> n == |s|
  {
    Min(ReadUntilTargetRequest(s, target, consumeTarget), |s|)
  }

  /** A char that ends the text `read_until_last_whitespace_of_line_or_stop` returns. */
  predicate LineEnd(c: char, stops: seq<char>) {
    c in stops || c == '\n' || c == ';'
  }

  /**
   * The loop of `read_until_last_whitespace_of_line_or_stop` from index `i`,
   * with `last` the end of the last non-whitespace char seen and `until` the
   * count to consume. Returns the final `(last, until)`.
   */
  function LineScan(s: string, stops: seq<char>, i: nat, last: nat, until: nat): (r: (nat, nat))
    requires i <= |s| && last <= until <= i
    ensures r.0 <= r.1 <= |s|
    decreases |s| - i
  {
    if i == |s| then (last, until)
    else if s[i] in stops then (last, i + 1)
    else if s[i] == '\n' || s[i] == ';' then (last, until)
    else if !IsWhitespace(s[i]) then LineScan(s, stops, i + 1, i + 1, i + 1)
    else LineScan(s, stops, i + 1, last, until)
  }

  /** The index of the first line-ending char, or |s|. */
  function LineEndIndex(s: string, stops: seq<char>): (e: nat)
    ensures e <= |s|
    ensures forall k :: 0 <= k < e ==> !LineEnd(s[k], stops)
    ensures e < |s| ==> LineEnd(s[e], stops)
  {
    if s == [] || LineEnd(s[0], stops) then 0 else 1 + LineEndIndex(s[1..], stops)
  }

  /** `(last, until)` for the whole of `s`. */
  function LineSpan(s: string, stops: seq<char>): (r: (nat, nat))
    ensures r.0 <= r.1 <= |s|
  {
    LineScan(s, stops, 0, 0, 0)
  }

  /** The reason `consume_string` gives when the expected text is not there. */
  function MismatchReason(expected: string, got: string): string {
    "Expected \"" + expected + "\", got " + got
  }

  /** `consume_string(expected)`: match `expected` exactly at the cursor. */
  function ConsumeStringSpec(st: St, expected: string): (r: (Result<(), ParseError>, St))
    ensures r.0.Ok? <==> StartsWith(st.rest, expected)
    ensures r.0.Ok? ==> |expected| <= |st.rest| && r.1 == Advance(st, |expected|) && st.rest == expected + r.1.rest
    ensures r.0.Err? ==> r.1 == st && r.0.error.line == st.line
    ensures r.0.Err? ==> r.0.error.comments.None? && r.0.error.version.None?
  {
    if StartsWith(st.rest, expected) then
      assert st.rest == expected + st.rest[|expected|..];
      (Ok(()), Advance(st, |expected|))
    else
      (Err(ParseError(st.line, MismatchReason(expected, st.rest[..Min(|st.rest|, |expected|)]), None, None)), st)
  }

  // Version markers: the regular expression `\A;;FSO\x20\d+(?:\x2E\d+)+;;`

  predicate VersionChar(c: char) {
    IsDigit(c) || c == '.'
  }

  /** The length of the maximal prefix of digits and dots. */
  function VersionRunLen(s: string): (n: nat)
    ensures n <= |s|
    ensures forall i :: 0 <= i < n ==> VersionChar(s[i])
    ensures n < |s| ==> !VersionChar(s[n])
  {
    if s != [] && VersionChar(s[0]) then 1 + VersionRunLen(s[1..]) else 0
  }

  /**
   * `<digits>(.<digits>)+`: digits and dots only, a digit first and last,
   * no two dots in a row, at least one dot.
   */
  predicate DottedNumber(x: string) {
    && |x| > 0
    && IsDigit(x[0])
    && IsDigit(x[|x| - 1])
    && '.' in x
    && (forall i :: 0 <= i < |x| ==> VersionChar(x[i]))
    && (forall i :: 0 <= i < |x| - 1 ==> !(x[i] == '.' && x[i + 1] == '.'))
  }

  /** A whole version marker `;;FSO <digits>(.<digits>)+;;`. */
  predicate VersionForm(v: string) {
    && |v| >= 8
    && v[..6] == ";;FSO "
    && v[|v| - 2..] == ";;"
    && DottedNumber(v[6..|v| - 2])
  }

  /** The length of the version marker `s` starts with, if it starts with one. */
  function VersionMatch(s: string): (r: Option<nat>)
    ensures r.Some? ==> r.value <= |s| && VersionForm(s[..r.value])
  {
    if !StartsWith(s, ";;FSO ") then
      None
    else
      var n := VersionRunLen(s[6..]);
      if DottedNumber(s[6..6 + n]) && StartsWith(s[6 + n..], ";;") then
        assert s[..6 + n + 2][6..6 + n] == s[6..6 + n];
        Some(6 + n + 2)
      else
        None
  }

  // The comment and version loop of `consume_whitespace`

  /** What one round of `consume_whitespace` does once inline whitespace is gone. */
  datatype WsStep =
    | StopScan
    | SkipNewline
    | Comment(text: string, count: nat, lineComment: bool)
    | Version(text: string, count: nat)

  function WsStepAt(s: string, stopOnNewline: bool): (r: WsStep)
    ensures r.SkipNewline? ==> |s| > 0 && s[0] == '\n'
    ensures r.Comment? ==> 0 < r.count <= |s|
    ensures r.Version? ==> 0 < r.count <= |s|
  {
    if s == [] then
      StopScan
    else if s[0] == '\n' then
      if stopOnNewline then StopScan else SkipNewline
    else if s[0] == ';' then
      if VersionMatch(s).Some? then VersionStep(s) else LineCommentStep(s)
    else if s[0] == '/' && |s| > 1 && s[1] == '/' then
      LineCommentStep(s)
    else if (s[0] == '!' || s[0] == '/') && |s| > 1 && s[1] == '*' then
      BlockCommentStep(s)
    else
      StopScan
  }

  /** A version marker: the text between the opening and the closing `;;`, wrapped in `;;` again. */
  function VersionStep(s: string): (r: WsStep)
    requires |s| >= 2
    ensures r.Version? && 0 < r.count <= |s|
  {
    Version(";;" + s[2..][..ContentSize(s[2..], ";;")] + ";;", 2 + ReadUntilTargetCount(s[2..], ";;", true))
  }

  /** A `;` or `//` comment: the text up to the line feed, which is consumed as well. */
  function LineCommentStep(s: string): (r: WsStep)
    requires |s| > 0
    ensures r.Comment? && 0 < r.count <= |s| && r.lineComment
  {
    Comment(s[..ContentSize(s, "\n")], ReadUntilTargetCount(s, "\n", true), true)
  }

  /** A `/* */` or `!* *!` comment, delimiters included. */
  function BlockCommentStep(s: string): (r: WsStep)
    requires |s| >= 2
    ensures r.Comment? && 0 < r.count <= |s| && !r.lineComment
  {
    var close := ['*', s[0]];
    Comment([s[0], '*'] + s[2..][..ContentSize(s[2..], close)] + close, 2 + ReadUntilTargetCount(s[2..], close, true), false)
  }

  /** The `(comments, version)` pair `consume_whitespace` returns. */
  datatype Gobbled = Gobbled(comments: Option<string>, version: Option<string>)

  /** Append a captured comment; `separate` puts a line feed between it and what came before. */
  function AddComment(comments: Option<string>, separate: bool, text: string): (r: Option<string>)
    ensures var before := comments.GetOr("");
      && r.Some? && |r.value| == |before| + (if separate then 1 else 0) + |text|
      && r.value[..|before|] == before && r.value[|r.value| - |text|..] == text
      && (separate ==> r.value[|before|] == '\n')
  {
    Some(comments.GetOr("") + (if separate then "\n" else "") + text)
  }

  /** How many chars one step consumes. */
  function StepCount(step: WsStep): nat {
    match step
    case StopScan => 0
    case SkipNewline => 1
    case Comment(_, count, _) => count
    case Version(_, count) => count
  }

  /** The state after the inline whitespace that opens every round. */
  function AfterInline(st: St): St {
    Advance(st, InlineWsLen(st.rest, []))
  }

  /** The step one round takes from `st`. */
  function RoundStep(st: St, stopOnNewline: bool): (r: WsStep)
    ensures r.SkipNewline? ==> !stopOnNewline
    ensures r.Comment? || r.Version? ==> 0 < StepCount(r) <= |AfterInline(st).rest|
  {
    WsStepAt(AfterInline(st).rest, stopOnNewline)
  }

  /** The state after one round from `st`. */
  function AfterRound(st: St, stopOnNewline: bool): (r: St)
    ensures |r.rest| <= |st.rest|
    ensures RoundStep(st, stopOnNewline).SkipNewline? || RoundStep(st, stopOnNewline).Comment? ==> |r.rest| < |st.rest|
  {
    var st1 := AfterInline(st);
    Advance(st1, StepCount(WsStepAt(st1.rest, stopOnNewline)))
  }

  /**
   * The loop of `consume_whitespace`, with the comments gathered so far and
   * `linebreak`, the `linebreak_since_comment` flag.
   */
  function ScanWs(st: St, stopOnNewline: bool, comments: Option<string>, linebreak: bool): (r: (Gobbled, St))
    ensures |r.1.rest| <= |st.rest|
    decreases |st.rest|
  {
    var next := AfterRound(st, stopOnNewline);
    match RoundStep(st, stopOnNewline)
    case StopScan => (Gobbled(comments, None), next)
    case SkipNewline => ScanWs(next, stopOnNewline, comments, true)
    case Version(text, _) => (Gobbled(comments, Some(text)), next)
    case Comment(text, _, lineComment) =>
      // a line comment sets the flag before its text is appended
      var lb := linebreak || lineComment;
      ScanWs(next, stopOnNewline, AddComment(comments, !lb, text), false)
  }

  /** `consume_whitespace(stop_on_newline)`. */
  function ConsumeWhitespaceSpec(st: St, stopOnNewline: bool): (r: (Gobbled, St))
    ensures |r.1.rest| <= |st.rest|
  {
    ScanWs(st, stopOnNewline, None, true)
  }

  /** Consuming `count` more chars after `pos`: the rest and the line count move together. */
  lemma ConsumeSplit(s: string, pos: nat, count: nat)
    requires pos + count <= |s|
    ensures s[pos..][count..] == s[pos + count..]
    ensures Newlines(s[..pos + count]) == Newlines(s[..pos]) + Newlines(s[pos..][..count])
  {
    assert s[..pos + count] == s[..pos] + s[pos..][..count];
    NewlinesAppend(s[..pos], s[pos..][..count]);
  }

  // ---------------------------------------------------------------------------
  // The cursor

  /** `FSOTableFileParser`: the whole input, the consumed length and the line count. */
  class TableParser {
    const original: string
    var pos: nat
    var line: nat

    /** Nothing is consumed past the end, and `line` counts the line feeds consumed so far. */
    ghost predicate Valid()
      reads this
    {
      pos <= |original| && line == Newlines(original[..pos])
    }

    function State(): St
      reads this
      requires pos <= |original|
    {
      St(original[pos..], line)
    }

    constructor (text: string)
      ensures Valid()
      ensures original == text && State() == St(text, 0)
    {
      original := text;
      pos := 0;
      line := 0;
    }

    /** `get`: the text not yet consumed. */
    function Get(): string
      reads this
      requires pos <= |original|
    {
      original[pos..]
    }

    /** `line`. */
    function Line(): nat
      reads this
    {
      line
    }

    /** `consume(count)`; a count beyond the end is a slice panic in the source. */
    method Consume(count: nat)
      requires Valid()
      requires count <= |original| - pos
      modifies this
      ensures Valid()
      ensures State() == Advance(old(State()), count)
      ensures count == 0 ==> State() == old(State())
    {
      if count == 0 {
        AdvanceZero(State());
        return;
      }
      var newlines := Newlines(Get()[..count]);
      ConsumeSplit(original, pos, count);
      pos := pos + count;
      line := line + newlines;
    }

    /** `consume_whitespace_inline(also_consume)`. */
    method ConsumeWhitespaceInline(also: seq<char>)
      requires Valid()
      modifies this
      ensures Valid()
      ensures State() == Advance(old(State()), InlineWsLen(old(State()).rest, also))
    {
      var current := Get();
      var n := 0;
      while n < |current| && InlineWsChar(current[n], also)
        invariant n <= |current|
        invariant forall i :: 0 <= i < n ==> InlineWsChar(current[i], also)
      {
        n := n + 1;
      }
      assert n == InlineWsLen(current, also);
      Consume(n);
    }

    /** `read_until_whitespace`. */
    method ReadUntilWhitespace() returns (r: string)
      requires Valid()
      modifies this
      ensures Valid()
      ensures r == old(State()).rest[..TokenLen(old(State()).rest)]
      ensures State() == Advance(old(State()), TokenLen(old(State()).rest))
    {
      var current := Get();
      var n := 0;
      while n < |current| && TokenChar(current[n])
        invariant n <= |current|
        invariant forall i :: 0 <= i < n ==> TokenChar(current[i])
      {
        n := n + 1;
      }
      assert n == TokenLen(current);
      r := current[..n];
      Consume(n);
    }

    /**
     * `read_until_target(target, consume_target)`. The count handed to
     * `consume` is clamped to the remaining text (see ReadUntilTargetCount).
     */
    method ReadUntilTarget(target: string, consumeTarget: bool) returns (r: string)
      requires Valid()
      modifies this
      ensures Valid()
      ensures r == old(State()).rest[..ContentSize(old(State()).rest, target)]
      ensures State() == Advance(old(State()), ReadUntilTargetCount(old(State()).rest, target, consumeTarget))
    {
      var current := Get();
      var contentSize := match Find(current, target) case Some(i) => i case None => |current|;
      assert contentSize == ContentSize(current, target);
      var count := Min(contentSize + (if consumeTarget then |target| else 0), |current|);
      assert count == ReadUntilTargetCount(current, target, consumeTarget);
      Consume(count);
      r := current[..contentSize];
    }

    /** `read_until_last_whitespace_of_line_or_stop(also_stop)`. */
    method ReadUntilLastWhitespaceOfLineOrStop(stops: seq<char>) returns (r: string)
      requires Valid()
      modifies this
      ensures Valid()
      ensures r == old(State()).rest[..LineSpan(old(State()).rest, stops).0]
      ensures State() == Advance(old(State()), LineSpan(old(State()).rest, stops).1)
    {
      var current := Get();
      var currentPos, lastNonWhitespace, consumeUntil := 0, 0, 0;
      while currentPos < |current|
        invariant currentPos <= |current|
        invariant lastNonWhitespace <= consumeUntil <= currentPos
        invariant LineSpan(current, stops) == LineScan(current, stops, currentPos, lastNonWhitespace, consumeUntil)
      {
        var c := current[currentPos];
        currentPos := currentPos + 1;
        if c in stops {
          consumeUntil := currentPos;
          break;
        } else if c == '\n' || c == ';' {
          break;
        } else if !IsWhitespace(c) {
          lastNonWhitespace := currentPos;
          consumeUntil := currentPos;
        }
      }
      assert LineSpan(current, stops) == (lastNonWhitespace, consumeUntil);
      Consume(consumeUntil);
      r := current[..lastNonWhitespace];
    }

    /** `consume_string(expected)`. */
    method ConsumeString(expected: string) returns (r: Result<(), ParseError>)
      requires Valid()
      modifies this
      ensures Valid()
      ensures (r, State()) == ConsumeStringSpec(old(State()), expected)
    {
      var current := Get();
      if StartsWith(current, expected) {
        Consume(|expected|);
        r := Ok(());
      } else {
        r := Err(ParseError(line, MismatchReason(expected, current[..Min(|current|, |expected|)]), None, None));
      }
    }

    /**
     * One round of the loop of `consume_whitespace`: inline whitespace, then
     * the step taken at the char found. Returns the step and the text to
     * append for a comment or the marker for a version.
     */
    method WhitespaceRound(stopOnNewline: bool) returns (step: WsStep)
      requires Valid()
      modifies this
      ensures Valid()
      ensures step == RoundStep(old(State()), stopOnNewline)
      ensures State() == AfterRound(old(State()), stopOnNewline)
    {
      ConsumeWhitespaceInline([]);
      var current := Get();
      ghost var st1 := State();
      if current != [] && current[0] == '\n' && stopOnNewline {
        step := StopScan;
      } else if current != [] && current[0] == '\n' {
        Consume(1);
        step := SkipNewline;
      } else if current != [] && current[0] == ';' {
        if VersionMatch(current).Some? {
          step := ReadVersion();
        } else {
          step := ReadLineComment();
        }
      } else if |current| > 1 && current[0] == '/' && current[1] == '/' {
        step := ReadLineComment();
      } else if |current| > 1 && (current[0] == '!' || current[0] == '/') && current[1] == '*' {
        step := ReadBlockComment();
      } else {
        step := StopScan;
      }
    }

    /** The version arm of the loop of `consume_whitespace`. */
    method ReadVersion() returns (step: WsStep)
      requires Valid() && |Get()| >= 2
      modifies this
      ensures Valid()
      ensures step == VersionStep(old(Get()))
      ensures State() == Advance(old(State()), StepCount(step))
    {
      ghost var st0 := State();
      var current := Get();
      Consume(2);
      var inner := ReadUntilTarget(";;", true);
      assert st0.rest[2..] == current[2..];
      AdvanceAdd(st0, 2, ReadUntilTargetCount(current[2..], ";;", true));
      step := Version(";;" + inner + ";;", 2 + ReadUntilTargetCount(current[2..], ";;", true));
    }

    /** The `;` and `//` comment arms of the loop of `consume_whitespace`. */
    method ReadLineComment() returns (step: WsStep)
      requires Valid() && |Get()| > 0
      modifies this
      ensures Valid()
      ensures step == LineCommentStep(old(Get()))
      ensures State() == Advance(old(State()), StepCount(step))
    {
      var current := Get();
      var text := ReadUntilTarget("\n", true);
      step := Comment(text, ReadUntilTargetCount(current, "\n", true), true);
    }

    /** The block comment arm of the loop of `consume_whitespace`. */
    method ReadBlockComment() returns (step: WsStep)
      requires Valid() && |Get()| >= 2
      modifies this
      ensures Valid()
      ensures step == BlockCommentStep(old(Get()))
      ensures State() == Advance(old(State()), StepCount(step))
    {
      ghost var st0 := State();
      var current := Get();
      var start := current[0];
      var close := ['*', start];
      Consume(2);
      ghost var st1 := State();
      assert st1.rest == current[2..];
      var n := ReadUntilTargetCount(current[2..], close, true);
      var inner := ReadUntilTarget(close, true);
      assert inner == current[2..][..ContentSize(current[2..], close)];
      assert State() == Advance(st1, n);
      AdvanceAdd(st0, 2, n);
      step := Comment([start, '*'] + inner + close, 2 + n, false);
    }

    /** `consume_whitespace(stop_on_newline)`: skip whitespace and comments, stop after a version marker. */
    method ConsumeWhitespace(stopOnNewline: bool) returns (comments: Option<string>, version: Option<string>)
      requires Valid()
      modifies this
      ensures Valid()
      ensures (Gobbled(comments, version), State()) == ConsumeWhitespaceSpec(old(State()), stopOnNewline)
    {
      comments, version := None, None;
      var linebreakSinceComment := true;
      ghost var goal := ConsumeWhitespaceSpec(State(), stopOnNewline);
      while true
        invariant Valid()
        invariant goal == ScanWs(State(), stopOnNewline, comments, linebreakSinceComment)
        decreases |original| - pos
      {
        var step := WhitespaceRound(stopOnNewline);
        match step {
          case StopScan =>
            break;
          case SkipNewline =>
            linebreakSinceComment := true;
          case Version(text, _) =>
            version := Some(text);
            break;
          case Comment(text, _, lineComment) =>
            if lineComment {
              linebreakSinceComment := true;
            }
            if comments.None? {
              comments := Some("");
            }
            comments := Some(comments.value + (if linebreakSinceComment then "" else "\n") + text);
            linebreakSinceComment := false;
        }
      }
    }
  }

  // ---------------------------------------------------------------------------
  // The builder

  /** `FSOBuilderListState`: how the enclosing list is rendered. */
  datatype ListState = MultilineList | InlineList

  /** The text of several appends, in order. */
  function Concat(parts: seq<string>): string {
    if parts == [] then "" else parts[0] + Concat(parts[1..])
  }

  lemma {:induction false} ConcatSnoc(parts: seq<string>, x: string)
    ensures Concat(parts + [x]) == Concat(parts) + x
  {
    if parts == [] {
      assert [] + [x] == [x];
      assert Concat([x]) == x + Concat([]);
    } else {
      assert (parts + [x])[0] == parts[0];
      assert (parts + [x])[1..] == parts[1..] + [x];
      ConcatSnoc(parts[1..], x);
    }
  }

  /** `FSOTableBuilder`: an append-only buffer and the list-mode stack of its state. */
  class TableBuilder {
    var buffer: string
    var listState: seq<ListState>
    /** Every text appended so far, in order. */
    ghost var appended: seq<string>

    ghost predicate Valid()
      reads this
    {
      buffer == Concat(appended)
    }

    constructor ()
      ensures Valid()
      ensures buffer == "" && appended == [] && listState == []
    {
      buffer := "";
      listState := [];
      appended := [];
    }

    /** `append(content)`. */
    method Append(content: string)
      requires Valid()
      modifies this`buffer, this`appended
      ensures Valid()
      ensures buffer == old(buffer) + content
      ensures appended == old(appended) + [content]
      ensures listState == old(listState)
    {
      ConcatSnoc(appended, content);
      buffer := buffer + content;
      appended := appended + [content];
    }

    /** `spew`: the text of all appends, in order. */
    method Spew() returns (r: string)
      requires Valid()
      ensures r == Concat(appended)
    {
      r := buffer;
    }
  }
}
