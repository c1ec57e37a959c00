/**
 * Properties of the comment and version loop of `consume_whitespace`
 * (fso_tables/src/fso_table.rs), one round at a time and for the whole loop.
 */
module WhitespaceProperties {
  import opened Wrappers
  import opened Text
  import opened FsoTable
  import opened ScannerProperties

  /** The first comment captured is kept as it is. */
  lemma {:induction false} FirstComment(c: string)
    ensures AddComment(None, false, c) == Some(c)
  {
    var e: string := None.GetOr("");
    assert e == [];
    assert e + [] + c == c;
  }

  /** One round that captures a comment, unfolded. */
  lemma {:induction false} ScanWsComment(st: St, stop: bool, comments: Option<string>, linebreak: bool)
    requires RoundStep(st, stop).Comment?
    ensures var step := RoundStep(st, stop);
      ScanWs(st, stop, comments, linebreak)
      == ScanWs(AfterRound(st, stop), stop, AddComment(comments, !(linebreak || step.lineComment), step.text), false)
  {
  }

  // ---------------------------------------------------------------------------
  // consume_whitespace: version markers

  /** The run of digits and dots in front of a non-version char is the one measured. */
  lemma {:induction false} VersionRunExact(x: string, y: string)
    requires forall i :: 0 <= i < |x| ==> VersionChar(x[i])
    requires y == [] || !VersionChar(y[0])
    ensures VersionRunLen(x + y) == |x|
  {
    if x != [] {
      assert (x + y)[1..] == x[1..] + y;
      VersionRunExact(x[1..], y);
    } else {
      assert x + y == y;
    }
  }

  /** Every version marker is recognised, with its full length. */
  lemma {:induction false} VersionMatchComplete(s: string, m: nat)
    requires m <= |s| && VersionForm(s[..m])
    ensures VersionMatch(s) == Some(m)
  {
    var v := s[..m];
    var x := v[6..m - 2];
    assert StartsWith(s, ";;FSO ") by {
      assert s[..6] == v[..6];
    }
    assert x == s[6..m - 2] && 6 + |x| == m - 2;
    assert s[6..] == s[6..m - 2] + s[m - 2..];
    assert s[m - 2] == v[m - 2];
    VersionRunExact(x, s[m - 2..]);
    assert s[m - 2..][..2] == v[m - 2..];
  }

  /** A version marker holds no `;` between its opening and closing `;;`. */
  lemma {:induction false} VersionInnerHasNoSemicolon(v: string)
    requires VersionForm(v)
    ensures forall k :: 2 <= k < |v| - 2 ==> v[k] != ';'
  {
    var x := v[6..|v| - 2];
    forall k | 6 <= k < |v| - 2 ensures v[k] != ';' {
      assert VersionChar(x[k - 6]);
    }
  }

  /** The first `;;` after the opening one of a marker is its closing `;;`. */
  lemma {:induction false} VersionCloseFound(s: string, m: nat)
    requires m <= |s| && VersionForm(s[..m])
    ensures m >= 4 && ContentSize(s[2..], ";;") == m - 4
    ensures ReadUntilTargetCount(s[2..], ";;", true) == m - 2
  {
    var v := s[..m];
    var u := s[2..];
    VersionInnerHasNoSemicolon(v);
    forall j | 0 <= j < m - 4 ensures !OccursAt(u, ";;", j) {
      assert u[j] == v[j + 2];
      assert u[j..j + 2][0] == u[j];
    }
    assert v[m - 2..] == ";;";
    assert u[m - 4..m - 2] == v[m - 2..];
    FindFirst(u, ";;", m - 4);
  }

  /** A marker is `;;`, its inner text and `;;`. */
  lemma {:induction false} VersionFrame(v: string)
    requires VersionForm(v)
    ensures v == ";;" + v[2..|v| - 2] + ";;"
  {
    assert v[..2] == v[..6][..2];
    assert v == v[..2] + v[2..|v| - 2] + v[|v| - 2..];
  }

  /** A marker at the start of `s` is returned whole: `;;`, its inner text and the closing `;;`. */
  lemma {:induction false} VersionStepWhole(s: string, m: nat)
    requires m <= |s| && VersionForm(s[..m])
    ensures VersionStep(s) == Version(s[..m], m)
  {
    VersionCloseFound(s, m);
    VersionFrame(s[..m]);
    assert s[2..][..m - 4] == s[..m][2..m - 2];
  }

  /** Only the version arm of a round yields a version step. */
  lemma {:induction false} VersionArm(s: string, stop: bool)
    requires WsStepAt(s, stop).Version?
    ensures |s| >= 2 && VersionMatch(s).Some? && WsStepAt(s, stop) == VersionStep(s)
  {
  }

  /** A version step takes a whole marker off the front of the text, and consumes exactly it. */
  lemma {:induction false} VersionStepSplits(s: string, m: nat)
    requires m <= |s| && VersionForm(s[..m])
    ensures |s| >= 2
    ensures VersionForm(VersionStep(s).text)
    ensures |VersionStep(s).text| == VersionStep(s).count <= |s|
    ensures s == VersionStep(s).text + s[VersionStep(s).count..]
  {
    VersionStepWhole(s, m);
    assert s == s[..m] + s[m..];
  }

  /** `v` sits in `s` right in front of its suffix `rest`. */
  predicate JustBefore(s: string, v: string, rest: string) {
    |v| + |rest| <= |s| && s[|s| - |rest| - |v|..] == v + rest
  }

  lemma {:induction false} JustBeforeInSuffix(s: string, k: nat, v: string, rest: string)
    requires k <= |s| && JustBefore(s[k..], v, rest)
    ensures JustBefore(s, v, rest)
  {
    assert s[|s| - |rest| - |v|..] == s[k..][|s| - k - |rest| - |v|..];
  }

  /** The version arm of one round: the marker, then what follows it. */
  lemma {:induction false} VersionRound(st: St, stop: bool)
    requires RoundStep(st, stop).Version?
    ensures VersionForm(RoundStep(st, stop).text)
    ensures JustBefore(st.rest, RoundStep(st, stop).text, AfterRound(st, stop).rest)
  {
    var st1 := AfterInline(st);
    var step := RoundStep(st, stop);
    VersionArm(st1.rest, stop);
    VersionStepSplits(st1.rest, VersionMatch(st1.rest).value);
    var rest := AfterRound(st, stop).rest;
    assert rest == st1.rest[step.count..];
    assert JustBefore(st1.rest, step.text, rest);
    JustBeforeInSuffix(st.rest, InlineWsLen(st.rest, []), step.text, rest);
  }

  /**
   * A version returned by the loop of `consume_whitespace` has the form
   * `;;FSO <digits>(.<digits>)+;;`, and the scan stops right after it: the
   * remaining text is what followed the marker in the input.
   */
  lemma {:induction false} ScanWsVersion(st: St, stop: bool, comments: Option<string>, linebreak: bool)
    ensures var r := ScanWs(st, stop, comments, linebreak);
      r.0.version.Some? ==> VersionForm(r.0.version.value) && JustBefore(st.rest, r.0.version.value, r.1.rest)
    decreases |st.rest|
  {
    var next := AfterRound(st, stop);
    var k := |st.rest| - |next.rest|;
    assert next.rest == st.rest[k..];
    match RoundStep(st, stop)
    case StopScan =>
    case SkipNewline =>
      ScanWsVersion(next, stop, comments, true);
      var r := ScanWs(next, stop, comments, true);
      if r.0.version.Some? {
        JustBeforeInSuffix(st.rest, k, r.0.version.value, r.1.rest);
      }
    case Version(text, count) =>
      VersionRound(st, stop);
    case Comment(text, count, lineComment) =>
      var c := AddComment(comments, !(linebreak || lineComment), text);
      ScanWsVersion(next, stop, c, false);
      var r := ScanWs(next, stop, c, false);
      if r.0.version.Some? {
        JustBeforeInSuffix(st.rest, k, r.0.version.value, r.1.rest);
      }
  }

  // ---------------------------------------------------------------------------
  // consume_whitespace: where the scan stops

  /** A state where a round of `consume_whitespace` consumes nothing and ends the loop. */
  predicate AtScanStop(rest: string, stop: bool) {
    InlineWsLen(rest, []) == 0 && WsStepAt(rest, stop) == StopScan
  }

  /** Without a version, the loop ends where a round consumes nothing. */
  lemma {:induction false} ScanWsEndsAtStop(st: St, stop: bool, comments: Option<string>, linebreak: bool)
    ensures var r := ScanWs(st, stop, comments, linebreak);
      r.0.version.None? ==> AtScanStop(r.1.rest, stop)
    decreases |st.rest|
  {
    var next := AfterRound(st, stop);
    match RoundStep(st, stop)
    case StopScan =>
      var st1 := AfterInline(st);
      AdvanceZero(st1);
      assert next == st1;
      InlineWsIdempotent(st.rest, []);
    case SkipNewline =>
      ScanWsEndsAtStop(next, stop, comments, true);
    case Version(_, _) =>
    case Comment(text, _, lineComment) =>
      ScanWsEndsAtStop(next, stop, AddComment(comments, !(linebreak || lineComment), text), false);
  }

  /** From a stopping point, the loop returns at once with nothing gathered and nothing consumed. */
  lemma {:induction false} ScanWsAtStop(st: St, stop: bool, comments: Option<string>, linebreak: bool)
    requires AtScanStop(st.rest, stop)
    ensures ScanWs(st, stop, comments, linebreak) == (Gobbled(comments, None), st)
  {
    AdvanceZero(st);
  }

  /**
   * When `consume_whitespace` returns no version, calling it again at once
   * returns `(None, None)` and leaves the cursor where it is.
   */
  lemma {:induction false} ConsumeWhitespaceIdempotent(st: St, stop: bool)
    requires ConsumeWhitespaceSpec(st, stop).0.version.None?
    ensures var st2 := ConsumeWhitespaceSpec(st, stop).1;
      ConsumeWhitespaceSpec(st2, stop) == (Gobbled(None, None), st2)
  {
    ScanWsEndsAtStop(st, stop, None, true);
    ScanWsAtStop(ConsumeWhitespaceSpec(st, stop).1, stop, None, true);
  }

  /** Without a version the scan stops at the end of input, at a line feed only when asked to, or at other text. */
  lemma {:induction false} StopPoint(st: St, stop: bool)
    requires AtScanStop(st.rest, stop)
    ensures st.rest == [] || (st.rest[0] == '\n' && stop) || (st.rest[0] != '\n' && !IsWhitespace(st.rest[0]) && st.rest[0] != ',' && st.rest[0] != ';')
  {
  }

  /** With `stop_on_newline`, a line feed after inline whitespace is left for the caller. */
  lemma {:induction false} StopOnNewlineLeavesNewline(st: St)
    requires InlineWsLen(st.rest, []) < |st.rest| && st.rest[InlineWsLen(st.rest, [])] == '\n'
    ensures var r := ConsumeWhitespaceSpec(st, true);
      r == (Gobbled(None, None), AfterInline(st)) && r.1.rest[0] == '\n' && r.1.line == st.line
  {
    var k := InlineWsLen(st.rest, []);
    InlineWsNoNewline(st.rest, []);
    AdvanceZero(AfterInline(st));
  }

  // ---------------------------------------------------------------------------
  // consume_whitespace: comments

  /** `"*" + d` does not occur in `body + "*" + d` before `body`'s end when it does not occur in `body`. */
  lemma {:induction false} CloseOnlyAtEnd(body: string, d: char, j: nat)
    requires d != '*'
    requires Find(body, ['*', d]).None?
    requires j < |body|
    ensures !OccursAt(body + ['*', d], ['*', d], j)
  {
    var u := body + ['*', d];
    if j + 1 < |body| {
      assert !OccursAt(body, ['*', d], j);
      assert body[j..j + 2] == u[j..j + 2];
    } else {
      assert u[j..j + 2][1] == '*';
    }
  }

  /** A block comment is captured verbatim, delimiters included, when its body holds no closing delimiter. */
  lemma {:induction false} BlockCommentVerbatim(body: string, d: char, rest: string)
    requires d == '/' || d == '!'
    requires Find(body, ['*', d]).None?
    ensures var s := [d, '*'] + body + ['*', d] + rest;
      BlockCommentStep(s) == Comment([d, '*'] + body + ['*', d], |body| + 4, false)
  {
    var s := [d, '*'] + body + ['*', d] + rest;
    var u := s[2..];
    assert u == (body + ['*', d]) + rest;
    forall j | 0 <= j < |body| ensures !OccursAt(u, ['*', d], j) {
      CloseOnlyAtEnd(body, d, j);
      assert u[j..j + 2] == (body + ['*', d])[j..j + 2];
    }
    assert u[|body|..|body| + 2] == ['*', d];
    FindFirst(u, ['*', d], |body|);
    assert u[..|body|] == body;
    assert BlockCommentStep(s) == Comment([d, '*'] + body + ['*', d], |body| + 4, false);
  }

  /** No version marker starts where the second char is not `;`. */
  lemma {:induction false} NoVersionAt(s: string)
    requires |s| >= 2 && s[1] != ';'
    ensures !StartsWith(s, ";;FSO ") && VersionMatch(s).None?
  {
    assert ";;FSO "[1] == ';';
  }

  /** A `;` comment that is not a version marker, or a `//` comment, without its line feed. */
  predicate LineCommentText(c: string) {
    && ((|c| >= 1 && c[0] == ';' && VersionMatch(c).None?) || (|c| >= 2 && c[0] == '/' && c[1] == '/'))
    && '\n' !in c
  }

  /** A text without a line feed that starts at `j` of a line and what follows lies within the line. */
  lemma {:induction false} StartsBeforeLineFeed(c: string, rest: string, j: nat, p: string)
    requires j <= |c| && '\n' !in p
    requires StartsWith((c + ['\n'] + rest)[j..], p)
    ensures StartsWith(c[j..], p)
  {
    var s := c + ['\n'] + rest;
    assert s[|c|] == '\n';
    if j + |p| <= |c| {
      assert c[j..][..|p|] == s[j..][..|p|];
    }
  }

  /**
   * A version marker holds no line feed, so a line that does not start with
   * one does not start with one once its line feed and the lines after it follow.
   */
  lemma {:induction false} NoVersionAcrossLine(c: string, rest: string)
    requires '\n' !in c && VersionMatch(c).None?
    ensures VersionMatch(c + ['\n'] + rest).None?
  {
    var s := c + ['\n'] + rest;
    if StartsWith(s, ";;FSO ") {
      assert s[0..] == s && c[0..] == c;
      StartsBeforeLineFeed(c, rest, 0, ";;FSO ");
      var m := VersionRunLen(c[6..]);
      var y := c[6 + m..] + ['\n'] + rest;
      assert s[6..] == c[6..6 + m] + y;
      assert !VersionChar(y[0]) by {
        if 6 + m < |c| {
          assert y[0] == c[6..][m];
        }
      }
      VersionRunExact(c[6..6 + m], y);
      assert s[6..6 + m] == c[6..6 + m];
      if DottedNumber(c[6..6 + m]) && StartsWith(s[6 + m..], ";;") {
        assert s[6 + m..] == (c + ['\n'] + rest)[6 + m..];
        StartsBeforeLineFeed(c, rest, 6 + m, ";;");
      }
    }
  }

  /** The line comment arm reads up to the first line feed and takes it too. */
  lemma {:induction false} LineCommentStepOf(c: string, rest: string)
    requires LineCommentText(c)
    ensures LineCommentStep(c + ['\n'] + rest) == Comment(c, |c| + 1, true)
  {
    var s := c + ['\n'] + rest;
    forall j | 0 <= j < |c| ensures !OccursAt(s, "\n", j) {
      assert s[j..j + 1][0] == c[j];
    }
    assert s[|c|..|c| + 1] == "\n";
    FindFirst(s, "\n", |c|);
    assert s[..|c|] == c;
  }

  /** A round at a line comment takes the comment and its line feed. */
  lemma {:induction false} LineCommentRound(st: St, stop: bool, c: string, rest: string)
    requires LineCommentText(c) && st.rest == c + ['\n'] + rest
    ensures RoundStep(st, stop) == Comment(c, |c| + 1, true)
    ensures AfterRound(st, stop) == St(rest, st.line + 1)
  {
    var s := st.rest;
    assert s[0] == c[0];
    if c[0] == '/' {
      assert s[1] == c[1];
    }
    assert InlineWsLen(s, []) == 0;
    AdvanceZero(st);
    if c[0] == ';' {
      NoVersionAcrossLine(c, rest);
    }
    assert WsStepAt(s, stop) == LineCommentStep(s);
    LineCommentStepOf(c, rest);
    assert s[..|c| + 1] == c + "\n";
    NewlinesAppend(c, "\n");
    assert s[|c| + 1..] == rest;
  }

  /**
   * A line comment on the last line with no line feed after it. As written,
   * `read_until_target` then asks to consume one char more than is left (and
   * the slice in `consume` panics); in the model the comment runs to the end
   * of the input and the loop stops there.
   */
  lemma {:induction false} LineCommentAtEndOfInput(st: St, stop: bool)
    requires LineCommentText(st.rest)
    ensures ReadUntilTargetRequest(st.rest, "\n", true) == |st.rest| + 1
    ensures RoundStep(st, stop) == Comment(st.rest, |st.rest|, true)
    ensures ConsumeWhitespaceSpec(st, stop) == (Gobbled(Some(st.rest), None), St([], st.line))
  {
    var s := st.rest;
    assert InlineWsLen(s, []) == 0;
    AdvanceZero(st);
    FindNewlineAbsent(s);
    assert s[..|s|] == s && s[|s|..] == [];
    assert Newlines(s) == 0;
    var next := AfterRound(st, stop);
    assert next == St([], st.line);
    ScanWsComment(st, stop, None, true);
    FirstComment(s);
    ScanWsAtStop(next, stop, Some(s), false);
  }

  /** A later comment without a line break before it is joined on directly. */
  lemma {:induction false} JoinedComment(a: string, c: string)
    ensures AddComment(Some(a), false, c) == Some(a + c)
  {
    assert a + "" + c == a + c;
  }

  /** A round at a block comment takes it whole. */
  lemma {:induction false} BlockCommentRound(st: St, stop: bool, d: char, body: string, rest: string)
    requires d == '/' || d == '!'
    requires Find(body, ['*', d]).None?
    requires st.rest == [d, '*'] + body + ['*', d] + rest
    ensures RoundStep(st, stop) == Comment([d, '*'] + body + ['*', d], |body| + 4, false)
    ensures AfterRound(st, stop).rest == rest
  {
    var s := st.rest;
    assert s[0] == d && s[1] == '*';
    assert InlineWsLen(s, []) == 0;
    AdvanceZero(st);
    BlockCommentVerbatim(body, d, rest);
    assert s[|body| + 4..] == rest;
  }

  /** A later comment after a line break is put on a line of its own. */
  lemma {:induction false} SeparatedComment(a: string, c: string)
    ensures AddComment(Some(a), true, c) == Some(a + "\n" + c)
  {
  }

  /** The loop across a line comment: the comment is joined on, the line advances past its line feed. */
  lemma {:induction false} ScanWsLineComment(st: St, stop: bool, comments: Option<string>, linebreak: bool, c: string, rest: string)
    requires LineCommentText(c) && st.rest == c + ['\n'] + rest
    ensures ScanWs(st, stop, comments, linebreak) == ScanWs(St(rest, st.line + 1), stop, AddComment(comments, false, c), false)
  {
    LineCommentRound(st, stop, c, rest);
    ScanWsComment(st, stop, comments, linebreak);
  }

  /** The loop across a block comment: it is added after a line feed unless one came since the last comment. */
  lemma {:induction false} ScanWsBlockComment(st: St, stop: bool, comments: Option<string>, linebreak: bool, d: char, body: string, rest: string)
    requires d == '/' || d == '!'
    requires Find(body, ['*', d]).None?
    requires st.rest == [d, '*'] + body + ['*', d] + rest
    ensures AfterRound(st, stop).rest == rest
    ensures ScanWs(st, stop, comments, linebreak)
      == ScanWs(AfterRound(st, stop), stop, AddComment(comments, !linebreak, [d, '*'] + body + ['*', d]), false)
  {
    BlockCommentRound(st, stop, d, body, rest);
    ScanWsComment(st, stop, comments, linebreak);
  }
}
