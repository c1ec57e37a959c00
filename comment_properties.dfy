/**
 * How `consume_whitespace` (fso_tables/src/fso_table.rs) gathers several
 * comments into the one text it returns.
 */
module CommentProperties {
  import opened Wrappers
  import opened Text
  import opened FsoTable
  import opened WhitespaceProperties

  /** A line comment consumes its own line feed, even with `stop_on_newline`. */
  lemma {:induction false} LineCommentTakesItsNewline(st: St, c: string, rest: string)
    requires LineCommentText(c) && st.rest == c + ['\n'] + rest
    requires AtScanStop(rest, true)
    ensures ConsumeWhitespaceSpec(st, true) == (Gobbled(Some(c), None), St(rest, st.line + 1))
  {
    LineCommentRound(st, true, c, rest);
    ScanWsComment(st, true, None, true);
    FirstComment(c);
    ScanWsAtStop(St(rest, st.line + 1), true, Some(c), false);
  }

  /** A line comment first in the scan starts the gathered text and moves to the next line. */
  lemma {:induction false} FirstLineComment(st: St, stop: bool, a: string, tail: string)
    requires LineCommentText(a) && st.rest == a + ['\n'] + tail
    ensures ScanWs(st, stop, None, true) == ScanWs(St(tail, st.line + 1), stop, Some(a), false)
  {
    ScanWsLineComment(st, stop, None, true, a, tail);
    FirstComment(a);
  }

  /** A line comment right after another one is appended to it, and the scan moves to the next line. */
  lemma {:induction false} NextLineComment(st: St, stop: bool, a: string, b: string, rest: string)
    requires LineCommentText(b) && st.rest == b + ['\n'] + rest
    ensures ScanWs(st, stop, Some(a), false) == ScanWs(St(rest, st.line + 1), stop, Some(a + b), false)
  {
    ScanWsLineComment(st, stop, Some(a), false, b, rest);
    JoinedComment(a, b);
  }

  lemma Regroup(a: string, b: string, rest: string)
    ensures a + ['\n'] + b + ['\n'] + rest == a + ['\n'] + (b + ['\n'] + rest)
  {
  }

  /**
   * Consecutive line comments are joined with no separator at all, and the
   * scan goes on after the second one's line feed as if one comment had been read.
   */
  lemma {:induction false} LineCommentsJoined(st: St, stop: bool, a: string, b: string, rest: string)
    requires LineCommentText(a) && LineCommentText(b)
    requires st.rest == a + ['\n'] + b + ['\n'] + rest
    ensures ScanWs(st, stop, None, true) == ScanWs(St(rest, st.line + 2), stop, Some(a + b), false)
  {
    var tail := b + ['\n'] + rest;
    Regroup(a, b, rest);
    FirstLineComment(st, stop, a, tail);
    NextLineComment(St(tail, st.line + 1), stop, a, b, rest);
  }

  /** Two line comments and then nothing to skip: the scan returns them joined. */
  lemma {:induction false} TwoLineComments(st: St, stop: bool, a: string, b: string, rest: string)
    requires LineCommentText(a) && LineCommentText(b)
    requires st.rest == a + ['\n'] + b + ['\n'] + rest
    requires AtScanStop(rest, stop)
    ensures ConsumeWhitespaceSpec(st, stop) == (Gobbled(Some(a + b), None), St(rest, st.line + 2))
  {
    LineCommentsJoined(st, stop, a, b, rest);
    ScanWsAtStop(St(rest, st.line + 2), stop, Some(a + b), false);
  }

  /** A block comment right after another comment is put on a line of its own. */
  lemma {:induction false} BlockCommentsSeparated(st: St, stop: bool, d: char, x: string, y: string, rest: string)
    requires d == '/' || d == '!'
    requires Find(x, ['*', d]).None? && Find(y, ['*', d]).None?
    requires st.rest == [d, '*'] + x + ['*', d] + [d, '*'] + y + ['*', d] + rest
    requires AtScanStop(rest, stop)
    ensures var a := [d, '*'] + x + ['*', d];
      var b := [d, '*'] + y + ['*', d];
      ScanWs(st, stop, None, true).0 == Gobbled(Some(a + "\n" + b), None)
  {
    var a := [d, '*'] + x + ['*', d];
    var b := [d, '*'] + y + ['*', d];
    var tail := [d, '*'] + y + ['*', d] + rest;
    assert st.rest == [d, '*'] + x + ['*', d] + tail;
    ScanWsBlockComment(st, stop, None, true, d, x, tail);
    FirstComment(a);
    var st2 := AfterRound(st, stop);
    ScanWsBlockComment(st2, stop, Some(a), false, d, y, rest);
    var st3 := AfterRound(st2, stop);
    SeparatedComment(a, b);
    ScanWsAtStop(st3, stop, Some(a + "\n" + b), false);
  }
}
