/**
 * Properties of the scanners of the table cursor (fso_tables/src/fso_table.rs),
 * stated over the specification functions the `TableParser` methods are
 * proved to follow.
 */
module ScannerProperties {
  import opened Wrappers
  import opened Text
  import opened FsoTable

  // ---------------------------------------------------------------------------
  // consume

  /** The line only grows, and by exactly one for every consumed line feed. */
  lemma {:induction false} AdvanceLines(st: St, count: nat)
    requires count <= |st.rest|
    ensures Advance(st, count).line >= st.line
    ensures '\n' !in st.rest[..count] ==> Advance(st, count).line == st.line
    ensures st.rest == st.rest[..count] + Advance(st, count).rest
  {
  }

  // ---------------------------------------------------------------------------
  // consume_whitespace_inline and read_until_whitespace

  /** Inline whitespace never crosses a line feed. */
  lemma {:induction false} InlineWsNoNewline(s: string, also: seq<char>)
    requires '\n' !in also
    ensures '\n' !in s[..InlineWsLen(s, also)]
  {
    var n := InlineWsLen(s, also);
    forall i | 0 <= i < n ensures s[..n][i] != '\n' {
      assert InlineWsChar(s[i], also);
    }
  }

  /** A second `consume_whitespace_inline` consumes nothing. */
  lemma {:induction false} InlineWsIdempotent(s: string, also: seq<char>)
    ensures InlineWsLen(s[InlineWsLen(s, also)..], also) == 0
  {
  }

  /** Any prefix of inline whitespace chars ending before a non-inline char is the one consumed. */
  lemma {:induction false} InlineWsExact(x: string, y: string, also: seq<char>)
    requires forall i :: 0 <= i < |x| ==> InlineWsChar(x[i], also)
    requires y == [] || !InlineWsChar(y[0], also)
    ensures InlineWsLen(x + y, also) == |x|
  {
    if x != [] {
      assert (x + y)[1..] == x[1..] + y;
      InlineWsExact(x[1..], y, also);
    } else {
      assert x + y == y;
    }
  }

  /** The token `read_until_whitespace` takes is the one in front of a separator. */
  lemma {:induction false} TokenExact(x: string, y: string)
    requires forall i :: 0 <= i < |x| ==> TokenChar(x[i])
    requires y == [] || !TokenChar(y[0])
    ensures TokenLen(x + y) == |x|
  {
    if x != [] {
      assert (x + y)[1..] == x[1..] + y;
      TokenExact(x[1..], y);
    } else {
      assert x + y == y;
    }
  }

  // ---------------------------------------------------------------------------
  // read_until_target

  /** The first occurrence of `t` is the one `Find` reports. */
  lemma {:induction false} FindFirst(s: string, t: string, i: nat)
    requires OccursAt(s, t, i)
    requires forall j :: 0 <= j < i ==> !OccursAt(s, t, j)
    ensures Find(s, t) == Some(i)
  {
  }

  /** With `t` present, `read_until_target(t, true)` returns the text before it and consumes that text and `t`. */
  lemma {:induction false} ReadUntilTargetFound(s: string, t: string)
    requires Find(s, t).Some?
    ensures var n := ContentSize(s, t);
      && ReadUntilTargetCount(s, t, true) == n + |t|
      && s[..n + |t|] == s[..n] + t
      && forall j :: 0 <= j < n ==> !OccursAt(s, t, j)
  {
    var n := ContentSize(s, t);
    assert s[..n + |t|] == s[..n] + s[n..n + |t|];
  }

  /**
   * As written, `read_until_target(t, true)` with `t` absent asks `consume`
   * for more than is left, so the slice in `consume` panics.
   */
  lemma {:induction false} ReadUntilTargetOverrun(s: string, t: string)
    requires Find(s, t).None? && |t| > 0
    ensures ReadUntilTargetRequest(s, t, true) > |s|
    ensures ReadUntilTargetCount(s, t, true) == |s|
  {
  }

  /** `"\n"` does not occur in `s`. */
  lemma {:induction false} FindNewlineAbsent(s: string)
    requires '\n' !in s
    ensures Find(s, "\n").None?
  {
    forall j | 0 <= j <= |s| ensures !OccursAt(s, "\n", j) {
      if j < |s| {
        assert s[j..j + 1][0] == s[j];
      }
    }
  }

  // ---------------------------------------------------------------------------
  // read_until_last_whitespace_of_line_or_stop

  /** The invariant of the scanning loop, for any start index up to the first line end. */
  lemma {:induction false} LineScanShape(s: string, stops: seq<char>, i: nat, last: nat, until: nat)
    requires i <= LineEndIndex(s, stops)
    requires last <= i && until == last
    requires last > 0 ==> !IsWhitespace(s[last - 1])
    requires forall k :: last <= k < i ==> IsWhitespace(s[k])
    ensures var e := LineEndIndex(s, stops);
      var r := LineScan(s, stops, i, last, until);
      && r.0 <= e
      && (r.0 > 0 ==> !IsWhitespace(s[r.0 - 1]))
      && (forall k :: r.0 <= k < e ==> IsWhitespace(s[k]))
      && r.1 == (if e < |s| && s[e] in stops then e + 1 else r.0)
    decreases |s| - i
  {
    var e := LineEndIndex(s, stops);
    if i == |s| {
    } else if i == e {
      assert LineEnd(s[i], stops);
    } else {
      assert !LineEnd(s[i], stops);
      if !IsWhitespace(s[i]) {
        LineScanShape(s, stops, i + 1, i + 1, i + 1);
      } else {
        LineScanShape(s, stops, i + 1, last, until);
      }
    }
  }

  /**
   * What `read_until_last_whitespace_of_line_or_stop` returns: the text up to
   * the first line feed, `;` or stop char, without its trailing whitespace.
   * It consumes that text and, when the scan ended at a stop char, everything
   * up to and including that char.
   */
  lemma {:induction false} LineSpanShape(s: string, stops: seq<char>)
    ensures var e := LineEndIndex(s, stops);
      var (last, until) := LineSpan(s, stops);
      && last <= e
      && (last > 0 ==> !IsWhitespace(s[last - 1]))
      && (forall k :: last <= k < e ==> IsWhitespace(s[k]))
      && until == (if e < |s| && s[e] in stops then e + 1 else last)
  {
    LineScanShape(s, stops, 0, 0, 0);
  }

  /**
   * The returned text holds no line feed, `;` or stop char and does not end
   * in whitespace; at least as much is consumed as is returned, and a stop
   * char ending the scan is consumed but not returned.
   */
  lemma {:induction false} LineResultProperties(s: string, stops: seq<char>)
    ensures var (last, until) := LineSpan(s, stops);
      && (forall k :: 0 <= k < last ==> s[k] != '\n' && s[k] != ';' && s[k] !in stops)
      && (last > 0 ==> !IsWhitespace(s[last - 1]))
      && last <= until
      && (until > last ==> s[until - 1] in stops && s[until - 1] !in s[..last])
  {
    LineSpanShape(s, stops);
    var e := LineEndIndex(s, stops);
    var (last, until) := LineSpan(s, stops);
    if until > last {
      assert until == e + 1;
      assert forall k :: 0 <= k < last ==> s[..last][k] != s[e];
    }
  }
}
