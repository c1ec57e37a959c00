/**
 * The scalar codecs of the table engine (fso_tables/src/basic_types.rs):
 * `String`, `bool` and the integer types, plus the lexeme scan that the
 * float types share with them.
 *
 * Each parse is a specification function over the cursor state `St` and a
 * method over `TableParser` proved to follow it; each spew is a method that
 * appends to a `TableBuilder`.
 */
module BasicTypes {
  import opened Wrappers
  import opened Text
  import opened FsoTable
  import opened ScannerProperties

  // ---------------------------------------------------------------------------
  // String

  /** `String::parse`: skip whitespace, commas and quotes, then read to the end of the line or a quote. */
  function ParseStringSpec(st: St): (r: (Result<string, ParseError>, St))
    ensures r.0.Ok?
    ensures forall k :: 0 <= k < |r.0.value| ==> !LineEnd(r.0.value[k], ['"'])
    ensures |r.0.value| > 0 ==> !IsWhitespace(r.0.value[|r.0.value| - 1])
  {
    var st1 := Advance(st, InlineWsLen(st.rest, ['"']));
    var span := LineSpan(st1.rest, ['"']);
    LineResultProperties(st1.rest, ['"']);
    (Ok(st1.rest[..span.0]), Advance(st1, span.1))
  }

  method ParseString(p: TableParser) returns (r: Result<string, ParseError>)
    requires p.Valid()
    modifies p
    ensures p.Valid()
    ensures (r, p.State()) == ParseStringSpec(old(p.State()))
  {
    p.ConsumeWhitespaceInline(['"']);
    var result := p.ReadUntilLastWhitespaceOfLineOrStop(['"']);
    r := Ok(result);
  }

  /** What `String::spew` appends: quoted inside an inline list, raw elsewhere. */
  function StringText(listState: seq<ListState>, s: string): (r: string)
    ensures |listState| > 0 && listState[|listState| - 1] == InlineList ==> |r| == |s| + 2 && r[0] == '"' && r[|r| - 1] == '"' && r[1..|r| - 1] == s
    ensures !(|listState| > 0 && listState[|listState| - 1] == InlineList) ==> r == s
  {
    if |listState| > 0 && listState[|listState| - 1] == InlineList then "\"" + s + "\"" else s
  }

  method SpewString(b: TableBuilder, s: string)
    requires b.Valid()
    modifies b`buffer, b`appended
    ensures b.Valid()
    ensures b.buffer == old(b.buffer) + StringText(b.listState, s)
    ensures b.listState == old(b.listState)
  {
    if |b.listState| > 0 && b.listState[|b.listState| - 1] == InlineList {
      b.Append("\"" + s + "\"");
    } else {
      b.Append(s);
    }
  }

  /** A string that survives a round trip: one line, no quote or `;`, no whitespace or comma at its start or its end. */
  predicate PlainLine(s: string) {
    && |s| > 0
    && !InlineWsChar(s[0], ['"'])
    && !IsWhitespace(s[|s| - 1])
    && (forall k :: 0 <= k < |s| ==> !LineEnd(s[k], ['"']))
  }

  /** The scan of a plain line stops at the first line end after it. */
  lemma {:induction false} LineSpanOfPlain(s: string, t: string)
    requires PlainLine(s)
    requires t == [] || LineEnd(t[0], ['"'])
    ensures LineSpan(s + t, ['"']) == (|s|, if t != [] && t[0] == '"' then |s| + 1 else |s|)
  {
    LineScanPlain(s, t, 0, 0, 0);
  }

  lemma {:induction false} LineScanPlain(s: string, t: string, i: nat, last: nat, until: nat)
    requires PlainLine(s)
    requires t == [] || LineEnd(t[0], ['"'])
    requires i <= |s| && last <= until <= i
    requires i == |s| ==> last == |s| && until == |s|
    ensures LineScan(s + t, ['"'], i, last, until) == (|s|, if t != [] && t[0] == '"' then |s| + 1 else |s|)
    decreases |s| + |t| - i
  {
    var u := s + t;
    if i < |s| {
      assert u[i] == s[i];
      if i == |s| - 1 {
        LineScanPlain(s, t, i + 1, i + 1, i + 1);
      } else if !IsWhitespace(s[i]) {
        LineScanPlain(s, t, i + 1, i + 1, i + 1);
      } else {
        LineScanPlain(s, t, i + 1, last, until);
      }
    } else if t != [] {
      assert u[i] == t[0];
    }
  }

  /** A plain line, or the empty string, spewed outside an inline list reads back whole, up to the line end after it. */
  lemma {:induction false} StringRoundTripRaw(listState: seq<ListState>, s: string, t: string, line: nat)
    requires !(|listState| > 0 && listState[|listState| - 1] == InlineList)
    requires s == [] || PlainLine(s)
    requires t == [] || t[0] == '\n' || t[0] == ';'
    ensures ParseStringSpec(St(StringText(listState, s) + t, line)) == (Ok(s), St(t, line))
  {
    assert StringText(listState, s) == s;
    if s == [] {
      assert s + t == t;
      assert InlineWsLen(t, ['"']) == 0;
      assert LineSpan(t, ['"']) == (0, 0);
      assert t[..0] == [] && t[0..] == t;
      return;
    }
    var u := s + t;
    assert u[0] == s[0];
    assert InlineWsLen(u, ['"']) == 0;
    assert u[0..] == u;
    LineSpanOfPlain(s, t);
    assert u[..|s|] == s;
    assert u[|s|..] == t;
    assert '\n' !in s by {
      forall k | 0 <= k < |s| ensures s[k] != '\n' {
        assert !LineEnd(s[k], ['"']);
      }
    }
    assert u[..0] == [];
  }

  /** After the opening quote, a plain line reads up to its closing quote, which is consumed with it. */
  lemma {:induction false} QuotedTail(s: string, t: string, line: nat)
    requires PlainLine(s)
    ensures var v := s + ("\"" + t);
      && LineSpan(v, ['"']) == (|s|, |s| + 1)
      && v[..|s|] == s
      && Advance(St(v, line), |s| + 1) == St(t, line)
  {
    var v := s + ("\"" + t);
    LineSpanOfPlain(s, "\"" + t);
    assert v[..|s|] == s;
    assert v[|s| + 1..] == t;
    assert '\n' !in s by {
      forall k | 0 <= k < |s| ensures s[k] != '\n' {
        assert !LineEnd(s[k], ['"']);
      }
    }
    assert v[..|s| + 1] == s + "\"";
    NewlinesAppend(s, "\"");
  }

  /** Inside an inline list a plain string is spewed in quotes and reads back whole, closing quote consumed. */
  lemma {:induction false} StringRoundTripInline(listState: seq<ListState>, s: string, t: string, line: nat)
    requires |listState| > 0 && listState[|listState| - 1] == InlineList
    requires PlainLine(s)
    ensures ParseStringSpec(St(StringText(listState, s) + t, line)) == (Ok(s), St(t, line))
  {
    assert StringText(listState, s) + t == "\"" + s + "\"" + t;
    QuotedRoundTrip(s, t, line);
  }

  /** A plain line in quotes reads back whole, closing quote consumed. */
  lemma {:induction false} QuotedRoundTrip(s: string, t: string, line: nat)
    requires PlainLine(s)
    ensures ParseStringSpec(St("\"" + s + "\"" + t, line)) == (Ok(s), St(t, line))
  {
    var u := "\"" + s + "\"" + t;
    var v := s + ("\"" + t);
    assert u[1..] == v;
    assert u[0] == '"' && u[1] == s[0];
    assert InlineWsLen(u, ['"']) == 1;
    assert u[..1] == "\"";
    assert Advance(St(u, line), 1) == St(v, line);
    QuotedTail(s, t, line);
  }

  // ---------------------------------------------------------------------------
  // bool

  /** The keyword a token stands for, case-insensitively. */
  function BoolKeyword(token: string): (r: Option<bool>)
    ensures r.Some? ==> 2 <= |token| <= 5
  {
    var lower := ToLower(token);
    if lower == "yes" || lower == "true" || lower == "on" then KeywordLetters(token); Some(true)
    else if lower == "no" || lower == "false" || lower == "off" then KeywordLetters(token); Some(false)
    else None
  }

  predicate AsciiLetter(c: char) {
    'a' <= c <= 'z' || 'A' <= c <= 'Z'
  }

  /** A keyword, whatever its case, is two to five ASCII letters. */
  lemma {:induction false} KeywordLetters(token: string)
    requires ToLower(token) in {"yes", "true", "on", "no", "false", "off"}
    ensures 2 <= |token| <= 5 && forall k :: 0 <= k < |token| ==> AsciiLetter(token[k])
  {
    var lower := ToLower(token);
    forall k | 0 <= k < |token| ensures AsciiLetter(token[k]) {
      assert lower[k] == ToLowerChar(token[k]);
      assert 'a' <= lower[k] <= 'z' by {
        if lower == "yes" {
          assert k == 0 || k == 1 || k == 2;
        } else if lower == "true" {
          assert k == 0 || k == 1 || k == 2 || k == 3;
        } else if lower == "on" {
          assert k == 0 || k == 1;
        } else if lower == "no" {
          assert k == 0 || k == 1;
        } else if lower == "false" {
          assert k == 0 || k == 1 || k == 2 || k == 3 || k == 4;
        } else {
          assert k == 0 || k == 1 || k == 2;
        }
      }
    }
  }

  /** `bool::parse`: one token, read up to whitespace or a comma, as a keyword. */
  function ParseBoolSpec(st: St): (r: (Result<bool, ParseError>, St))
    ensures var st1 := Advance(st, InlineWsLen(st.rest, []));
      var token := st1.rest[..TokenLen(st1.rest)];
      && r.1 == Advance(st1, |token|)
      && (r.0.Ok? <==> BoolKeyword(token).Some?)
      && (r.0.Ok? ==> Some(r.0.value) == BoolKeyword(token))
      && (r.0.Err? ==> r.0.error.reason == "Expected boolean value, got " + token + "." && r.0.error.line == st.line)
  {
    var st1 := Advance(st, InlineWsLen(st.rest, []));
    var n := TokenLen(st1.rest);
    var token := st1.rest[..n];
    var st2 := Advance(st1, n);
    assert '\n' !in st.rest[..InlineWsLen(st.rest, [])] by {
      forall k | 0 <= k < InlineWsLen(st.rest, []) ensures st.rest[k] != '\n' {
        assert InlineWsChar(st.rest[k], []);
      }
    }
    assert '\n' !in token by {
      forall k | 0 <= k < n ensures token[k] != '\n' {
        assert TokenChar(st1.rest[k]);
      }
    }
    match BoolKeyword(token)
    case Some(b) => (Ok(b), st2)
    case None => (Err(ParseError(st2.line, "Expected boolean value, got " + token + ".", None, None)), st2)
  }

  method ParseBool(p: TableParser) returns (r: Result<bool, ParseError>)
    requires p.Valid()
    modifies p
    ensures p.Valid()
    ensures (r, p.State()) == ParseBoolSpec(old(p.State()))
  {
    p.ConsumeWhitespaceInline([]);
    var result := p.ReadUntilWhitespace();
    var lower := ToLower(result);
    if lower == "yes" || lower == "true" || lower == "on" {
      r := Ok(true);
    } else if lower == "no" || lower == "false" || lower == "off" {
      r := Ok(false);
    } else {
      r := Err(ParseError(p.line, "Expected boolean value, got " + result + ".", None, None));
    }
  }

  /** What `bool::spew` appends. */
  function BoolText(value: bool): (r: string)
    ensures BoolKeyword(r) == Some(value)
  {
    if value then assert ToLower("YES") == "yes"; "YES"
    else assert ToLower("NO") == "no"; "NO"
  }

  method SpewBool(b: TableBuilder, value: bool)
    requires b.Valid()
    modifies b`buffer, b`appended
    ensures b.Valid()
    ensures b.buffer == old(b.buffer) + BoolText(value)
    ensures b.listState == old(b.listState)
  {
    b.Append(if value then "YES" else "NO");
  }

  /** A spewed bool reads back as itself, the keyword consumed and the separator after it left. */
  lemma {:induction false} BoolRoundTrip(value: bool, t: string, line: nat)
    requires t == [] || !TokenChar(t[0])
    ensures ParseBoolSpec(St(BoolText(value) + t, line)) == (Ok(value), St(t, line))
  {
    var w := BoolText(value);
    var u := w + t;
    assert u[0] == w[0];
    assert InlineWsLen(u, []) == 0;
    assert u[0..] == u;
    TokenExact(w, t);
    assert u[..|w|] == w;
    assert u[|w|..] == t;
    assert ToLower(w) == if value then "yes" else "no";
    assert Newlines(w) == 0;
  }

  /** Tokens that differ only in the case of their letters are the same keyword, or both none. */
  lemma {:induction false} BoolKeywordIgnoresCase(t: string, u: string)
    requires |t| == |u| && forall k :: 0 <= k < |t| ==> ToLowerChar(t[k]) == ToLowerChar(u[k])
    ensures BoolKeyword(t) == BoolKeyword(u)
  {
    assert ToLower(t) == ToLower(u);
  }

  /** A token is read as its lower-case form would be: the match does not depend on case. */
  lemma {:induction false} BoolKeywordCaseless(t: string)
    ensures BoolKeyword(t) == BoolKeyword(ToLower(t))
  {
    forall k | 0 <= k < |t| ensures ToLowerChar(t[k]) == ToLowerChar(ToLower(t)[k]) {
      assert ToLower(t)[k] == ToLowerChar(t[k]);
    }
    BoolKeywordIgnoresCase(t, ToLower(t));
  }

  // ---------------------------------------------------------------------------
  // Numbers

  /** The numeric types the table engine reads. */
  datatype NumKind = I32 | I64 | U32 | U64 | F32 | F64 {
    /** `allow_dot`: only the float types take a decimal point. */
    predicate AllowDot() { this == F32 || this == F64 }
    /** `allow_minus`: the unsigned types never take a minus sign. */
    predicate AllowMinus() { this != U32 && this != U64 }
    /** The word in the error reasons. */
    function Word(): string { if AllowDot() then "float" else "int" }
    /** The values the integer type holds. */
    predicate InRange(v: int) {
      match this
      case I32 => -0x8000_0000 <= v < 0x8000_0000
      case I64 => -0x8000_0000_0000_0000 <= v < 0x8000_0000_0000_0000
      case U32 => 0 <= v < 0x1_0000_0000
      case U64 => 0 <= v < 0x1_0000_0000_0000_0000
      case _ => false
    }
  }

  /** A parsed number; a float keeps its lexeme, its value is not modelled. */
  datatype Number = IntNum(value: int) | FloatNum(lexeme: string)

  /**
   * The scanning loop of `parse_number` from `count` chars on, `haveDot`
   * being `have_dot`: digits anywhere, a sign only first, one dot unless
   * `haveDot`. Returns the final `to_consume`.
   */
  function LexemeScan(s: string, count: nat, haveDot: bool, allowMinus: bool): (n: nat)
    requires count <= |s|
    ensures count <= n <= |s|
    decreases |s| - count
  {
    if count == |s| then count
    else
      var c := s[count];
      if IsDigit(c) || ((c == '+' || (c == '-' && allowMinus)) && count == 0) then LexemeScan(s, count + 1, haveDot, allowMinus)
      else if c == '.' && !haveDot then LexemeScan(s, count + 1, true, allowMinus)
      else count
  }

  /** The length of the number lexeme at the start of `s`. */
  function LexemeLen(s: string, kind: NumKind): nat {
    LexemeScan(s, 0, !kind.AllowDot(), kind.AllowMinus())
  }

  /** The chars a lexeme may hold at index `k`. */
  predicate LexemeChar(x: string, k: nat, kind: NumKind)
    requires k < |x|
  {
    IsDigit(x[k]) || (k == 0 && (x[k] == '+' || (x[k] == '-' && kind.AllowMinus()))) || (x[k] == '.' && kind.AllowDot())
  }

  /** A number lexeme: digits, a sign only first, a dot only for floats and at most one. */
  predicate ValidLexeme(x: string, kind: NumKind) {
    && (forall k :: 0 <= k < |x| ==> LexemeChar(x, k, kind))
    && (forall i, j :: 0 <= i < j < |x| && x[i] == '.' ==> x[j] != '.')
  }

  /** `<T as FromStr>::from_str` on an integer lexeme: an optional sign, then at least one digit, in range. */
  function IntFromStr(lexeme: string, kind: NumKind): (r: Option<int>)
    ensures r.Some? ==> kind.InRange(r.value) && |lexeme| > 0
    ensures r.Some? && r.value < 0 ==> lexeme[0] == '-' && kind.AllowMinus()
  {
    var signed := |lexeme| > 0 && (lexeme[0] == '+' || lexeme[0] == '-');
    var digits := if signed then lexeme[1..] else lexeme;
    if |digits| == 0 || !(forall k :: 0 <= k < |digits| ==> IsDigit(digits[k])) then None
    else if signed && lexeme[0] == '-' && !kind.AllowMinus() then None
    else
      var v: int := if signed && lexeme[0] == '-' then -(DigitsValue(digits) as int) else DigitsValue(digits);
      if kind.InRange(v) then Some(v) else None
  }

  /** `from_str` on a number lexeme; a float lexeme converts exactly when it holds a digit. */
  function NumberFromStr(lexeme: string, kind: NumKind): (r: Option<Number>)
    ensures r.Some? ==> (r.value.IntNum? <==> !kind.AllowDot())
    ensures r.Some? && r.value.IntNum? ==> kind.InRange(r.value.value)
    ensures r.Some? && r.value.FloatNum? ==> r.value.lexeme == lexeme
    ensures !kind.AllowDot() ==> (r.Some? <==> IntFromStr(lexeme, kind).Some?)
  {
    if kind.AllowDot() then
      if exists k :: 0 <= k < |lexeme| && IsDigit(lexeme[k]) then Some(FloatNum(lexeme)) else None
    else
      match IntFromStr(lexeme, kind)
      case Some(v) => Some(IntNum(v))
      case None => None
  }

  /** `parse_number(allow_dot, allow_minus)` for the type `kind`. */
  function ParseNumberSpec(st: St, kind: NumKind): (r: (Result<Number, ParseError>, St))
    ensures var st1 := Advance(st, InlineWsLen(st.rest, []));
      var n := LexemeLen(st1.rest, kind);
      && n <= |st1.rest|
      && r.1 == Advance(st1, n)
      && (n == 0 ==> r.0.Err? && r.0.error.reason == "Expected " + kind.Word() + ", got " + st1.rest[..Min(4, |st1.rest|)] + "!")
      && (n > 0 ==> (r.0.Ok? <==> NumberFromStr(st1.rest[..n], kind).Some?))
      && (r.0.Ok? ==> Some(r.0.value) == NumberFromStr(st1.rest[..n], kind))
      && (n > 0 && r.0.Err? ==> r.0.error.reason == "Expected " + kind.Word() + ", got " + st1.rest[..n] + "!")
  {
    var st1 := Advance(st, InlineWsLen(st.rest, []));
    var n := LexemeLen(st1.rest, kind);
    if n == 0 then
      AdvanceZero(st1);
      (Err(ParseError(st1.line, "Expected " + kind.Word() + ", got " + st1.rest[..Min(4, |st1.rest|)] + "!", None, None)), st1)
    else
      var lexeme := st1.rest[..n];
      var st2 := Advance(st1, n);
      match NumberFromStr(lexeme, kind)
      case Some(v) => (Ok(v), st2)
      case None => (Err(ParseError(st2.line, "Expected " + kind.Word() + ", got " + lexeme + "!", None, None)), st2)
  }

  /** The scanning loop of `parse_number`: how many chars of `current` form the lexeme. */
  method ScanLexeme(current: string, kind: NumKind) returns (toConsume: nat)
    ensures toConsume == LexemeLen(current, kind)
  {
    var haveDot := !kind.AllowDot();
    toConsume := 0;
    while toConsume < |current|
      invariant toConsume <= |current|
      invariant LexemeLen(current, kind) == LexemeScan(current, toConsume, haveDot, kind.AllowMinus())
      decreases |current| - toConsume
    {
      var c := current[toConsume];
      if IsDigit(c) || ((c == '+' || (c == '-' && kind.AllowMinus())) && toConsume == 0) {
        toConsume := toConsume + 1;
      } else if c == '.' && !haveDot {
        toConsume := toConsume + 1;
        haveDot := true;
      } else {
        break;
      }
    }
  }

  method ParseNumber(p: TableParser, kind: NumKind) returns (r: Result<Number, ParseError>)
    requires p.Valid()
    modifies p
    ensures p.Valid()
    ensures (r, p.State()) == ParseNumberSpec(old(p.State()), kind)
  {
    p.ConsumeWhitespaceInline([]);
    var current := p.Get();
    var toConsume := ScanLexeme(current, kind);
    if toConsume == 0 {
      r := Err(ParseError(p.line, "Expected " + kind.Word() + ", got " + current[..Min(4, |current|)] + "!", None, None));
      return;
    }
    p.Consume(toConsume);
    var lexeme := current[..toConsume];
    var value := NumberFromStr(lexeme, kind);
    match value {
      case Some(v) => r := Ok(v);
      case None => r := Err(ParseError(p.line, "Expected " + kind.Word() + ", got " + lexeme + "!", None, None));
    }
  }

  /** One more char keeps a lexeme valid exactly when it may stand there and is not a second dot. */
  lemma {:induction false} LexemeSnoc(x: string, c: char, kind: NumKind)
    ensures ValidLexeme(x + [c], kind) <==> ValidLexeme(x, kind) && LexemeChar(x + [c], |x|, kind) && (c == '.' ==> '.' !in x)
  {
    var y := x + [c];
    assert forall k :: 0 <= k < |x| ==> y[k] == x[k];
    assert forall k :: 0 <= k < |x| ==> (LexemeChar(y, k, kind) <==> LexemeChar(x, k, kind));
    if c == '.' && '.' in x {
      var i :| 0 <= i < |x| && x[i] == '.';
      assert y[i] == '.' && y[|x|] == '.';
    }
  }

  /** A char the scanning loop takes extends a valid lexeme to a valid lexeme. */
  lemma {:induction false} LexemeGrows(x: string, c: char, haveDot: bool, kind: NumKind)
    requires ValidLexeme(x, kind)
    requires haveDot <==> (!kind.AllowDot() || '.' in x)
    requires IsDigit(c) || ((c == '+' || (c == '-' && kind.AllowMinus())) && |x| == 0) || (c == '.' && !haveDot)
    ensures ValidLexeme(x + [c], kind)
    ensures haveDot || c == '.' <==> (!kind.AllowDot() || '.' in x + [c])
  {
    LexemeSnoc(x, c, kind);
    assert (x + [c])[|x|] == c;
    assert '.' in x + [c] <==> '.' in x || c == '.';
  }

  /** A char the scanning loop stops at would not extend the lexeme to a valid one. */
  lemma {:induction false} LexemeStops(x: string, c: char, haveDot: bool, kind: NumKind)
    requires haveDot <==> (!kind.AllowDot() || '.' in x)
    requires !(IsDigit(c) || ((c == '+' || (c == '-' && kind.AllowMinus())) && |x| == 0) || (c == '.' && !haveDot))
    ensures !ValidLexeme(x + [c], kind)
  {
    LexemeSnoc(x, c, kind);
    assert (x + [c])[|x|] == c;
  }

  /** The scanning loop keeps a valid lexeme, and stops only where one more char would not be one. */
  lemma {:induction false} LexemeScanShape(s: string, count: nat, haveDot: bool, kind: NumKind)
    requires count <= |s|
    requires ValidLexeme(s[..count], kind)
    requires haveDot <==> (!kind.AllowDot() || '.' in s[..count])
    ensures var n := LexemeScan(s, count, haveDot, kind.AllowMinus());
      && ValidLexeme(s[..n], kind)
      && (n < |s| ==> !ValidLexeme(s[..n + 1], kind))
    decreases |s| - count
  {
    if count < |s| {
      var c := s[count];
      assert s[..count + 1] == s[..count] + [c];
      if IsDigit(c) || ((c == '+' || (c == '-' && kind.AllowMinus())) && count == 0) || (c == '.' && !haveDot) {
        LexemeGrows(s[..count], c, haveDot, kind);
        LexemeScanShape(s, count + 1, haveDot || c == '.', kind);
      } else {
        LexemeStops(s[..count], c, haveDot, kind);
      }
    }
  }

  /**
   * The lexeme `parse_number` consumes is a valid number lexeme for `kind`
   * (digits, a sign only first, one dot and only for floats), and the longest
   * such prefix the scan can reach.
   */
  lemma {:induction false} LexemeShape(s: string, kind: NumKind)
    ensures var n := LexemeLen(s, kind);
      && ValidLexeme(s[..n], kind)
      && (n < |s| ==> !ValidLexeme(s[..n + 1], kind))
  {
    assert s[..0] == [];
    LexemeScanShape(s, 0, !kind.AllowDot(), kind);
  }

  /** Past the first char the scan takes exactly a run of digits, an integer type's dot ending it too. */
  lemma {:induction false} LexemeScanDigits(u: string, count: nat, end: nat, allowMinus: bool)
    requires 0 < count <= end <= |u|
    requires forall k :: count <= k < end ==> IsDigit(u[k])
    requires end == |u| || !IsDigit(u[end])
    ensures LexemeScan(u, count, true, allowMinus) == end
    decreases end - count
  {
    if count < end {
      LexemeScanDigits(u, count + 1, end, allowMinus);
    }
  }

  /** `to_string` of an integer. */
  function IntToString(v: int): (r: string)
    ensures |r| > 0 && (r[0] == '-' <==> v < 0)
    ensures forall k :: (if v < 0 then 1 else 0) <= k < |r| ==> IsDigit(r[k])
  {
    if v < 0 then "-" + NatToString(-v) else NatToString(v)
  }

  method SpewInt(b: TableBuilder, v: int)
    requires b.Valid()
    modifies b`buffer, b`appended
    ensures b.Valid()
    ensures b.buffer == old(b.buffer) + IntToString(v)
    ensures b.listState == old(b.listState)
  {
    b.Append(IntToString(v));
  }

  /** The lexeme the scan finds at the front of `to_string(v)` is all of it. */
  lemma {:induction false} IntLexeme(kind: NumKind, v: int, t: string)
    requires !kind.AllowDot() && kind.InRange(v)
    requires t == [] || !IsDigit(t[0])
    ensures LexemeLen(IntToString(v) + t, kind) == |IntToString(v)|
  {
    var w := IntToString(v);
    var u := w + t;
    assert forall k :: 0 <= k < |w| ==> u[k] == w[k];
    if |w| < |u| {
      assert u[|w|] == t[0];
    }
    assert forall k :: 1 <= k < |w| ==> IsDigit(u[k]);
    assert v < 0 ==> kind.AllowMinus();
    assert u[0] == '-' || IsDigit(u[0]);
    assert LexemeScan(u, 0, true, kind.AllowMinus()) == LexemeScan(u, 1, true, kind.AllowMinus());
    LexemeScanDigits(u, 1, |w|, kind.AllowMinus());
  }

  /** `from_str` reads `to_string(v)` back as `v`. */
  lemma {:induction false} IntFromStrOf(kind: NumKind, v: int)
    requires !kind.AllowDot() && kind.InRange(v)
    ensures IntFromStr(IntToString(v), kind) == Some(v)
  {
    var w := IntToString(v);
    var n: nat := if v < 0 then -v else v;
    var digits := NatToString(n);
    NatToStringValue(n);
    if v < 0 {
      assert w[1..] == digits;
    } else {
      assert w == digits;
      assert IsDigit(w[0]);
    }
  }

  /** An integer type's value spewed with `to_string` reads back as itself, the separator after it left. */
  lemma {:induction false} IntRoundTrip(kind: NumKind, v: int, t: string, line: nat)
    requires !kind.AllowDot() && kind.InRange(v)
    requires t == [] || !IsDigit(t[0])
    ensures ParseNumberSpec(St(IntToString(v) + t, line), kind) == (Ok(IntNum(v)), St(t, line))
  {
    var w := IntToString(v);
    var u := w + t;
    assert u[0] == w[0];
    assert w[0] == '-' || IsDigit(w[0]);
    IntLexeme(kind, v, t);
    IntFromStrOf(kind, v);
    assert u[..|w|] == w;
    assert u[|w|..] == t;
    assert '\n' !in w by {
      forall k | 0 <= k < |w| ensures w[k] != '\n' {
        assert k == 0 || IsDigit(w[k]);
      }
    }
    ParseNumberAt(St(u, line), kind, |w|, IntNum(v));
  }

  /** A number right at the cursor, with no line feed in its lexeme, reads as what its lexeme converts to. */
  lemma {:induction false} ParseNumberAt(st: St, kind: NumKind, n: nat, x: Number)
    requires st.rest != [] && !InlineWsChar(st.rest[0], [])
    requires 0 < n == LexemeLen(st.rest, kind)
    requires NumberFromStr(st.rest[..n], kind) == Some(x)
    requires '\n' !in st.rest[..n]
    ensures ParseNumberSpec(st, kind) == (Ok(x), St(st.rest[n..], st.line))
  {
    assert InlineWsLen(st.rest, []) == 0;
    AdvanceZero(st);
  }
}
