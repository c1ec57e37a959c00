# fso-tables in Dafny

A model of the table engine of `fso_tables`. The engine reads FreeSpace Open
(FSO) table files into Rust values and writes Rust values back out as table
text. The model has three layers, one per part of the engine.

- **The cursor and its scanners** (`fso_table.dfy`, module `FsoTable`). The
  cursor is `FSOTableFileParser`. In the model it is a class, `TableParser`,
  holding the input text, the consumed length and the line count. Each
  scanner is a method on that class:
  - `consume`;
  - `consume_whitespace_inline`;
  - `read_until_whitespace`;
  - `read_until_target`;
  - `read_until_last_whitespace_of_line_or_stop`;
  - `consume_string`;
  - the comment and version loop of `consume_whitespace`.

  Each method is proved to move the cursor exactly as a specification
  function over `St` says. `St` is the unconsumed text plus the current line.
  The output builder `FSOTableBuilder` is a class, `TableBuilder`, holding an
  append-only buffer. Properties of these functions are in
  `scanner_properties.dfy`, `whitespace_properties.dfy` and
  `comment_properties.dfy`.
- **The scalar codecs** (`basic_types.dfy`): `String`, `bool` and the integer
  types, and the number lexeme scan they share with the float types. Each
  codec has:
  - a specification function for its parse;
  - a method on the cursor proved to follow that function;
  - a spew method on the builder;
  - a round-trip lemma: spew, then parse, gives the value back.
- **The `fso_table` derive**, in three parts:
  - **Compile time**:
    - `typehandler.dfy` models `deduce_type`. It classifies a Rust type into the shape the generated code reads, and gives every refusal with its message.
    - `table_schema.dfy` models the decisions of `struct.rs` and `enum.rs`: the tokens, namings and field parses, the default variant, and the declarations the derive refuses.
  - **Run time**:
    - `dispatch.dfy` gives the code the derive emits as functions over `St`: the Vec loop, tuples, Options, Box-likes, records and enum variant dispatch.
    - `interpreter.dfy` gives the same code as methods that drive a `TableParser`. Each method is proved to agree with its function.
  - **Properties**: `dispatch_properties.dfy` states the run-time properties, for example:
    - a Vec never fails, and it holds the elements read before the first failure, in order;
    - a Box-like reads exactly as its content;
    - in an enum, the first matching variant token wins;
    - the exhaustion error lists every token in order.

Text is `seq<char>`, and each char stands for one ASCII byte, so byte offsets
and char counts agree. A parse failure is `ParseError(line, reason, comments,
version)`.

Three outcomes of the generated code cannot be expressed as values, so the
model returns `Stuck` for them:

- A table type has no compiled schema in the environment.
- The nesting bound `fuel` runs out.
- A list element succeeds without consuming anything. The generated `while let` loop would then repeat forever. `StringListNeverEnds` proves that a list of `String`s always ends this way: a `String` parse never fails, so the loop only stops once a read consumes nothing.

Where the code and its own comments or callers disagree, the model follows
the code:

- A named `Option` field whose token is absent emits `None()`. That is not a
  valid Rust expression. The model takes it as `None`.
- The error values built in `basic_types.rs` and in the enum exhaustion
  code leave out `comments` and `version_string`. The model sets them to
  `None`.
- `lib.rs` calls `fso_table_struct` and `fso_table_enum` with arguments
  that do not match the signatures in `struct.rs` and `enum.rs`. The model
  follows the signatures.
- The trait's `parse` takes a hanging gobble, but the scalar implementations
  do not. The model follows the scalar implementations.
- A `#[skip]` field is not read and has no value in the parsed record.

## Model

| member | source | states |
|---|---|---|
| FsoTable.Display | fso_tables/src/fso_table.rs:20-24 | the text is `Error at line `, the decimal text of the line, `: `, then the reason |
| FsoTable.DisplayReadsBack | fso_tables/src/fso_table.rs:20-24 | the shown text reads back: the digit run after the prefix has the line as its value, and `: ` and the reason follow it |
| FsoTable.AdvanceZero | fso_tables/src/fso_table.rs:218-228 | `Advance`, the model of `consume`, changes nothing for a count of zero |
| FsoTable.AdvanceAdd | fso_tables/src/fso_table.rs:218-228 | two consumes in a row equal one consume of their total, lines included |
| FsoTable.InlineWsLen | fso_tables/src/fso_table.rs:97-101 | the skipped prefix is all non-newline whitespace, commas or extra chars, and it is maximal |
| FsoTable.TokenLen | fso_tables/src/fso_table.rs:103-108 | the token is all non-whitespace, non-comma chars, and it is maximal |
| FsoTable.ContentSize | fso_tables/src/fso_table.rs:112 | the content size never exceeds the remaining text |
| FsoTable.ReadUntilTargetRequest | fso_tables/src/fso_table.rs:110-113 | the count `read_until_target` asks `consume` for: no more than is left when the target is found; when it is absent, the whole rest plus the target length if the target is to be consumed |
| FsoTable.ReadUntilTargetCount | fso_tables/src/fso_table.rs:110-115 | the count lies between the content size and the remaining length. It equals the source's request when the target is found, and the whole rest otherwise |
| FsoTable.LineScan | fso_tables/src/fso_table.rs:125-138 | the returned end never exceeds the consume count, which never exceeds the text |
| FsoTable.LineEndIndex | fso_tables/src/fso_table.rs:119-142 | the index of the first line feed, `;` or stop char, or the length of the text |
| FsoTable.LineSpan | fso_tables/src/fso_table.rs:119-142 | the returned length never exceeds the consumed length, which never exceeds the text |
| FsoTable.ConsumeStringSpec | fso_tables/src/fso_table.rs:144-153 | Ok exactly when the input starts with the expected text, which is then consumed; otherwise nothing is consumed and the error is at the current line |
| FsoTable.VersionRunLen | fso_tables/src/fso_table.rs:36 | the maximal run of digits and dots |
| FsoTable.VersionMatch | fso_tables/src/fso_table.rs:36 | a reported match is a prefix of the form `;;FSO <digits>(.<digits>)+;;` |
| FsoTable.WsStepAt | fso_tables/src/fso_table.rs:49-83 | a skipped line feed is at the front; a comment or version step consumes at least one char and no more than is left |
| FsoTable.RoundStep | fso_tables/src/fso_table.rs:41-90 | one round of the `consume_whitespace` loop after inline whitespace: a line feed is skipped only when not stopping on it, and a comment or version step consumes at least one char and no more than is left |
| FsoTable.VersionStep | fso_tables/src/fso_table.rs:56-63 | the version arm consumes at least one char and no more than is left |
| FsoTable.LineCommentStep | fso_tables/src/fso_table.rs:64-73 | a `;` or `//` comment is a line comment that consumes at least one char and no more than is left |
| FsoTable.BlockCommentStep | fso_tables/src/fso_table.rs:74-81 | a block comment is not a line comment, and it consumes at least one char and no more than is left |
| FsoTable.AfterRound | fso_tables/src/fso_table.rs:42-90 | a round never grows the text, and a line-feed or comment round strictly shrinks it, so the loop ends |
| FsoTable.AddComment | fso_tables/src/fso_table.rs:83-89 | appending a comment keeps the comments so far as a prefix and the new text as a suffix, with a line feed between them exactly when no line break came since the last comment |
| FsoTable.ScanWs | fso_tables/src/fso_table.rs:41-92 | the `consume_whitespace` loop as a function of the state: it never grows the remaining text |
| FsoTable.ConsumeWhitespaceSpec | fso_tables/src/fso_table.rs:34-93 | `consume_whitespace` from a state, starting with no comments and a line break: it never grows the remaining text |
| FsoTable.TableParser.constructor | fso_tables/src/fso_table.rs:199-202 | a fresh cursor is at the start of the text, on line 0 |
| FsoTable.TableParser.Consume | fso_tables/src/fso_table.rs:218-228 | drops `count` chars and adds the line feeds among them to the line |
| FsoTable.TableParser.ConsumeWhitespaceInline | fso_tables/src/fso_table.rs:97-101 | consumes exactly the maximal inline-whitespace prefix |
| FsoTable.TableParser.ReadUntilWhitespace | fso_tables/src/fso_table.rs:103-108 | returns the maximal token and consumes exactly it |
| FsoTable.TableParser.ReadUntilTarget | fso_tables/src/fso_table.rs:110-115 | returns the text before the first target and consumes the clamped count |
| FsoTable.TableParser.ReadUntilLastWhitespaceOfLineOrStop | fso_tables/src/fso_table.rs:119-142 | the loop's result and consumption equal `LineSpan` |
| FsoTable.TableParser.ConsumeString | fso_tables/src/fso_table.rs:144-153 | its result and new state are those of `ConsumeStringSpec` |
| FsoTable.TableParser.WhitespaceRound | fso_tables/src/fso_table.rs:43-83 | one loop round takes `RoundStep` and leaves `AfterRound` |
| FsoTable.TableParser.ReadVersion | fso_tables/src/fso_table.rs:56-63 | the version arm, moving the cursor by the step's count |
| FsoTable.TableParser.ReadLineComment | fso_tables/src/fso_table.rs:64-73 | the line comment arms, moving the cursor by the step's count |
| FsoTable.TableParser.ReadBlockComment | fso_tables/src/fso_table.rs:74-81 | the block comment arm, moving the cursor by the step's count |
| FsoTable.TableParser.ConsumeWhitespace | fso_tables/src/fso_table.rs:35-94 | the loop returns the comments and version of `ConsumeWhitespaceSpec` and leaves its state |
| FsoTable.ConcatSnoc | fso_tables/src/fso_table.rs:238-244 | the text of the appends with one more append is the old text followed by it |
| FsoTable.TableBuilder.constructor | fso_tables/src/fso_table.rs:231-235 | a fresh builder has an empty buffer and no list state |
| FsoTable.TableBuilder.Append | fso_tables/src/fso_table.rs:238-240 | the buffer grows by exactly the content, and the list state is unchanged |
| FsoTable.TableBuilder.Spew | fso_tables/src/fso_table.rs:242-244 | the output is every appended text, in order |
| Text.Newlines | fso_tables/src/fso_table.rs:223 | the line-feed count is zero exactly when the text holds no line feed, and never exceeds its length |
| Text.NewlinesAppend | fso_tables/src/fso_table.rs:223-227 | line-feed counts add over concatenation |
| Text.OccursAtZero | fso_tables/src/fso_table.rs:145 | an occurrence at index 0 is the same as `starts_with` |
| Text.Find | fso_tables/src/fso_table.rs:112 | `str::find`: an occurrence at the reported index and none before it; None exactly when no occurrence exists |
| Text.NatToString | fso_tables/src/basic_types.rs:103 | `to_string` of an unsigned value is a non-empty run of digits |
| Text.NatToStringValue | fso_tables/src/basic_types.rs:102-104 | the digits of `to_string(n)` have the value `n` |
| ScannerProperties.AdvanceLines | fso_tables/src/fso_table.rs:218-228 | the line never decreases, is unchanged when no line feed is consumed, and the text splits at the consumed count |
| ScannerProperties.InlineWsNoNewline | fso_tables/src/fso_table.rs:97-101 | inline whitespace never crosses a line feed |
| ScannerProperties.InlineWsIdempotent | fso_tables/src/fso_table.rs:97-101 | a second inline skip consumes nothing |
| ScannerProperties.InlineWsExact | fso_tables/src/fso_table.rs:97-101 | inline whitespace in front of a non-whitespace char is exactly what is skipped |
| ScannerProperties.TokenExact | fso_tables/src/fso_table.rs:103-108 | a token in front of a separator is exactly what is read |
| ScannerProperties.FindFirst | fso_tables/src/fso_table.rs:112 | the first occurrence is the one `find` reports |
| ScannerProperties.ReadUntilTargetFound | fso_tables/src/fso_table.rs:110-115 | with the target present, the text before it is returned and the text plus the target are consumed |
| ScannerProperties.ReadUntilTargetOverrun | fso_tables/src/fso_table.rs:110-115 | with the target absent, the source asks `consume` for more than is left |
| ScannerProperties.FindNewlineAbsent | fso_tables/src/fso_table.rs:65 | a text without a line feed has no `"\n"` to find |
| ScannerProperties.LineScanShape | fso_tables/src/fso_table.rs:125-138 | the scanning loop's invariant from any start index up to the first line end |
| ScannerProperties.LineSpanShape | fso_tables/src/fso_table.rs:119-142 | the returned text ends at the last non-whitespace char before the first line end; a stop char is consumed as well |
| ScannerProperties.LineResultProperties | fso_tables/src/fso_table.rs:117-142 | the returned text holds no line feed, `;` or stop char and does not end in whitespace; a stop char ending the scan is consumed but not returned |
| WhitespaceProperties.FirstComment | fso_tables/src/fso_table.rs:84-90 | the first captured comment is kept as it is |
| WhitespaceProperties.ScanWsComment | fso_tables/src/fso_table.rs:84-90 | one comment round appends the comment and continues from the state after it |
| WhitespaceProperties.VersionRunExact | fso_tables/src/fso_table.rs:36 | the run of digits and dots in front of another char is the one measured |
| WhitespaceProperties.VersionMatchComplete | fso_tables/src/fso_table.rs:36 | every version marker is recognised, with its full length |
| WhitespaceProperties.VersionInnerHasNoSemicolon | fso_tables/src/fso_table.rs:36 | no `;` lies between a marker's opening and closing `;;` |
| WhitespaceProperties.VersionStepWhole | fso_tables/src/fso_table.rs:56-62 | a version marker is returned whole, `;;` re-added at both ends |
| WhitespaceProperties.JustBeforeInSuffix | fso_tables/src/fso_table.rs:56-62 | a marker just before the rest of a suffix is just before it in the whole text |
| WhitespaceProperties.VersionRound | fso_tables/src/fso_table.rs:56-62 | the version arm yields a well-formed marker that sits right before the remaining text |
| WhitespaceProperties.VersionStepSplits | fso_tables/src/fso_table.rs:56-62 | a version step returns a whole well-formed marker, consumes exactly its length, and the text is that marker followed by the rest |
| WhitespaceProperties.VersionCloseFound | fso_tables/src/fso_table.rs:56-62 | after the opening `;;` of a marker, the first `;;` is its closing one, so the search reads exactly up to and through it |
| WhitespaceProperties.VersionFrame | fso_tables/src/fso_table.rs:56-62 | a marker is `;;`, its inner text and `;;` |
| WhitespaceProperties.ScanWsVersion | fso_tables/src/fso_table.rs:42-93 | a returned version has the marker form, and the loop stops right after it |
| WhitespaceProperties.ScanWsEndsAtStop | fso_tables/src/fso_table.rs:42-93 | without a version, the loop ends where a round consumes nothing |
| WhitespaceProperties.ScanWsAtStop | fso_tables/src/fso_table.rs:82 | from a stopping point the loop returns at once, consuming and gathering nothing |
| WhitespaceProperties.ConsumeWhitespaceIdempotent | fso_tables/src/fso_table.rs:35-94 | after a call that returned no version, a second call returns `(None, None)` and consumes nothing |
| WhitespaceProperties.StopPoint | fso_tables/src/fso_table.rs:43-82 | without a version, the loop stops only at the end of input, at a line feed when asked to stop there, or at non-whitespace other than `;` |
| WhitespaceProperties.StopOnNewlineLeavesNewline | fso_tables/src/fso_table.rs:50 | with `stop_on_newline`, a line feed after inline whitespace is left unconsumed |
| WhitespaceProperties.CloseOnlyAtEnd | fso_tables/src/fso_table.rs:74-81 | a closing delimiter not in the body is found only at the body's end |
| WhitespaceProperties.BlockCommentVerbatim | fso_tables/src/fso_table.rs:74-81 | a block comment is captured verbatim, delimiters included |
| WhitespaceProperties.NoVersionAt | fso_tables/src/fso_table.rs:56-58 | no version marker starts where the second char is not `;` |
| WhitespaceProperties.NoVersionAcrossLine | fso_tables/src/fso_table.rs:56-58 | a line that does not start with a version marker does not start with one once its line feed and later lines follow, since a marker holds no line feed |
| WhitespaceProperties.LineCommentRound | fso_tables/src/fso_table.rs:64-73 | a line-comment round captures the comment and consumes its line feed, moving to the next line |
| WhitespaceProperties.LineCommentStepOf | fso_tables/src/fso_table.rs:64-73 | for any line comment (a `;` line that is not a version marker, `;;` comments included, or a `//` line), the line-comment arm captures the text up to the first line feed and consumes that line feed too |
| WhitespaceProperties.LineCommentAtEndOfInput | fso_tables/src/fso_table.rs:64-67 | for a line comment at end of input with no line feed, the source asks for one char too many; the model captures the comment and stops at the end |
| WhitespaceProperties.JoinedComment | fso_tables/src/fso_table.rs:88 | a comment with no line break before it is joined directly |
| WhitespaceProperties.BlockCommentRound | fso_tables/src/fso_table.rs:74-81 | a block-comment round takes the whole comment |
| WhitespaceProperties.SeparatedComment | fso_tables/src/fso_table.rs:88 | a comment after a line break goes on a line of its own |
| WhitespaceProperties.ScanWsLineComment | fso_tables/src/fso_table.rs:64-90 | across a line comment, the loop joins the comment on and moves one line on |
| WhitespaceProperties.ScanWsBlockComment | fso_tables/src/fso_table.rs:74-90 | across a block comment, the loop adds it after a line feed unless a line break came since the last comment |
| CommentProperties.LineCommentTakesItsNewline | fso_tables/src/fso_table.rs:50-73 | even with `stop_on_newline`, a line comment consumes its own line feed |
| CommentProperties.LineCommentsJoined | fso_tables/src/fso_table.rs:64-90 | after two consecutive line comments the scan goes on exactly as if one comment, their concatenation, had been read, two lines further down |
| CommentProperties.FirstLineComment | fso_tables/src/fso_table.rs:64-90 | a first line comment starts the gathered comment text and the scan continues on the next line |
| CommentProperties.NextLineComment | fso_tables/src/fso_table.rs:64-90 | a further line comment is appended to the gathered text with no separator |
| CommentProperties.TwoLineComments | fso_tables/src/fso_table.rs:35-94 | two line comments followed by a stop give back their concatenation, no version, and leave the cursor two lines further down |
| CommentProperties.BlockCommentsSeparated | fso_tables/src/fso_table.rs:74-90 | a block comment right after another comment goes on a line of its own |
| BasicTypes.ParseStringSpec | fso_tables/src/basic_types.rs:6-10 | a String parse never fails; its value holds no line end or quote and has no trailing whitespace |
| BasicTypes.ParseString | fso_tables/src/basic_types.rs:6-10 | its result and new state are those of `ParseStringSpec` |
| BasicTypes.SpewString | fso_tables/src/basic_types.rs:12-21 | appends the string, quoted when the innermost list state is an inline list |
| BasicTypes.StringText | fso_tables/src/basic_types.rs:12-21 | inside an inline list the string is written with a `"` before and after it and itself between them; otherwise it is written as it is |
| BasicTypes.LineSpanOfPlain | fso_tables/src/fso_table.rs:119-142 | the scan of a plain line ends at the line end after it, taking a closing quote as well |
| BasicTypes.LineScanPlain | fso_tables/src/fso_table.rs:125-138 | the scan loop over a plain line, from any index |
| BasicTypes.StringRoundTripRaw | fso_tables/src/basic_types.rs:6-21 | for any list state whose innermost entry is not an inline list (none, or a multiline list), a spewed plain line or the empty string reads back as itself, up to the line end after it |
| BasicTypes.StringRoundTripInline | fso_tables/src/basic_types.rs:6-21 | inside an inline list, a spewed plain line reads back as itself, and the closing quote is consumed |
| BasicTypes.QuotedRoundTrip | fso_tables/src/basic_types.rs:6-9 | a plain line between two `"` reads back as itself, and the closing quote is consumed |
| BasicTypes.QuotedTail | fso_tables/src/basic_types.rs:6-21 | after the opening quote a plain string reads up to its closing quote, which is consumed, on the same line |
| BasicTypes.ParseBoolSpec | fso_tables/src/basic_types.rs:26-40 | Ok exactly when the token is a yes/true/on or no/false/off keyword, in any case; otherwise the error `Expected boolean value, got <token>.` at the current line; the token is consumed either way |
| BasicTypes.ParseBool | fso_tables/src/basic_types.rs:26-40 | its result and new state are those of `ParseBoolSpec` |
| BasicTypes.SpewBool | fso_tables/src/basic_types.rs:42-44 | appends `YES` or `NO` |
| BasicTypes.BoolText | fso_tables/src/basic_types.rs:42-44 | the text written for a bool is a keyword that reads back as the same bool |
| BasicTypes.BoolRoundTrip | fso_tables/src/basic_types.rs:26-44 | a spewed bool reads back as itself, and the separator after it is left |
| BasicTypes.BoolKeyword | fso_tables/src/basic_types.rs:29-35 | a token that matches a keyword is 2 to 5 chars long |
| BasicTypes.KeywordLetters | fso_tables/src/basic_types.rs:29-35 | a token whose lower case is one of the six keywords has 2 to 5 chars, all ASCII letters |
| BasicTypes.BoolKeywordIgnoresCase | fso_tables/src/basic_types.rs:29-35 | two tokens with the same lower case give the same answer |
| BasicTypes.BoolKeywordCaseless | fso_tables/src/basic_types.rs:29-35 | every token gives the same answer as its lower case |
| BasicTypes.LexemeScan | fso_tables/src/basic_types.rs:53-64 | the scan never shrinks the count and never passes the text |
| BasicTypes.ParseNumberSpec | fso_tables/src/basic_types.rs:47-75 | with no lexeme: `Expected int/float, got <4 chars>!`. Otherwise the lexeme is consumed, and the result is Ok exactly when `from_str` accepts it; if not, `Expected int/float, got <lexeme>!` |
| BasicTypes.IntFromStr | fso_tables/src/basic_types.rs:71 | an accepted integer lexeme is non-empty and its value is within the range of the type; a negative value has a leading `-` and a type that allows it |
| BasicTypes.NumberFromStr | fso_tables/src/basic_types.rs:71 | an `i32` lexeme gives an integer within range, accepted exactly when the integer reading accepts it; a float lexeme keeps its text |
| BasicTypes.ParseNumber | fso_tables/src/basic_types.rs:47-75 | the scanning loop's result and new state are those of `ParseNumberSpec` |
| BasicTypes.LexemeScanShape | fso_tables/src/basic_types.rs:53-64 | the loop keeps a valid lexeme and stops only where one more char would make it invalid |
| BasicTypes.LexemeSnoc | fso_tables/src/basic_types.rs:53-64 | one more char keeps a lexeme valid exactly when it may stand there and is not a second dot |
| BasicTypes.LexemeGrows | fso_tables/src/basic_types.rs:53-64 | a char the loop takes keeps the lexeme valid and records whether a dot has been seen |
| BasicTypes.LexemeStops | fso_tables/src/basic_types.rs:53-64 | a char the loop stops at would make the lexeme invalid |
| BasicTypes.ScanLexeme | fso_tables/src/basic_types.rs:53-64 | the scanning loop counts exactly the lexeme length that `LexemeScanShape` characterises |
| BasicTypes.ParseNumberAt | fso_tables/src/basic_types.rs:47-75 | a lexeme that `from_str` accepts reads as its value, the cursor moves just past it and the line is unchanged |
| BasicTypes.LexemeShape | fso_tables/src/basic_types.rs:47-64 | the consumed lexeme has digits, a sign only first, and at most one dot, only for floats; it is the longest such prefix |
| BasicTypes.LexemeScanDigits | fso_tables/src/basic_types.rs:53-64 | past the first char, the scan takes exactly a run of digits |
| BasicTypes.SpewInt | fso_tables/src/basic_types.rs:102-104 | appends `to_string` of the value |
| BasicTypes.IntToString | fso_tables/src/basic_types.rs:103 | `to_string` of an integer is non-empty, starts with `-` exactly when the value is negative, and is digits after that |
| BasicTypes.IntLexeme | fso_tables/src/basic_types.rs:53-64 | the lexeme found at the front of `to_string(v)` is all of it |
| BasicTypes.IntFromStrOf | fso_tables/src/basic_types.rs:71 | `from_str` reads `to_string(v)` back as `v` |
| BasicTypes.IntRoundTrip | fso_tables/src/basic_types.rs:97-135 | a spewed in-range integer reads back as itself, and the separator after it is left |
| TypeHandler.BoxLikeNamed | fso_tables/fso_tables_macro/src/typehandler.rs:54 | exactly the names Box, Rc, Arc, Cell and RefCell are Box-likes |
| TypeHandler.DeduceType | fso_tables/fso_tables_macro/src/typehandler.rs:17-104 | a deduced shape is allowed, and it is the shape of the very type given |
| TypeHandler.DeduceElems | fso_tables/fso_tables_macro/src/typehandler.rs:79-93 | tuple elements deduce one by one, none an Option |
| TypeHandler.TypeOf | fso_tables/fso_tables_macro/src/typehandler.rs:17-104 | the type a shape is deduced from: a tuple shape comes from a tuple type, and a direct shape from a path type with no arguments that keeps the name and the single-identifier flag |
| TypeHandler.TypesOf | fso_tables/fso_tables_macro/src/typehandler.rs:79-100 | the element types of a tuple shape, element by element |
| TypeHandler.DeduceTypeOf | fso_tables/fso_tables_macro/src/typehandler.rs:17-104 | every allowed shape is deduced back from its own type |
| TypeHandler.DeduceElemsOf | fso_tables/fso_tables_macro/src/typehandler.rs:79-100 | the elements of an allowed tuple deduce back to themselves |
| TypeHandler.DeduceTypeExactly | fso_tables/fso_tables_macro/src/typehandler.rs:17-104 | deduction gives a shape exactly when that shape is allowed and is the shape of the type |
| TypeHandler.RejectedNestings | fso_tables/fso_tables_macro/src/typehandler.rs:25-87 | a Vec of Options, an Option of an Option or a Box-like, a Box-like of an Option and an Option in a tuple are refused, each with its message |
| TableSchema.DefaultTokenRoundTrip | fso_tables/fso_tables_macro/src/struct.rs:148 | the default token is `$`, the name with its first char upper-cased (a lower-case ASCII letter becomes upper case), then `:`, and gives the name back |
| TableSchema.DefaultToken | fso_tables/fso_tables_macro/src/struct.rs:148 | the default token is two chars longer than the name: `$`, the first char upper-cased (never a lower-case ASCII letter), the rest of the name, then `:` |
| TableSchema.DefaultTokenInjective | fso_tables/fso_tables_macro/src/struct.rs:148 | distinct lower-case field names get distinct default tokens |
| TableSchema.FieldNaming | fso_tables/fso_tables_macro/src/struct.rs:147-158 | `unnamed` wins over `existence`; the token is `fso_name`, or the default token |
| TableSchema.CompileField | fso_tables/fso_tables_macro/src/struct.rs:26-86 | a field compiles exactly when its type deduces and any existence field is the single identifier `bool`; a deduction error is passed on; an existence field of any other type, including a longer path such as `std::primitive::bool`, fails with the `bool` message |
| TableSchema.Unskipped | fso_tables/fso_tables_macro/src/struct.rs:139-141 | only unskipped fields of the struct remain |
| TableSchema.CompileFields | fso_tables/fso_tables_macro/src/struct.rs:10-101 | the given fields compile in order, one schema per field, and succeed exactly when each one does |
| TableSchema.CompileStruct | fso_tables/fso_tables_macro/src/struct.rs:103-210 | a struct compiles exactly when its unskipped fields do, keeping its start and end markers |
| TableSchema.CompiledRecordFields | fso_tables/fso_tables_macro/src/struct.rs:73-84 | a compiled record holds the unskipped fields in order under their own names, every shape allowed and every existence flag a plain `bool` |
| TableSchema.CompileVariantFields | fso_tables/fso_tables_macro/src/enum.rs:8-42 | fields compile exactly when each is named and, outside the default variant, its type deduces; each field is read as a token, an optional value or a value |
| TableSchema.DefaultCheck | fso_tables/fso_tables_macro/src/enum.rs:59-75 | `use_as_default_string` is accepted exactly on the last variant with one field |
| TableSchema.VariantToken | fso_tables/fso_tables_macro/src/enum.rs:56 | the variant token is the prefix, the variant name and the suffix, in that order |
| TableSchema.CompileVariant | fso_tables/fso_tables_macro/src/enum.rs:55-98 | a variant compiles exactly when the default check passes and every field is named and, outside the default variant, deduces; the schema keeps the name, the token, the default flag and one field per declared field; a default-check error is passed on |
| TableSchema.CompileVariantsFrom | fso_tables/fso_tables_macro/src/enum.rs:55-101 | the variants compile in order, and succeed exactly when each one does |
| TableSchema.CompileEnum | fso_tables/fso_tables_macro/src/enum.rs:44-128 | an enum compiles exactly when every variant does, one schema per variant |
| TableSchema.CompiledEnumShape | fso_tables/fso_tables_macro/src/enum.rs:55-98 | every variant is announced by prefix, name and suffix; only the last can be the default, which has one field read as a token |
| TableSchema.UnnamedVariantFieldRefused | fso_tables/fso_tables_macro/src/enum.rs:36-38 | a variant with an unnamed field makes the enum fail to compile |
| TableSchema.FailMessageLists | fso_tables/fso_tables_macro/src/enum.rs:49-57 | the accumulated message lists the tokens in order, each followed by `, ` |
| TableSchema.ExhaustionMessageShape | fso_tables/fso_tables_macro/src/enum.rs:103-112 | the exhaustion reason is `Expected one of `, the tokens, `got `, and at most 20 chars of the input |
| TableSchema.ExhaustionMessage | fso_tables/fso_tables_macro/src/enum.rs:103-112 | the exhaustion reason is `Expected one of `, the token list, `got `, at most 20 chars of the input and `.` |
| TableSchema.TokenListAt | fso_tables/fso_tables_macro/src/enum.rs:57 | each token sits in the list at the offset of the tokens before it |
| TableSchema.OccursAfter | fso_tables/fso_tables_macro/src/enum.rs:57 | an occurrence in a suffix is an occurrence in the whole text, shifted |
| Dispatch.ParseScalar | fso_tables/fso_tables_macro/src/typehandler.rs:75-76 | a scalar parse never ends stuck and never moves the cursor back |
| Dispatch.SkipInline | fso_tables/fso_tables_macro/src/typehandler.rs:34 | an inline skip never moves the cursor back |
| Dispatch.ParseShape | fso_tables/fso_tables_macro/src/typehandler.rs:17-104 | the generated code for a shape never moves the cursor back |
| Dispatch.ParseNamed | fso_tables/fso_tables_macro/src/typehandler.rs:65-76 | parsing a named type, as a scalar or as a table, never moves the cursor back |
| Dispatch.VecLoop | fso_tables/fso_tables_macro/src/typehandler.rs:31-41 | the Vec loop never moves the cursor back |
| Dispatch.TupleFrom | fso_tables/fso_tables_macro/src/typehandler.rs:94-99 | the tuple code never moves the cursor back |
| Dispatch.ParseTable | fso_tables/fso_tables_macro/src/typehandler.rs:66 | a table parse never moves the cursor back |
| Dispatch.Marker | fso_tables/fso_tables_macro/src/struct.rs:178-195 | a table marker never moves the cursor back |
| Dispatch.ParseRecord | fso_tables/fso_tables_macro/src/struct.rs:197-206 | a record parse never moves the cursor back |
| Dispatch.RecordClose | fso_tables/fso_tables_macro/src/struct.rs:187-192 | reading the end marker after the fields never moves the cursor back |
| Dispatch.FieldsFrom | fso_tables/fso_tables_macro/src/struct.rs:17-98 | the field sequence never moves the cursor back |
| Dispatch.FieldStep | fso_tables/fso_tables_macro/src/struct.rs:20-86 | one field never moves the cursor back |
| Dispatch.FieldBody | fso_tables/fso_tables_macro/src/struct.rs:26-86 | the value part of one field never moves the cursor back |
| Dispatch.ParseEnum | fso_tables/fso_tables_macro/src/enum.rs:119-124 | an enum parse never moves the cursor back |
| Dispatch.Tokens | fso_tables/fso_tables_macro/src/enum.rs:56 | the variant tokens, in declaration order |
| Dispatch.VariantsFrom | fso_tables/fso_tables_macro/src/enum.rs:80-98 | the variant probes never move the cursor back |
| Dispatch.VariantFieldsFrom | fso_tables/fso_tables_macro/src/enum.rs:8-39 | the variant's fields never move the cursor back |
| DispatchProperties.BoxTransparent | fso_tables/fso_tables_macro/src/typehandler.rs:54-64 | a Box-like reads exactly as its content: same success, failure and consumption, the value wrapped |
| DispatchProperties.VecLoopNeverFails | fso_tables/fso_tables_macro/src/typehandler.rs:31-41 | the Vec loop never fails, and the elements it already has stay first |
| DispatchProperties.VecNeverFails | fso_tables/fso_tables_macro/src/typehandler.rs:31-41 | a Vec never fails: a failing element only ends the list |
| DispatchProperties.VecLoopElements | fso_tables/fso_tables_macro/src/typehandler.rs:35-38 | the loop returns the elements read before the first failure, in input order, then skips `)` |
| DispatchProperties.VecLoopMore | fso_tables/fso_tables_macro/src/typehandler.rs:35-38 | from any element on, the loop collects the remaining elements in order |
| DispatchProperties.VecLoopAdvance | fso_tables/fso_tables_macro/src/typehandler.rs:35-38 | one successful element moves the loop to the state just after it with that element appended |
| DispatchProperties.ChainStep | fso_tables/fso_tables_macro/src/typehandler.rs:35-38 | the first value of a run of elements is the first element read, which consumes something |
| DispatchProperties.VecLoopStep | fso_tables/fso_tables_macro/src/typehandler.rs:35-38 | an element that succeeds and consumes something is kept and the loop goes on after it |
| DispatchProperties.VecLoopLast | fso_tables/fso_tables_macro/src/typehandler.rs:35-38 | the first element that fails ends the list, returning what was gathered and skipping `)` |
| DispatchProperties.VecElements | fso_tables/fso_tables_macro/src/typehandler.rs:31-41 | a whole Vec: `(` skipped, the elements up to the first failure, then `)` skipped |
| DispatchProperties.VecEmpty | fso_tables/fso_tables_macro/src/typehandler.rs:31-41 | a first element that fails gives the empty list |
| DispatchProperties.StringListNeverEnds | fso_tables/fso_tables_macro/src/typehandler.rs:35-37 | a list of Strings never ends: the loop always reaches a read that consumes nothing |
| DispatchProperties.StringLoopStuck | fso_tables/fso_tables_macro/src/typehandler.rs:35-37 | the String element loop, from any state, ends stuck |
| DispatchProperties.TupleFromValues | fso_tables/fso_tables_macro/src/typehandler.rs:79-99 | a tuple that succeeds from the `i`th element holds, after the values already read, one value per remaining element: the value each element reads where the previous one stopped; `)` is skipped after the last |
| DispatchProperties.TupleValues | fso_tables/fso_tables_macro/src/typehandler.rs:79-99 | a tuple that succeeds holds one value per element, read in order starting after `(`, and the cursor ends after the `)` that follows the last |
| DispatchProperties.TupleFromChain | fso_tables/fso_tables_macro/src/typehandler.rs:83-99 | elements that each read a value where the previous one stopped make the tuple succeed with those values in order, then `)` is skipped |
| DispatchProperties.TupleElements | fso_tables/fso_tables_macro/src/typehandler.rs:79-99 | a whole tuple: `(` skipped, every element read in order, then `)` skipped, gives the tuple of those values |
| DispatchProperties.TupleElementFails | fso_tables/fso_tables_macro/src/typehandler.rs:89-92 | a failing element fails the tuple where it failed |
| DispatchProperties.NamedFieldMissing | fso_tables/fso_tables_macro/src/struct.rs:42-47 | a missing token fails a named non-Option field at the current line |
| DispatchProperties.OptionalFieldAbsent | fso_tables/fso_tables_macro/src/struct.rs:30-40 | a named Option field whose token is absent is None, and the probe consumes nothing |
| DispatchProperties.OptionalFieldPresent | fso_tables/fso_tables_macro/src/struct.rs:30-36 | a named Option field whose token is present must parse: Some of the value, or the failure of the record |
| DispatchProperties.UnnamedOptionalFails | fso_tables/fso_tables_macro/src/struct.rs:53-63 | an unnamed Option field that fails is None; what it consumed stays consumed |
| DispatchProperties.ExistenceField | fso_tables/fso_tables_macro/src/struct.rs:73-78 | an existence field is true exactly when its token is present, and the token is consumed |
| DispatchProperties.FieldsFromValues | fso_tables/fso_tables_macro/src/struct.rs:17-98 | fields that succeed from the `i`th on hold, after the values already read, the value each field reads where the previous one stopped, and the cursor ends after the last |
| DispatchProperties.FieldValuesStep | fso_tables/fso_tables_macro/src/struct.rs:17-98 | the values after one field extend, by that field's value, to the values from that field on |
| DispatchProperties.FieldsFromChain | fso_tables/fso_tables_macro/src/struct.rs:17-98 | fields that each read a value where the previous one stopped make the record succeed with those values in declaration order, the cursor after the last |
| DispatchProperties.FieldFailureFails | fso_tables/fso_tables_macro/src/struct.rs:44-46 | a failing field fails the record where it failed, and the later fields are not read |
| DispatchProperties.RecordValues | fso_tables/fso_tables_macro/src/struct.rs:197-206 | a record that succeeds had its start marker, holds one value per unskipped field, each read in declaration order where the previous one stopped, and then had its end marker, after which the cursor stands |
| DispatchProperties.RecordFields | fso_tables/fso_tables_macro/src/struct.rs:197-206 | a start marker, fields that each read in order, and an end marker make the record succeed with those values, the cursor after the end marker |
| DispatchProperties.TableStartMismatch | fso_tables/fso_tables_macro/src/struct.rs:178-183 | a missing start marker fails the parse before any field, with the `consume_string` error |
| DispatchProperties.TableEndMismatch | fso_tables/fso_tables_macro/src/struct.rs:187-192 | when the start marker and all fields were read but the end marker is not there after whitespace, the record fails with the `consume_string` mismatch error at that line, and the cursor stays after the whitespace |
| DispatchProperties.VariantsSkipped | fso_tables/fso_tables_macro/src/enum.rs:90-97 | non-default variants whose token does not match are passed over, consuming nothing |
| DispatchProperties.FirstMatchWins | fso_tables/fso_tables_macro/src/enum.rs:55-98 | the first variant in declaration order whose token starts the input is chosen, and its token is consumed |
| DispatchProperties.DefaultCaptures | fso_tables/fso_tables_macro/src/enum.rs:80-87 | with no token match, the default variant captures the next token |
| DispatchProperties.ExhaustionFails | fso_tables/fso_tables_macro/src/enum.rs:103-112 | with no match and no default, the parse fails at the current line, consuming nothing; the message lists every token and then at most 20 chars of the input |
| DispatchProperties.VariantFieldFails | fso_tables/fso_tables_macro/src/enum.rs:27-31 | a failing non-Option field fails the enum |
| DispatchProperties.VariantOptionalFails | fso_tables/fso_tables_macro/src/enum.rs:21-25 | a failing Option field is None, and the next field is read where it stopped |
| Interpreter.ParseScalarOn | fso_tables/fso_tables_macro/src/typehandler.rs:75-76 | on the cursor: result and new state are those of `ParseScalar` |
| Interpreter.ParseShapeOn | fso_tables/fso_tables_macro/src/typehandler.rs:17-104 | on the cursor: result and new state are those of `ParseShape` |
| Interpreter.ParseNamedOn | fso_tables/fso_tables_macro/src/typehandler.rs:65-76 | a named type on the cursor gives the result and new state of `ParseNamed` |
| Interpreter.ParseVecOn | fso_tables/fso_tables_macro/src/typehandler.rs:31-41 | the `while let` loop's result and new state are those of `ParseShape` for the Vec |
| Interpreter.ParseElementOn | fso_tables/fso_tables_macro/src/typehandler.rs:35-38 | one round of the `while let`: it either stops with the loop's outcome or moves the cursor forward and leaves the outcome unchanged |
| Interpreter.ParseTupleOn | fso_tables/fso_tables_macro/src/typehandler.rs:94-99 | the tuple code's result and new state are those of `ParseShape` for the tuple |
| Interpreter.ParseTupleElementOn | fso_tables/fso_tables_macro/src/typehandler.rs:89-92 | one tuple element either stops with the tuple's outcome or leaves it unchanged for the next element |
| Interpreter.ParseTableOn | fso_tables/fso_tables_macro/src/typehandler.rs:66 | on the cursor: result and new state are those of `ParseTable` |
| Interpreter.MarkerOn | fso_tables/fso_tables_macro/src/struct.rs:178-183 | on the cursor: result and new state are those of `Marker` |
| Interpreter.ParseRecordOn | fso_tables/fso_tables_macro/src/struct.rs:197-206 | on the cursor: result and new state are those of `ParseRecord` |
| Interpreter.CloseRecordOn | fso_tables/fso_tables_macro/src/struct.rs:187-192 | the end marker on the cursor gives the result and new state of `RecordClose` |
| Interpreter.ParseFieldsOn | fso_tables/fso_tables_macro/src/struct.rs:17-98 | the field blocks in order give the result and new state of `FieldsFrom` |
| Interpreter.ParseFieldOn | fso_tables/fso_tables_macro/src/struct.rs:20-86 | one field block gives the result and new state of `FieldStep` |
| Interpreter.FieldBodyOn | fso_tables/fso_tables_macro/src/struct.rs:26-86 | the value part of a field on the cursor gives the result and new state of `FieldBody` |
| Interpreter.NextFieldOn | fso_tables/fso_tables_macro/src/struct.rs:17-98 | one field of the loop either stops with the record's outcome or leaves it unchanged for the next field |
| Interpreter.ParseEnumOn | fso_tables/fso_tables_macro/src/enum.rs:119-124 | the variant probes give the result and new state of `ParseEnum` |
| Interpreter.TryVariantOn | fso_tables/fso_tables_macro/src/enum.rs:80-98 | a probed variant either is chosen, giving the outcome of the remaining variants, or leaves the cursor unchanged and passes to the next one |
| Interpreter.ParseVariantFieldsOn | fso_tables/fso_tables_macro/src/enum.rs:8-39 | the field initialisers in order give the result and new state of `VariantFieldsFrom` |
| Interpreter.ParseVariantFieldOn | fso_tables/fso_tables_macro/src/enum.rs:10-34 | one initialiser either stops with the outcome of `VariantFieldsFrom` or leaves a state from which the rest gives that outcome |

## Left out

- The file I/O of `FSOTableFileParser::new` (fso_table.rs:186-205) is left out. The cursor is built from its text.
- The regular expression engine is left out. The version marker regex is written out as `VersionForm`.
- `RefCell` interior mutability is left out. The cursor state is plain fields of a class.
- Proc-macro plumbing is left out: token streams, `quote!`, spans, `lib.rs`, `util.rs`, generic and where-clause building, and attribute parsing. This includes the "Attribute fso_name must have a value!" and "must have named fields" errors. A declaration is given as a datatype.
- `f32`/`f64` `from_str` and `to_string` are left out. Floats keep only their lexeme, and a float lexeme converts exactly when it holds a digit. Float spew is not modelled.
- BasicTypes.NumberFromStr: for floats, this is weaker than Rust's float parser. A lexeme with a digit (such as `1.`) is accepted as written, but its value is not computed.
- The curve types and the table declarations in fso_tables_impl and fso_curves are left out. They are users of the engine, not part of it.
- The hanging-gobble hand-over between tables is left out, and so is keeping comments and version strings in parsed values. The derive's own comment processing is still a TODO, and the comments and version it reads are discarded.
- `dump` is left out, because it is empty in the derive.
- Unbounded nesting is left out: `fuel` bounds how deep table types may nest. A parse that runs out ends `Stuck` instead of recursing further, as the real code would.
- Type names are left out: a type name with neither a scalar implementation nor a schema in the environment ends `Stuck`.
- Path types keep their last segment, their first generic argument and whether the whole path is one identifier. `deduce_type` looks at the segment and the argument; the existence check (`path.is_ident("bool")`) looks at the segment and the flag. The other segments are left out.
- Generic table types are looked up by name; their argument does not select a different schema.
- Text is assumed to be ASCII, so `len_utf8` is 1 for every char.
- Interpreter.ParseVecOn: the method stops with `Stuck` when an element succeeds without consuming anything. The code as written loops forever there.
- Attributes the derive does not read are left out: gobble, flagset and inline. The variant `fso_name` is left out too; variant tokens are always prefix, name and suffix.
- The list-state push and pop of `FSOBuilderState` are left out. No core code changes the list state, so `TableBuilder` only reads it.

## Findings

| source | as written | input that shows it | evidently intended | confidence | as-written member | corrected member |
|---|---|---|---|---|---|---|
| fso_tables/src/fso_table.rs:110-115 | `read_until_target(t, true)` falls back to `current.len()` when `t` is absent, then asks `consume` for that plus `t.len()` (the request `FsoTable.ReadUntilTargetRequest`). The slice `get()[..count]` in `consume` then panics. | the text `; comment` (a `;` comment as the last line, with no line feed), read by `consume_whitespace`; an unclosed block comment such as `/* x` at the end of the input (fso_table.rs:77-80) reaches the same over-run | the rest of the input is consumed, and the comment ends at the end of the input; the whole `consume_whitespace` model uses this clamped count | not executed | ScannerProperties.ReadUntilTargetOverrun | FsoTable.TableParser.ReadUntilTarget |
