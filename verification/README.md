# panini, modelled in Dafny

`panini::parse(czstring c, F&& callback)` reads an INI-like text in one
pass. The text has `[section]` headers, `key = value` lines, `;` comments
and blanks. The input is a NUL-terminated buffer. The parser keeps a
`detail::Context`: a 0-based line counter, one of eight `State`s, and
begin/end pointers for the current section, key and value. It calls the
callback once for each finished `key = value` line. On the first syntax
error it calls the callback once more, with the 1-based line number in
decimal and one of three messages, and returns.

The model has these parts:

- `PaniniMachine` (machine.dfy) has the state, the context and the
  callbacks as values.
  - The input is a `string`. Position `|s|` holds the terminating NUL.
  - Pointers are offsets. A null pointer is `None`.
  - A callback is an `Event`: `KeyValue(section, key, value)` with three
    spans, or `SyntaxError(line, message)`.
  - `Step` is one iteration of the `for (;; ++c)` loop, comment skip and
    error exit included. `Events(s)` is the whole sequence of callbacks.
  - `View` is `detail::make_string_view`.
- `Panini` (parser.dfy) is `parse` as the imperative loop it is: a context
  updated character by character, a nested comment-skipping loop, and a
  `break` in place of `goto error`. It is proved to make exactly the calls
  of `Events`.
- `PaniniInvariants` (invariants.dfy) proves what holds at every iteration:
  - the line counter equals the number of `'\n'` and `'\r'` seen so far;
  - the state is never `Error`;
  - every span lies inside the input, in document order;
  - an error is the last callback. It is raised by the one iteration at
    which the loop returns (`Reach` counts iterations). Its line number is
    the 1-based line of the character at that iteration.
- `PaniniLines` (lines.dfy) is an independent, line-oriented reading of the
  format (`ReadLine`, `ByLine`). `ParseByLine` proves that the scanner
  agrees with it on every input without an interior NUL.
- `PaniniLocal` (local.dfy) shows that a line reads the same wherever it
  sits in the input. Lines joined by `'\n'` are therefore read one by one
  (`ReadJoined`).
- `PaniniProperties` (properties.dfy) states the format's properties:
  - which lines make no call;
  - the exact call a `key = value` line makes;
  - the section carried forward;
  - a comment dropping a pair;
  - no `=`, no pairs;
  - a NUL ending the input.
- `PaniniCases` (cases.dfy) gives the exact callbacks for each input in
  panini-test.cpp, plus a few more.
- `Decimal` (decimal.dfy) stands in for `std::to_string` on the line
  number.

Two behaviours of the code are easy to misread. The model follows the code
in both:

- A `;` met in `Value` state starts a comment (panini.hpp:121-136). The
  comment skip is followed by a line reset, and no callback is made
  between them, so the pending pair is dropped. The test at
  panini-test.cpp:114-127 has a callback expecting section "panini ;🥪",
  key "panini" and value "🥪". Its input makes no call at all, so those
  expectations are never checked (`PaniniProperties.CommentDropsPair`,
  `PaniniCases.AllowsTrailingComments`).
- Each syntax error jumps with `goto error` (panini.hpp:77, 82 and 142) past
  the end of the loop. There the callback is made once and the function
  ends (panini.hpp:195-197), so nothing after the offending character is
  read (`PaniniInvariants.ErrorIsLast`,
  `PaniniCases.HandlesIncompleteSectionDeclaration`).

## Model

| member | source | states |
|---|---|---|
| PaniniMachine.View | panini.hpp:57-60 | the view of two set pointers is the input between them; two null pointers give the empty view; a null end after a set begin gives no view |
| PaniniMachine.NextLine | panini.hpp:101-106 | a line reset moves the counter on by one, returns to `Undetermined`, keeps the section pointers and clears key and value |
| PaniniMachine.Payload | panini.hpp:161-188 | a payload character leaves the line counter alone and moves the state on exactly from `Undetermined`, `SectionBegin` and `ValueBegin` |
| PaniniMachine.CommentEnd | panini.hpp:124-128 | the comment skip stops at the first `'\n'`, `'\r'` or NUL at or after its start, and at nothing before it |
| PaniniMachine.Initial | panini.hpp:46-55 | the context starts on line 0 in `Undetermined` state with every pointer null, so the section view is the empty string |
| PaniniMachine.Failure | panini.hpp:195-197 | the error exit makes an error call with the message chosen before the jump |
| PaniniMachine.FailureLine | panini.hpp:196 | the line of an error call is all decimal digits and reads back as one more than the 0-based counter |
| PaniniMachine.Finished | panini.hpp:84-96 | a finished pair is reported as a key/value call with the current section and key, and the value ending at the terminator; from `ValueBegin` the value is empty |
| PaniniMachine.Step | panini.hpp:69-190 | an iteration that goes on advances the cursor within the input, and it makes at most one call |
| PaniniMachine.Run | panini.hpp:69-191 | the loop from any position makes at most one call per character left and one at the end |
| PaniniMachine.Events | panini.hpp:63-198 | `parse` makes at most one call per character of the input plus one |
| Panini.SkipComment | panini.hpp:124-128 | the nested loop stops where `CommentEnd` says |
| Panini.Parse | panini.hpp:63-198 | the loop, with its comment skip and its error exit, makes exactly the calls `Events(s)` |
| Decimal.ToDecimal | panini.hpp:196 | the line number renders as at least one decimal digit, with a leading '0' only for 0, and one digit exactly below 10 |
| Decimal.ValueOfToDecimal | panini.hpp:196 | the rendered digits read back as the number |
| Decimal.ToDecimalInjective | panini.hpp:196 | distinct line numbers render differently |
| PaniniInvariants.StepValid | panini.hpp:69-190 | an iteration from a valid context leads to a valid one; its calls are well formed and raised at the cursor; only a returning iteration makes an error call |
| PaniniInvariants.TerminatorValid | panini.hpp:71-115 | the terminator branch keeps the invariant; the call it makes on a value holds spans inside the input |
| PaniniInvariants.CommentValid | panini.hpp:121-137 | a comment skip makes no call and keeps the line count equal to the line breaks passed |
| PaniniInvariants.PayloadValid | panini.hpp:161-188 | a payload character keeps the invariant |
| PaniniInvariants.Reach | panini.hpp:69-191 | an iteration the loop reaches stands at a position between its start and the end of the input |
| PaniniInvariants.ReachShift | panini.hpp:69-191 | after an iteration that goes on, where the loop stands `k + 1` iterations on is where it stands `k` iterations after the next one |
| PaniniInvariants.ReachEarlier | panini.hpp:69-191 | an iteration that is reached was preceded by reached ones |
| PaniniInvariants.HaltsLast | panini.hpp:192-197 | no iteration is reached after the one at which the loop returns |
| PaniniInvariants.HaltsOnce | panini.hpp:192-197 | the loop returns at exactly one iteration |
| PaniniInvariants.RunValid | panini.hpp:69-197 | from a valid context every call is well formed, and every call but the last is a key/value call |
| PaniniInvariants.RunRaised | panini.hpp:69-197 | a final error call comes from the iteration at which the loop returns: its line is one plus the line breaks before that position, which holds the '=' or terminator its message names |
| PaniniInvariants.InitialValid | panini.hpp:46-55 | the zero-initialised context satisfies the invariant at position 0 |
| PaniniInvariants.EventsWellFormed | panini.hpp:84-96 | every key/value call has a value inside the input, a key that starts before it, and a section that is unset or lies before the key; every error has one of the three messages |
| PaniniInvariants.ErrorIsLast | panini.hpp:195-197 | an error call is the last call |
| PaniniInvariants.ErrorLine | panini.hpp:195-197 | an error's line is the decimal of one plus the line breaks before the position at which the loop returns, which holds the '=' or terminator its message names |
| PaniniInvariants.Reached | panini.hpp:109-110 | at the top of every iteration the counter equals the line breaks before the cursor and the state is not `Error`, so the `Error` branches are dead |
| PaniniInvariants.ReachedValid | panini.hpp:69 | every context the loop reaches satisfies the invariant |
| PaniniLines.FindStops | panini.hpp:139-159 | `Find` returns the first position holding a stop character, with none before it |
| PaniniLines.SkipStops | panini.hpp:117-119 | `Skip` returns the first position outside the skipped set, with only skipped characters before it |
| PaniniLines.LastMarkFound | panini.hpp:167-172 | a name ends just past its last character that is not blank or ';', or keeps the old end when there is none |
| PaniniLines.LineEndFound | panini.hpp:71-73 | a line ends at the first '\n' or '\r' or at the end of the input |
| PaniniLines.InertRun | panini.hpp:117-178 | blanks, a ';' outside `Undetermined` and `Value`, and text after a closing bracket change nothing and call nothing |
| PaniniLines.ExtendRun | panini.hpp:167-181 | reading on inside a key, section or value only moves the end to just past the last character that is not blank or ';' |
| PaniniLines.CommentEndAt | panini.hpp:124-128 | the comment skip stops at the first terminator after the ';' |
| PaniniLines.EndOfLine | panini.hpp:84-115 | a line ending in `Value`/`ValueBegin` makes its one call with the value ending at the terminator; other finishing states call nothing; the run stops at the end of the input and otherwise goes on with the next line |
| PaniniLines.EqualsRun | panini.hpp:139-143 | an '=' outside `Key` state ends the parse with "Expected key before '='" on the current line |
| PaniniLines.OpenEndRun | panini.hpp:75-82 | a terminator in `Key` state, or in `Section`/`SectionBegin` state, ends the parse with the matching message |
| PaniniLines.CommentRun | panini.hpp:121-136 | a ';' in `Undetermined` or `Value` state skips to the line break and resets the line, calling nothing |
| PaniniLines.TrailerRun | panini.hpp:147-159 | after a closing bracket, text is ignored unless it holds '=' |
| PaniniLines.NameRun | panini.hpp:170-176 | a section name runs to the first '[', ']' or '=' and ends after its last character that is not blank or ';' |
| PaniniLines.HeaderRun | panini.hpp:147-176 | the scanner reads a header line as `ReadHeader` says |
| PaniniLines.NamedRun | panini.hpp:154-158 | the scanner reads a header's name as `ReadName` says |
| PaniniLines.ValueEndRun | panini.hpp:84-96 | a value is reported ending at the terminator, so trailing blanks are kept |
| PaniniLines.ValueTailRun | panini.hpp:179-181 | the scanner reads the rest of a value as `ReadText` says |
| PaniniLines.TextRun | panini.hpp:121-143 | a value ends at its line break, or a ';' drops it, or an '=' is an error |
| PaniniLines.ValueRun | panini.hpp:182-185 | the value starts at the first character after '=' that is not blank or ';' |
| PaniniLines.KeyRun | panini.hpp:163-169 | a key runs from its first character to the first '=' or line end |
| PaniniLines.KeyedRun | panini.hpp:139-145 | after a key, '=' moves to `ValueBegin` and a line end is an error |
| PaniniLines.PairRun | panini.hpp:161-185 | the scanner reads a key/value line as `ReadPair` says |
| PaniniLines.LineRun | panini.hpp:69-190 | the scanner reads every line as `ReadLine` says |
| PaniniLines.QuietLineRun | panini.hpp:117-137 | a blank or comment-only line makes no call and moves to the next line |
| PaniniLines.HeaderLineRun | panini.hpp:147-151 | a '[' as first non-blank character starts a header with the section cleared |
| PaniniLines.PairLineRun | panini.hpp:161-166 | any other first non-blank character starts a key |
| PaniniLines.ReadLinesRun | panini.hpp:69-191 | from the start of any line the scanner makes the calls `ReadLines` lists |
| PaniniLines.ParseByLine | panini.hpp:63-198 | on an input without an interior NUL, `parse` makes exactly the calls of the line-by-line reading |
| PaniniLocal.ReadLineMoved | panini.hpp:69-190 | a line in the input reads as the same line on its own, with every pointer moved by where it starts |
| PaniniLocal.JoinedLine | panini.hpp:71-73 | the first of several lines joined by '\n' ends at its own length, and the others follow its line break |
| PaniniLocal.WindowView | panini.hpp:57-60 | a view inside a line is the matching slice of that line |
| PaniniLocal.ReadJoined | panini.hpp:69-191 | lines joined by '\n' make the calls of each line read on its own, in order, with the section carried along |
| PaniniLocal.ReadJoinedOn | panini.hpp:101-106 | after a line that does not stop the parse, the lines after it are read with its section in force |
| PaniniProperties.SkipIs | panini.hpp:117-119 | `Skip` lands on the first position outside the skipped set |
| PaniniProperties.FindIs | panini.hpp:139-159 | `Find` lands on the first stop character |
| PaniniProperties.LastMarkIs | panini.hpp:167-172 | a name ends just past its last character that is not blank or ';', or has no end when that is its first |
| PaniniProperties.FirstNonBlank | panini.hpp:117-119 | leading blanks are skipped up to the first other character |
| PaniniProperties.HeaderQuiet | panini.hpp:147-159 | a header line, whatever follows its closing bracket short of '=', makes no call |
| PaniniProperties.QuietLine | panini.hpp:99-137 | a blank line, a comment line or a header makes no call; only a header changes the section |
| PaniniProperties.QuietLines | panini.hpp:99-137 | any number of such lines make no call |
| PaniniProperties.QuietFrom | panini.hpp:99-137 | from the start of any line, lines that are each blank, a comment or a header make no call |
| PaniniProperties.NoPayloadNoCalls | panini.hpp:99-137 | any input without an interior NUL whose every line, however ended by '\n', '\r' or "\r\n", is blank, a comment or a header makes no call at all |
| PaniniProperties.NoPayloadLinesNoCalls | panini-test.cpp:8-26 | lines joined by '\n' that are each blank, a comment or a header make no call |
| PaniniProperties.PairLine | panini.hpp:84-96 | a `key = value` line makes exactly one call: the key from its first to its last character that is not blank or ';', the value from its first such character after '=' to the line end, trailing blanks kept, empty when nothing follows, and the section in force |
| PaniniProperties.PairHead | panini.hpp:161-185 | a pair line reads, from the start of its value on, as the text of that value with the key in place |
| PaniniProperties.CommentDropsPair | panini.hpp:121-136 | a ';' after the start of a value drops the pair: the line makes no call |
| PaniniProperties.SingleLine | panini.hpp:63-198 | an input of one line makes the calls of that line read on its own |
| PaniniProperties.PairInput | panini-test.cpp:104-111 | `key = value` as the whole input makes one call with no section, the key and the value to the end |
| PaniniProperties.SectionCarried | panini.hpp:99-107 | a line that is not a header keeps the section in force and reports its pair with it; a header makes no call |
| PaniniProperties.NoEqualsRun | panini.hpp:139-145 | from a context not waiting for a value, no '=' ahead means no key/value call |
| PaniniProperties.NoEqualsNoPairs | panini.hpp:139-145 | an input without '=' makes no key/value call |
| PaniniProperties.CommentEndCut | panini.hpp:124-128 | the comment skip stops at a NUL at the latest |
| PaniniProperties.RunCut | panini.hpp:112-127 | nothing after a NUL affects the run |
| PaniniProperties.NulEndsInput | panini.hpp:112-127 | an input calls exactly what it calls when cut at its first NUL |
| PaniniCases.ReadsEmptyFiles | panini-test.cpp:8-11 | the empty input makes no call |
| PaniniCases.ReadsPracticallyEmptyFiles | panini-test.cpp:13-26 | comments, blank lines and headers make no call |
| PaniniCases.ReadsRootKeyValues | panini-test.cpp:28-38 | `panini = bread` gives one call: no section, key "panini", value "bread" |
| PaniniCases.ReadsSectionedKeyValues | panini-test.cpp:40-62 | each pair is reported with the section of the header before it |
| PaniniCases.IgnoresLeadingAndTrailingWhitespace | panini-test.cpp:64-83 | blanks around section names, keys and values are trimmed, and interior blanks are kept |
| PaniniCases.AllowsEmptyValues | panini-test.cpp:85-102 | `bread =` gives an empty value, and the next pair is still read |
| PaniniCases.AllowsEmptyValueAtEnd | panini-test.cpp:104-111 | `bread =` as the whole input gives an empty value at the end |
| PaniniCases.AllowsTrailingComments | panini-test.cpp:114-127 | a ';' in a header is ignored and a comment after a value drops the pair, so no call is made |
| PaniniCases.EqualsSignIsReservedInSections | panini-test.cpp:131-137 | an '=' in a section name is an error on line 1 |
| PaniniCases.EqualsSignIsReservedInValues | panini-test.cpp:138-144 | a second '=' in a value is an error on line 1 |
| PaniniCases.HandlesMissingKey | panini-test.cpp:147-159 | a line starting with '=' is an error on line 2, and nothing after it is read |
| PaniniCases.HandlesMissingValue | panini-test.cpp:161-173 | a key without '=' is an error on line 2 |
| PaniniCases.HandlesIncompleteSectionDeclaration | panini-test.cpp:175-188 | an unclosed header is an error on line 2, and the parse stops there |
| PaniniCases.HandlesInvalidSectionName | panini-test.cpp:190-203 | an '=' in a header is an error on line 2 |
| PaniniCases.BracketClosesSection | panini.hpp:147-158 | a '[' inside a section name closes it as ']' does |
| PaniniCases.KeepsTrailingBlanks | panini.hpp:88-96 | a value keeps its trailing blanks |
| PaniniCases.OneCharacterKey | panini.hpp:163-169 | a one-character key has a begin pointer and no end pointer |
| PaniniCases.CarriageReturnLineFeedEndsTwoLines | panini.hpp:71-106 | "\r\n" counts as two line breaks, so an error after it is on line 3 |

## Left out

- The callback template `F&& callback` is replaced by the sequence of calls made. The `State` argument is the kind of `Event`. The empty fourth argument of an error call is not represented.
- Pointers are offsets into the input. A null pointer is `None`.
- `make_string_view` on a set begin and a null end is undefined behaviour in C++. This happens for a one-character key or section name. `View` gives `None` there, and the cases omit views of such names.
- The `int32_t` line counter is an unbounded `nat`. Overflow after 2^31 - 1 lines is not modelled.
- `std::to_string` is replaced by `Decimal.ToDecimal` on the non-negative line number.
- The input is a `string` of characters, not bytes. Non-ASCII text such as the emoji in the tests is payload either way, but the model counts offsets in characters where the C++ counts bytes.
- The GoogleTest harness and `main` (panini-test.cpp:205-209) are not modelled. Each test input is stated as its lines joined by '\n', and each test's callback checks are stated as the exact list of calls.
- `PaniniLines.ParseByLine` covers inputs without an interior NUL. An input with one is reduced to its prefix by `PaniniProperties.NulEndsInput`.

