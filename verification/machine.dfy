/**
 * The scanner of `panini::parse` as a pure transition function.
 *
 * The input is a NUL-terminated C string; here it is a `string` whose
 * positions at and beyond its length read as '\0', and an interior '\0'
 * ends the scan just as it does in the C++ loop. The six `czstring` members
 * of the parse context become offsets, with `None` for a null pointer. The
 * callback becomes a sequence of events, in call order.
 */
module PaniniMachine {
  import opened Wrappers
  import Decimal

  /** The scanner's position in the grammar (`panini::State`). */
  datatype State =
    | Undetermined
    | Key
    | Section
    | SectionBegin
    | SectionEnd
    | Value
    | ValueBegin
    | Error

  /** The parse context (`detail::Context`): the 0-based line counter, the
      state, and the begin/end of the section, key and value. */
  datatype Context = Context(
    line: nat,
    state: State,
    section: Option<nat>,
    sectionEnd: Option<nat>,
    key: Option<nat>,
    keyEnd: Option<nat>,
    value: Option<nat>,
    valueEnd: Option<nat>)

  /** A begin/end pointer pair handed to `make_string_view`. */
  datatype Span = Span(begin: Option<nat>, end: Option<nat>)

  /** One call of the callback: `(State::Value, section, key, value)` for a
      finished key/value line, `(State::Error, line, message, {})` for the
      syntax error that ends the parse. */
  datatype Event =
    | KeyValue(section: Span, key: Span, value: Span)
    | SyntaxError(line: string, message: string)

  const ExpectedKey := "Expected key before '='"
  const EndOfKey := "Unexpected end of key"
  const EndOfSection := "Unexpected end of section"

  /** The character under the cursor; the terminating NUL lies at |s|. */
  function At(s: string, c: nat): char {
    if c < |s| then s[c] else '\0'
  }

  predicate IsTerminator(ch: char) {
    ch == '\0' || ch == '\n' || ch == '\r'
  }

  predicate IsBlank(ch: char) {
    ch == '\t' || ch == ' '
  }

  /** The context a parse starts from: line 0, nothing seen, every pointer null. */
  function Initial(): (r: Context)
    ensures r.line == 0 && r.state == Undetermined
    ensures r.section.None? && r.key.None? && r.value.None?
    ensures forall s :: View(s, Span(r.section, r.sectionEnd)) == Some("")
  {
    Context(0, Undetermined, None, None, None, None, None, None)
  }

  /** `detail::make_string_view(begin, end)`: the characters from `begin` up
      to `end`. Two null pointers give the empty view; a null end after a
      set begin is undefined behaviour in the C++ and gives `None`. */
  function View(s: string, span: Span): (r: Option<string>)
    ensures r.Some? <==>
      (span.begin.None? && span.end.None?) ||
      (span.begin.Some? && span.end.Some? && span.begin.value <= span.end.value <= |s|)
    ensures r.Some? && span.begin.Some? ==>
      |r.value| == span.end.value - span.begin.value &&
      forall i :: 0 <= i < |r.value| ==> r.value[i] == s[span.begin.value + i]
    ensures r.Some? && span.begin.None? ==> r.value == ""
  {
    match span
    case Span(None, None) => Some("")
    case Span(Some(b), Some(e)) => if b <= e <= |s| then Some(s[b..e]) else None
    case _ => None
  }

  /** The context after a line: the counter moves on, the state returns to
      `Undetermined`, the section is carried over and key and value are cleared. */
  function NextLine(ctx: Context): (r: Context)
    ensures r.line == ctx.line + 1 && r.state == Undetermined
    ensures r.section == ctx.section && r.sectionEnd == ctx.sectionEnd
    ensures r.key.None? && r.keyEnd.None? && r.value.None? && r.valueEnd.None?
  {
    Context(ctx.line + 1, Undetermined, ctx.section, ctx.sectionEnd, None, None, None, None)
  }

  /** What an ordinary payload character at `c` does in each state (the
      `default:` branch of the character switch). */
  function Payload(ctx: Context, c: nat): (r: Context)
    ensures r.line == ctx.line
    ensures ctx.state in {Undetermined, SectionBegin, ValueBegin} ==> r.state != ctx.state
    ensures ctx.state !in {Undetermined, SectionBegin, ValueBegin} ==> r.state == ctx.state
  {
    match ctx.state
    case Undetermined => ctx.(state := Key, key := Some(c))
    case Key => ctx.(keyEnd := Some(c + 1))
    case Section => ctx.(sectionEnd := Some(c + 1))
    case SectionBegin => ctx.(state := Section, section := Some(c))
    case SectionEnd => ctx
    case Value => ctx.(valueEnd := Some(c + 1))
    case ValueBegin => ctx.(state := Value, value := Some(c))
    case Error => ctx
  }

  /** The position of the first terminator at or after `c` (where the
      comment-skipping loop stops). */
  function CommentEnd(s: string, c: nat): (j: nat)
    requires c <= |s|
    ensures c <= j <= |s| && IsTerminator(At(s, j))
    ensures forall k :: c <= k < j ==> !IsTerminator(s[k])
    decreases |s| - c
  {
    if IsTerminator(At(s, c)) then c else CommentEnd(s, c + 1)
  }

  /** The syntax error reported from `ctx`, with the 1-based line number. */
  function Failure(ctx: Context, message: string): (e: Event)
    ensures e.SyntaxError? && e.message == message
  {
    SyntaxError(Decimal.ToDecimal(ctx.line + 1), message)
  }

  /** The line an error names is the decimal text of one more than the
      0-based counter: it reads back as that number. */
  lemma FailureLine(ctx: Context, message: string)
    ensures forall i :: 0 <= i < |Failure(ctx, message).line| ==> Decimal.IsDigit(Failure(ctx, message).line[i])
    ensures Decimal.ValueOf(Failure(ctx, message).line) == ctx.line + 1
  {
    var line := Decimal.ToDecimal(ctx.line + 1);
    assert Failure(ctx, message).line == line;
    Decimal.ValueOfToDecimal(ctx.line + 1);
  }

  /** The callback made when a line ends at `c` in `Value` or `ValueBegin`
      state; the value always ends at the terminator. */
  function Finished(ctx: Context, c: nat): (e: Event)
    ensures e.KeyValue? && e.value.end == Some(c)
    ensures e.section == Span(ctx.section, ctx.sectionEnd) && e.key == Span(ctx.key, ctx.keyEnd)
    ensures ctx.state == ValueBegin ==> e.value.begin == e.value.end
  {
    KeyValue(
      Span(ctx.section, ctx.sectionEnd),
      Span(ctx.key, ctx.keyEnd),
      Span(if ctx.state == ValueBegin then Some(c) else ctx.value, Some(c)))
  }

  /** The result of one iteration of the scanning loop: either the loop goes
      on at `pos` with a new context, or the parse returns. */
  datatype Outcome =
    | Next(pos: nat, ctx: Context, out: seq<Event>)
    | Halt(out: seq<Event>)

  /** One iteration of the `for (;; ++c)` loop of `panini::parse` at
      position `c`, including the comment skip and the error exit. */
  function Step(s: string, c: nat, ctx: Context): (r: Outcome)
    requires c <= |s|
    ensures r.Next? ==> c < r.pos <= |s|
    ensures |r.out| <= 1
    ensures r.Next? && |r.out| == 1 ==> r.out[0].KeyValue?
  {
    var ch := At(s, c);
    if IsTerminator(ch) then
      match ctx.state
      case Key => Halt([Failure(ctx, EndOfKey)])
      case Section => Halt([Failure(ctx, EndOfSection)])
      case SectionBegin => Halt([Failure(ctx, EndOfSection)])
      case Error => if ch == '\0' then Halt([]) else Next(c + 1, ctx, [])
      case _ =>
        var out := if ctx.state in {ValueBegin, Value} then [Finished(ctx, c)] else [];
        if ch == '\0' then Halt(out) else Next(c + 1, NextLine(ctx), out)
    else if IsBlank(ch) then
      Next(c + 1, ctx, [])
    else if ch == ';' then
      if ctx.state == Undetermined || ctx.state == Value then
        var j := CommentEnd(s, c + 1);
        if At(s, j) == '\0' then Halt([]) else Next(j + 1, NextLine(ctx), [])
      else
        Next(c + 1, ctx, [])
    else if ch == '=' then
      if ctx.state != Key then Halt([Failure(ctx, ExpectedKey)])
      else Next(c + 1, ctx.(state := ValueBegin), [])
    else if ch == '[' && ctx.state == Undetermined then
      Next(c + 1, Context(ctx.line, SectionBegin, None, None, None, None, None, None), [])
    else if (ch == '[' || ch == ']') && ctx.state == Section then
      Next(c + 1, ctx.(state := SectionEnd), [])
    else
      Next(c + 1, Payload(ctx, c), [])
  }

  /** The callbacks made by the loop from position `c` and context `ctx` on. */
  function Run(s: string, c: nat, ctx: Context): (out: seq<Event>)
    requires c <= |s|
    ensures |out| <= |s| - c + 1
    decreases 2 * (|s| - c) + 1
  {
    Resume(s, c, Step(s, c, ctx))
  }

  /** The callbacks made by an iteration at `c` with outcome `r` and by
      the loop after it. */
  function Resume(s: string, c: nat, r: Outcome): (out: seq<Event>)
    requires c <= |s| && (r.Next? ==> c < r.pos <= |s|)
    decreases if r.Next? then 2 * (|s| - r.pos) + 2 else 0
  {
    match r
    case Halt(out) => out
    case Next(p, ctx', out) => out + Run(s, p, ctx')
  }

  /** The callbacks made by `panini::parse(s, callback)`, in order: at most
      one per character and one at the end (that an error call can only
      be the last is `PaniniInvariants.ErrorIsLast`). */
  function Events(s: string): (r: seq<Event>)
    ensures |r| <= |s| + 1
  {
    Run(s, 0, Initial())
  }
}
