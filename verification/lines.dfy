/**
 * The format read line by line, as a reader of the grammar would describe
 * it, and the proof that the character-driven scanner agrees with it on
 * every input without an interior NUL.
 *
 * A line runs up to the next '\n' or '\r' (so "\r\n" ends two lines) or the
 * end of the input. Its first non-blank character decides what it is: none
 * or ';' (nothing), '=' (an error), '[' (a section header) or anything else
 * (a key/value pair). Positions found by searching forward (`Find`, `Skip`)
 * and backward (`LastMark`) take the place of the scanner's states.
 */
module PaniniLines {
  import opened Wrappers
  import opened PaniniMachine
  import Decimal

  /** Characters that never become part of a name: they are skipped before
      a name starts and do not move its end. */
  const Unmarked: set<char> := {' ', '\t', ';'}

  const Blanks: set<char> := {' ', '\t'}

  const LineBreaks: set<char> := {'\n', '\r'}

  /** The C string `s` holds no NUL before its terminator. */
  predicate NulFree(s: string) {
    '\0' !in s
  }

  /** The first position in [c, d) holding a character of `stops`, or `d`
      (what it finds is stated by `FindStops`). */
  function Find(s: string, c: nat, d: nat, stops: set<char>): (i: nat)
    requires c <= d <= |s|
    ensures c <= i <= d
    decreases d - c
  {
    if c == d then d else if s[c] in stops then c else Find(s, c + 1, d, stops)
  }

  lemma {:induction false} FindStops(s: string, c: nat, d: nat, stops: set<char>)
    requires c <= d <= |s|
    ensures var i := Find(s, c, d, stops);
      && (i < d ==> s[i] in stops)
      && forall k :: c <= k < i ==> s[k] !in stops
    decreases d - c
  {
    if c < d && s[c] !in stops {
      FindStops(s, c + 1, d, stops);
    }
  }

  /** The first position in [c, d) holding a character outside `skip`, or `d`
      (what it finds is stated by `SkipStops`). */
  function Skip(s: string, c: nat, d: nat, skip: set<char>): (i: nat)
    requires c <= d <= |s|
    ensures c <= i <= d
    decreases d - c
  {
    if c == d then d else if s[c] !in skip then c else Skip(s, c + 1, d, skip)
  }

  lemma {:induction false} SkipStops(s: string, c: nat, d: nat, skip: set<char>)
    requires c <= d <= |s|
    ensures var i := Skip(s, c, d, skip);
      && (i < d ==> s[i] !in skip)
      && forall k :: c <= k < i ==> s[k] in skip
    decreases d - c
  {
    if c < d && s[c] in skip {
      SkipStops(s, c + 1, d, skip);
    }
  }

  /** Just past the last character in [c, d) outside `Unmarked`, or `e` when
      there is none: where a name that continues over [c, d) ends (as
      `LastMarkFound` states). */
  function LastMark(s: string, c: nat, d: nat, e: Option<nat>): (r: Option<nat>)
    requires c <= d <= |s|
    decreases d - c
  {
    if c == d then e else if s[d - 1] !in Unmarked then Some(d) else LastMark(s, c, d - 1, e)
  }

  lemma {:induction false} LastMarkFound(s: string, c: nat, d: nat, e: Option<nat>)
    requires c <= d <= |s|
    ensures var r := LastMark(s, c, d, e);
      && ((forall k :: c <= k < d ==> s[k] in Unmarked) ==> r == e)
      && ((exists k :: c <= k < d && s[k] !in Unmarked) ==>
            && r.Some? && c < r.value <= d
            && s[r.value - 1] !in Unmarked
            && forall k :: r.value <= k < d ==> s[k] in Unmarked)
    decreases d - c
  {
    if c < d && s[d - 1] in Unmarked {
      LastMarkFound(s, c, d - 1, e);
    }
  }

  /** The end of the line that starts at `a`. */
  function LineEnd(s: string, a: nat): (b: nat)
    requires a <= |s|
    ensures a <= b <= |s|
  {
    Find(s, a, |s|, LineBreaks)
  }

  /** A line ends at the first '\n' or '\r', or at the end of the input. */
  lemma LineEndFound(s: string, a: nat)
    requires a <= |s|
    ensures var b := LineEnd(s, a);
      && (b < |s| ==> s[b] in LineBreaks)
      && forall k :: a <= k < b ==> s[k] !in LineBreaks
  {
    FindStops(s, a, |s|, LineBreaks);
  }

  /** The error call for a fault on the line with 0-based index `n`. */
  function Report(n: nat, message: string): Event {
    SyntaxError(Decimal.ToDecimal(n + 1), message)
  }

  /** What a line contributes: its calls and the section in force for the
      next line, or the syntax error that stops the parse. */
  datatype LineResult =
    | Continue(out: seq<Event>, section: Span)
    | Stop(message: string)

  /** The line [a, b), the `n`-th, read with section `section` in force. */
  function ReadLine(s: string, a: nat, b: nat, section: Span): LineResult
    requires a <= b <= |s|
  {
    var f := Skip(s, a, b, Blanks);
    if f == b || s[f] == ';' then Continue([], section)
    else if s[f] == '=' then Stop(ExpectedKey)
    else if s[f] == '[' then ReadHeader(s, f + 1, b)
    else ReadPair(s, f, b, section)
  }

  /** A header whose '[' lies just before `a`: the name starts at the first
      character that is neither blank nor ';' and runs to the first '[' or
      ']'; it ends after its last character that is neither blank nor ';'. */
  function ReadHeader(s: string, a: nat, b: nat): LineResult
    requires a <= b <= |s|
  {
    var g := Skip(s, a, b, Unmarked);
    if g == b then Stop(EndOfSection)
    else if s[g] == '=' then Stop(ExpectedKey)
    else ReadName(s, g, b)
  }

  /** A header name whose first character is at `g`. */
  function ReadName(s: string, g: nat, b: nat): LineResult
    requires g < b <= |s|
  {
    var h := Find(s, g + 1, b, {'[', ']', '='});
    if h == b then Stop(EndOfSection)
    else if s[h] == '=' then Stop(ExpectedKey)
    else ReadTrailer(s, h + 1, b, Span(Some(g), LastMark(s, g + 1, h, None)))
  }

  /** The text after a header's closing bracket, from `a` on: ignored unless
      it holds '='. */
  function ReadTrailer(s: string, a: nat, b: nat, section: Span): LineResult
    requires a <= b <= |s|
  {
    if Find(s, a, b, {'='}) < b then Stop(ExpectedKey) else Continue([], section)
  }

  /** A key/value line whose key starts at `f`: the key runs to the first
      '=' and ends after its last character that is neither blank nor ';'. */
  function ReadPair(s: string, f: nat, b: nat, section: Span): LineResult
    requires f < b <= |s|
  {
    var e := Find(s, f + 1, b, {'='});
    if e == b then Stop(EndOfKey)
    else ReadValue(s, e + 1, b, section, Span(Some(f), LastMark(s, f + 1, e, None)))
  }

  /** What follows the '=' before `a`: the value starts at the first
      character that is neither blank nor ';' and runs to the end of the
      line, blanks included; a ';' inside the value starts a comment that
      takes the whole pair with it. */
  function ReadValue(s: string, a: nat, b: nat, section: Span, key: Span): LineResult
    requires a <= b <= |s|
  {
    var v := Skip(s, a, b, Unmarked);
    if v == b then Continue([KeyValue(section, key, Span(Some(b), Some(b)))], section)
    else if s[v] == '=' then Stop(ExpectedKey)
    else ReadText(s, v, b, section, key)
  }

  /** A value whose first character is at `v`. */
  function ReadText(s: string, v: nat, b: nat, section: Span, key: Span): LineResult
    requires v < b <= |s|
  {
    var w := Find(s, v + 1, b, {';', '='});
    if w == b then Continue([KeyValue(section, key, Span(Some(v), Some(b)))], section)
    else if s[w] == '=' then Stop(ExpectedKey)
    else Continue([], section)
  }

  /** The calls made by the lines from the one starting at `a` (the `n`-th) on. */
  function ReadLines(s: string, a: nat, n: nat, section: Span): seq<Event>
    requires a <= |s|
    decreases 2 * (|s| - a) + 1
  {
    var b := LineEnd(s, a);
    ReadOn(s, b, n, ReadLine(s, a, b, section))
  }

  /** The calls made by the `n`-th line, which ends at `b` and reads as `r`,
      and by the lines after it. */
  function ReadOn(s: string, b: nat, n: nat, r: LineResult): seq<Event>
    requires b <= |s|
    decreases 2 * (|s| - b)
  {
    match r
    case Stop(message) => [Report(n, message)]
    case Continue(out, next) => if b == |s| then out else out + ReadLines(s, b + 1, n + 1, next)
  }

  /** The calls the format calls for on the whole input. */
  function ByLine(s: string): seq<Event> {
    ReadLines(s, 0, 0, Span(None, None))
  }

  // ---------------------------------------------------------------------
  // The scanner agrees with the line reading.

  /** The scanner's context at the start of the `n`-th line. */
  function LineStart(n: nat, section: Span): Context {
    Context(n, Undetermined, section.begin, section.end, None, None, None, None)
  }

  /** The line [a, b) holds no terminator and ends at one. */
  predicate IsLine(s: string, a: nat, b: nat) {
    && a <= b <= |s|
    && (forall k :: a <= k < b ==> !IsTerminator(s[k]))
    && (b < |s| ==> s[b] in LineBreaks)
  }

  /** What the scanner does after a line that ends at `b` without error. */
  function Rest(s: string, b: nat, n: nat, section: Span): seq<Event>
    requires b <= |s|
  {
    if b == |s| then [] else Run(s, b + 1, LineStart(n + 1, section))
  }

  predicate Agrees(s: string, b: nat, n: nat, r: LineResult, run: seq<Event>)
    requires b <= |s|
  {
    match r
    case Stop(message) => run == [Report(n, message)]
    case Continue(out, next) => run == out + Rest(s, b, n, next)
  }

  lemma AgreesOn(s: string, b: nat, n: nat, r: LineResult, run: seq<Event>, run': seq<Event>)
    requires b <= |s| && run == run' && Agrees(s, b, n, r, run')
    ensures Agrees(s, b, n, r, run)
  {
  }

  /** A character that leaves the context as it is in state `st`. */
  predicate Inert(ch: char, st: State) {
    || ch in Blanks
    || (ch == ';' && st != Undetermined && st != Value)
    || (st == SectionEnd && !IsTerminator(ch) && ch != '=')
  }

  lemma {:induction false} InertRun(s: string, c: nat, d: nat, ctx: Context)
    requires c <= d <= |s|
    requires forall k :: c <= k < d ==> Inert(s[k], ctx.state)
    ensures Run(s, c, ctx) == Run(s, d, ctx)
    decreases d - c
  {
    if c < d {
      assert Step(s, c, ctx) == Next(c + 1, ctx, []);
      InertRun(s, c + 1, d, ctx);
    }
  }

  /** A character that at most moves the end of the name being read in `st`. */
  predicate Extends(ch: char, st: State) {
    && !IsTerminator(ch) && ch != '='
    && (st == Section ==> ch != '[' && ch != ']')
    && (st == Value ==> ch != ';')
  }

  /** The end pointer of the name being read in the context's state. */
  function EndOf(ctx: Context): Option<nat> {
    match ctx.state
    case Key => ctx.keyEnd
    case Section => ctx.sectionEnd
    case _ => ctx.valueEnd
  }

  function WithEnd(ctx: Context, e: Option<nat>): (r: Context)
    ensures r.state == ctx.state && EndOf(r) == e
  {
    match ctx.state
    case Key => ctx.(keyEnd := e)
    case Section => ctx.(sectionEnd := e)
    case _ => ctx.(valueEnd := e)
  }

  /** Scanning forward and setting the end after every marked character
      ends where the backward search says. */
  lemma {:induction false} LastMarkShift(s: string, c: nat, d: nat, e: Option<nat>)
    requires c < d <= |s|
    ensures LastMark(s, c + 1, d, if s[c] in Unmarked then e else Some(c + 1)) == LastMark(s, c, d, e)
    decreases d - c
  {
    if d > c + 1 && s[d - 1] in Unmarked {
      LastMarkShift(s, c, d - 1, e);
    }
  }

  lemma {:induction false} ExtendRun(s: string, c: nat, d: nat, ctx: Context)
    requires c <= d <= |s|
    requires ctx.state in {Key, Section, Value}
    requires forall k :: c <= k < d ==> Extends(s[k], ctx.state)
    ensures Run(s, c, ctx) == Run(s, d, WithEnd(ctx, LastMark(s, c, d, EndOf(ctx))))
    decreases d - c
  {
    if c == d {
      assert WithEnd(ctx, EndOf(ctx)) == ctx;
    } else {
      var next := WithEnd(ctx, if s[c] in Unmarked then EndOf(ctx) else Some(c + 1));
      assert Step(s, c, ctx) == Next(c + 1, next, []);
      ExtendRun(s, c + 1, d, next);
      LastMarkShift(s, c, d, EndOf(ctx));
      assert WithEnd(next, LastMark(s, c + 1, d, EndOf(next))) == WithEnd(ctx, LastMark(s, c, d, EndOf(ctx)));
    }
  }

  lemma {:induction false} CommentEndAt(s: string, c: nat, b: nat)
    requires c <= b <= |s|
    requires forall k :: c <= k < b ==> !IsTerminator(s[k])
    requires IsTerminator(At(s, b))
    ensures CommentEnd(s, c) == b
    decreases b - c
  {
    if c < b {
      CommentEndAt(s, c + 1, b);
    }
  }

  /** A line that ends at `b` in a state that finishes it without error. */
  lemma EndOfLine(s: string, b: nat, ctx: Context)
    requires NulFree(s) && b <= |s| && (b < |s| ==> s[b] in LineBreaks)
    requires ctx.state in {Undetermined, SectionEnd, Value, ValueBegin}
    ensures Run(s, b, ctx) ==
      (if ctx.state in {Value, ValueBegin} then [Finished(ctx, b)] else []) +
      (if b == |s| then [] else Run(s, b + 1, NextLine(ctx)))
  {
  }

  /** One character that changes the context and calls nothing. */
  lemma Moves(s: string, c: nat, ctx: Context, next: Context)
    requires c < |s| && Step(s, c, ctx) == Next(c + 1, next, [])
    ensures Run(s, c, ctx) == Run(s, c + 1, next)
  {
  }

  /** An '=' anywhere but right after a key ends the parse with an error. */
  lemma EqualsRun(s: string, c: nat, ctx: Context)
    requires c < |s| && s[c] == '=' && ctx.state != Key
    ensures Run(s, c, ctx) == [Report(ctx.line, ExpectedKey)]
  {
    assert Step(s, c, ctx) == Halt([Report(ctx.line, ExpectedKey)]);
  }

  /** A line that ends inside a key or a section name ends the parse with an error. */
  lemma OpenEndRun(s: string, c: nat, ctx: Context, message: string)
    requires c <= |s| && IsTerminator(At(s, c))
    requires (ctx.state == Key && message == EndOfKey) ||
             (ctx.state in {Section, SectionBegin} && message == EndOfSection)
    ensures Run(s, c, ctx) == [Report(ctx.line, message)]
  {
    assert Step(s, c, ctx) == Halt([Report(ctx.line, message)]);
  }

  /** A ';' that starts a comment skips to the line break at `b`. */
  lemma CommentRun(s: string, c: nat, b: nat, ctx: Context)
    requires NulFree(s) && IsLine(s, c, b) && c < b && s[c] == ';'
    requires ctx.state == Undetermined || ctx.state == Value
    ensures Run(s, c, ctx) == if b == |s| then [] else Run(s, b + 1, NextLine(ctx))
  {
    CommentEndAt(s, c + 1, b);
    assert Step(s, c, ctx) == if b == |s| then Halt([]) else Next(b + 1, NextLine(ctx), []);
  }

  /** The scanner reads what follows a header's closing bracket the way
      `ReadTrailer` describes it. */
  lemma TrailerRun(s: string, a: nat, b: nat, n: nat, section: Span)
    requires NulFree(s) && IsLine(s, a, b)
    ensures Agrees(s, b, n, ReadTrailer(s, a, b, section),
                   Run(s, a, Context(n, SectionEnd, section.begin, section.end, None, None, None, None)))
  {
    var ctx := Context(n, SectionEnd, section.begin, section.end, None, None, None, None);
    var q := Find(s, a, b, {'='});
    FindStops(s, a, b, {'='});
    InertRun(s, a, q, ctx);
    if q == b {
      EndOfLine(s, b, ctx);
      assert NextLine(ctx) == LineStart(n + 1, section);
    } else {
      EqualsRun(s, q, ctx);
    }
  }

  /** The context once a section name starting at `g` has been read up to `h`. */
  function Named(s: string, g: nat, h: nat, n: nat): Context
    requires g < h <= |s|
  {
    Context(n, Section, Some(g), LastMark(s, g + 1, h, None), None, None, None, None)
  }

  /** A header's name, from its first character `g` to the bracket or '='
      at `h` that ends it. */
  lemma NameRun(s: string, g: nat, b: nat, n: nat)
    requires NulFree(s) && IsLine(s, g, b) && g < b && s[g] !in Unmarked && s[g] != '='
    ensures var h := Find(s, g + 1, b, {'[', ']', '='});
      Run(s, g, Context(n, SectionBegin, None, None, None, None, None, None)) == Run(s, h, Named(s, g, h, n))
  {
    var inSection := Context(n, Section, Some(g), None, None, None, None, None);
    Moves(s, g, Context(n, SectionBegin, None, None, None, None, None, None), inSection);
    var h := Find(s, g + 1, b, {'[', ']', '='});
    FindStops(s, g + 1, b, {'[', ']', '='});
    ExtendRun(s, g + 1, h, inSection);
    assert WithEnd(inSection, LastMark(s, g + 1, h, EndOf(inSection))) == Named(s, g, h, n);
  }

  /** The scanner reads a header line the way `ReadHeader` describes it. */
  lemma HeaderRun(s: string, a: nat, b: nat, n: nat)
    requires NulFree(s) && IsLine(s, a, b)
    ensures Agrees(s, b, n, ReadHeader(s, a, b),
                   Run(s, a, Context(n, SectionBegin, None, None, None, None, None, None)))
  {
    var ctx := Context(n, SectionBegin, None, None, None, None, None, None);
    var g := Skip(s, a, b, Unmarked);
    SkipStops(s, a, b, Unmarked);
    InertRun(s, a, g, ctx);
    if g == b {
      OpenEndRun(s, g, ctx, EndOfSection);
    } else if s[g] == '=' {
      EqualsRun(s, g, ctx);
    } else {
      NameRun(s, g, b, n);
      NamedRun(s, g, b, n);
    }
  }

  /** The scanner reads a header's name the way `ReadName` describes it. */
  lemma NamedRun(s: string, g: nat, b: nat, n: nat)
    requires NulFree(s) && IsLine(s, g, b) && g < b
    ensures var h := Find(s, g + 1, b, {'[', ']', '='});
      Agrees(s, b, n, ReadName(s, g, b), Run(s, h, Named(s, g, h, n)))
  {
    var h := Find(s, g + 1, b, {'[', ']', '='});
    FindStops(s, g + 1, b, {'[', ']', '='});
    var named := Named(s, g, h, n);
    if h == b {
      OpenEndRun(s, h, named, EndOfSection);
    } else if s[h] == '=' {
      EqualsRun(s, h, named);
    } else {
      var section := Span(Some(g), LastMark(s, g + 1, h, None));
      Moves(s, h, named, named.(state := SectionEnd));
      TrailerRun(s, h + 1, b, n, section);
      AgreesOn(s, b, n, ReadTrailer(s, h + 1, b, section), Run(s, h, named), Run(s, h + 1, named.(state := SectionEnd)));
    }
  }

  /** The context while reading a value that starts at `v`. */
  function Valued(n: nat, section: Span, key: Span, v: nat, e: Option<nat>): Context {
    Context(n, Value, section.begin, section.end, key.begin, key.end, Some(v), e)
  }

  /** A value that runs to the end of its line. */
  lemma ValueEndRun(s: string, b: nat, n: nat, section: Span, key: Span, v: nat, e: Option<nat>)
    requires NulFree(s) && b <= |s| && (b < |s| ==> s[b] in LineBreaks)
    ensures Run(s, b, Valued(n, section, key, v, e)) ==
      [KeyValue(section, key, Span(Some(v), Some(b)))] + Rest(s, b, n, section)
  {
    var ctx := Valued(n, section, key, v, e);
    EndOfLine(s, b, ctx);
    assert NextLine(ctx) == LineStart(n + 1, section);
    assert Finished(ctx, b) == KeyValue(section, key, Span(Some(v), Some(b)));
  }

  /** The scanner reads a value whose first character is at `v` the way
      `ReadText` describes it. */
  lemma ValueTailRun(s: string, v: nat, b: nat, n: nat, section: Span, key: Span)
    requires NulFree(s) && IsLine(s, v, b) && v < b
    ensures Agrees(s, b, n, ReadText(s, v, b, section, key), Run(s, v + 1, Valued(n, section, key, v, None)))
  {
    var ctx := Valued(n, section, key, v, None);
    var w := Find(s, v + 1, b, {';', '='});
    FindStops(s, v + 1, b, {';', '='});
    ExtendRun(s, v + 1, w, ctx);
    var valued := Valued(n, section, key, v, LastMark(s, v + 1, w, None));
    assert WithEnd(ctx, LastMark(s, v + 1, w, EndOf(ctx))) == valued;
    TextRun(s, v, w, b, n, section, key);
    AgreesOn(s, b, n, ReadText(s, v, b, section, key), Run(s, v + 1, ctx), Run(s, w, valued));
  }

  /** A value whose first character is at `v`, from the ';', '=' or line
      end at `w` that ends it. */
  lemma TextRun(s: string, v: nat, w: nat, b: nat, n: nat, section: Span, key: Span)
    requires NulFree(s) && IsLine(s, v, b) && v < b && w == Find(s, v + 1, b, {';', '='})
    ensures Agrees(s, b, n, ReadText(s, v, b, section, key),
                   Run(s, w, Valued(n, section, key, v, LastMark(s, v + 1, w, None))))
  {
    var valued := Valued(n, section, key, v, LastMark(s, v + 1, w, None));
    FindStops(s, v + 1, b, {';', '='});
    if w == b {
      ValueEndRun(s, b, n, section, key, v, valued.valueEnd);
      assert ReadText(s, v, b, section, key) == Continue([KeyValue(section, key, Span(Some(v), Some(b)))], section);
    } else if s[w] == '=' {
      EqualsRun(s, w, valued);
      assert ReadText(s, v, b, section, key) == Stop(ExpectedKey);
    } else {
      CommentRun(s, w, b, valued);
      assert NextLine(valued) == LineStart(n + 1, section);
      assert ReadText(s, v, b, section, key) == Continue([], section);
    }
  }

  /** The scanner reads what follows a key's '=' the way `ReadValue`
      describes it. */
  lemma ValueRun(s: string, a: nat, b: nat, n: nat, section: Span, key: Span)
    requires NulFree(s) && IsLine(s, a, b)
    ensures Agrees(s, b, n, ReadValue(s, a, b, section, key),
                   Run(s, a, Context(n, ValueBegin, section.begin, section.end, key.begin, key.end, None, None)))
  {
    var ctx := Context(n, ValueBegin, section.begin, section.end, key.begin, key.end, None, None);
    var v := Skip(s, a, b, Unmarked);
    SkipStops(s, a, b, Unmarked);
    InertRun(s, a, v, ctx);
    if v == b {
      EndOfLine(s, b, ctx);
      assert NextLine(ctx) == LineStart(n + 1, section);
    } else if s[v] == '=' {
      EqualsRun(s, v, ctx);
    } else {
      Moves(s, v, ctx, Valued(n, section, key, v, None));
      ValueTailRun(s, v, b, n, section, key);
    }
  }

  /** The context once a key starting at `f` has been read up to `e`. */
  function Keyed(s: string, f: nat, e: nat, n: nat, section: Span): Context
    requires f < e <= |s|
  {
    Context(n, Key, section.begin, section.end, Some(f), LastMark(s, f + 1, e, None), None, None)
  }

  /** A key, from its first character `f` to the '=' or line end at `e`. */
  lemma KeyRun(s: string, f: nat, b: nat, n: nat, section: Span)
    requires NulFree(s) && IsLine(s, f, b) && f < b
    ensures var e := Find(s, f + 1, b, {'='});
      Run(s, f + 1, LineStart(n, section).(state := Key, key := Some(f))) == Run(s, e, Keyed(s, f, e, n, section))
  {
    var inKey := LineStart(n, section).(state := Key, key := Some(f));
    var e := Find(s, f + 1, b, {'='});
    FindStops(s, f + 1, b, {'='});
    ExtendRun(s, f + 1, e, inKey);
    assert WithEnd(inKey, LastMark(s, f + 1, e, EndOf(inKey))) == Keyed(s, f, e, n, section);
  }

  /** What follows a key that ends at `e`, at the '=' or the end of the line. */
  lemma KeyedRun(s: string, f: nat, e: nat, b: nat, n: nat, section: Span)
    requires NulFree(s) && IsLine(s, f, b) && f < b && e == Find(s, f + 1, b, {'='})
    ensures Agrees(s, b, n, ReadPair(s, f, b, section), Run(s, e, Keyed(s, f, e, n, section)))
  {
    var keyed := Keyed(s, f, e, n, section);
    var key := Span(Some(f), LastMark(s, f + 1, e, None));
    FindStops(s, f + 1, b, {'='});
    if e == b {
      OpenEndRun(s, e, keyed, EndOfKey);
      assert ReadPair(s, f, b, section) == Stop(EndOfKey);
    } else {
      Moves(s, e, keyed, keyed.(state := ValueBegin));
      ValueRun(s, e + 1, b, n, section, key);
      assert ReadPair(s, f, b, section) == ReadValue(s, e + 1, b, section, key);
      AgreesOn(s, b, n, ReadPair(s, f, b, section), Run(s, e, keyed), Run(s, e + 1, keyed.(state := ValueBegin)));
    }
  }

  /** The scanner reads a key/value line the way `ReadPair` describes it. */
  lemma PairRun(s: string, f: nat, b: nat, n: nat, section: Span)
    requires NulFree(s) && IsLine(s, f, b) && f < b
    ensures Agrees(s, b, n, ReadPair(s, f, b, section),
                   Run(s, f + 1, LineStart(n, section).(state := Key, key := Some(f))))
  {
    var e := Find(s, f + 1, b, {'='});
    KeyRun(s, f, b, n, section);
    KeyedRun(s, f, e, b, n, section);
    AgreesOn(s, b, n, ReadPair(s, f, b, section),
             Run(s, f + 1, LineStart(n, section).(state := Key, key := Some(f))), Run(s, e, Keyed(s, f, e, n, section)));
  }

  /** The scanner reads any line the way `ReadLine` describes it. */
  lemma LineRun(s: string, a: nat, b: nat, n: nat, section: Span)
    requires NulFree(s) && IsLine(s, a, b)
    ensures Agrees(s, b, n, ReadLine(s, a, b, section), Run(s, a, LineStart(n, section)))
  {
    var ctx := LineStart(n, section);
    var f := Skip(s, a, b, Blanks);
    SkipStops(s, a, b, Blanks);
    InertRun(s, a, f, ctx);
    if f == b || s[f] == ';' {
      QuietLineRun(s, f, b, n, section);
      assert ReadLine(s, a, b, section) == Continue([], section);
    } else if s[f] == '=' {
      EqualsRun(s, f, ctx);
      assert ReadLine(s, a, b, section) == Stop(ExpectedKey);
    } else if s[f] == '[' {
      HeaderLineRun(s, f, b, n, section);
      assert ReadLine(s, a, b, section) == ReadHeader(s, f + 1, b);
    } else {
      PairLineRun(s, f, b, n, section);
      assert ReadLine(s, a, b, section) == ReadPair(s, f, b, section);
    }
  }

  /** A line with nothing but blanks before its end or its comment. */
  lemma QuietLineRun(s: string, f: nat, b: nat, n: nat, section: Span)
    requires NulFree(s) && IsLine(s, f, b) && (f == b || s[f] == ';')
    ensures Run(s, f, LineStart(n, section)) == Rest(s, b, n, section)
  {
    var ctx := LineStart(n, section);
    assert NextLine(ctx) == LineStart(n + 1, section);
    if f == b {
      EndOfLine(s, b, ctx);
    } else {
      CommentRun(s, f, b, ctx);
    }
  }

  /** A line whose first non-blank character, at `f`, opens a header. */
  lemma HeaderLineRun(s: string, f: nat, b: nat, n: nat, section: Span)
    requires NulFree(s) && IsLine(s, f, b) && f < b && s[f] == '['
    ensures Agrees(s, b, n, ReadHeader(s, f + 1, b), Run(s, f, LineStart(n, section)))
  {
    var open := Context(n, SectionBegin, None, None, None, None, None, None);
    Moves(s, f, LineStart(n, section), open);
    HeaderRun(s, f + 1, b, n);
    AgreesOn(s, b, n, ReadHeader(s, f + 1, b), Run(s, f, LineStart(n, section)), Run(s, f + 1, open));
  }

  /** A line whose first non-blank character, at `f`, starts a key. */
  lemma PairLineRun(s: string, f: nat, b: nat, n: nat, section: Span)
    requires NulFree(s) && IsLine(s, f, b) && f < b && s[f] !in {' ', '\t', ';', '=', '['}
    ensures Agrees(s, b, n, ReadPair(s, f, b, section), Run(s, f, LineStart(n, section)))
  {
    var ctx := LineStart(n, section);
    Moves(s, f, ctx, ctx.(state := Key, key := Some(f)));
    PairRun(s, f, b, n, section);
  }

  lemma {:induction false} ReadLinesRun(s: string, a: nat, n: nat, section: Span)
    requires NulFree(s) && a <= |s|
    ensures Run(s, a, LineStart(n, section)) == ReadLines(s, a, n, section)
    decreases |s| - a
  {
    var b := LineEnd(s, a);
    var r := ReadLine(s, a, b, section);
    LineEndFound(s, a);
    LineRun(s, a, b, n, section);
    if r.Continue? && b < |s| {
      ReadLinesRun(s, b + 1, n + 1, r.section);
    }
  }


  /** On any input without an interior NUL, `panini::parse` makes exactly the
      calls the line-by-line reading calls for. */
  lemma ParseByLine(s: string)
    requires NulFree(s)
    ensures Events(s) == ByLine(s)
  {
    assert Initial() == LineStart(0, Span(None, None));
    ReadLinesRun(s, 0, 0, Span(None, None));
  }
}
