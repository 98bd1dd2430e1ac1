/**
 * What the format promises about whole classes of lines and inputs: lines
 * without a pair make no call, a pair line makes one call whose spans are
 * fixed by where its blanks, '=' and ';' fall, the section is carried from
 * line to line, an input without '=' makes no key/value call, and the input
 * ends at its first NUL.
 */
module PaniniProperties {
  import opened Wrappers
  import opened PaniniMachine
  import opened PaniniLines
  import opened PaniniLocal

  // ---------------------------------------------------------------------
  // Where the searches stop, from the characters around them.

  lemma {:induction false} SkipIs(s: string, c: nat, d: nat, i: nat, skip: set<char>)
    requires c <= i <= d <= |s|
    requires forall k :: c <= k < i ==> s[k] in skip
    requires i < d ==> s[i] !in skip
    ensures Skip(s, c, d, skip) == i
  {
    SkipStops(s, c, d, skip);
  }

  lemma {:induction false} FindIs(s: string, c: nat, d: nat, i: nat, stops: set<char>)
    requires c <= i <= d <= |s|
    requires forall k :: c <= k < i ==> s[k] !in stops
    requires i < d ==> s[i] in stops
    ensures Find(s, c, d, stops) == i
  {
    FindStops(s, c, d, stops);
  }

  /** Where a name over [c, d) ends: `None` when every character is blank or
      ';', else just past the last one that is not. */
  predicate EndsAt(s: string, c: nat, d: nat, end: Option<nat>)
    requires c <= d <= |s|
  {
    match end
    case None => forall k :: c <= k < d ==> s[k] in Unmarked
    case Some(m) => c < m <= d && s[m - 1] !in Unmarked && forall k :: m <= k < d ==> s[k] in Unmarked
  }

  lemma {:induction false} LastMarkIs(s: string, c: nat, d: nat, end: Option<nat>)
    requires c <= d <= |s| && EndsAt(s, c, d, end)
    ensures LastMark(s, c, d, None) == end
  {
    LastMarkFound(s, c, d, None);
    var r := LastMark(s, c, d, None);
    if end.Some? {
      var m := end.value;
      assert s[m - 1] !in Unmarked;
      assert r.Some?;
    }
  }

  // ---------------------------------------------------------------------
  // Lines that make no call.

  predicate AllBlank(t: string, c: nat, d: nat)
    requires c <= d <= |t|
  {
    forall k :: c <= k < d ==> t[k] in Blanks
  }

  /** Nothing but blanks. */
  predicate BlankLine(t: string) {
    AllBlank(t, 0, |t|)
  }

  /** A ';' after blanks only: the whole line is a comment. */
  predicate CommentLine(t: string) {
    exists f :: 0 <= f < |t| && AllBlank(t, 0, f) && t[f] == ';'
  }

  /** A '[' at `f` after blanks only, a character other than a blank or ';'
      at `i` after it, a '[' or ']' at `j` after that, and no '=' anywhere. */
  predicate HeaderAt(t: string, f: nat, i: nat, j: nat) {
    && f < i < j < |t| && AllBlank(t, 0, f) && t[f] == '['
    && t[i] !in Unmarked && t[j] in {'[', ']'}
    && forall k :: 0 <= k < |t| ==> t[k] != '='
  }

  predicate HeaderLine(t: string) {
    exists f, i, j | 0 <= f < i < j < |t| :: HeaderAt(t, f, i, j)
  }

  predicate Quiet(t: string) {
    BlankLine(t) || CommentLine(t) || HeaderLine(t)
  }

  lemma {:induction false} FirstNonBlank(t: string, f: nat)
    requires f < |t| && AllBlank(t, 0, f) && t[f] !in Blanks
    ensures Skip(t, 0, |t|, Blanks) == f
  {
    SkipIs(t, 0, |t|, f, Blanks);
  }

  /** A header makes no call. */
  lemma {:induction false} HeaderQuiet(t: string, section: Span, f: nat, i: nat, j: nat)
    requires HeaderAt(t, f, i, j)
    ensures ReadLine(t, 0, |t|, section).Continue?
    ensures ReadLine(t, 0, |t|, section).out == []
  {
    var b := |t|;
    FirstNonBlank(t, f);
    assert ReadLine(t, 0, b, section) == ReadHeader(t, f + 1, b);
    SkipStops(t, f + 1, b, Unmarked);
    var g := Skip(t, f + 1, b, Unmarked);
    assert g <= i && t[g] != '=';
    assert ReadHeader(t, f + 1, b) == ReadName(t, g, b);
    FindStops(t, g + 1, b, {'[', ']', '='});
    var h := Find(t, g + 1, b, {'[', ']', '='});
    assert h <= j && t[h] != '=';
    var named := Span(Some(g), LastMark(t, g + 1, h, None));
    assert ReadName(t, g, b) == ReadTrailer(t, h + 1, b, named);
    FindIs(t, h + 1, b, b, {'='});
  }

  /** A blank line, a comment line and a header make no call; only a header
      changes the section. */
  lemma {:induction false} QuietLine(t: string, section: Span)
    requires Quiet(t)
    ensures ReadLine(t, 0, |t|, section).Continue?
    ensures ReadLine(t, 0, |t|, section).out == []
    ensures !HeaderLine(t) ==> ReadLine(t, 0, |t|, section).section == section
  {
    var b := |t|;
    if BlankLine(t) {
      SkipIs(t, 0, b, b, Blanks);
    } else if CommentLine(t) {
      var f :| 0 <= f < b && AllBlank(t, 0, f) && t[f] == ';';
      FirstNonBlank(t, f);
    } else {
      var f, i, j :| HeaderAt(t, f, i, j);
      HeaderQuiet(t, section, f, i, j);
    }
  }

  /** Quiet lines, however many, make no call. */
  lemma {:induction false} QuietLines(lines: seq<string>, a: nat, n: nat, section: Span)
    requires forall i :: 0 <= i < |lines| ==> Quiet(lines[i])
    ensures ReadEach(lines, a, n, section) == []
    decreases |lines|
  {
    if lines != [] {
      var t := lines[0];
      assert Quiet(t);
      QuietLine(t, section);
      var r := ReadLine(t, 0, |t|, section);
      var moved := Relocated(r, a, IsHeader(t));
      assert moved.Continue? && moved.out == [];
      QuietLines(lines[1..], a + |t| + 1, n + 1, moved.section);
    }
  }

  /** `a` starts a line of `s`: it is the first position or follows a
      '\n' or '\r'. */
  predicate LineStartsAt(s: string, a: nat) {
    a <= |s| && (a == 0 || s[a - 1] in LineBreaks)
  }

  /** Every line of `s`, however its lines are broken ('\n', '\r' or
      "\r\n", which ends a line and an empty one), is blank, a comment or a
      header. */
  ghost predicate QuietInput(s: string) {
    forall a: nat :: LineStartsAt(s, a) ==> Quiet(s[a..LineEnd(s, a)])
  }

  /** From any line start on, quiet lines make no call. */
  lemma {:induction false} QuietFrom(s: string, a: nat, n: nat, section: Span)
    requires LineStartsAt(s, a) && QuietInput(s)
    ensures ReadLines(s, a, n, section) == []
    decreases |s| - a
  {
    var b := LineEnd(s, a);
    var t := s[a..b];
    assert Quiet(t);
    WindowOf(s, a, t);
    ReadLineMoved(s, a, t, section);
    QuietLine(t, section);
    var r := ReadLine(s, a, b, section);
    assert r.Continue? && r.out == [];
    if b < |s| {
      LineEndFound(s, a);
      assert LineStartsAt(s, b + 1);
      QuietFrom(s, b + 1, n + 1, r.section);
    }
  }

  /** An input without a NUL whose every line is blank, a comment or a
      header makes no call at all. */
  lemma {:induction false} NoPayloadNoCalls(s: string)
    requires NulFree(s) && QuietInput(s)
    ensures Events(s) == []
  {
    ParseByLine(s);
    QuietFrom(s, 0, 0, Span(None, None));
  }

  /** The same for lines joined by '\n'. */
  lemma {:induction false} NoPayloadLinesNoCalls(lines: seq<string>)
    requires forall i :: 0 <= i < |lines| ==> Plain(lines[i]) && Quiet(lines[i])
    ensures Events(Join(lines)) == []
  {
    if lines == [] {
      assert Join(lines) == "";
      assert Step("", 0, Initial()) == Halt([]);
    } else {
      var s := Join(lines);
      PlainLines(lines);
      ParseByLine(s);
      assert s[0..] == s;
      ReadJoined(s, 0, lines, 0, Span(None, None));
      QuietLines(lines, 0, 0, Span(None, None));
    }
  }

  // ---------------------------------------------------------------------
  // A key/value line.

  /** The line `t` is a pair: blanks up to `f`, a key starting at `f`, its
      only '=' before the value at `e`, blanks and ';' from there up to `v`,
      and from `v` (if the line goes on) a value holding neither ';' nor '='.
      The key ends at `keyEnd`, as `EndsAt` says. */
  predicate PairAt(t: string, f: nat, e: nat, v: nat, keyEnd: Option<nat>) {
    && f < e < v <= |t|
    && AllBlank(t, 0, f) && t[f] !in Unmarked && t[f] != '[' && t[f] != '='
    && t[e] == '=' && (forall k :: f < k < e ==> t[k] != '=')
    && EndsAt(t, f + 1, e, keyEnd)
    && (forall k :: e < k < v ==> t[k] in Unmarked)
    && (v < |t| ==> t[v] !in Unmarked && t[v] != '=')
    && (forall k :: v < k < |t| ==> t[k] != ';' && t[k] != '=')
  }

  /** A pair line makes exactly one call. The key runs from its first
      character to just past its last character that is neither blank nor
      ';' (with no end at all when that is its first). The value runs from
      its first such character after the '=' to the end of the line,
      trailing blanks included; it is empty, at the end of the line, when
      the line ends first. The section is the one in force. */
  lemma {:induction false} PairLine(t: string, section: Span, f: nat, e: nat, v: nat, keyEnd: Option<nat>)
    requires PairAt(t, f, e, v, keyEnd)
    ensures ReadLine(t, 0, |t|, section)
      == Continue([KeyValue(section, Span(Some(f), keyEnd), Span(Some(v), Some(|t|)))], section)
  {
    var b := |t|;
    FirstNonBlank(t, f);
    assert ReadLine(t, 0, b, section) == ReadPair(t, f, b, section);
    FindIs(t, f + 1, b, e, {'='});
    LastMarkIs(t, f + 1, e, keyEnd);
    var key := Span(Some(f), keyEnd);
    assert ReadPair(t, f, b, section) == ReadValue(t, e + 1, b, section, key);
    SkipIs(t, e + 1, b, v, Unmarked);
    if v < b {
      FindIs(t, v + 1, b, b, {';', '='});
    }
  }

  /** A line that is a pair up to `w` reads, from the start of its value
      on, as the value text of that pair. */
  lemma {:induction false} PairHead(t: string, section: Span, f: nat, e: nat, v: nat, w: nat, keyEnd: Option<nat>)
    requires w < |t| && PairAt(t[..w], f, e, v, keyEnd) && v < w
    ensures ReadLine(t, 0, |t|, section) == ReadText(t, v, |t|, section, Span(Some(f), keyEnd))
  {
    var b := |t|;
    var p := t[..w];
    assert forall k :: 0 <= k < w ==> p[k] == t[k];
    FirstNonBlank(t, f);
    assert ReadLine(t, 0, b, section) == ReadPair(t, f, b, section);
    FindIs(t, f + 1, b, e, {'='});
    LastMarkIs(t, f + 1, e, keyEnd);
    var key := Span(Some(f), keyEnd);
    assert ReadPair(t, f, b, section) == ReadValue(t, e + 1, b, section, key);
    SkipIs(t, e + 1, b, v, Unmarked);
  }

  /** A line that is a pair up to a ';' after the start of its value makes
      no call: the comment takes the pair with it. */
  lemma {:induction false} CommentDropsPair(t: string, section: Span, f: nat, e: nat, v: nat, w: nat, keyEnd: Option<nat>)
    requires w < |t| && PairAt(t[..w], f, e, v, keyEnd) && v < w && t[w] == ';'
    ensures ReadLine(t, 0, |t|, section) == Continue([], section)
  {
    PairHead(t, section, f, e, v, w, keyEnd);
    var p := t[..w];
    assert forall k :: v < k < w ==> p[k] == t[k];
    FindIs(t, v + 1, |t|, w, {';', '='});
  }

  /** A line read by itself: the input is that line alone. */
  lemma {:induction false} SingleLine(t: string)
    requires Plain(t)
    ensures Events(t) == match ReadLine(t, 0, |t|, Span(None, None))
      case Stop(message) => [Report(0, message)]
      case Continue(out, _) => out
  {
    assert NulFree(t);
    ParseByLine(t);
    FindIs(t, 0, |t|, |t|, LineBreaks);
    assert ByLine(t) == ReadOn(t, |t|, 0, ReadLine(t, 0, |t|, Span(None, None)));
  }

  /** `key = value` as a whole input: one call, with no section. */
  lemma {:induction false} PairInput(t: string, f: nat, e: nat, v: nat, keyEnd: Option<nat>)
    requires Plain(t) && PairAt(t, f, e, v, keyEnd)
    ensures Events(t) == [KeyValue(Span(None, None), Span(Some(f), keyEnd), Span(Some(v), Some(|t|)))]
  {
    SingleLine(t);
    PairLine(t, Span(None, None), f, e, v, keyEnd);
  }

  // ---------------------------------------------------------------------
  // Sections.

  /** A line that is not a header keeps the section in force and reports
      its pair with it; a header makes no call. */
  lemma {:induction false} SectionCarried(t: string, section: Span)
    requires ReadLine(t, 0, |t|, section).Continue?
    ensures var r := ReadLine(t, 0, |t|, section);
      && (!IsHeader(t) ==> r.section == section && forall e <- r.out :: e.KeyValue? && e.section == section)
      && (IsHeader(t) ==> r.out == [])
  {
    var b := |t|;
    var f := Skip(t, 0, b, Blanks);
    if f < b && t[f] != ';' && t[f] != '=' && t[f] != '[' {
      var e := Find(t, f + 1, b, {'='});
      if e < b {
        var key := Span(Some(f), LastMark(t, f + 1, e, None));
        var v := Skip(t, e + 1, b, Unmarked);
        if v < b && t[v] != '=' {
          assert ReadValue(t, e + 1, b, section, key) == ReadText(t, v, b, section, key);
        }
      }
    }
  }

  // ---------------------------------------------------------------------
  // No '=', no pair.

  /** From a context not waiting for a value, an input with no '=' ahead
      makes no key/value call: only an error call can come. */
  lemma {:induction false} NoEqualsRun(s: string, c: nat, ctx: Context)
    requires c <= |s| && ctx.state !in {ValueBegin, Value}
    requires forall k :: c <= k < |s| ==> s[k] != '='
    ensures forall e <- Run(s, c, ctx) :: e.SyntaxError?
    decreases |s| - c
  {
    var r := Step(s, c, ctx);
    assert forall e <- r.out :: e.SyntaxError?;
    if r.Next? {
      assert r.ctx.state !in {ValueBegin, Value};
      NoEqualsRun(s, r.pos, r.ctx);
      assert Run(s, c, ctx) == r.out + Run(s, r.pos, r.ctx);
    }
  }

  /** An input with no '=' makes no key/value call. */
  lemma NoEqualsNoPairs(s: string)
    requires '=' !in s
    ensures forall e <- Events(s) :: e.SyntaxError?
  {
    NoEqualsRun(s, 0, Initial());
  }

  // ---------------------------------------------------------------------
  // The input ends at its first NUL.

  lemma {:induction false} CommentEndCut(s: string, i: nat, c: nat)
    requires c <= i < |s| && s[i] == '\0'
    ensures CommentEnd(s, c) == CommentEnd(s[..i], c)
    decreases i - c
  {
    var p := s[..i];
    if c < i && !IsTerminator(s[c]) {
      assert At(p, c) == s[c];
      CommentEndCut(s, i, c + 1);
    }
  }

  lemma {:induction false} RunCut(s: string, i: nat, c: nat, ctx: Context)
    requires c <= i < |s| && s[i] == '\0'
    ensures Run(s, c, ctx) == Run(s[..i], c, ctx)
    decreases i - c
  {
    var p := s[..i];
    assert At(p, c) == At(s, c);
    var ch := At(s, c);
    if ch == ';' && (ctx.state == Undetermined || ctx.state == Value) {
      CommentEndCut(s, i, c + 1);
      var j := CommentEnd(s, c + 1);
      assert At(p, j) == At(s, j);
    }
    var r := Step(s, c, ctx);
    assert r == Step(p, c, ctx);
    if r.Next? {
      RunCut(s, i, r.pos, r.ctx);
    }
  }

  /** A NUL ends the input: nothing after the first one is read. */
  lemma NulEndsInput(s: string, i: nat)
    requires i < |s| && s[i] == '\0'
    ensures Events(s) == Events(s[..i])
  {
    RunCut(s, i, 0, Initial());
  }
}
