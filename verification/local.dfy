/**
 * Lines are read on their own. What a line contributes depends only on its
 * own characters, its number and the section in force: its spans are those
 * of the line read as an input by itself, moved to where the line starts.
 * An input given as lines joined by '\n' is therefore read one line at a
 * time (`ReadEach`), which is how the concrete inputs of the test suite are
 * worked out.
 */
module PaniniLocal {
  import opened Wrappers
  import opened PaniniMachine
  import opened PaniniLines

  function Moved(p: Option<nat>, a: nat): Option<nat> {
    if p.None? then None else Some(a + p.value)
  }

  function MovedSpan(span: Span, a: nat): Span {
    Span(Moved(span.begin, a), Moved(span.end, a))
  }

  /** A call made by a line that starts at `a`, from the call the same line
      makes when read by itself; the section passed in is not moved. */
  function MovedEvent(e: Event, a: nat): Event {
    match e
    case KeyValue(section, key, value) => KeyValue(section, MovedSpan(key, a), MovedSpan(value, a))
    case SyntaxError(_, _) => e
  }

  function MovedEvents(out: seq<Event>, a: nat): (r: seq<Event>)
    ensures |r| == |out|
    ensures forall i :: 0 <= i < |out| ==> r[i] == MovedEvent(out[i], a)
  {
    if out == [] then [] else [MovedEvent(out[0], a)] + MovedEvents(out[1..], a)
  }

  /** A line whose first non-blank character opens a header. */
  predicate IsHeader(t: string) {
    var f := Skip(t, 0, |t|, Blanks);
    f < |t| && t[f] == '['
  }

  /** The reading of a line moved to start at `a`: the calls' key and value
      views move, and so does the section that a header sets. */
  function Relocated(r: LineResult, a: nat, header: bool): LineResult {
    match r
    case Stop(message) => r
    case Continue(out, next) => Continue(MovedEvents(out, a), if header then MovedSpan(next, a) else next)
  }

  /** `t` occurs in `s` at `a`, character by character. */
  predicate Window(s: string, a: nat, t: string)
    decreases |t|
  {
    a + |t| <= |s| && (t == [] || (s[a] == t[0] && Window(s, a + 1, t[1..])))
  }

  lemma {:induction false} WindowAt(s: string, a: nat, t: string, k: nat)
    requires Window(s, a, t) && k < |t|
    ensures s[a + k] == t[k]
    decreases k
  {
    if k > 0 {
      WindowAt(s, a + 1, t[1..], k - 1);
    }
  }

  lemma {:induction false} WindowOf(s: string, a: nat, t: string)
    requires a + |t| <= |s| && s[a..a + |t|] == t
    ensures Window(s, a, t)
    decreases |t|
  {
    if t != [] {
      assert s[a] == t[0];
      assert s[a + 1..a + 1 + |t[1..]|] == t[1..];
      WindowOf(s, a + 1, t[1..]);
    }
  }

  // Each search over the window finds, in `s`, the position it finds in
  // `t` moved by `a`. Positions in `s` are passed as `p` and `q` so that the
  // terms match those that the readers' bodies produce.

  lemma {:induction false} FindMoved(s: string, a: nat, t: string, c: nat, d: nat, p: nat, q: nat, stops: set<char>)
    requires Window(s, a, t) && c <= d <= |t| && p == a + c && q == a + d
    ensures Find(s, p, q, stops) == a + Find(t, c, d, stops)
    decreases d - c
  {
    if c < d {
      WindowAt(s, a, t, c);
      FindMoved(s, a, t, c + 1, d, p + 1, q, stops);
    }
  }

  lemma {:induction false} SkipMoved(s: string, a: nat, t: string, c: nat, d: nat, p: nat, q: nat, skip: set<char>)
    requires Window(s, a, t) && c <= d <= |t| && p == a + c && q == a + d
    ensures Skip(s, p, q, skip) == a + Skip(t, c, d, skip)
    decreases d - c
  {
    if c < d {
      WindowAt(s, a, t, c);
      SkipMoved(s, a, t, c + 1, d, p + 1, q, skip);
    }
  }

  lemma {:induction false} LastMarkMoved(s: string, a: nat, t: string, c: nat, d: nat, p: nat, q: nat)
    requires Window(s, a, t) && c <= d <= |t| && p == a + c && q == a + d
    ensures LastMark(s, p, q, None) == Moved(LastMark(t, c, d, None), a)
    decreases d - c
  {
    if c < d {
      WindowAt(s, a, t, d - 1);
      LastMarkMoved(s, a, t, c, d - 1, p, q - 1);
    }
  }

  lemma {:induction false} ReadTextMoved(s: string, a: nat, t: string, v: nat, p: nat, b: nat, section: Span, key: Span)
    requires Window(s, a, t) && v < |t| && p == a + v && b == a + |t|
    ensures ReadText(s, p, b, section, MovedSpan(key, a)) == Relocated(ReadText(t, v, |t|, section, key), a, false)
  {
    FindMoved(s, a, t, v + 1, |t|, p + 1, b, {';', '='});
    var w := Find(t, v + 1, |t|, {';', '='});
    if w < |t| {
      WindowAt(s, a, t, w);
    }
  }

  lemma {:induction false} ReadValueMoved(s: string, a: nat, t: string, c: nat, p: nat, b: nat, section: Span, key: Span)
    requires Window(s, a, t) && c <= |t| && p == a + c && b == a + |t|
    ensures ReadValue(s, p, b, section, MovedSpan(key, a)) == Relocated(ReadValue(t, c, |t|, section, key), a, false)
  {
    SkipMoved(s, a, t, c, |t|, p, b, Unmarked);
    var v := Skip(t, c, |t|, Unmarked);
    if v < |t| {
      WindowAt(s, a, t, v);
      if t[v] != '=' {
        ReadTextMoved(s, a, t, v, a + v, b, section, key);
      }
    }
  }

  lemma {:induction false} ReadPairMoved(s: string, a: nat, t: string, f: nat, p: nat, b: nat, section: Span)
    requires Window(s, a, t) && f < |t| && p == a + f && b == a + |t|
    ensures ReadPair(s, p, b, section) == Relocated(ReadPair(t, f, |t|, section), a, false)
  {
    FindMoved(s, a, t, f + 1, |t|, p + 1, b, {'='});
    var e := Find(t, f + 1, |t|, {'='});
    if e < |t| {
      LastMarkMoved(s, a, t, f + 1, e, p + 1, a + e);
      var key := Span(Some(f), LastMark(t, f + 1, e, None));
      ReadValueMoved(s, a, t, e + 1, a + e + 1, b, section, key);
    }
  }

  lemma {:induction false} ReadNameMoved(s: string, a: nat, t: string, g: nat, p: nat, b: nat)
    requires Window(s, a, t) && g < |t| && p == a + g && b == a + |t|
    ensures ReadName(s, p, b) == Relocated(ReadName(t, g, |t|), a, true)
  {
    FindMoved(s, a, t, g + 1, |t|, p + 1, b, {'[', ']', '='});
    var h := Find(t, g + 1, |t|, {'[', ']', '='});
    if h < |t| {
      WindowAt(s, a, t, h);
      if t[h] != '=' {
        LastMarkMoved(s, a, t, g + 1, h, p + 1, a + h);
        FindMoved(s, a, t, h + 1, |t|, a + h + 1, b, {'='});
      }
    }
  }

  lemma {:induction false} ReadHeaderMoved(s: string, a: nat, t: string, c: nat, p: nat, b: nat)
    requires Window(s, a, t) && c <= |t| && p == a + c && b == a + |t|
    ensures ReadHeader(s, p, b) == Relocated(ReadHeader(t, c, |t|), a, true)
  {
    SkipMoved(s, a, t, c, |t|, p, b, Unmarked);
    var g := Skip(t, c, |t|, Unmarked);
    if g < |t| {
      WindowAt(s, a, t, g);
      if t[g] != '=' {
        ReadNameMoved(s, a, t, g, a + g, b);
      }
    }
  }

  /** A line reads as the same line read by itself, moved to where it starts. */
  lemma {:induction false} ReadLineMoved(s: string, a: nat, t: string, section: Span)
    requires Window(s, a, t)
    ensures ReadLine(s, a, a + |t|, section) == Relocated(ReadLine(t, 0, |t|, section), a, IsHeader(t))
  {
    var f := Skip(t, 0, |t|, Blanks);
    if f < |t| && t[f] == '[' {
      HeaderLineMoved(s, a, t, f, section);
    } else if f < |t| && t[f] != ';' && t[f] != '=' {
      PairLineMoved(s, a, t, f, section);
    } else {
      SkipMoved(s, a, t, 0, |t|, a, a + |t|, Blanks);
      if f < |t| {
        WindowAt(s, a, t, f);
      }
    }
  }

  lemma {:induction false} HeaderLineMoved(s: string, a: nat, t: string, f: nat, section: Span)
    requires Window(s, a, t) && f == Skip(t, 0, |t|, Blanks) && f < |t| && t[f] == '['
    ensures ReadLine(s, a, a + |t|, section) == Relocated(ReadLine(t, 0, |t|, section), a, IsHeader(t))
  {
    SkipMoved(s, a, t, 0, |t|, a, a + |t|, Blanks);
    WindowAt(s, a, t, f);
    ReadHeaderMoved(s, a, t, f + 1, a + f + 1, a + |t|);
    assert IsHeader(t);
    assert ReadLine(t, 0, |t|, section) == ReadHeader(t, f + 1, |t|);
    assert ReadLine(s, a, a + |t|, section) == ReadHeader(s, a + f + 1, a + |t|);
  }

  lemma {:induction false} PairLineMoved(s: string, a: nat, t: string, f: nat, section: Span)
    requires Window(s, a, t) && f == Skip(t, 0, |t|, Blanks) && f < |t| && t[f] !in {'[', ';', '='}
    ensures ReadLine(s, a, a + |t|, section) == Relocated(ReadLine(t, 0, |t|, section), a, IsHeader(t))
  {
    var b := a + |t|;
    SkipMoved(s, a, t, 0, |t|, a, b, Blanks);
    WindowAt(s, a, t, f);
    SkipStops(t, 0, |t|, Blanks);
    assert ReadLine(t, 0, |t|, section) == ReadPair(t, f, |t|, section);
    assert ReadLine(s, a, b, section) == ReadPair(s, a + f, b, section);
    ReadPairMoved(s, a, t, f, a + f, b, section);
  }

  /** The lines joined by '\n'. */
  function Join(lines: seq<string>): string {
    if lines == [] then ""
    else if |lines| == 1 then lines[0]
    else lines[0] + "\n" + Join(lines[1..])
  }

  /** The calls made by `lines`, each read by itself and moved to where it
      starts in their join, the first at `a`, with its number `n` and the
      section `section` in force. */
  function ReadEach(lines: seq<string>, a: nat, n: nat, section: Span): seq<Event>
    decreases |lines|
  {
    if lines == [] then []
    else
      var t := lines[0];
      match Relocated(ReadLine(t, 0, |t|, section), a, IsHeader(t))
      case Stop(message) => [Report(n, message)]
      case Continue(out, next) => out + ReadEach(lines[1..], a + |t| + 1, n + 1, next)
  }

  predicate Unbroken(lines: seq<string>) {
    forall i, k :: 0 <= i < |lines| && 0 <= k < |lines[i]| ==> lines[i][k] !in LineBreaks
  }

  /** `Find` stops at the first character of `stops`. */
  lemma {:induction false} FindAt(s: string, c: nat, d: nat, i: nat, stops: set<char>)
    requires c <= i <= d <= |s|
    requires forall k :: c <= k < i ==> s[k] !in stops
    requires i < d ==> s[i] in stops
    ensures Find(s, c, d, stops) == i
    decreases i - c
  {
    if c < i {
      FindAt(s, c + 1, d, i, stops);
    }
  }

  /** A line with neither a line break nor a NUL in it. */
  predicate Plain(t: string) {
    forall k :: 0 <= k < |t| ==> t[k] !in LineBreaks && t[k] != '\0'
  }

  /** Plain lines are unbroken, and their join holds no NUL. */
  lemma {:induction false} PlainLines(lines: seq<string>)
    requires forall i :: 0 <= i < |lines| ==> Plain(lines[i])
    ensures Unbroken(lines) && NulFree(Join(lines))
  {
    forall i | 0 <= i < |lines|
      ensures NulFree(lines[i])
    {
      assert Plain(lines[i]);
    }
    JoinNulFree(lines);
  }

  /** Lines without a NUL join into an input without one. */
  lemma {:induction false} JoinNulFree(lines: seq<string>)
    requires forall i :: 0 <= i < |lines| ==> NulFree(lines[i])
    ensures NulFree(Join(lines))
    decreases |lines|
  {
    if |lines| > 1 {
      JoinNulFree(lines[1..]);
      assert NulFree(lines[0]);
    }
  }

  lemma {:induction false} UnbrokenTail(lines: seq<string>)
    requires |lines| > 0 && Unbroken(lines)
    ensures Unbroken(lines[1..])
  {
    forall i, k | 0 <= i < |lines[1..]| && 0 <= k < |lines[1..][i]|
      ensures lines[1..][i][k] !in LineBreaks
    {
      assert lines[1..][i] == lines[i + 1];
    }
  }

  /** The first of the joined lines sits at `a` and ends where the line
      that starts at `a` ends; the others follow its line break. */
  lemma {:induction false} JoinedLine(s: string, a: nat, lines: seq<string>)
    requires |lines| > 0 && Unbroken(lines)
    requires a <= |s| && s[a..] == Join(lines)
    ensures LineEnd(s, a) == a + |lines[0]|
    ensures Window(s, a, lines[0])
    ensures a + |lines[0]| == |s| <==> |lines| == 1
    ensures |lines| > 1 ==> s[a + |lines[0]| + 1..] == Join(lines[1..])
  {
    var t := lines[0];
    var b := a + |t|;
    var rest := if |lines| == 1 then "" else "\n" + Join(lines[1..]);
    assert s[a..] == t + rest;
    assert s[a..b] == t;
    WindowOf(s, a, t);
    forall k | a <= k < b
      ensures s[k] !in LineBreaks
    {
      assert s[k] == t[k - a];
      assert lines[0][k - a] !in LineBreaks;
    }
    if |lines| > 1 {
      assert s[b] == (t + rest)[|t|] == '\n';
      assert s[b + 1..] == (t + rest)[|t| + 1..];
    }
    FindAt(s, a, |s|, b, LineBreaks);
  }

  /** Where the `k`-th of the joined lines starts in their join. */
  function Offset(lines: seq<string>, k: nat): nat
    requires k <= |lines|
  {
    if k == 0 then 0 else |lines[0]| + 1 + Offset(lines[1..], k - 1)
  }

  /** Each of the joined lines occurs in the join at its offset. */
  lemma {:induction false} JoinedWindow(s: string, a: nat, lines: seq<string>, k: nat, p: nat)
    requires k < |lines|
    requires a <= |s| && s[a..] == Join(lines)
    requires p == a + Offset(lines, k)
    ensures Window(s, p, lines[k])
    decreases k
  {
    var t := lines[0];
    var rest := if |lines| == 1 then "" else "\n" + Join(lines[1..]);
    assert s[a..] == t + rest;
    if k == 0 {
      assert s[a..a + |t|] == t;
      WindowOf(s, a, t);
    } else {
      var b := a + |t|;
      assert s[b + 1..] == (t + rest)[|t| + 1..] == Join(lines[1..]);
      JoinedWindow(s, b + 1, lines[1..], k - 1, p);
    }
  }

  /** A view of the input inside a window is the matching slice of the
      window's text. */
  lemma {:induction false} WindowView(s: string, p: nat, t: string, g: nat, h: nat, begin: nat, end: nat)
    requires Window(s, p, t) && g <= h <= |t|
    requires begin == p + g && end == p + h
    ensures View(s, Span(Some(begin), Some(end))) == Some(t[g..h])
  {
    assert p + |t| <= |s|;
    forall k | 0 <= k < h - g
      ensures s[begin..end][k] == t[g..h][k]
    {
      WindowAt(s, p, t, g + k);
    }
    assert s[begin..end] == t[g..h];
  }

  /** Reading lines joined by '\n' is reading each line by itself. */
  lemma {:induction false} ReadJoined(s: string, a: nat, lines: seq<string>, n: nat, section: Span)
    requires |lines| > 0 && Unbroken(lines)
    requires a <= |s| && s[a..] == Join(lines)
    ensures ReadLines(s, a, n, section) == ReadEach(lines, a, n, section)
    decreases |lines|, 1
  {
    var t := lines[0];
    var b := a + |t|;
    JoinedLine(s, a, lines);
    ReadLineMoved(s, a, t, section);
    var r := ReadLine(s, a, b, section);
    assert ReadLines(s, a, n, section) == ReadOn(s, b, n, r);
    if r.Continue? {
      ReadJoinedOn(s, b, lines, n, r);
    }
  }

  /** The rest of `ReadJoined`: after the first line reads as `r`, the
      lines after it are read as their join. */
  lemma {:induction false} ReadJoinedOn(s: string, b: nat, lines: seq<string>, n: nat, r: LineResult)
    requires |lines| > 0 && Unbroken(lines) && r.Continue?
    requires b <= |s| && (b == |s| <==> |lines| == 1)
    requires |lines| > 1 ==> b + 1 <= |s| && s[b + 1..] == Join(lines[1..])
    ensures ReadOn(s, b, n, r) == r.out + ReadEach(lines[1..], b + 1, n + 1, r.section)
    decreases |lines|, 0
  {
    if |lines| > 1 {
      UnbrokenTail(lines);
      ReadJoined(s, b + 1, lines[1..], n + 1, r.section);
    } else {
      assert lines[1..] == [];
    }
  }
}
