/**
 * What every context reached by the scanning loop satisfies, and what that
 * says about the callbacks: the line counter counts line breaks, the state
 * is never `Error`, every span lies inside the input in document order, and
 * a syntax error is always the last callback.
 */
module PaniniInvariants {
  import opened Wrappers
  import opened PaniniMachine
  import Decimal

  predicate IsBreak(ch: char) {
    ch == '\n' || ch == '\r'
  }

  /** The number of '\n' and '\r' characters in `t`. */
  function Breaks(t: string): (n: nat)
    ensures n <= |t|
  {
    if t == [] then 0 else Breaks(t[..|t| - 1]) + (if IsBreak(t[|t| - 1]) then 1 else 0)
  }

  lemma BreaksNext(s: string, c: nat)
    requires c < |s|
    ensures Breaks(s[..c + 1]) == Breaks(s[..c]) + (if IsBreak(s[c]) then 1 else 0)
  {
    assert s[..c + 1][..c] == s[..c];
  }

  /** A stretch with no line break leaves the count unchanged. */
  lemma {:induction false} BreaksFlat(s: string, c: nat, j: nat)
    requires c <= j <= |s|
    requires forall k :: c <= k < j ==> !IsBreak(s[k])
    ensures Breaks(s[..j]) == Breaks(s[..c])
    decreases j
  {
    if c < j {
      BreaksNext(s, j - 1);
      BreaksFlat(s, c, j - 1);
    }
  }

  /** An end pointer that is null, or set past `b` and no further than `hi`. */
  predicate EndWithin(b: nat, e: Option<nat>, hi: nat) {
    e.None? || b < e.value <= hi
  }

  /** A begin/end pair that is wholly null, or begins at `lo` or later and
      before `hi`, with an end (if any) past the begin and no further than `hi`. */
  predicate Bounded(begin: Option<nat>, end: Option<nat>, lo: nat, hi: nat) {
    (begin.None? ==> end.None?) &&
    (begin.Some? ==> lo <= begin.value < hi && EndWithin(begin.value, end, hi))
  }

  /** The invariant of the scanning loop at position `c`. */
  ghost predicate Valid(s: string, c: nat, ctx: Context) {
    && c <= |s|
    && ctx.line == Breaks(s[..c])
    && ctx.state != Error
    && (ctx.state == SectionBegin ==> ctx.section.None?)
    && (ctx.state in {Section, SectionEnd} ==> ctx.section.Some?)
    && (ctx.state in {Key, ValueBegin, Value} <==> ctx.key.Some?)
    && (ctx.state == Value <==> ctx.value.Some?)
    && Bounded(ctx.section, ctx.sectionEnd, 0, c)
    && Bounded(ctx.key, ctx.keyEnd, 0, c)
    && Bounded(ctx.value, ctx.valueEnd, 0, c)
    && (ctx.key.Some? ==> Bounded(ctx.section, ctx.sectionEnd, 0, ctx.key.value))
    && (ctx.value.Some? ==> Bounded(ctx.key, ctx.keyEnd, 0, ctx.value.value))
  }

  /** A callback the parser can make on `s`: a key/value call whose value
      view lies inside the input and whose key and section views come before
      it, or an error call with one of the three messages. */
  ghost predicate WellFormed(s: string, e: Event) {
    match e
    case KeyValue(section, key, value) =>
      && value.begin.Some? && value.end.Some?
      && value.begin.value <= value.end.value <= |s|
      && key.begin.Some?
      && Bounded(key.begin, key.end, 0, value.begin.value)
      && Bounded(section.begin, section.end, 0, key.begin.value)
    case SyntaxError(_, message) =>
      message in {ExpectedKey, EndOfKey, EndOfSection}
  }

  /** `e`, if it is an error, was raised at position `p`: its line is one
      more than the number of line breaks before `p`, and the character at
      `p` is the '=' or the terminator that its message names. */
  ghost predicate RaisedAt(s: string, p: nat, e: Event) {
    && p <= |s|
    && (e.SyntaxError? ==>
          && e.line == Decimal.ToDecimal(Breaks(s[..p]) + 1)
          && (e.message == ExpectedKey ==> At(s, p) == '=')
          && (e.message != ExpectedKey ==> IsTerminator(At(s, p))))
  }

  function Last(out: seq<Event>): Event
    requires |out| > 0
  {
    out[|out| - 1]
  }

  /** One loop iteration keeps the invariant, makes only well-formed calls,
      and makes an error call only when it returns. */
  lemma StepValid(s: string, c: nat, ctx: Context)
    requires Valid(s, c, ctx)
    ensures var r := Step(s, c, ctx);
      && (r.Next? ==> Valid(s, r.pos, r.ctx) && forall e <- r.out :: e.KeyValue?)
      && (forall e <- r.out :: WellFormed(s, e) && RaisedAt(s, c, e))
  {
    var ch := At(s, c);
    if IsTerminator(ch) {
      TerminatorValid(s, c, ctx);
    } else if ch == ';' && (ctx.state == Undetermined || ctx.state == Value) {
      CommentValid(s, c, ctx);
    } else {
      BreaksNext(s, c);
      if !IsBlank(ch) && ch != ';' && ch != '=' && ch != '[' && ch != ']' {
        PayloadValid(s, c, ctx);
      } else if (ch == '[' || ch == ']') && !(ch == '[' && ctx.state == Undetermined) && ctx.state != Section {
        PayloadValid(s, c, ctx);
      }
    }
  }

  lemma TerminatorValid(s: string, c: nat, ctx: Context)
    requires Valid(s, c, ctx) && IsTerminator(At(s, c))
    ensures var r := Step(s, c, ctx);
      && (r.Next? ==> Valid(s, r.pos, r.ctx) && forall e <- r.out :: e.KeyValue?)
      && (forall e <- r.out :: WellFormed(s, e) && RaisedAt(s, c, e))
  {
    var r := Step(s, c, ctx);
    if At(s, c) != '\0' {
      BreaksNext(s, c);
    }
    if ctx.state in {ValueBegin, Value} {
      assert r.out == [Finished(ctx, c)];
      assert WellFormed(s, Finished(ctx, c));
    }
  }

  lemma CommentValid(s: string, c: nat, ctx: Context)
    requires Valid(s, c, ctx) && At(s, c) == ';' && (ctx.state == Undetermined || ctx.state == Value)
    ensures var r := Step(s, c, ctx);
      r.out == [] && (r.Next? ==> Valid(s, r.pos, r.ctx))
  {
    BreaksNext(s, c);
    var j := CommentEnd(s, c + 1);
    BreaksFlat(s, c + 1, j);
    if j < |s| {
      BreaksNext(s, j);
    }
  }

  lemma PayloadValid(s: string, c: nat, ctx: Context)
    requires Valid(s, c, ctx) && c < |s|
    requires Breaks(s[..c + 1]) == Breaks(s[..c])
    ensures Valid(s, c + 1, Payload(ctx, c))
  {
  }

  /** Where the loop stands `k` iterations after it was at `c` with `ctx`,
      if it has not returned by then. */
  function Reach(s: string, c: nat, ctx: Context, k: nat): (r: Option<(nat, Context)>)
    requires c <= |s|
    ensures r.Some? ==> c <= r.value.0 <= |s|
  {
    if k == 0 then Some((c, ctx))
    else match Reach(s, c, ctx, k - 1)
      case None => None
      case Some((p, cx)) =>
        match Step(s, p, cx)
        case Halt(_) => None
        case Next(q, cx', _) => Some((q, cx'))
  }

  /** The iteration `k` steps after (`c`, `ctx`) is reached and returns:
      no iteration follows it. */
  predicate HaltsAfter(s: string, c: nat, ctx: Context, k: nat)
    requires c <= |s|
  {
    Reach(s, c, ctx, k).Some? && Reach(s, c, ctx, k + 1).None?
  }

  /** An iteration that goes on puts the loop one step ahead. */
  lemma {:induction false} ReachShift(s: string, c: nat, ctx: Context, k: nat)
    requires c <= |s| && Step(s, c, ctx).Next?
    ensures Reach(s, c, ctx, k + 1) == Reach(s, Step(s, c, ctx).pos, Step(s, c, ctx).ctx, k)
  {
    var r := Step(s, c, ctx);
    if k > 0 {
      ReachShift(s, c, ctx, k - 1);
      assert Reach(s, c, ctx, k) == Reach(s, r.pos, r.ctx, k - 1);
    } else {
      assert Reach(s, c, ctx, 1) == Some((r.pos, r.ctx));
    }
  }

  /** An iteration that is reached was preceded by reached ones. */
  lemma {:induction false} ReachEarlier(s: string, c: nat, ctx: Context, i: nat, k: nat)
    requires c <= |s| && i <= k && Reach(s, c, ctx, k).Some?
    ensures Reach(s, c, ctx, i).Some?
  {
    if i < k {
      ReachEarlier(s, c, ctx, i, k - 1);
    }
  }

  /** No iteration is reached after the one at which the loop returns. */
  lemma HaltsLast(s: string, c: nat, ctx: Context, j: nat, k: nat)
    requires c <= |s| && HaltsAfter(s, c, ctx, j) && Reach(s, c, ctx, k).Some?
    ensures k <= j
  {
    if j < k {
      ReachEarlier(s, c, ctx, j + 1, k);
      assert false;
    }
  }

  /** The loop returns at one iteration only. */
  lemma HaltsOnce(s: string, c: nat, ctx: Context, j: nat, k: nat)
    requires c <= |s| && HaltsAfter(s, c, ctx, j) && HaltsAfter(s, c, ctx, k)
    ensures j == k
  {
    HaltsLast(s, c, ctx, j, k);
    HaltsLast(s, c, ctx, k, j);
  }

  /** The calls made from any valid context: all well formed, and every
      call but the last a key/value call. */
  lemma {:induction false} RunValid(s: string, c: nat, ctx: Context)
    requires Valid(s, c, ctx)
    ensures var out := Run(s, c, ctx);
      && (forall e <- out :: WellFormed(s, e))
      && (forall i :: 0 <= i < |out| - 1 ==> out[i].KeyValue?)
    decreases |s| - c
  {
    StepValid(s, c, ctx);
    var r := Step(s, c, ctx);
    var out := Run(s, c, ctx);
    if r.Halt? {
      assert out == Resume(s, c, r) == r.out;
    } else {
      RunValid(s, r.pos, r.ctx);
      var rest := Run(s, r.pos, r.ctx);
      assert forall k :: 0 <= k < |Run(s, r.pos, r.ctx)| - 1 ==> Run(s, r.pos, r.ctx)[k].KeyValue?;
      assert out == Resume(s, c, r) == r.out + rest;
      forall i | 0 <= i < |out| - 1
        ensures out[i].KeyValue?
      {
        if i >= |r.out| {
          var j := i - |r.out|;
          assert 0 <= j < |rest| - 1 && out[i] == rest[j];
        } else {
          assert out[i] == r.out[i] && r.out[i] in r.out;
        }
      }
    }
  }

  /** An error call from a valid context was raised at the position where
      the loop returns. */
  lemma {:induction false} RunRaised(s: string, c: nat, ctx: Context)
    requires Valid(s, c, ctx)
    ensures var out := Run(s, c, ctx);
      |out| > 0 && Last(out).SyntaxError? ==>
        exists k :: HaltsAfter(s, c, ctx, k) && RaisedAt(s, Reach(s, c, ctx, k).value.0, Last(out))
    decreases |s| - c
  {
    StepValid(s, c, ctx);
    var r := Step(s, c, ctx);
    var out := Run(s, c, ctx);
    if r.Halt? {
      assert out == Resume(s, c, r) == r.out;
      if |out| > 0 {
        assert Last(out) in r.out;
        assert HaltsAfter(s, c, ctx, 0);
      }
    } else {
      RunRaised(s, r.pos, r.ctx);
      var rest := Run(s, r.pos, r.ctx);
      assert out == Resume(s, c, r) == r.out + rest;
      if |rest| > 0 {
        assert Last(out) == Last(rest);
        if Last(rest).SyntaxError? {
          var k: nat :| HaltsAfter(s, r.pos, r.ctx, k) && RaisedAt(s, Reach(s, r.pos, r.ctx, k).value.0, Last(rest));
          ReachShift(s, c, ctx, k);
          ReachShift(s, c, ctx, k + 1);
          assert HaltsAfter(s, c, ctx, k + 1);
        }
      } else if |out| > 0 {
        assert out == r.out;
      }
    }
  }

  lemma InitialValid(s: string)
    ensures Valid(s, 0, Initial())
  {
    assert s[..0] == [];
  }

  /** Every callback is well formed: each key/value call has a value view
      inside the input, a key that begins before the value, and a section
      that is unset or lies before the key. */
  lemma EventsWellFormed(s: string)
    ensures forall e <- Events(s) :: WellFormed(s, e)
  {
    InitialValid(s);
    RunValid(s, 0, Initial());
  }

  /** The parse stops at its first error: an error call is the last call. */
  lemma ErrorIsLast(s: string)
    ensures forall i :: 0 <= i < |Events(s)| && Events(s)[i].SyntaxError? ==> i == |Events(s)| - 1
  {
    InitialValid(s);
    RunValid(s, 0, Initial());
    assert Events(s) == Run(s, 0, Initial());
  }

  /** Where the loop stands after `k` iterations, if it has not returned. */
  function After(s: string, k: nat): (r: Option<(nat, Context)>)
    ensures r.Some? ==> r.value.0 <= |s|
  {
    Reach(s, 0, Initial(), k)
  }

  /** The line an error names is the 1-based number of the line holding the
      offending '=' or terminator, at the position where the loop returns
      (which `HaltsOnce` makes unique): one more than the '\n' and '\r'
      before it. */
  lemma ErrorLine(s: string)
    requires |Events(s)| > 0 && Events(s)[|Events(s)| - 1].SyntaxError?
    ensures exists k :: HaltsAfter(s, 0, Initial(), k) && RaisedAt(s, After(s, k).value.0, Last(Events(s)))
  {
    InitialValid(s);
    RunRaised(s, 0, Initial());
  }

  /** At the top of every iteration at position `c` the line counter equals
      the number of line breaks before `c`, and the state is not `Error`: the
      `State::Error` branches of the loop are never taken. */
  lemma {:induction false} Reached(s: string, k: nat)
    requires After(s, k).Some?
    ensures var (c, ctx) := After(s, k).value;
      ctx.line == Breaks(s[..c]) && ctx.state != Error
  {
    ReachedValid(s, k);
  }

  lemma {:induction false} ReachedValid(s: string, k: nat)
    requires After(s, k).Some?
    ensures Valid(s, After(s, k).value.0, After(s, k).value.1)
  {
    if k == 0 {
      InitialValid(s);
    } else {
      ReachedValid(s, k - 1);
      var (c, ctx) := After(s, k - 1).value;
      StepValid(s, c, ctx);
      assert After(s, k) == Reach(s, 0, Initial(), k);
    }
  }
}
