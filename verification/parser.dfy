/**
 * `panini::parse` as the loop it is: one pass over the input with a
 * context that each character updates, a nested loop that skips comments,
 * and an error exit that makes one last callback.
 */
module Panini {
  import opened Wrappers
  import opened PaniniMachine
  import opened PaniniInvariants
  import Decimal

  /** The comment-skipping loop: from `c`, moves to the first line break
      or NUL, where `Parse` either starts a new line or returns. */
  method SkipComment(s: string, c: nat) returns (j: nat)
    requires c <= |s|
    ensures j == CommentEnd(s, c)
  {
    j := c;
    while At(s, j) != '\n' && At(s, j) != '\r'
      invariant c <= j <= |s|
      invariant CommentEnd(s, j) == CommentEnd(s, c)
      decreases |s| - j
    {
      if At(s, j) == '\0' {
        return;
      }
      j := j + 1;
    }
  }

  /** Parses `s` and returns the callbacks made, in order. */
  method Parse(s: string) returns (events: seq<Event>)
    ensures events == Events(s)
  {
    events := [];
    var ctx := Initial();
    var c: nat := 0;
    var error := "";
    while true
      invariant c <= |s|
      invariant events + Run(s, c, ctx) == Events(s)
      decreases |s| - c
    {
      ghost var r := Step(s, c, ctx);
      ghost var before := events;
      ghost var rest := if r.Halt? then [] else Run(s, r.pos, r.ctx);
      assert before + r.out + rest == Events(s);
      var ch := At(s, c);
      if ch == '\0' || ch == '\n' || ch == '\r' {
        if ctx.state == Key {
          error := EndOfKey;
          break;
        } else if ctx.state == Section || ctx.state == SectionBegin {
          error := EndOfSection;
          break;
        }
        if ctx.state == ValueBegin {
          ctx := ctx.(value := Some(c));
        }
        if ctx.state == ValueBegin || ctx.state == Value {
          ctx := ctx.(valueEnd := Some(c));
          events := events + [KeyValue(
            Span(ctx.section, ctx.sectionEnd),
            Span(ctx.key, ctx.keyEnd),
            Span(ctx.value, ctx.valueEnd))];
        }
        if ctx.state != Error {
          ctx := Context(ctx.line + 1, Undetermined, ctx.section, ctx.sectionEnd, None, None, None, None);
        }
        if ch == '\0' {
          return;
        }
      } else if ch == '\t' || ch == ' ' {
      } else if ch == ';' {
        if ctx.state == Undetermined || ctx.state == Value {
          c := SkipComment(s, c + 1);
          if At(s, c) == '\0' {
            return;
          }
          ctx := Context(ctx.line + 1, Undetermined, ctx.section, ctx.sectionEnd, None, None, None, None);
        }
      } else if ch == '=' {
        if ctx.state != Key {
          error := ExpectedKey;
          break;
        }
        ctx := ctx.(state := ValueBegin);
      } else if ch == '[' && ctx.state == Undetermined {
        ctx := Context(ctx.line, SectionBegin, None, None, None, None, None, None);
      } else if (ch == '[' || ch == ']') && ctx.state == Section {
        ctx := ctx.(state := SectionEnd);
      } else {
        match ctx.state {
          case Undetermined =>
            ctx := ctx.(state := Key, key := Some(c));
          case Key =>
            ctx := ctx.(keyEnd := Some(c + 1));
          case Section =>
            ctx := ctx.(sectionEnd := Some(c + 1));
          case SectionBegin =>
            ctx := ctx.(state := Section, section := Some(c));
          case SectionEnd =>
          case Value =>
            ctx := ctx.(valueEnd := Some(c + 1));
          case ValueBegin =>
            ctx := ctx.(state := Value, value := Some(c));
          case Error =>
        }
      }
      c := c + 1;
      assert r.Next? && c == r.pos && ctx == r.ctx && events == before + r.out;
      assert rest == Run(s, c, ctx);
    }
    events := events + [SyntaxError(Decimal.ToDecimal(ctx.line + 1), error)];
  }
}
