/**
 * The inputs of panini-test.cpp, each proved to make exactly the calls the
 * test expects (or, where the code and the test disagree, the calls the
 * code makes). Each input is read line by line: a `Reads…` lemma fixes
 * what one line makes, a `…ByLine` lemma chains the lines, and the lemma
 * named after the test case states the calls `Events` makes and the text
 * each span of them views. The `Spells…`, `Slice…` and `Views…` lemmas
 * only take a literal line apart character by character, so that each of
 * those steps stays small for the verifier.
 */
module PaniniCases {
  import opened Wrappers
  import opened PaniniMachine
  import opened PaniniLines
  import opened PaniniLocal
  import Decimal

  // One line of a list, read by itself and moved to where it starts. The
  // reading of the line alone is a precondition, so that these steps do not
  // depend on the line's characters.

  /** A line that makes no call and leaves the section as it is. */
  lemma {:induction false} QuietStep(lines: seq<string>, k: nat, a: nat, n: nat, section: Span, b: nat, m: nat)
    requires k < |lines| && ReadLine(lines[k], 0, |lines[k]|, section) == Continue([], section)
    requires !IsHeader(lines[k])
    requires b == a + |lines[k]| + 1 && m == n + 1
    ensures ReadEach(lines[k..], a, n, section) == ReadEach(lines[k + 1..], b, m, section)
  {
    assert lines[k..][0] == lines[k];
    assert lines[k..][1..] == lines[k + 1..];
  }

  /** A header: no call, and the section it names, moved, is in force after it. */
  lemma {:induction false} HeaderStep(lines: seq<string>, k: nat, a: nat, n: nat, section: Span, b: nat, m: nat, named: Span, next: Span)
    requires k < |lines| && ReadLine(lines[k], 0, |lines[k]|, section) == Continue([], named)
    requires IsHeader(lines[k]) && next == MovedSpan(named, a)
    requires b == a + |lines[k]| + 1 && m == n + 1
    ensures ReadEach(lines[k..], a, n, section) == ReadEach(lines[k + 1..], b, m, next)
  {
    assert lines[k..][0] == lines[k];
    assert lines[k..][1..] == lines[k + 1..];
  }

  /** A pair: one call, with the key and value spans moved. */
  lemma {:induction false} PairStep(lines: seq<string>, k: nat, a: nat, n: nat, section: Span, b: nat, m: nat,
                                    key0: Span, value0: Span, key: Span, value: Span)
    requires k < |lines| && ReadLine(lines[k], 0, |lines[k]|, section) == Continue([KeyValue(section, key0, value0)], section)
    requires !IsHeader(lines[k]) && key == MovedSpan(key0, a) && value == MovedSpan(value0, a)
    requires b == a + |lines[k]| + 1 && m == n + 1
    ensures ReadEach(lines[k..], a, n, section) == [KeyValue(section, key, value)] + ReadEach(lines[k + 1..], b, m, section)
  {
    var t := lines[k];
    assert lines[k..][0] == t;
    assert lines[k..][1..] == lines[k + 1..];
    var e := KeyValue(section, key0, value0);
    var moved := MovedEvents([e], a);
    assert moved[0] == MovedEvent(e, a) == KeyValue(section, key, value);
    assert moved == [KeyValue(section, key, value)];
    assert Relocated(ReadLine(t, 0, |t|, section), a, IsHeader(t)) == Continue(moved, section);
    assert ReadEach(lines[k..], a, n, section) == moved + ReadEach(lines[k + 1..], b, m, section);
  }

  /** A line that raises an error: its report is the last call. */
  lemma {:induction false} StopStep(lines: seq<string>, k: nat, a: nat, n: nat, section: Span, message: string)
    requires k < |lines| && ReadLine(lines[k], 0, |lines[k]|, section) == Stop(message)
    ensures ReadEach(lines[k..], a, n, section) == [Report(n, message)]
  {
    assert lines[k..][0] == lines[k];
  }

  /** An empty line reads as nothing. */
  lemma {:induction false} ReadsEmpty(section: Span)
    ensures ReadLine("", 0, 0, section) == Continue([], section)
    ensures !IsHeader("")
  {
    var t := "";
    assert Skip(t, 0, 0, Blanks) == 0;
  }

  lemma {:induction false} SpellsRemark0(t: string)
    requires t == "; This file contains nothing"
    ensures |t| == 28 && t[0] == ';' && t[1] == ' ' && t[2] == 'T' && t[3] == 'h' && t[4] == 'i' && t[5] == 's' && t[6] == ' ' && t[7] == 'f'
  {
    assert t[0] == ';';
    assert t[1] == ' ';
    assert t[2] == 'T';
    assert t[3] == 'h';
    assert t[4] == 'i';
    assert t[5] == 's';
    assert t[6] == ' ';
    assert t[7] == 'f';
  }

  lemma {:induction false} SpellsRemark1(t: string)
    requires t == "; This file contains nothing"
    ensures |t| == 28 && t[8] == 'i' && t[9] == 'l' && t[10] == 'e' && t[11] == ' ' && t[12] == 'c' && t[13] == 'o' && t[14] == 'n' && t[15] == 't'
  {
    assert t[8] == 'i';
    assert t[9] == 'l';
    assert t[10] == 'e';
    assert t[11] == ' ';
    assert t[12] == 'c';
    assert t[13] == 'o';
    assert t[14] == 'n';
    assert t[15] == 't';
  }

  lemma {:induction false} SpellsRemark2(t: string)
    requires t == "; This file contains nothing"
    ensures |t| == 28 && t[16] == 'a' && t[17] == 'i' && t[18] == 'n' && t[19] == 's' && t[20] == ' ' && t[21] == 'n' && t[22] == 'o' && t[23] == 't'
  {
    assert t[16] == 'a';
    assert t[17] == 'i';
    assert t[18] == 'n';
    assert t[19] == 's';
    assert t[20] == ' ';
    assert t[21] == 'n';
    assert t[22] == 'o';
    assert t[23] == 't';
  }

  lemma {:induction false} SpellsRemark3(t: string)
    requires t == "; This file contains nothing"
    ensures |t| == 28 && t[24] == 'h' && t[25] == 'i' && t[26] == 'n' && t[27] == 'g'
  {
    assert t[24] == 'h';
    assert t[25] == 'i';
    assert t[26] == 'n';
    assert t[27] == 'g';
  }

  /** A comment line reads as nothing. */
  lemma {:induction false} ReadsRemark(t: string, section: Span)
    requires |t| == 28
    requires t[0] == ';' && t[1] == ' ' && t[2] == 'T' && t[3] == 'h' && t[4] == 'i' && t[5] == 's' && t[6] == ' ' && t[7] == 'f'
    requires t[8] == 'i' && t[9] == 'l' && t[10] == 'e' && t[11] == ' ' && t[12] == 'c' && t[13] == 'o' && t[14] == 'n' && t[15] == 't'
    requires t[16] == 'a' && t[17] == 'i' && t[18] == 'n' && t[19] == 's' && t[20] == ' ' && t[21] == 'n' && t[22] == 'o' && t[23] == 't'
    requires t[24] == 'h' && t[25] == 'i' && t[26] == 'n' && t[27] == 'g'
    ensures ReadLine(t, 0, |t|, section) == Continue([], section)
    ensures !IsHeader(t)
  {
    assert Skip(t, 0, 28, Blanks) == 0;
  }

  /** A one-character section name: its end pointer is never set. */
  lemma {:induction false} ReadsHeaderA(section: Span)
    ensures ReadLine("[a]", 0, 3, section) == Continue([], Span(Some(1), None))
    ensures IsHeader("[a]")
  {
    var t := "[a]";
    assert Skip(t, 0, 3, Blanks) == 0;
    assert Skip(t, 1, 3, Unmarked) == 1;
    assert Find(t, 2, 3, {'[', ']', '='}) == 2;
    assert LastMark(t, 2, 2, None) == None;
    assert Find(t, 3, 3, {'='}) == 3;
  }

  /** A comment line reads as nothing. */
  lemma {:induction false} ReadsSectionRemark(section: Span)
    ensures ReadLine("; Section a", 0, 11, section) == Continue([], section)
    ensures !IsHeader("; Section a")
  {
    var t := "; Section a";
    assert Skip(t, 0, 11, Blanks) == 0;
  }

  /** A one-character section name: its end pointer is never set. */
  lemma {:induction false} ReadsHeaderB(section: Span)
    ensures ReadLine("[b]", 0, 3, section) == Continue([], Span(Some(1), None))
    ensures IsHeader("[b]")
  {
    var t := "[b]";
    assert Skip(t, 0, 3, Blanks) == 0;
    assert Skip(t, 1, 3, Unmarked) == 1;
    assert Find(t, 2, 3, {'[', ']', '='}) == 2;
    assert LastMark(t, 2, 2, None) == None;
    assert Find(t, 3, 3, {'='}) == 3;
  }

  /** Blanks before a header are skipped. */
  lemma {:induction false} ReadsIndentedHeaderC(section: Span)
    ensures ReadLine("  [c]", 0, 5, section) == Continue([], Span(Some(3), None))
    ensures IsHeader("  [c]")
  {
    var t := "  [c]";
    assert Skip(t, 0, 5, Blanks) == 2;
    assert Skip(t, 3, 5, Unmarked) == 3;
    assert Find(t, 4, 5, {'[', ']', '='}) == 4;
    assert LastMark(t, 4, 4, None) == None;
    assert Find(t, 5, 5, {'='}) == 5;
  }

  /** A key, an equals sign and a value, with blanks around the equals sign. */
  lemma {:induction false} ReadsBread(section: Span)
    ensures ReadLine("panini = bread", 0, 14, section) == Continue([KeyValue(section, Span(Some(0), Some(6)), Span(Some(9), Some(14)))], section)
    ensures !IsHeader("panini = bread")
  {
    var t := "panini = bread";
    assert Skip(t, 0, 14, Blanks) == 0;
    assert Find(t, 3, 14, {'='}) == 7;
    assert Find(t, 1, 14, {'='}) == 7;
    assert LastMark(t, 1, 7, None) == Some(6);
    assert Skip(t, 8, 14, Unmarked) == 9;
    assert Find(t, 10, 14, {';', '='}) == 14;
  }

  lemma {:induction false} SliceBread0(t: string)
    requires |t| == 14 && t[0] == 'p' && t[1] == 'a' && t[2] == 'n' && t[3] == 'i' && t[4] == 'n' && t[5] == 'i'
    ensures t[0..6] == "panini"
  {
  }

  lemma {:induction false} SliceBread9(t: string)
    requires |t| == 14 && t[9] == 'b' && t[10] == 'r' && t[11] == 'e' && t[12] == 'a' && t[13] == 'd'
    ensures t[9..14] == "bread"
  {
  }

  lemma {:induction false} ViewsBread(s: string, p: nat, t: string)
    requires Window(s, p, t) && t == "panini = bread"
    ensures View(s, Span(Some(p + 0), Some(p + 6))) == Some("panini")
    ensures View(s, Span(Some(p + 9), Some(p + 14))) == Some("bread")
  {
    WindowView(s, p, t, 0, 6, p + 0, p + 6);
    assert t[0] == 'p';
    assert t[1] == 'a';
    assert t[2] == 'n';
    assert t[3] == 'i';
    assert t[4] == 'n';
    assert t[5] == 'i';
    SliceBread0(t);
    WindowView(s, p, t, 9, 14, p + 9, p + 14);
    assert t[9] == 'b';
    assert t[10] == 'r';
    assert t[11] == 'e';
    assert t[12] == 'a';
    assert t[13] == 'd';
    SliceBread9(t);
  }

  /** A header. */
  lemma {:induction false} ReadsPrimary(section: Span)
    ensures ReadLine("[primary]", 0, 9, section) == Continue([], Span(Some(1), Some(8)))
    ensures IsHeader("[primary]")
  {
    var t := "[primary]";
    assert Skip(t, 0, 9, Blanks) == 0;
    assert Skip(t, 1, 9, Unmarked) == 1;
    assert Find(t, 4, 9, {'[', ']', '='}) == 8;
    assert Find(t, 2, 9, {'[', ']', '='}) == 8;
    assert LastMark(t, 2, 8, None) == Some(8);
    assert Find(t, 9, 9, {'='}) == 9;
  }

  lemma {:induction false} SlicePrimary1(t: string)
    requires |t| == 9 && t[1] == 'p' && t[2] == 'r' && t[3] == 'i' && t[4] == 'm' && t[5] == 'a' && t[6] == 'r' && t[7] == 'y'
    ensures t[1..8] == "primary"
  {
  }

  lemma {:induction false} ViewsPrimary(s: string, p: nat, t: string)
    requires Window(s, p, t) && t == "[primary]"
    ensures View(s, Span(Some(p + 1), Some(p + 8))) == Some("primary")
  {
    WindowView(s, p, t, 1, 8, p + 1, p + 8);
    assert t[1] == 'p';
    assert t[2] == 'r';
    assert t[3] == 'i';
    assert t[4] == 'm';
    assert t[5] == 'a';
    assert t[6] == 'r';
    assert t[7] == 'y';
    SlicePrimary1(t);
  }

  /** `panini = ` and a one-character value: the pair of both sections. */
  lemma {:induction false} ReadsPanini(x: char, section: Span)
    requires x !in Unmarked && x != '='
    ensures ReadLine("panini = " + [x], 0, 10, section) == Continue([KeyValue(section, Span(Some(0), Some(6)), Span(Some(9), Some(10)))], section)
    ensures !IsHeader("panini = " + [x])
  {
    var t := "panini = " + [x];
    assert Skip(t, 0, 10, Blanks) == 0;
    assert Find(t, 3, 10, {'='}) == 7;
    assert Find(t, 1, 10, {'='}) == 7;
    assert LastMark(t, 1, 7, None) == Some(6);
    assert Skip(t, 8, 10, Unmarked) == 9;
    assert Find(t, 10, 10, {';', '='}) == 10;
  }

  lemma {:induction false} SlicePanini0(t: string)
    requires |t| == 10 && t[0] == 'p' && t[1] == 'a' && t[2] == 'n' && t[3] == 'i' && t[4] == 'n' && t[5] == 'i'
    ensures t[0..6] == "panini"
  {
  }

  lemma {:induction false} ViewsPanini(s: string, p: nat, t: string)
    requires Window(s, p, t) && |t| == 10
    requires t[0] == 'p' && t[1] == 'a' && t[2] == 'n' && t[3] == 'i' && t[4] == 'n' && t[5] == 'i'
    ensures View(s, Span(Some(p + 0), Some(p + 6))) == Some("panini")
    ensures View(s, Span(Some(p + 9), Some(p + 10))) == Some([t[9]])
  {
    WindowView(s, p, t, 0, 6, p + 0, p + 6);
    SlicePanini0(t);
    WindowView(s, p, t, 9, 10, p + 9, p + 10);
    assert t[9..10] == [t[9]];
  }

  /** A header. */
  lemma {:induction false} ReadsSecondary(section: Span)
    ensures ReadLine("[secondary]", 0, 11, section) == Continue([], Span(Some(1), Some(10)))
    ensures IsHeader("[secondary]")
  {
    var t := "[secondary]";
    assert Skip(t, 0, 11, Blanks) == 0;
    assert Skip(t, 1, 11, Unmarked) == 1;
    assert Find(t, 6, 11, {'[', ']', '='}) == 10;
    assert Find(t, 2, 11, {'[', ']', '='}) == 10;
    assert LastMark(t, 2, 10, None) == Some(10);
    assert Find(t, 11, 11, {'='}) == 11;
  }

  lemma {:induction false} SliceSecondary1(t: string)
    requires |t| == 11 && t[1] == 's' && t[2] == 'e' && t[3] == 'c' && t[4] == 'o' && t[5] == 'n' && t[6] == 'd' && t[7] == 'a' && t[8] == 'r' && t[9] == 'y'
    ensures t[1..10] == "secondary"
  {
  }

  lemma {:induction false} ViewsSecondary(s: string, p: nat, t: string)
    requires Window(s, p, t) && t == "[secondary]"
    ensures View(s, Span(Some(p + 1), Some(p + 10))) == Some("secondary")
  {
    WindowView(s, p, t, 1, 10, p + 1, p + 10);
    assert t[1] == 's';
    assert t[2] == 'e';
    assert t[3] == 'c';
    assert t[4] == 'o';
    assert t[5] == 'n';
    assert t[6] == 'd';
    assert t[7] == 'a';
    assert t[8] == 'r';
    assert t[9] == 'y';
    SliceSecondary1(t);
  }

  /** Blanks inside the brackets are not part of the name. */
  lemma {:induction false} ReadsSpacedHeader(section: Span)
    ensures ReadLine("[ a section ]", 0, 13, section) == Continue([], Span(Some(2), Some(11)))
    ensures IsHeader("[ a section ]")
  {
    var t := "[ a section ]";
    assert Skip(t, 0, 13, Blanks) == 0;
    assert Skip(t, 1, 13, Unmarked) == 2;
    assert Find(t, 8, 13, {'[', ']', '='}) == 12;
    assert Find(t, 4, 13, {'[', ']', '='}) == 12;
    assert Find(t, 3, 13, {'[', ']', '='}) == 12;
    assert LastMark(t, 3, 12, None) == Some(11);
    assert Find(t, 13, 13, {'='}) == 13;
  }

  lemma {:induction false} SliceSpacedHeader2(t: string)
    requires |t| == 13 && t[2] == 'a' && t[3] == ' ' && t[4] == 's' && t[5] == 'e' && t[6] == 'c' && t[7] == 't' && t[8] == 'i' && t[9] == 'o' && t[10] == 'n'
    ensures t[2..11] == "a section"
  {
  }

  lemma {:induction false} ViewsSpacedHeader(s: string, p: nat, t: string)
    requires Window(s, p, t) && t == "[ a section ]"
    ensures View(s, Span(Some(p + 2), Some(p + 11))) == Some("a section")
  {
    WindowView(s, p, t, 2, 11, p + 2, p + 11);
    assert t[2] == 'a';
    assert t[3] == ' ';
    assert t[4] == 's';
    assert t[5] == 'e';
    assert t[6] == 'c';
    assert t[7] == 't';
    assert t[8] == 'i';
    assert t[9] == 'o';
    assert t[10] == 'n';
    SliceSpacedHeader2(t);
  }

  /** Leading blanks are skipped; blanks inside a key or a value are kept. */
  lemma {:induction false} ReadsMyKey(section: Span)
    ensures ReadLine("  my key = my value", 0, 19, section) == Continue([KeyValue(section, Span(Some(2), Some(8)), Span(Some(11), Some(19)))], section)
    ensures !IsHeader("  my key = my value")
  {
    var t := "  my key = my value";
    assert Skip(t, 0, 19, Blanks) == 2;
    assert Find(t, 5, 19, {'='}) == 9;
    assert Find(t, 3, 19, {'='}) == 9;
    assert LastMark(t, 3, 9, None) == Some(8);
    assert Skip(t, 10, 19, Unmarked) == 11;
    assert Find(t, 15, 19, {';', '='}) == 19;
    assert Find(t, 12, 19, {';', '='}) == 19;
  }

  lemma {:induction false} SliceMyKey2(t: string)
    requires |t| == 19 && t[2] == 'm' && t[3] == 'y' && t[4] == ' ' && t[5] == 'k' && t[6] == 'e' && t[7] == 'y'
    ensures t[2..8] == "my key"
  {
  }

  lemma {:induction false} SliceMyKey11(t: string)
    requires |t| == 19 && t[11] == 'm' && t[12] == 'y' && t[13] == ' ' && t[14] == 'v' && t[15] == 'a' && t[16] == 'l' && t[17] == 'u' && t[18] == 'e'
    ensures t[11..19] == "my value"
  {
  }

  lemma {:induction false} ViewsMyKey(s: string, p: nat, t: string)
    requires Window(s, p, t) && t == "  my key = my value"
    ensures View(s, Span(Some(p + 2), Some(p + 8))) == Some("my key")
    ensures View(s, Span(Some(p + 11), Some(p + 19))) == Some("my value")
  {
    WindowView(s, p, t, 2, 8, p + 2, p + 8);
    assert t[2] == 'm';
    assert t[3] == 'y';
    assert t[4] == ' ';
    assert t[5] == 'k';
    assert t[6] == 'e';
    assert t[7] == 'y';
    SliceMyKey2(t);
    WindowView(s, p, t, 11, 19, p + 11, p + 19);
    assert t[11] == 'm';
    assert t[12] == 'y';
    assert t[13] == ' ';
    assert t[14] == 'v';
    assert t[15] == 'a';
    assert t[16] == 'l';
    assert t[17] == 'u';
    assert t[18] == 'e';
    SliceMyKey11(t);
  }

  lemma {:induction false} SpellsAnotherKey0(t: string)
    requires t == "  this is another key = yet another value"
    ensures |t| == 41 && t[0] == ' ' && t[1] == ' ' && t[2] == 't' && t[3] == 'h' && t[4] == 'i' && t[5] == 's' && t[6] == ' ' && t[7] == 'i'
  {
    assert t[0] == ' ';
    assert t[1] == ' ';
    assert t[2] == 't';
    assert t[3] == 'h';
    assert t[4] == 'i';
    assert t[5] == 's';
    assert t[6] == ' ';
    assert t[7] == 'i';
  }

  lemma {:induction false} SpellsAnotherKey1(t: string)
    requires t == "  this is another key = yet another value"
    ensures |t| == 41 && t[8] == 's' && t[9] == ' ' && t[10] == 'a' && t[11] == 'n' && t[12] == 'o' && t[13] == 't' && t[14] == 'h' && t[15] == 'e'
  {
    assert t[8] == 's';
    assert t[9] == ' ';
    assert t[10] == 'a';
    assert t[11] == 'n';
    assert t[12] == 'o';
    assert t[13] == 't';
    assert t[14] == 'h';
    assert t[15] == 'e';
  }

  lemma {:induction false} SpellsAnotherKey2(t: string)
    requires t == "  this is another key = yet another value"
    ensures |t| == 41 && t[16] == 'r' && t[17] == ' ' && t[18] == 'k' && t[19] == 'e' && t[20] == 'y' && t[21] == ' ' && t[22] == '=' && t[23] == ' '
  {
    assert t[16] == 'r';
    assert t[17] == ' ';
    assert t[18] == 'k';
    assert t[19] == 'e';
    assert t[20] == 'y';
    assert t[21] == ' ';
    assert t[22] == '=';
    assert t[23] == ' ';
  }

  lemma {:induction false} SpellsAnotherKey3(t: string)
    requires t == "  this is another key = yet another value"
    ensures |t| == 41 && t[24] == 'y' && t[25] == 'e' && t[26] == 't' && t[27] == ' ' && t[28] == 'a' && t[29] == 'n' && t[30] == 'o' && t[31] == 't'
  {
    assert t[24] == 'y';
    assert t[25] == 'e';
    assert t[26] == 't';
    assert t[27] == ' ';
    assert t[28] == 'a';
    assert t[29] == 'n';
    assert t[30] == 'o';
    assert t[31] == 't';
  }

  lemma {:induction false} SpellsAnotherKey4(t: string)
    requires t == "  this is another key = yet another value"
    ensures |t| == 41 && t[32] == 'h' && t[33] == 'e' && t[34] == 'r' && t[35] == ' ' && t[36] == 'v' && t[37] == 'a' && t[38] == 'l' && t[39] == 'u'
  {
    assert t[32] == 'h';
    assert t[33] == 'e';
    assert t[34] == 'r';
    assert t[35] == ' ';
    assert t[36] == 'v';
    assert t[37] == 'a';
    assert t[38] == 'l';
    assert t[39] == 'u';
  }

  lemma {:induction false} SpellsAnotherKey5(t: string)
    requires t == "  this is another key = yet another value"
    ensures |t| == 41 && t[40] == 'e'
  {
    assert t[40] == 'e';
  }

  /** Leading blanks are skipped; blanks inside a key or a value are kept. */
  lemma {:induction false} ReadsAnotherKey(t: string, section: Span)
    requires |t| == 41
    requires t[0] == ' ' && t[1] == ' ' && t[2] == 't' && t[3] == 'h' && t[4] == 'i' && t[5] == 's' && t[6] == ' ' && t[7] == 'i'
    requires t[8] == 's' && t[9] == ' ' && t[10] == 'a' && t[11] == 'n' && t[12] == 'o' && t[13] == 't' && t[14] == 'h' && t[15] == 'e'
    requires t[16] == 'r' && t[17] == ' ' && t[18] == 'k' && t[19] == 'e' && t[20] == 'y' && t[21] == ' ' && t[22] == '=' && t[23] == ' '
    requires t[24] == 'y' && t[25] == 'e' && t[26] == 't' && t[27] == ' ' && t[28] == 'a' && t[29] == 'n' && t[30] == 'o' && t[31] == 't'
    requires t[32] == 'h' && t[33] == 'e' && t[34] == 'r' && t[35] == ' ' && t[36] == 'v' && t[37] == 'a' && t[38] == 'l' && t[39] == 'u'
    requires t[40] == 'e'
    ensures ReadLine(t, 0, |t|, section) == Continue([KeyValue(section, Span(Some(2), Some(21)), Span(Some(24), Some(41)))], section)
    ensures !IsHeader(t)
  {
    assert Skip(t, 0, 41, Blanks) == 2;
    assert Find(t, 18, 41, {'='}) == 22;
    assert Find(t, 14, 41, {'='}) == 22;
    assert Find(t, 10, 41, {'='}) == 22;
    assert Find(t, 6, 41, {'='}) == 22;
    assert Find(t, 3, 41, {'='}) == 22;
    assert LastMark(t, 3, 22, None) == Some(21);
    assert Skip(t, 23, 41, Unmarked) == 24;
    assert Find(t, 37, 41, {';', '='}) == 41;
    assert Find(t, 33, 41, {';', '='}) == 41;
    assert Find(t, 29, 41, {';', '='}) == 41;
    assert Find(t, 25, 41, {';', '='}) == 41;
  }

  lemma {:induction false} SliceAnotherKey2(t: string)
    requires |t| == 41 && t[2] == 't' && t[3] == 'h' && t[4] == 'i' && t[5] == 's' && t[6] == ' ' && t[7] == 'i' && t[8] == 's' && t[9] == ' ' && t[10] == 'a' && t[11] == 'n' && t[12] == 'o' && t[13] == 't' && t[14] == 'h' && t[15] == 'e' && t[16] == 'r' && t[17] == ' ' && t[18] == 'k' && t[19] == 'e' && t[20] == 'y'
    ensures t[2..21] == "this is another key"
  {
  }

  lemma {:induction false} SliceAnotherKey24(t: string)
    requires |t| == 41 && t[24] == 'y' && t[25] == 'e' && t[26] == 't' && t[27] == ' ' && t[28] == 'a' && t[29] == 'n' && t[30] == 'o' && t[31] == 't' && t[32] == 'h' && t[33] == 'e' && t[34] == 'r' && t[35] == ' ' && t[36] == 'v' && t[37] == 'a' && t[38] == 'l' && t[39] == 'u' && t[40] == 'e'
    ensures t[24..41] == "yet another value"
  {
  }

  lemma {:induction false} ViewsAnotherKey(s: string, p: nat, t: string)
    requires Window(s, p, t) && t == "  this is another key = yet another value"
    ensures View(s, Span(Some(p + 2), Some(p + 21))) == Some("this is another key")
    ensures View(s, Span(Some(p + 24), Some(p + 41))) == Some("yet another value")
  {
    SpellsAnotherKey0(t);
    SpellsAnotherKey1(t);
    SpellsAnotherKey2(t);
    SpellsAnotherKey3(t);
    SpellsAnotherKey4(t);
    SpellsAnotherKey5(t);
    WindowView(s, p, t, 2, 21, p + 2, p + 21);
    SliceAnotherKey2(t);
    WindowView(s, p, t, 24, 41, p + 24, p + 41);
    SliceAnotherKey24(t);
  }

  /** Nothing after the equals sign: the value is empty and sits at the end of the line. */
  lemma {:induction false} ReadsBreadEmpty(section: Span)
    ensures ReadLine("bread =", 0, 7, section) == Continue([KeyValue(section, Span(Some(0), Some(5)), Span(Some(7), Some(7)))], section)
    ensures !IsHeader("bread =")
  {
    var t := "bread =";
    assert Skip(t, 0, 7, Blanks) == 0;
    assert Find(t, 2, 7, {'='}) == 6;
    assert Find(t, 1, 7, {'='}) == 6;
    assert LastMark(t, 1, 6, None) == Some(5);
    assert Skip(t, 7, 7, Unmarked) == 7;
  }

  lemma {:induction false} SliceBreadEmpty0(t: string)
    requires |t| == 7 && t[0] == 'b' && t[1] == 'r' && t[2] == 'e' && t[3] == 'a' && t[4] == 'd'
    ensures t[0..5] == "bread"
  {
  }

  lemma {:induction false} SliceBreadEmpty7(t: string)
    requires |t| == 7
    ensures t[7..7] == ""
  {
  }

  lemma {:induction false} ViewsBreadEmpty(s: string, p: nat, t: string)
    requires Window(s, p, t) && t == "bread ="
    ensures View(s, Span(Some(p + 0), Some(p + 5))) == Some("bread")
    ensures View(s, Span(Some(p + 7), Some(p + 7))) == Some("")
  {
    WindowView(s, p, t, 0, 5, p + 0, p + 5);
    assert t[0] == 'b';
    assert t[1] == 'r';
    assert t[2] == 'e';
    assert t[3] == 'a';
    assert t[4] == 'd';
    SliceBreadEmpty0(t);
    WindowView(s, p, t, 7, 7, p + 7, p + 7);
    SliceBreadEmpty7(t);
  }

  /** A pair whose value is one character. */
  lemma {:induction false} ReadsSandwich(section: Span)
    ensures ReadLine("sandwich = \U{1F96A}", 0, 12, section) == Continue([KeyValue(section, Span(Some(0), Some(8)), Span(Some(11), Some(12)))], section)
    ensures !IsHeader("sandwich = \U{1F96A}")
  {
    var t := "sandwich = \U{1F96A}";
    assert Skip(t, 0, 12, Blanks) == 0;
    assert Find(t, 5, 12, {'='}) == 9;
    assert Find(t, 1, 12, {'='}) == 9;
    assert LastMark(t, 1, 9, None) == Some(8);
    assert Skip(t, 10, 12, Unmarked) == 11;
    assert Find(t, 12, 12, {';', '='}) == 12;
  }

  lemma {:induction false} SliceSandwich0(t: string)
    requires |t| == 12 && t[0] == 's' && t[1] == 'a' && t[2] == 'n' && t[3] == 'd' && t[4] == 'w' && t[5] == 'i' && t[6] == 'c' && t[7] == 'h'
    ensures t[0..8] == "sandwich"
  {
  }

  lemma {:induction false} SliceSandwich11(t: string)
    requires |t| == 12 && t[11] == '\U{1F96A}'
    ensures t[11..12] == "\U{1F96A}"
  {
  }

  lemma {:induction false} ViewsSandwich(s: string, p: nat, t: string)
    requires Window(s, p, t) && t == "sandwich = \U{1F96A}"
    ensures View(s, Span(Some(p + 0), Some(p + 8))) == Some("sandwich")
    ensures View(s, Span(Some(p + 11), Some(p + 12))) == Some("\U{1F96A}")
  {
    WindowView(s, p, t, 0, 8, p + 0, p + 8);
    assert t[0] == 's';
    assert t[1] == 'a';
    assert t[2] == 'n';
    assert t[3] == 'd';
    assert t[4] == 'w';
    assert t[5] == 'i';
    assert t[6] == 'c';
    assert t[7] == 'h';
    SliceSandwich0(t);
    WindowView(s, p, t, 11, 12, p + 11, p + 12);
    assert t[11] == '\U{1F96A}';
    SliceSandwich11(t);
  }

  lemma {:induction false} SpellsCommentedHeader0(t: string)
    requires t == "[panini ;\U{1F96A}] ; sandwich section"
    ensures |t| == 30 && t[0] == '[' && t[1] == 'p' && t[2] == 'a' && t[3] == 'n' && t[4] == 'i' && t[5] == 'n' && t[6] == 'i' && t[7] == ' '
  {
    assert t[0] == '[';
    assert t[1] == 'p';
    assert t[2] == 'a';
    assert t[3] == 'n';
    assert t[4] == 'i';
    assert t[5] == 'n';
    assert t[6] == 'i';
    assert t[7] == ' ';
  }

  lemma {:induction false} SpellsCommentedHeader1(t: string)
    requires t == "[panini ;\U{1F96A}] ; sandwich section"
    ensures |t| == 30 && t[8] == ';' && t[9] == '\U{1F96A}' && t[10] == ']' && t[11] == ' ' && t[12] == ';' && t[13] == ' ' && t[14] == 's' && t[15] == 'a'
  {
    assert t[8] == ';';
    assert t[9] == '\U{1F96A}';
    assert t[10] == ']';
    assert t[11] == ' ';
    assert t[12] == ';';
    assert t[13] == ' ';
    assert t[14] == 's';
    assert t[15] == 'a';
  }

  lemma {:induction false} SpellsCommentedHeader2(t: string)
    requires t == "[panini ;\U{1F96A}] ; sandwich section"
    ensures |t| == 30 && t[16] == 'n' && t[17] == 'd' && t[18] == 'w' && t[19] == 'i' && t[20] == 'c' && t[21] == 'h' && t[22] == ' ' && t[23] == 's'
  {
    assert t[16] == 'n';
    assert t[17] == 'd';
    assert t[18] == 'w';
    assert t[19] == 'i';
    assert t[20] == 'c';
    assert t[21] == 'h';
    assert t[22] == ' ';
    assert t[23] == 's';
  }

  lemma {:induction false} SpellsCommentedHeader3(t: string)
    requires t == "[panini ;\U{1F96A}] ; sandwich section"
    ensures |t| == 30 && t[24] == 'e' && t[25] == 'c' && t[26] == 't' && t[27] == 'i' && t[28] == 'o' && t[29] == 'n'
  {
    assert t[24] == 'e';
    assert t[25] == 'c';
    assert t[26] == 't';
    assert t[27] == 'i';
    assert t[28] == 'o';
    assert t[29] == 'n';
  }

  /** A ';' inside the brackets belongs to the name; after the closing bracket the rest of the line is ignored. */
  lemma {:induction false} ReadsCommentedHeader(t: string, section: Span)
    requires |t| == 30
    requires t[0] == '[' && t[1] == 'p' && t[2] == 'a' && t[3] == 'n' && t[4] == 'i' && t[5] == 'n' && t[6] == 'i' && t[7] == ' '
    requires t[8] == ';' && t[9] == '\U{1F96A}' && t[10] == ']' && t[11] == ' ' && t[12] == ';' && t[13] == ' ' && t[14] == 's' && t[15] == 'a'
    requires t[16] == 'n' && t[17] == 'd' && t[18] == 'w' && t[19] == 'i' && t[20] == 'c' && t[21] == 'h' && t[22] == ' ' && t[23] == 's'
    requires t[24] == 'e' && t[25] == 'c' && t[26] == 't' && t[27] == 'i' && t[28] == 'o' && t[29] == 'n'
    ensures ReadLine(t, 0, |t|, section) == Continue([], Span(Some(1), Some(10)))
    ensures IsHeader(t)
  {
    assert Skip(t, 0, 30, Blanks) == 0;
    assert Skip(t, 1, 30, Unmarked) == 1;
    assert Find(t, 6, 30, {'[', ']', '='}) == 10;
    assert Find(t, 2, 30, {'[', ']', '='}) == 10;
    assert LastMark(t, 2, 10, None) == Some(10);
    assert Find(t, 26, 30, {'='}) == 30;
    assert Find(t, 22, 30, {'='}) == 30;
    assert Find(t, 18, 30, {'='}) == 30;
    assert Find(t, 14, 30, {'='}) == 30;
    assert Find(t, 11, 30, {'='}) == 30;
  }

  /** A ';' after the value starts a comment that ends the line without a call. */
  lemma {:induction false} ReadsCommentedPair(section: Span)
    ensures ReadLine("panini = \U{1F96A} ; sandwich", 0, 21, section) == Continue([], section)
    ensures !IsHeader("panini = \U{1F96A} ; sandwich")
  {
    var t := "panini = \U{1F96A} ; sandwich";
    assert Skip(t, 0, 21, Blanks) == 0;
    assert Find(t, 3, 21, {'='}) == 7;
    assert Find(t, 1, 21, {'='}) == 7;
    assert LastMark(t, 1, 7, None) == Some(6);
    assert Skip(t, 8, 21, Unmarked) == 9;
    assert Find(t, 10, 21, {';', '='}) == 11;
  }

  /** An '=' inside the brackets is an error. */
  lemma {:induction false} ReadsHeaderWithEquals(section: Span)
    ensures ReadLine("[panini=\U{1F96A}]", 0, 10, section) == Stop(ExpectedKey)
    ensures IsHeader("[panini=\U{1F96A}]")
  {
    var t := "[panini=\U{1F96A}]";
    assert Skip(t, 0, 10, Blanks) == 0;
    assert Skip(t, 1, 10, Unmarked) == 1;
    assert Find(t, 3, 10, {'[', ']', '='}) == 7;
    assert Find(t, 2, 10, {'[', ']', '='}) == 7;
  }

  /** A second '=' on a line is an error. */
  lemma {:induction false} ReadsValueWithEquals(section: Span)
    ensures ReadLine("panini = \U{1F96A} = \U{1F35E}]", 0, 15, section) == Stop(ExpectedKey)
    ensures !IsHeader("panini = \U{1F96A} = \U{1F35E}]")
  {
    var t := "panini = \U{1F96A} = \U{1F35E}]";
    assert Skip(t, 0, 15, Blanks) == 0;
    assert Find(t, 3, 15, {'='}) == 7;
    assert Find(t, 1, 15, {'='}) == 7;
    assert LastMark(t, 1, 7, None) == Some(6);
    assert Skip(t, 8, 15, Unmarked) == 9;
    assert Find(t, 10, 15, {';', '='}) == 11;
  }

  /** An '=' with no key before it is an error. */
  lemma {:induction false} ReadsMissingKey(section: Span)
    ensures ReadLine("  = \U{1F35E}", 0, 5, section) == Stop(ExpectedKey)
    ensures !IsHeader("  = \U{1F35E}")
  {
    var t := "  = \U{1F35E}";
    assert Skip(t, 0, 5, Blanks) == 2;
  }

  /** A key that the line ends without an '=' is an error. */
  lemma {:induction false} ReadsMissingValue(section: Span)
    ensures ReadLine("bread", 0, 5, section) == Stop(EndOfKey)
    ensures !IsHeader("bread")
  {
    var t := "bread";
    assert Skip(t, 0, 5, Blanks) == 0;
    assert Find(t, 1, 5, {'='}) == 5;
  }

  /** A header that the line ends before its closing bracket is an error. */
  lemma {:induction false} ReadsOpenHeader(section: Span)
    ensures ReadLine("[panini", 0, 7, section) == Stop(EndOfSection)
    ensures IsHeader("[panini")
  {
    var t := "[panini";
    assert Skip(t, 0, 7, Blanks) == 0;
    assert Skip(t, 1, 7, Unmarked) == 1;
    assert Find(t, 3, 7, {'[', ']', '='}) == 7;
    assert Find(t, 2, 7, {'[', ']', '='}) == 7;
  }

  /** A pair whose value is one character. */
  lemma {:induction false} ReadsBreadPair(section: Span)
    ensures ReadLine("bread = \U{1F35E}", 0, 9, section) == Continue([KeyValue(section, Span(Some(0), Some(5)), Span(Some(8), Some(9)))], section)
    ensures !IsHeader("bread = \U{1F35E}")
  {
    var t := "bread = \U{1F35E}";
    assert Skip(t, 0, 9, Blanks) == 0;
    assert Find(t, 2, 9, {'='}) == 6;
    assert Find(t, 1, 9, {'='}) == 6;
    assert LastMark(t, 1, 6, None) == Some(5);
    assert Skip(t, 7, 9, Unmarked) == 8;
    assert Find(t, 9, 9, {';', '='}) == 9;
  }

  /** A second '[' inside a header closes it; the rest of the line is ignored. */
  lemma {:induction false} ReadsReopenedHeader(section: Span)
    ensures ReadLine("[ab[cd", 0, 6, section) == Continue([], Span(Some(1), Some(3)))
    ensures IsHeader("[ab[cd")
  {
    var t := "[ab[cd";
    assert Skip(t, 0, 6, Blanks) == 0;
    assert Skip(t, 1, 6, Unmarked) == 1;
    assert Find(t, 2, 6, {'[', ']', '='}) == 3;
    assert LastMark(t, 2, 3, None) == Some(3);
    assert Find(t, 4, 6, {'='}) == 6;
  }

  lemma {:induction false} SliceReopenedHeader1(t: string)
    requires |t| == 6 && t[1] == 'a' && t[2] == 'b'
    ensures t[1..3] == "ab"
  {
  }

  lemma {:induction false} ViewsReopenedHeader(s: string, p: nat, t: string)
    requires Window(s, p, t) && t == "[ab[cd"
    ensures View(s, Span(Some(p + 1), Some(p + 3))) == Some("ab")
  {
    WindowView(s, p, t, 1, 3, p + 1, p + 3);
    assert t[1] == 'a';
    assert t[2] == 'b';
    SliceReopenedHeader1(t);
  }

  /** A pair after a header. */
  lemma {:induction false} ReadsPairAfterHeader(section: Span)
    ensures ReadLine("key = value", 0, 11, section) == Continue([KeyValue(section, Span(Some(0), Some(3)), Span(Some(6), Some(11)))], section)
    ensures !IsHeader("key = value")
  {
    var t := "key = value";
    assert Skip(t, 0, 11, Blanks) == 0;
    assert Find(t, 1, 11, {'='}) == 4;
    assert LastMark(t, 1, 4, None) == Some(3);
    assert Skip(t, 5, 11, Unmarked) == 6;
    assert Find(t, 7, 11, {';', '='}) == 11;
  }

  lemma {:induction false} SlicePairAfterHeader0(t: string)
    requires |t| == 11 && t[0] == 'k' && t[1] == 'e' && t[2] == 'y'
    ensures t[0..3] == "key"
  {
  }

  lemma {:induction false} SlicePairAfterHeader6(t: string)
    requires |t| == 11 && t[6] == 'v' && t[7] == 'a' && t[8] == 'l' && t[9] == 'u' && t[10] == 'e'
    ensures t[6..11] == "value"
  {
  }

  lemma {:induction false} ViewsPairAfterHeader(s: string, p: nat, t: string)
    requires Window(s, p, t) && t == "key = value"
    ensures View(s, Span(Some(p + 0), Some(p + 3))) == Some("key")
    ensures View(s, Span(Some(p + 6), Some(p + 11))) == Some("value")
  {
    WindowView(s, p, t, 0, 3, p + 0, p + 3);
    assert t[0] == 'k';
    assert t[1] == 'e';
    assert t[2] == 'y';
    SlicePairAfterHeader0(t);
    WindowView(s, p, t, 6, 11, p + 6, p + 11);
    assert t[6] == 'v';
    assert t[7] == 'a';
    assert t[8] == 'l';
    assert t[9] == 'u';
    assert t[10] == 'e';
    SlicePairAfterHeader6(t);
  }

  /** Blanks after a value stay part of it. */
  lemma {:induction false} ReadsTrailingBlanks(section: Span)
    ensures ReadLine("panini = bread  ", 0, 16, section) == Continue([KeyValue(section, Span(Some(0), Some(6)), Span(Some(9), Some(16)))], section)
    ensures !IsHeader("panini = bread  ")
  {
    var t := "panini = bread  ";
    assert Skip(t, 0, 16, Blanks) == 0;
    assert Find(t, 3, 16, {'='}) == 7;
    assert Find(t, 1, 16, {'='}) == 7;
    assert LastMark(t, 1, 7, None) == Some(6);
    assert Skip(t, 8, 16, Unmarked) == 9;
    assert Find(t, 12, 16, {';', '='}) == 16;
    assert Find(t, 10, 16, {';', '='}) == 16;
  }

  lemma {:induction false} SliceTrailingBlanks0(t: string)
    requires |t| == 16 && t[0] == 'p' && t[1] == 'a' && t[2] == 'n' && t[3] == 'i' && t[4] == 'n' && t[5] == 'i'
    ensures t[0..6] == "panini"
  {
  }

  lemma {:induction false} SliceTrailingBlanks9(t: string)
    requires |t| == 16 && t[9] == 'b' && t[10] == 'r' && t[11] == 'e' && t[12] == 'a' && t[13] == 'd' && t[14] == ' ' && t[15] == ' '
    ensures t[9..16] == "bread  "
  {
  }

  lemma {:induction false} ViewsTrailingBlanks(s: string, p: nat, t: string)
    requires Window(s, p, t) && t == "panini = bread  "
    ensures View(s, Span(Some(p + 0), Some(p + 6))) == Some("panini")
    ensures View(s, Span(Some(p + 9), Some(p + 16))) == Some("bread  ")
  {
    WindowView(s, p, t, 0, 6, p + 0, p + 6);
    assert t[0] == 'p';
    assert t[1] == 'a';
    assert t[2] == 'n';
    assert t[3] == 'i';
    assert t[4] == 'n';
    assert t[5] == 'i';
    SliceTrailingBlanks0(t);
    WindowView(s, p, t, 9, 16, p + 9, p + 16);
    assert t[9] == 'b';
    assert t[10] == 'r';
    assert t[11] == 'e';
    assert t[12] == 'a';
    assert t[13] == 'd';
    assert t[14] == ' ';
    assert t[15] == ' ';
    SliceTrailingBlanks9(t);
  }

  /** A one-character key: its end pointer is never set. */
  lemma {:induction false} ReadsOneLetterPair(section: Span)
    ensures ReadLine("k=v", 0, 3, section) == Continue([KeyValue(section, Span(Some(0), None), Span(Some(2), Some(3)))], section)
    ensures !IsHeader("k=v")
  {
    var t := "k=v";
    assert Skip(t, 0, 3, Blanks) == 0;
    assert Find(t, 1, 3, {'='}) == 1;
    assert LastMark(t, 1, 1, None) == None;
    assert Skip(t, 2, 3, Unmarked) == 2;
    assert Find(t, 3, 3, {';', '='}) == 3;
  }

  lemma {:induction false} SliceOneLetterPair2(t: string)
    requires |t| == 3 && t[2] == 'v'
    ensures t[2..3] == "v"
  {
  }

  lemma {:induction false} ViewsOneLetterPair(s: string, p: nat, t: string)
    requires Window(s, p, t) && t == "k=v"
    ensures View(s, Span(Some(p + 2), Some(p + 3))) == Some("v")
  {
    WindowView(s, p, t, 2, 3, p + 2, p + 3);
    assert t[2] == 'v';
    SliceOneLetterPair2(t);
  }

  lemma {:induction false} ReadsEmptyFilesByLine(lines: seq<string>)
    requires |lines| == 1 && lines[0] == ""
    ensures ReadEach(lines, 0, 0, Span(None, None)) == []
  {
    assert lines[0..] == lines;
    ReadsEmpty(Span(None, None));
    QuietStep(lines, 0, 0, 0, Span(None, None), 1, 1);
    assert lines[1..] == [];
    assert ReadEach(lines[0..], 0, 0, Span(None, None)) == [];
  }

  lemma {:induction false} ReadsEmptyFilesPlain(lines: seq<string>)
    requires |lines| == 1 && lines[0] == ""
    ensures Unbroken(lines) && NulFree(Join(lines))
  {
    assert Plain(lines[0]);
    PlainLines(lines);
  }

  /** The empty input makes no call. */
  lemma {:induction false} ReadsEmptyFiles(s: string)
    requires s == Join([""])
    ensures Events(s) == []
  {
    var lines := [""];
    ReadsEmptyFilesPlain(lines);
    ParseByLine(s);
    assert s[0..] == s;
    ReadJoined(s, 0, lines, 0, Span(None, None));
    ReadsEmptyFilesByLine(lines);
  }

  lemma {:induction false} ReadsPracticallyEmptyFilesFrom8(lines: seq<string>)
    requires |lines| == 9 && lines[0] == "" && lines[1] == "; This file contains nothing" && lines[2] == "" && lines[3] == "[a]" && lines[4] == "; Section a" && lines[5] == "" && lines[6] == "[b]" && lines[7] == "  [c]" && lines[8] == ""
    ensures ReadEach(lines[8..], 58, 8, Span(Some(55), None)) == []
  {
    ReadsEmpty(Span(Some(55), None));
    QuietStep(lines, 8, 58, 8, Span(Some(55), None), 59, 9);
    assert lines[9..] == [];
    assert ReadEach(lines[8..], 58, 8, Span(Some(55), None)) == [];
  }

  lemma {:induction false} ReadsPracticallyEmptyFilesFrom6(lines: seq<string>)
    requires |lines| == 9 && lines[0] == "" && lines[1] == "; This file contains nothing" && lines[2] == "" && lines[3] == "[a]" && lines[4] == "; Section a" && lines[5] == "" && lines[6] == "[b]" && lines[7] == "  [c]" && lines[8] == ""
    ensures ReadEach(lines[6..], 48, 6, Span(Some(32), None)) == []
  {
    ReadsHeaderB(Span(Some(32), None));
    HeaderStep(lines, 6, 48, 6, Span(Some(32), None), 52, 7, Span(Some(1), None), Span(Some(49), None));
    ReadsIndentedHeaderC(Span(Some(49), None));
    HeaderStep(lines, 7, 52, 7, Span(Some(49), None), 58, 8, Span(Some(3), None), Span(Some(55), None));
    ReadsPracticallyEmptyFilesFrom8(lines);
    assert ReadEach(lines[6..], 48, 6, Span(Some(32), None)) == [];
  }

  lemma {:induction false} ReadsPracticallyEmptyFilesFrom4(lines: seq<string>)
    requires |lines| == 9 && lines[0] == "" && lines[1] == "; This file contains nothing" && lines[2] == "" && lines[3] == "[a]" && lines[4] == "; Section a" && lines[5] == "" && lines[6] == "[b]" && lines[7] == "  [c]" && lines[8] == ""
    ensures ReadEach(lines[4..], 35, 4, Span(Some(32), None)) == []
  {
    ReadsSectionRemark(Span(Some(32), None));
    QuietStep(lines, 4, 35, 4, Span(Some(32), None), 47, 5);
    ReadsEmpty(Span(Some(32), None));
    QuietStep(lines, 5, 47, 5, Span(Some(32), None), 48, 6);
    ReadsPracticallyEmptyFilesFrom6(lines);
    assert ReadEach(lines[4..], 35, 4, Span(Some(32), None)) == [];
  }

  lemma {:induction false} ReadsPracticallyEmptyFilesFrom2(lines: seq<string>)
    requires |lines| == 9 && lines[0] == "" && lines[1] == "; This file contains nothing" && lines[2] == "" && lines[3] == "[a]" && lines[4] == "; Section a" && lines[5] == "" && lines[6] == "[b]" && lines[7] == "  [c]" && lines[8] == ""
    ensures ReadEach(lines[2..], 30, 2, Span(None, None)) == []
  {
    ReadsEmpty(Span(None, None));
    QuietStep(lines, 2, 30, 2, Span(None, None), 31, 3);
    ReadsHeaderA(Span(None, None));
    HeaderStep(lines, 3, 31, 3, Span(None, None), 35, 4, Span(Some(1), None), Span(Some(32), None));
    ReadsPracticallyEmptyFilesFrom4(lines);
    assert ReadEach(lines[2..], 30, 2, Span(None, None)) == [];
  }

  lemma {:induction false} ReadsPracticallyEmptyFilesByLine(lines: seq<string>)
    requires |lines| == 9 && lines[0] == "" && lines[1] == "; This file contains nothing" && lines[2] == "" && lines[3] == "[a]" && lines[4] == "; Section a" && lines[5] == "" && lines[6] == "[b]" && lines[7] == "  [c]" && lines[8] == ""
    ensures ReadEach(lines, 0, 0, Span(None, None)) == []
  {
    assert lines[0..] == lines;
    ReadsEmpty(Span(None, None));
    QuietStep(lines, 0, 0, 0, Span(None, None), 1, 1);
    SpellsRemark0(lines[1]);
    SpellsRemark1(lines[1]);
    SpellsRemark2(lines[1]);
    SpellsRemark3(lines[1]);
    ReadsRemark(lines[1], Span(None, None));
    QuietStep(lines, 1, 1, 1, Span(None, None), 30, 2);
    ReadsPracticallyEmptyFilesFrom2(lines);
    assert ReadEach(lines[0..], 0, 0, Span(None, None)) == [];
  }

  lemma {:induction false} ReadsPracticallyEmptyFilesPlain(lines: seq<string>)
    requires |lines| == 9 && lines[0] == "" && lines[1] == "; This file contains nothing" && lines[2] == "" && lines[3] == "[a]" && lines[4] == "; Section a" && lines[5] == "" && lines[6] == "[b]" && lines[7] == "  [c]" && lines[8] == ""
    ensures Unbroken(lines) && NulFree(Join(lines))
  {
    assert Plain(lines[0]);
    assert Plain(lines[1]);
    assert Plain(lines[2]);
    assert Plain(lines[3]);
    assert Plain(lines[4]);
    assert Plain(lines[5]);
    assert Plain(lines[6]);
    assert Plain(lines[7]);
    assert Plain(lines[8]);
    PlainLines(lines);
  }

  /** Blank lines, comments and headers alone make no call. */
  lemma {:induction false} ReadsPracticallyEmptyFiles(s: string)
    requires s == Join(["", "; This file contains nothing", "", "[a]", "; Section a", "", "[b]", "  [c]", ""])
    ensures Events(s) == []
  {
    var lines := ["", "; This file contains nothing", "", "[a]", "; Section a", "", "[b]", "  [c]", ""];
    ReadsPracticallyEmptyFilesPlain(lines);
    ParseByLine(s);
    assert s[0..] == s;
    ReadJoined(s, 0, lines, 0, Span(None, None));
    ReadsPracticallyEmptyFilesByLine(lines);
  }

  lemma {:induction false} ReadsRootKeyValuesByLine(lines: seq<string>)
    requires |lines| == 1 && lines[0] == "panini = bread"
    ensures ReadEach(lines, 0, 0, Span(None, None)) == [KeyValue(Span(None, None), Span(Some(0), Some(6)), Span(Some(9), Some(14)))]
  {
    assert lines[0..] == lines;
    ReadsBread(Span(None, None));
    PairStep(lines, 0, 0, 0, Span(None, None), 15, 1, Span(Some(0), Some(6)), Span(Some(9), Some(14)), Span(Some(0), Some(6)), Span(Some(9), Some(14)));
    assert lines[1..] == [];
    assert ReadEach(lines[0..], 0, 0, Span(None, None)) == [KeyValue(Span(None, None), Span(Some(0), Some(6)), Span(Some(9), Some(14)))];
  }

  lemma {:induction false} ReadsRootKeyValuesPlain(lines: seq<string>)
    requires |lines| == 1 && lines[0] == "panini = bread"
    ensures Unbroken(lines) && NulFree(Join(lines))
  {
    assert Plain(lines[0]);
    PlainLines(lines);
  }

  lemma {:induction false} ReadsRootKeyValuesCalls(s: string)
    requires s == Join(["panini = bread"])
    ensures Events(s) == [KeyValue(Span(None, None), Span(Some(0), Some(6)), Span(Some(9), Some(14)))]
  {
    var lines := ["panini = bread"];
    ReadsRootKeyValuesPlain(lines);
    ParseByLine(s);
    assert s[0..] == s;
    ReadJoined(s, 0, lines, 0, Span(None, None));
    ReadsRootKeyValuesByLine(lines);
  }

  lemma {:induction false} ReadsRootKeyValuesViews(s: string, lines: seq<string>)
    requires |lines| == 1 && lines[0] == "panini = bread" && s == Join(lines)
    ensures View(s, Span(Some(0), Some(6))) == Some("panini")
    ensures View(s, Span(Some(9), Some(14))) == Some("bread")
  {
    assert s[0..] == s;
    JoinedWindow(s, 0, lines, 0, 0);
    ViewsBread(s, 0, lines[0]);
  }

  /** A pair before any header has no section: both its section pointers are null. */
  lemma {:induction false} ReadsRootKeyValues(s: string)
    requires s == Join(["panini = bread"])
    ensures Events(s) == [KeyValue(Span(None, None), Span(Some(0), Some(6)), Span(Some(9), Some(14)))]
    ensures View(s, Events(s)[0].section) == Some("")
    ensures View(s, Events(s)[0].key) == Some("panini")
    ensures View(s, Events(s)[0].value) == Some("bread")
  {
    ReadsRootKeyValuesCalls(s);
    ReadsRootKeyValuesViews(s, ["panini = bread"]);
  }

  lemma {:induction false} ReadsSectionedKeyValuesFrom6(lines: seq<string>)
    requires |lines| == 7 && lines[0] == "" && lines[1] == "[primary]" && lines[2] == "panini = \U{1F96A}" && lines[3] == "" && lines[4] == "[secondary]" && lines[5] == "panini = \U{1F35E}" && lines[6] == ""
    ensures ReadEach(lines[6..], 46, 6, Span(Some(24), Some(33))) == []
  {
    ReadsEmpty(Span(Some(24), Some(33)));
    QuietStep(lines, 6, 46, 6, Span(Some(24), Some(33)), 47, 7);
    assert lines[7..] == [];
    assert ReadEach(lines[6..], 46, 6, Span(Some(24), Some(33))) == [];
  }

  lemma {:induction false} ReadsSectionedKeyValuesFrom4(lines: seq<string>)
    requires |lines| == 7 && lines[0] == "" && lines[1] == "[primary]" && lines[2] == "panini = \U{1F96A}" && lines[3] == "" && lines[4] == "[secondary]" && lines[5] == "panini = \U{1F35E}" && lines[6] == ""
    ensures ReadEach(lines[4..], 23, 4, Span(Some(2), Some(9))) == [KeyValue(Span(Some(24), Some(33)), Span(Some(35), Some(41)), Span(Some(44), Some(45)))]
  {
    ReadsSecondary(Span(Some(2), Some(9)));
    HeaderStep(lines, 4, 23, 4, Span(Some(2), Some(9)), 35, 5, Span(Some(1), Some(10)), Span(Some(24), Some(33)));
    ReadsPanini('\U{1F35E}', Span(Some(24), Some(33)));
    assert lines[5] == "panini = " + ['\U{1F35E}'];
    PairStep(lines, 5, 35, 5, Span(Some(24), Some(33)), 46, 6, Span(Some(0), Some(6)), Span(Some(9), Some(10)), Span(Some(35), Some(41)), Span(Some(44), Some(45)));
    ReadsSectionedKeyValuesFrom6(lines);
    assert ReadEach(lines[5..], 35, 5, Span(Some(24), Some(33))) == [KeyValue(Span(Some(24), Some(33)), Span(Some(35), Some(41)), Span(Some(44), Some(45)))];
    assert ReadEach(lines[4..], 23, 4, Span(Some(2), Some(9))) == [KeyValue(Span(Some(24), Some(33)), Span(Some(35), Some(41)), Span(Some(44), Some(45)))];
  }

  lemma {:induction false} ReadsSectionedKeyValuesFrom2(lines: seq<string>)
    requires |lines| == 7 && lines[0] == "" && lines[1] == "[primary]" && lines[2] == "panini = \U{1F96A}" && lines[3] == "" && lines[4] == "[secondary]" && lines[5] == "panini = \U{1F35E}" && lines[6] == ""
    ensures ReadEach(lines[2..], 11, 2, Span(Some(2), Some(9))) == [KeyValue(Span(Some(2), Some(9)), Span(Some(11), Some(17)), Span(Some(20), Some(21))), KeyValue(Span(Some(24), Some(33)), Span(Some(35), Some(41)), Span(Some(44), Some(45)))]
  {
    ReadsPanini('\U{1F96A}', Span(Some(2), Some(9)));
    assert lines[2] == "panini = " + ['\U{1F96A}'];
    PairStep(lines, 2, 11, 2, Span(Some(2), Some(9)), 22, 3, Span(Some(0), Some(6)), Span(Some(9), Some(10)), Span(Some(11), Some(17)), Span(Some(20), Some(21)));
    ReadsEmpty(Span(Some(2), Some(9)));
    QuietStep(lines, 3, 22, 3, Span(Some(2), Some(9)), 23, 4);
    ReadsSectionedKeyValuesFrom4(lines);
    assert ReadEach(lines[2..], 11, 2, Span(Some(2), Some(9))) == [KeyValue(Span(Some(2), Some(9)), Span(Some(11), Some(17)), Span(Some(20), Some(21))), KeyValue(Span(Some(24), Some(33)), Span(Some(35), Some(41)), Span(Some(44), Some(45)))];
  }

  lemma {:induction false} ReadsSectionedKeyValuesByLine(lines: seq<string>)
    requires |lines| == 7 && lines[0] == "" && lines[1] == "[primary]" && lines[2] == "panini = \U{1F96A}" && lines[3] == "" && lines[4] == "[secondary]" && lines[5] == "panini = \U{1F35E}" && lines[6] == ""
    ensures ReadEach(lines, 0, 0, Span(None, None)) == [KeyValue(Span(Some(2), Some(9)), Span(Some(11), Some(17)), Span(Some(20), Some(21))), KeyValue(Span(Some(24), Some(33)), Span(Some(35), Some(41)), Span(Some(44), Some(45)))]
  {
    assert lines[0..] == lines;
    ReadsEmpty(Span(None, None));
    QuietStep(lines, 0, 0, 0, Span(None, None), 1, 1);
    ReadsPrimary(Span(None, None));
    HeaderStep(lines, 1, 1, 1, Span(None, None), 11, 2, Span(Some(1), Some(8)), Span(Some(2), Some(9)));
    ReadsSectionedKeyValuesFrom2(lines);
    assert ReadEach(lines[0..], 0, 0, Span(None, None)) == [KeyValue(Span(Some(2), Some(9)), Span(Some(11), Some(17)), Span(Some(20), Some(21))), KeyValue(Span(Some(24), Some(33)), Span(Some(35), Some(41)), Span(Some(44), Some(45)))];
  }

  lemma {:induction false} ReadsSectionedKeyValuesPlain(lines: seq<string>)
    requires |lines| == 7 && lines[0] == "" && lines[1] == "[primary]" && lines[2] == "panini = \U{1F96A}" && lines[3] == "" && lines[4] == "[secondary]" && lines[5] == "panini = \U{1F35E}" && lines[6] == ""
    ensures Unbroken(lines) && NulFree(Join(lines))
  {
    assert Plain(lines[0]);
    assert Plain(lines[1]);
    assert Plain(lines[2]);
    assert Plain(lines[3]);
    assert Plain(lines[4]);
    assert Plain(lines[5]);
    assert Plain(lines[6]);
    PlainLines(lines);
  }

  lemma {:induction false} ReadsSectionedKeyValuesCalls(s: string)
    requires s == Join(["", "[primary]", "panini = \U{1F96A}", "", "[secondary]", "panini = \U{1F35E}", ""])
    ensures Events(s) == [KeyValue(Span(Some(2), Some(9)), Span(Some(11), Some(17)), Span(Some(20), Some(21))), KeyValue(Span(Some(24), Some(33)), Span(Some(35), Some(41)), Span(Some(44), Some(45)))]
  {
    var lines := ["", "[primary]", "panini = \U{1F96A}", "", "[secondary]", "panini = \U{1F35E}", ""];
    ReadsSectionedKeyValuesPlain(lines);
    ParseByLine(s);
    assert s[0..] == s;
    ReadJoined(s, 0, lines, 0, Span(None, None));
    ReadsSectionedKeyValuesByLine(lines);
  }

  lemma {:induction false} ReadsSectionedKeyValuesViews(s: string)
    requires s == Join(["", "[primary]", "panini = \U{1F96A}", "", "[secondary]", "panini = \U{1F35E}", ""])
    ensures View(s, Span(Some(2), Some(9))) == Some("primary")
    ensures View(s, Span(Some(11), Some(17))) == Some("panini")
    ensures View(s, Span(Some(20), Some(21))) == Some("\U{1F96A}")
    ensures View(s, Span(Some(24), Some(33))) == Some("secondary")
    ensures View(s, Span(Some(35), Some(41))) == Some("panini")
    ensures View(s, Span(Some(44), Some(45))) == Some("\U{1F35E}")
  {
    var lines := ["", "[primary]", "panini = \U{1F96A}", "", "[secondary]", "panini = \U{1F35E}", ""];
    assert s[0..] == s;
    JoinedWindow(s, 0, lines, 1, 1);
    ViewsPrimary(s, 1, lines[1]);
    JoinedWindow(s, 0, lines, 2, 11);
    ViewsPanini(s, 11, lines[2]);
    JoinedWindow(s, 0, lines, 4, 23);
    ViewsSecondary(s, 23, lines[4]);
    JoinedWindow(s, 0, lines, 5, 35);
    ViewsPanini(s, 35, lines[5]);
  }

  /** Each pair is reported with the section whose header came last before it. */
  lemma {:induction false} ReadsSectionedKeyValues(s: string)
    requires s == Join(["", "[primary]", "panini = \U{1F96A}", "", "[secondary]", "panini = \U{1F35E}", ""])
    ensures Events(s) == [KeyValue(Span(Some(2), Some(9)), Span(Some(11), Some(17)), Span(Some(20), Some(21))), KeyValue(Span(Some(24), Some(33)), Span(Some(35), Some(41)), Span(Some(44), Some(45)))]
    ensures View(s, Events(s)[0].section) == Some("primary")
    ensures View(s, Events(s)[0].key) == Some("panini")
    ensures View(s, Events(s)[0].value) == Some("\U{1F96A}")
    ensures View(s, Events(s)[1].section) == Some("secondary")
    ensures View(s, Events(s)[1].key) == Some("panini")
    ensures View(s, Events(s)[1].value) == Some("\U{1F35E}")
  {
    ReadsSectionedKeyValuesCalls(s);
    ReadsSectionedKeyValuesViews(s);
  }

  lemma {:induction false} IgnoresLeadingAndTrailingWhitespaceFrom4(lines: seq<string>)
    requires |lines| == 5 && lines[0] == "" && lines[1] == "[ a section ]" && lines[2] == "  my key = my value" && lines[3] == "  this is another key = yet another value" && lines[4] == ""
    ensures ReadEach(lines[4..], 77, 4, Span(Some(3), Some(12))) == []
  {
    ReadsEmpty(Span(Some(3), Some(12)));
    QuietStep(lines, 4, 77, 4, Span(Some(3), Some(12)), 78, 5);
    assert lines[5..] == [];
    assert ReadEach(lines[4..], 77, 4, Span(Some(3), Some(12))) == [];
  }

  lemma {:induction false} IgnoresLeadingAndTrailingWhitespaceFrom2(lines: seq<string>)
    requires |lines| == 5 && lines[0] == "" && lines[1] == "[ a section ]" && lines[2] == "  my key = my value" && lines[3] == "  this is another key = yet another value" && lines[4] == ""
    ensures ReadEach(lines[2..], 15, 2, Span(Some(3), Some(12))) == [KeyValue(Span(Some(3), Some(12)), Span(Some(17), Some(23)), Span(Some(26), Some(34))), KeyValue(Span(Some(3), Some(12)), Span(Some(37), Some(56)), Span(Some(59), Some(76)))]
  {
    ReadsMyKey(Span(Some(3), Some(12)));
    PairStep(lines, 2, 15, 2, Span(Some(3), Some(12)), 35, 3, Span(Some(2), Some(8)), Span(Some(11), Some(19)), Span(Some(17), Some(23)), Span(Some(26), Some(34)));
    SpellsAnotherKey0(lines[3]);
    SpellsAnotherKey1(lines[3]);
    SpellsAnotherKey2(lines[3]);
    SpellsAnotherKey3(lines[3]);
    SpellsAnotherKey4(lines[3]);
    SpellsAnotherKey5(lines[3]);
    ReadsAnotherKey(lines[3], Span(Some(3), Some(12)));
    PairStep(lines, 3, 35, 3, Span(Some(3), Some(12)), 77, 4, Span(Some(2), Some(21)), Span(Some(24), Some(41)), Span(Some(37), Some(56)), Span(Some(59), Some(76)));
    IgnoresLeadingAndTrailingWhitespaceFrom4(lines);
    assert ReadEach(lines[3..], 35, 3, Span(Some(3), Some(12))) == [KeyValue(Span(Some(3), Some(12)), Span(Some(37), Some(56)), Span(Some(59), Some(76)))];
    assert ReadEach(lines[2..], 15, 2, Span(Some(3), Some(12))) == [KeyValue(Span(Some(3), Some(12)), Span(Some(17), Some(23)), Span(Some(26), Some(34))), KeyValue(Span(Some(3), Some(12)), Span(Some(37), Some(56)), Span(Some(59), Some(76)))];
  }

  lemma {:induction false} IgnoresLeadingAndTrailingWhitespaceByLine(lines: seq<string>)
    requires |lines| == 5 && lines[0] == "" && lines[1] == "[ a section ]" && lines[2] == "  my key = my value" && lines[3] == "  this is another key = yet another value" && lines[4] == ""
    ensures ReadEach(lines, 0, 0, Span(None, None)) == [KeyValue(Span(Some(3), Some(12)), Span(Some(17), Some(23)), Span(Some(26), Some(34))), KeyValue(Span(Some(3), Some(12)), Span(Some(37), Some(56)), Span(Some(59), Some(76)))]
  {
    assert lines[0..] == lines;
    ReadsEmpty(Span(None, None));
    QuietStep(lines, 0, 0, 0, Span(None, None), 1, 1);
    ReadsSpacedHeader(Span(None, None));
    HeaderStep(lines, 1, 1, 1, Span(None, None), 15, 2, Span(Some(2), Some(11)), Span(Some(3), Some(12)));
    IgnoresLeadingAndTrailingWhitespaceFrom2(lines);
    assert ReadEach(lines[0..], 0, 0, Span(None, None)) == [KeyValue(Span(Some(3), Some(12)), Span(Some(17), Some(23)), Span(Some(26), Some(34))), KeyValue(Span(Some(3), Some(12)), Span(Some(37), Some(56)), Span(Some(59), Some(76)))];
  }

  lemma {:induction false} IgnoresLeadingAndTrailingWhitespacePlain(lines: seq<string>)
    requires |lines| == 5 && lines[0] == "" && lines[1] == "[ a section ]" && lines[2] == "  my key = my value" && lines[3] == "  this is another key = yet another value" && lines[4] == ""
    ensures Unbroken(lines) && NulFree(Join(lines))
  {
    assert Plain(lines[0]);
    assert Plain(lines[1]);
    assert Plain(lines[2]);
    assert Plain(lines[3]);
    assert Plain(lines[4]);
    PlainLines(lines);
  }

  lemma {:induction false} IgnoresLeadingAndTrailingWhitespaceCalls(s: string)
    requires s == Join(["", "[ a section ]", "  my key = my value", "  this is another key = yet another value", ""])
    ensures Events(s) == [KeyValue(Span(Some(3), Some(12)), Span(Some(17), Some(23)), Span(Some(26), Some(34))), KeyValue(Span(Some(3), Some(12)), Span(Some(37), Some(56)), Span(Some(59), Some(76)))]
  {
    var lines := ["", "[ a section ]", "  my key = my value", "  this is another key = yet another value", ""];
    IgnoresLeadingAndTrailingWhitespacePlain(lines);
    ParseByLine(s);
    assert s[0..] == s;
    ReadJoined(s, 0, lines, 0, Span(None, None));
    IgnoresLeadingAndTrailingWhitespaceByLine(lines);
  }

  lemma {:induction false} IgnoresLeadingAndTrailingWhitespaceViews(s: string)
    requires s == Join(["", "[ a section ]", "  my key = my value", "  this is another key = yet another value", ""])
    ensures View(s, Span(Some(3), Some(12))) == Some("a section")
    ensures View(s, Span(Some(17), Some(23))) == Some("my key")
    ensures View(s, Span(Some(26), Some(34))) == Some("my value")
    ensures View(s, Span(Some(3), Some(12))) == Some("a section")
    ensures View(s, Span(Some(37), Some(56))) == Some("this is another key")
    ensures View(s, Span(Some(59), Some(76))) == Some("yet another value")
  {
    var lines := ["", "[ a section ]", "  my key = my value", "  this is another key = yet another value", ""];
    assert s[0..] == s;
    JoinedWindow(s, 0, lines, 1, 1);
    ViewsSpacedHeader(s, 1, lines[1]);
    JoinedWindow(s, 0, lines, 2, 15);
    ViewsMyKey(s, 15, lines[2]);
    JoinedWindow(s, 0, lines, 3, 35);
    ViewsAnotherKey(s, 35, lines[3]);
  }

  /** Blanks around names, keys and values are not part of them. */
  lemma {:induction false} IgnoresLeadingAndTrailingWhitespace(s: string)
    requires s == Join(["", "[ a section ]", "  my key = my value", "  this is another key = yet another value", ""])
    ensures Events(s) == [KeyValue(Span(Some(3), Some(12)), Span(Some(17), Some(23)), Span(Some(26), Some(34))), KeyValue(Span(Some(3), Some(12)), Span(Some(37), Some(56)), Span(Some(59), Some(76)))]
    ensures View(s, Events(s)[0].section) == Some("a section")
    ensures View(s, Events(s)[0].key) == Some("my key")
    ensures View(s, Events(s)[0].value) == Some("my value")
    ensures View(s, Events(s)[1].section) == Some("a section")
    ensures View(s, Events(s)[1].key) == Some("this is another key")
    ensures View(s, Events(s)[1].value) == Some("yet another value")
  {
    IgnoresLeadingAndTrailingWhitespaceCalls(s);
    IgnoresLeadingAndTrailingWhitespaceViews(s);
  }

  lemma {:induction false} AllowsEmptyValuesFrom2(lines: seq<string>)
    requires |lines| == 4 && lines[0] == "" && lines[1] == "bread =" && lines[2] == "sandwich = \U{1F96A}" && lines[3] == ""
    ensures ReadEach(lines[2..], 9, 2, Span(None, None)) == [KeyValue(Span(None, None), Span(Some(9), Some(17)), Span(Some(20), Some(21)))]
  {
    ReadsSandwich(Span(None, None));
    PairStep(lines, 2, 9, 2, Span(None, None), 22, 3, Span(Some(0), Some(8)), Span(Some(11), Some(12)), Span(Some(9), Some(17)), Span(Some(20), Some(21)));
    ReadsEmpty(Span(None, None));
    QuietStep(lines, 3, 22, 3, Span(None, None), 23, 4);
    assert lines[4..] == [];
    assert ReadEach(lines[2..], 9, 2, Span(None, None)) == [KeyValue(Span(None, None), Span(Some(9), Some(17)), Span(Some(20), Some(21)))];
  }

  lemma {:induction false} AllowsEmptyValuesByLine(lines: seq<string>)
    requires |lines| == 4 && lines[0] == "" && lines[1] == "bread =" && lines[2] == "sandwich = \U{1F96A}" && lines[3] == ""
    ensures ReadEach(lines, 0, 0, Span(None, None)) == [KeyValue(Span(None, None), Span(Some(1), Some(6)), Span(Some(8), Some(8))), KeyValue(Span(None, None), Span(Some(9), Some(17)), Span(Some(20), Some(21)))]
  {
    assert lines[0..] == lines;
    ReadsEmpty(Span(None, None));
    QuietStep(lines, 0, 0, 0, Span(None, None), 1, 1);
    ReadsBreadEmpty(Span(None, None));
    PairStep(lines, 1, 1, 1, Span(None, None), 9, 2, Span(Some(0), Some(5)), Span(Some(7), Some(7)), Span(Some(1), Some(6)), Span(Some(8), Some(8)));
    AllowsEmptyValuesFrom2(lines);
    assert ReadEach(lines[1..], 1, 1, Span(None, None)) == [KeyValue(Span(None, None), Span(Some(1), Some(6)), Span(Some(8), Some(8))), KeyValue(Span(None, None), Span(Some(9), Some(17)), Span(Some(20), Some(21)))];
    assert ReadEach(lines[0..], 0, 0, Span(None, None)) == [KeyValue(Span(None, None), Span(Some(1), Some(6)), Span(Some(8), Some(8))), KeyValue(Span(None, None), Span(Some(9), Some(17)), Span(Some(20), Some(21)))];
  }

  lemma {:induction false} AllowsEmptyValuesPlain(lines: seq<string>)
    requires |lines| == 4 && lines[0] == "" && lines[1] == "bread =" && lines[2] == "sandwich = \U{1F96A}" && lines[3] == ""
    ensures Unbroken(lines) && NulFree(Join(lines))
  {
    assert Plain(lines[0]);
    assert Plain(lines[1]);
    assert Plain(lines[2]);
    assert Plain(lines[3]);
    PlainLines(lines);
  }

  lemma {:induction false} AllowsEmptyValuesCalls(s: string)
    requires s == Join(["", "bread =", "sandwich = \U{1F96A}", ""])
    ensures Events(s) == [KeyValue(Span(None, None), Span(Some(1), Some(6)), Span(Some(8), Some(8))), KeyValue(Span(None, None), Span(Some(9), Some(17)), Span(Some(20), Some(21)))]
  {
    var lines := ["", "bread =", "sandwich = \U{1F96A}", ""];
    AllowsEmptyValuesPlain(lines);
    ParseByLine(s);
    assert s[0..] == s;
    ReadJoined(s, 0, lines, 0, Span(None, None));
    AllowsEmptyValuesByLine(lines);
  }

  lemma {:induction false} AllowsEmptyValuesViews(s: string)
    requires s == Join(["", "bread =", "sandwich = \U{1F96A}", ""])
    ensures View(s, Span(Some(1), Some(6))) == Some("bread")
    ensures View(s, Span(Some(8), Some(8))) == Some("")
    ensures View(s, Span(Some(9), Some(17))) == Some("sandwich")
    ensures View(s, Span(Some(20), Some(21))) == Some("\U{1F96A}")
  {
    var lines := ["", "bread =", "sandwich = \U{1F96A}", ""];
    assert s[0..] == s;
    JoinedWindow(s, 0, lines, 1, 1);
    ViewsBreadEmpty(s, 1, lines[1]);
    JoinedWindow(s, 0, lines, 2, 9);
    ViewsSandwich(s, 9, lines[2]);
  }

  /** A key with nothing after its equals sign has an empty value. */
  lemma {:induction false} AllowsEmptyValues(s: string)
    requires s == Join(["", "bread =", "sandwich = \U{1F96A}", ""])
    ensures Events(s) == [KeyValue(Span(None, None), Span(Some(1), Some(6)), Span(Some(8), Some(8))), KeyValue(Span(None, None), Span(Some(9), Some(17)), Span(Some(20), Some(21)))]
    ensures View(s, Events(s)[0].section) == Some("")
    ensures View(s, Events(s)[0].key) == Some("bread")
    ensures View(s, Events(s)[0].value) == Some("")
    ensures View(s, Events(s)[1].section) == Some("")
    ensures View(s, Events(s)[1].key) == Some("sandwich")
    ensures View(s, Events(s)[1].value) == Some("\U{1F96A}")
  {
    AllowsEmptyValuesCalls(s);
    AllowsEmptyValuesViews(s);
  }

  lemma {:induction false} AllowsEmptyValueAtEndByLine(lines: seq<string>)
    requires |lines| == 1 && lines[0] == "bread ="
    ensures ReadEach(lines, 0, 0, Span(None, None)) == [KeyValue(Span(None, None), Span(Some(0), Some(5)), Span(Some(7), Some(7)))]
  {
    assert lines[0..] == lines;
    ReadsBreadEmpty(Span(None, None));
    PairStep(lines, 0, 0, 0, Span(None, None), 8, 1, Span(Some(0), Some(5)), Span(Some(7), Some(7)), Span(Some(0), Some(5)), Span(Some(7), Some(7)));
    assert lines[1..] == [];
    assert ReadEach(lines[0..], 0, 0, Span(None, None)) == [KeyValue(Span(None, None), Span(Some(0), Some(5)), Span(Some(7), Some(7)))];
  }

  lemma {:induction false} AllowsEmptyValueAtEndPlain(lines: seq<string>)
    requires |lines| == 1 && lines[0] == "bread ="
    ensures Unbroken(lines) && NulFree(Join(lines))
  {
    assert Plain(lines[0]);
    PlainLines(lines);
  }

  lemma {:induction false} AllowsEmptyValueAtEndCalls(s: string)
    requires s == Join(["bread ="])
    ensures Events(s) == [KeyValue(Span(None, None), Span(Some(0), Some(5)), Span(Some(7), Some(7)))]
  {
    var lines := ["bread ="];
    AllowsEmptyValueAtEndPlain(lines);
    ParseByLine(s);
    assert s[0..] == s;
    ReadJoined(s, 0, lines, 0, Span(None, None));
    AllowsEmptyValueAtEndByLine(lines);
  }

  lemma {:induction false} AllowsEmptyValueAtEndViews(s: string, lines: seq<string>)
    requires |lines| == 1 && lines[0] == "bread =" && s == Join(lines)
    ensures View(s, Span(Some(0), Some(5))) == Some("bread")
    ensures View(s, Span(Some(7), Some(7))) == Some("")
  {
    assert s[0..] == s;
    JoinedWindow(s, 0, lines, 0, 0);
    ViewsBreadEmpty(s, 0, lines[0]);
  }

  /** An empty value at the very end of the input. */
  lemma {:induction false} AllowsEmptyValueAtEnd(s: string)
    requires s == Join(["bread ="])
    ensures Events(s) == [KeyValue(Span(None, None), Span(Some(0), Some(5)), Span(Some(7), Some(7)))]
    ensures View(s, Events(s)[0].section) == Some("")
    ensures View(s, Events(s)[0].key) == Some("bread")
    ensures View(s, Events(s)[0].value) == Some("")
  {
    AllowsEmptyValueAtEndCalls(s);
    AllowsEmptyValueAtEndViews(s, ["bread ="]);
  }

  lemma {:induction false} AllowsTrailingCommentsFrom2(lines: seq<string>)
    requires |lines| == 4 && lines[0] == "" && lines[1] == "[panini ;\U{1F96A}] ; sandwich section" && lines[2] == "panini = \U{1F96A} ; sandwich" && lines[3] == ""
    ensures ReadEach(lines[2..], 32, 2, Span(Some(2), Some(11))) == []
  {
    ReadsCommentedPair(Span(Some(2), Some(11)));
    QuietStep(lines, 2, 32, 2, Span(Some(2), Some(11)), 54, 3);
    ReadsEmpty(Span(Some(2), Some(11)));
    QuietStep(lines, 3, 54, 3, Span(Some(2), Some(11)), 55, 4);
    assert lines[4..] == [];
    assert ReadEach(lines[2..], 32, 2, Span(Some(2), Some(11))) == [];
  }

  lemma {:induction false} AllowsTrailingCommentsByLine(lines: seq<string>)
    requires |lines| == 4 && lines[0] == "" && lines[1] == "[panini ;\U{1F96A}] ; sandwich section" && lines[2] == "panini = \U{1F96A} ; sandwich" && lines[3] == ""
    ensures ReadEach(lines, 0, 0, Span(None, None)) == []
  {
    assert lines[0..] == lines;
    ReadsEmpty(Span(None, None));
    QuietStep(lines, 0, 0, 0, Span(None, None), 1, 1);
    SpellsCommentedHeader0(lines[1]);
    SpellsCommentedHeader1(lines[1]);
    SpellsCommentedHeader2(lines[1]);
    SpellsCommentedHeader3(lines[1]);
    ReadsCommentedHeader(lines[1], Span(None, None));
    HeaderStep(lines, 1, 1, 1, Span(None, None), 32, 2, Span(Some(1), Some(10)), Span(Some(2), Some(11)));
    AllowsTrailingCommentsFrom2(lines);
    assert ReadEach(lines[0..], 0, 0, Span(None, None)) == [];
  }

  lemma {:induction false} AllowsTrailingCommentsPlain(lines: seq<string>)
    requires |lines| == 4 && lines[0] == "" && lines[1] == "[panini ;\U{1F96A}] ; sandwich section" && lines[2] == "panini = \U{1F96A} ; sandwich" && lines[3] == ""
    ensures Unbroken(lines) && NulFree(Join(lines))
  {
    assert Plain(lines[0]);
    assert Plain(lines[1]);
    assert Plain(lines[2]);
    assert Plain(lines[3]);
    PlainLines(lines);
  }

  /** A comment after a header is ignored, but a comment after a value drops the pair: the value's line makes no call. */
  lemma {:induction false} AllowsTrailingComments(s: string)
    requires s == Join(["", "[panini ;\U{1F96A}] ; sandwich section", "panini = \U{1F96A} ; sandwich", ""])
    ensures Events(s) == []
  {
    var lines := ["", "[panini ;\U{1F96A}] ; sandwich section", "panini = \U{1F96A} ; sandwich", ""];
    AllowsTrailingCommentsPlain(lines);
    ParseByLine(s);
    assert s[0..] == s;
    ReadJoined(s, 0, lines, 0, Span(None, None));
    AllowsTrailingCommentsByLine(lines);
  }

  lemma {:induction false} EqualsSignIsReservedInSectionsByLine(lines: seq<string>)
    requires |lines| == 1 && lines[0] == "[panini=\U{1F96A}]"
    ensures ReadEach(lines, 0, 0, Span(None, None)) == [Report(0, ExpectedKey)]
  {
    assert lines[0..] == lines;
    ReadsHeaderWithEquals(Span(None, None));
    StopStep(lines, 0, 0, 0, Span(None, None), ExpectedKey);
    assert ReadEach(lines[0..], 0, 0, Span(None, None)) == [Report(0, ExpectedKey)];
  }

  lemma {:induction false} EqualsSignIsReservedInSectionsPlain(lines: seq<string>)
    requires |lines| == 1 && lines[0] == "[panini=\U{1F96A}]"
    ensures Unbroken(lines) && NulFree(Join(lines))
  {
    assert Plain(lines[0]);
    PlainLines(lines);
  }

  /** An '=' in a section name is reported on line 1. */
  lemma {:induction false} EqualsSignIsReservedInSections(s: string)
    requires s == Join(["[panini=\U{1F96A}]"])
    ensures Events(s) == [SyntaxError("1", ExpectedKey)]
  {
    var lines := ["[panini=\U{1F96A}]"];
    EqualsSignIsReservedInSectionsPlain(lines);
    ParseByLine(s);
    assert s[0..] == s;
    ReadJoined(s, 0, lines, 0, Span(None, None));
    EqualsSignIsReservedInSectionsByLine(lines);
    assert Decimal.ToDecimal(1) == "1";
  }

  lemma {:induction false} EqualsSignIsReservedInValuesByLine(lines: seq<string>)
    requires |lines| == 1 && lines[0] == "panini = \U{1F96A} = \U{1F35E}]"
    ensures ReadEach(lines, 0, 0, Span(None, None)) == [Report(0, ExpectedKey)]
  {
    assert lines[0..] == lines;
    ReadsValueWithEquals(Span(None, None));
    StopStep(lines, 0, 0, 0, Span(None, None), ExpectedKey);
    assert ReadEach(lines[0..], 0, 0, Span(None, None)) == [Report(0, ExpectedKey)];
  }

  lemma {:induction false} EqualsSignIsReservedInValuesPlain(lines: seq<string>)
    requires |lines| == 1 && lines[0] == "panini = \U{1F96A} = \U{1F35E}]"
    ensures Unbroken(lines) && NulFree(Join(lines))
  {
    assert Plain(lines[0]);
    PlainLines(lines);
  }

  /** An '=' in a value is reported on line 1. */
  lemma {:induction false} EqualsSignIsReservedInValues(s: string)
    requires s == Join(["panini = \U{1F96A} = \U{1F35E}]"])
    ensures Events(s) == [SyntaxError("1", ExpectedKey)]
  {
    var lines := ["panini = \U{1F96A} = \U{1F35E}]"];
    EqualsSignIsReservedInValuesPlain(lines);
    ParseByLine(s);
    assert s[0..] == s;
    ReadJoined(s, 0, lines, 0, Span(None, None));
    EqualsSignIsReservedInValuesByLine(lines);
    assert Decimal.ToDecimal(1) == "1";
  }

  lemma {:induction false} HandlesMissingKeyByLine(lines: seq<string>)
    requires |lines| == 4 && lines[0] == "" && lines[1] == "  = \U{1F35E}" && lines[2] == "sandwich = \U{1F96A}" && lines[3] == ""
    ensures ReadEach(lines, 0, 0, Span(None, None)) == [Report(1, ExpectedKey)]
  {
    assert lines[0..] == lines;
    ReadsEmpty(Span(None, None));
    QuietStep(lines, 0, 0, 0, Span(None, None), 1, 1);
    ReadsMissingKey(Span(None, None));
    StopStep(lines, 1, 1, 1, Span(None, None), ExpectedKey);
    assert ReadEach(lines[1..], 1, 1, Span(None, None)) == [Report(1, ExpectedKey)];
    assert ReadEach(lines[0..], 0, 0, Span(None, None)) == [Report(1, ExpectedKey)];
  }

  lemma {:induction false} HandlesMissingKeyPlain(lines: seq<string>)
    requires |lines| == 4 && lines[0] == "" && lines[1] == "  = \U{1F35E}" && lines[2] == "sandwich = \U{1F96A}" && lines[3] == ""
    ensures Unbroken(lines) && NulFree(Join(lines))
  {
    assert Plain(lines[0]);
    assert Plain(lines[1]);
    assert Plain(lines[2]);
    assert Plain(lines[3]);
    PlainLines(lines);
  }

  /** A missing key is reported on its line, and nothing after it is read. */
  lemma {:induction false} HandlesMissingKey(s: string)
    requires s == Join(["", "  = \U{1F35E}", "sandwich = \U{1F96A}", ""])
    ensures Events(s) == [SyntaxError("2", ExpectedKey)]
  {
    var lines := ["", "  = \U{1F35E}", "sandwich = \U{1F96A}", ""];
    HandlesMissingKeyPlain(lines);
    ParseByLine(s);
    assert s[0..] == s;
    ReadJoined(s, 0, lines, 0, Span(None, None));
    HandlesMissingKeyByLine(lines);
    assert Decimal.ToDecimal(2) == "2";
  }

  lemma {:induction false} HandlesMissingValueByLine(lines: seq<string>)
    requires |lines| == 4 && lines[0] == "" && lines[1] == "bread" && lines[2] == "sandwich = \U{1F96A}" && lines[3] == ""
    ensures ReadEach(lines, 0, 0, Span(None, None)) == [Report(1, EndOfKey)]
  {
    assert lines[0..] == lines;
    ReadsEmpty(Span(None, None));
    QuietStep(lines, 0, 0, 0, Span(None, None), 1, 1);
    ReadsMissingValue(Span(None, None));
    StopStep(lines, 1, 1, 1, Span(None, None), EndOfKey);
    assert ReadEach(lines[1..], 1, 1, Span(None, None)) == [Report(1, EndOfKey)];
    assert ReadEach(lines[0..], 0, 0, Span(None, None)) == [Report(1, EndOfKey)];
  }

  lemma {:induction false} HandlesMissingValuePlain(lines: seq<string>)
    requires |lines| == 4 && lines[0] == "" && lines[1] == "bread" && lines[2] == "sandwich = \U{1F96A}" && lines[3] == ""
    ensures Unbroken(lines) && NulFree(Join(lines))
  {
    assert Plain(lines[0]);
    assert Plain(lines[1]);
    assert Plain(lines[2]);
    assert Plain(lines[3]);
    PlainLines(lines);
  }

  /** A key without '=' is reported on its line, and nothing after it is read. */
  lemma {:induction false} HandlesMissingValue(s: string)
    requires s == Join(["", "bread", "sandwich = \U{1F96A}", ""])
    ensures Events(s) == [SyntaxError("2", EndOfKey)]
  {
    var lines := ["", "bread", "sandwich = \U{1F96A}", ""];
    HandlesMissingValuePlain(lines);
    ParseByLine(s);
    assert s[0..] == s;
    ReadJoined(s, 0, lines, 0, Span(None, None));
    HandlesMissingValueByLine(lines);
    assert Decimal.ToDecimal(2) == "2";
  }

  lemma {:induction false} HandlesIncompleteSectionDeclarationByLine(lines: seq<string>)
    requires |lines| == 5 && lines[0] == "" && lines[1] == "[panini" && lines[2] == "bread = \U{1F35E}" && lines[3] == "sandwich = \U{1F96A}" && lines[4] == ""
    ensures ReadEach(lines, 0, 0, Span(None, None)) == [Report(1, EndOfSection)]
  {
    assert lines[0..] == lines;
    ReadsEmpty(Span(None, None));
    QuietStep(lines, 0, 0, 0, Span(None, None), 1, 1);
    ReadsOpenHeader(Span(None, None));
    StopStep(lines, 1, 1, 1, Span(None, None), EndOfSection);
    assert ReadEach(lines[1..], 1, 1, Span(None, None)) == [Report(1, EndOfSection)];
    assert ReadEach(lines[0..], 0, 0, Span(None, None)) == [Report(1, EndOfSection)];
  }

  lemma {:induction false} HandlesIncompleteSectionDeclarationPlain(lines: seq<string>)
    requires |lines| == 5 && lines[0] == "" && lines[1] == "[panini" && lines[2] == "bread = \U{1F35E}" && lines[3] == "sandwich = \U{1F96A}" && lines[4] == ""
    ensures Unbroken(lines) && NulFree(Join(lines))
  {
    assert Plain(lines[0]);
    assert Plain(lines[1]);
    assert Plain(lines[2]);
    assert Plain(lines[3]);
    assert Plain(lines[4]);
    PlainLines(lines);
  }

  /** An unclosed header is reported on its line, and nothing after it is read. */
  lemma {:induction false} HandlesIncompleteSectionDeclaration(s: string)
    requires s == Join(["", "[panini", "bread = \U{1F35E}", "sandwich = \U{1F96A}", ""])
    ensures Events(s) == [SyntaxError("2", EndOfSection)]
  {
    var lines := ["", "[panini", "bread = \U{1F35E}", "sandwich = \U{1F96A}", ""];
    HandlesIncompleteSectionDeclarationPlain(lines);
    ParseByLine(s);
    assert s[0..] == s;
    ReadJoined(s, 0, lines, 0, Span(None, None));
    HandlesIncompleteSectionDeclarationByLine(lines);
    assert Decimal.ToDecimal(2) == "2";
  }

  lemma {:induction false} HandlesInvalidSectionNameByLine(lines: seq<string>)
    requires |lines| == 5 && lines[0] == "" && lines[1] == "[panini=\U{1F96A}]" && lines[2] == "bread = \U{1F35E}" && lines[3] == "sandwich = \U{1F96A}" && lines[4] == ""
    ensures ReadEach(lines, 0, 0, Span(None, None)) == [Report(1, ExpectedKey)]
  {
    assert lines[0..] == lines;
    ReadsEmpty(Span(None, None));
    QuietStep(lines, 0, 0, 0, Span(None, None), 1, 1);
    ReadsHeaderWithEquals(Span(None, None));
    StopStep(lines, 1, 1, 1, Span(None, None), ExpectedKey);
    assert ReadEach(lines[1..], 1, 1, Span(None, None)) == [Report(1, ExpectedKey)];
    assert ReadEach(lines[0..], 0, 0, Span(None, None)) == [Report(1, ExpectedKey)];
  }

  lemma {:induction false} HandlesInvalidSectionNamePlain(lines: seq<string>)
    requires |lines| == 5 && lines[0] == "" && lines[1] == "[panini=\U{1F96A}]" && lines[2] == "bread = \U{1F35E}" && lines[3] == "sandwich = \U{1F96A}" && lines[4] == ""
    ensures Unbroken(lines) && NulFree(Join(lines))
  {
    assert Plain(lines[0]);
    assert Plain(lines[1]);
    assert Plain(lines[2]);
    assert Plain(lines[3]);
    assert Plain(lines[4]);
    PlainLines(lines);
  }

  /** An '=' in a header is reported on its line, and nothing after it is read. */
  lemma {:induction false} HandlesInvalidSectionName(s: string)
    requires s == Join(["", "[panini=\U{1F96A}]", "bread = \U{1F35E}", "sandwich = \U{1F96A}", ""])
    ensures Events(s) == [SyntaxError("2", ExpectedKey)]
  {
    var lines := ["", "[panini=\U{1F96A}]", "bread = \U{1F35E}", "sandwich = \U{1F96A}", ""];
    HandlesInvalidSectionNamePlain(lines);
    ParseByLine(s);
    assert s[0..] == s;
    ReadJoined(s, 0, lines, 0, Span(None, None));
    HandlesInvalidSectionNameByLine(lines);
    assert Decimal.ToDecimal(2) == "2";
  }

  lemma {:induction false} BracketClosesSectionByLine(lines: seq<string>)
    requires |lines| == 2 && lines[0] == "[ab[cd" && lines[1] == "key = value"
    ensures ReadEach(lines, 0, 0, Span(None, None)) == [KeyValue(Span(Some(1), Some(3)), Span(Some(7), Some(10)), Span(Some(13), Some(18)))]
  {
    assert lines[0..] == lines;
    ReadsReopenedHeader(Span(None, None));
    HeaderStep(lines, 0, 0, 0, Span(None, None), 7, 1, Span(Some(1), Some(3)), Span(Some(1), Some(3)));
    ReadsPairAfterHeader(Span(Some(1), Some(3)));
    PairStep(lines, 1, 7, 1, Span(Some(1), Some(3)), 19, 2, Span(Some(0), Some(3)), Span(Some(6), Some(11)), Span(Some(7), Some(10)), Span(Some(13), Some(18)));
    assert lines[2..] == [];
    assert ReadEach(lines[1..], 7, 1, Span(Some(1), Some(3))) == [KeyValue(Span(Some(1), Some(3)), Span(Some(7), Some(10)), Span(Some(13), Some(18)))];
    assert ReadEach(lines[0..], 0, 0, Span(None, None)) == [KeyValue(Span(Some(1), Some(3)), Span(Some(7), Some(10)), Span(Some(13), Some(18)))];
  }

  lemma {:induction false} BracketClosesSectionPlain(lines: seq<string>)
    requires |lines| == 2 && lines[0] == "[ab[cd" && lines[1] == "key = value"
    ensures Unbroken(lines) && NulFree(Join(lines))
  {
    assert Plain(lines[0]);
    assert Plain(lines[1]);
    PlainLines(lines);
  }

  lemma {:induction false} BracketClosesSectionCalls(s: string)
    requires s == Join(["[ab[cd", "key = value"])
    ensures Events(s) == [KeyValue(Span(Some(1), Some(3)), Span(Some(7), Some(10)), Span(Some(13), Some(18)))]
  {
    var lines := ["[ab[cd", "key = value"];
    BracketClosesSectionPlain(lines);
    ParseByLine(s);
    assert s[0..] == s;
    ReadJoined(s, 0, lines, 0, Span(None, None));
    BracketClosesSectionByLine(lines);
  }

  lemma {:induction false} BracketClosesSectionViews(s: string)
    requires s == Join(["[ab[cd", "key = value"])
    ensures View(s, Span(Some(1), Some(3))) == Some("ab")
    ensures View(s, Span(Some(7), Some(10))) == Some("key")
    ensures View(s, Span(Some(13), Some(18))) == Some("value")
  {
    var lines := ["[ab[cd", "key = value"];
    assert s[0..] == s;
    JoinedWindow(s, 0, lines, 0, 0);
    ViewsReopenedHeader(s, 0, lines[0]);
    JoinedWindow(s, 0, lines, 1, 7);
    ViewsPairAfterHeader(s, 7, lines[1]);
  }

  /** A '[' inside a header closes the name just as ']' does. */
  lemma {:induction false} BracketClosesSection(s: string)
    requires s == Join(["[ab[cd", "key = value"])
    ensures Events(s) == [KeyValue(Span(Some(1), Some(3)), Span(Some(7), Some(10)), Span(Some(13), Some(18)))]
    ensures View(s, Events(s)[0].section) == Some("ab")
    ensures View(s, Events(s)[0].key) == Some("key")
    ensures View(s, Events(s)[0].value) == Some("value")
  {
    BracketClosesSectionCalls(s);
    BracketClosesSectionViews(s);
  }

  lemma {:induction false} KeepsTrailingBlanksByLine(lines: seq<string>)
    requires |lines| == 1 && lines[0] == "panini = bread  "
    ensures ReadEach(lines, 0, 0, Span(None, None)) == [KeyValue(Span(None, None), Span(Some(0), Some(6)), Span(Some(9), Some(16)))]
  {
    assert lines[0..] == lines;
    ReadsTrailingBlanks(Span(None, None));
    PairStep(lines, 0, 0, 0, Span(None, None), 17, 1, Span(Some(0), Some(6)), Span(Some(9), Some(16)), Span(Some(0), Some(6)), Span(Some(9), Some(16)));
    assert lines[1..] == [];
    assert ReadEach(lines[0..], 0, 0, Span(None, None)) == [KeyValue(Span(None, None), Span(Some(0), Some(6)), Span(Some(9), Some(16)))];
  }

  lemma {:induction false} KeepsTrailingBlanksPlain(lines: seq<string>)
    requires |lines| == 1 && lines[0] == "panini = bread  "
    ensures Unbroken(lines) && NulFree(Join(lines))
  {
    assert Plain(lines[0]);
    PlainLines(lines);
  }

  lemma {:induction false} KeepsTrailingBlanksCalls(s: string)
    requires s == Join(["panini = bread  "])
    ensures Events(s) == [KeyValue(Span(None, None), Span(Some(0), Some(6)), Span(Some(9), Some(16)))]
  {
    var lines := ["panini = bread  "];
    KeepsTrailingBlanksPlain(lines);
    ParseByLine(s);
    assert s[0..] == s;
    ReadJoined(s, 0, lines, 0, Span(None, None));
    KeepsTrailingBlanksByLine(lines);
  }

  lemma {:induction false} KeepsTrailingBlanksViews(s: string, lines: seq<string>)
    requires |lines| == 1 && lines[0] == "panini = bread  " && s == Join(lines)
    ensures View(s, Span(Some(0), Some(6))) == Some("panini")
    ensures View(s, Span(Some(9), Some(16))) == Some("bread  ")
  {
    assert s[0..] == s;
    JoinedWindow(s, 0, lines, 0, 0);
    ViewsTrailingBlanks(s, 0, lines[0]);
  }

  /** The value runs to the end of its line, blanks included. */
  lemma {:induction false} KeepsTrailingBlanks(s: string)
    requires s == Join(["panini = bread  "])
    ensures Events(s) == [KeyValue(Span(None, None), Span(Some(0), Some(6)), Span(Some(9), Some(16)))]
    ensures View(s, Events(s)[0].section) == Some("")
    ensures View(s, Events(s)[0].key) == Some("panini")
    ensures View(s, Events(s)[0].value) == Some("bread  ")
  {
    KeepsTrailingBlanksCalls(s);
    KeepsTrailingBlanksViews(s, ["panini = bread  "]);
  }

  lemma {:induction false} OneCharacterKeyByLine(lines: seq<string>)
    requires |lines| == 1 && lines[0] == "k=v"
    ensures ReadEach(lines, 0, 0, Span(None, None)) == [KeyValue(Span(None, None), Span(Some(0), None), Span(Some(2), Some(3)))]
  {
    assert lines[0..] == lines;
    ReadsOneLetterPair(Span(None, None));
    PairStep(lines, 0, 0, 0, Span(None, None), 4, 1, Span(Some(0), None), Span(Some(2), Some(3)), Span(Some(0), None), Span(Some(2), Some(3)));
    assert lines[1..] == [];
    assert ReadEach(lines[0..], 0, 0, Span(None, None)) == [KeyValue(Span(None, None), Span(Some(0), None), Span(Some(2), Some(3)))];
  }

  lemma {:induction false} OneCharacterKeyPlain(lines: seq<string>)
    requires |lines| == 1 && lines[0] == "k=v"
    ensures Unbroken(lines) && NulFree(Join(lines))
  {
    assert Plain(lines[0]);
    PlainLines(lines);
  }

  lemma {:induction false} OneCharacterKeyCalls(s: string)
    requires s == Join(["k=v"])
    ensures Events(s) == [KeyValue(Span(None, None), Span(Some(0), None), Span(Some(2), Some(3)))]
  {
    var lines := ["k=v"];
    OneCharacterKeyPlain(lines);
    ParseByLine(s);
    assert s[0..] == s;
    ReadJoined(s, 0, lines, 0, Span(None, None));
    OneCharacterKeyByLine(lines);
  }

  lemma {:induction false} OneCharacterKeyViews(s: string, lines: seq<string>)
    requires |lines| == 1 && lines[0] == "k=v" && s == Join(lines)
    ensures View(s, Span(Some(2), Some(3))) == Some("v")
  {
    assert s[0..] == s;
    JoinedWindow(s, 0, lines, 0, 0);
    ViewsOneLetterPair(s, 0, lines[0]);
  }

  /** The key of a one-character key has a begin pointer but no end pointer. */
  lemma {:induction false} OneCharacterKey(s: string)
    requires s == Join(["k=v"])
    ensures Events(s) == [KeyValue(Span(None, None), Span(Some(0), None), Span(Some(2), Some(3)))]
    ensures View(s, Events(s)[0].section) == Some("")
    ensures View(s, Events(s)[0].value) == Some("v")
  {
    OneCharacterKeyCalls(s);
    OneCharacterKeyViews(s, ["k=v"]);
  }

  /** "\r\n" ends two lines: an error on the line after it is on line 3. */
  lemma {:induction false} CarriageReturnLineFeedEndsTwoLines(s: string)
    requires s == "\r\n="
    ensures Events(s) == [SyntaxError("3", ExpectedKey)]
  {
    var c1 := NextLine(Initial());
    var c2 := NextLine(c1);
    assert Step(s, 0, Initial()) == Next(1, c1, []);
    assert Step(s, 1, c1) == Next(2, c2, []);
    assert Step(s, 2, c2) == Halt([Failure(c2, ExpectedKey)]);
    assert Decimal.ToDecimal(3) == "3";
    assert Run(s, 2, c2) == [SyntaxError("3", ExpectedKey)];
    assert Run(s, 1, c1) == Run(s, 2, c2);
    assert Run(s, 0, Initial()) == Run(s, 1, c1);
  }

}
