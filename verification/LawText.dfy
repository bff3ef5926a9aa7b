/** The string operations that the law parser uses, as Python defines them. */
module LawText {
  import opened Text

  predicate IsSpace(c: char) {
    || '\t' <= c <= '\r' || '\U{1C}' <= c <= ' ' || c == '\U{85}' || c == '\U{A0}' || c == '\U{1680}'
    || '\U{2000}' <= c <= '\U{200A}' || c == '\U{2028}' || c == '\U{2029}' || c == '\U{202F}' || c == '\U{205F}' || c == '\U{3000}'
  }

  /** The characters at which `splitlines` breaks. */
  predicate IsBreak(c: char) {
    '\n' <= c <= '\r' || '\U{1C}' <= c <= '\U{1E}' || c == '\U{85}' || c == '\U{2028}' || c == '\U{2029}'
  }

  // -------------------------------------------------------------- stripping

  function StripLeft(s: string): string { if s != [] && IsSpace(s[0]) then StripLeft(s[1..]) else s }

  function StripRight(s: string): string { if s != [] && IsSpace(s[|s| - 1]) then StripRight(s[..|s| - 1]) else s }

  /** `str.strip`. */
  function Strip(s: string): string { StripRight(StripLeft(s)) }

  predicate Trimmed(s: string) { s == [] || (!IsSpace(s[0]) && !IsSpace(s[|s| - 1])) }

  lemma {:induction false} StripRightEnds(s: string)
    ensures var r := StripRight(s); r == [] || !IsSpace(r[|r| - 1])
    ensures StripRight(s) <= s
  {
    if s != [] && IsSpace(s[|s| - 1]) { StripRightEnds(s[..|s| - 1]); }
  }

  lemma {:induction false} StripLeftStarts(s: string)
    ensures var r := StripLeft(s); r == [] || !IsSpace(r[0])
  {
    if s != [] && IsSpace(s[0]) { StripLeftStarts(s[1..]); }
  }

  /** Stripping trims, and leaves what is trimmed. */
  lemma StripTrims(s: string)
    ensures Trimmed(Strip(s))
    ensures Trimmed(s) ==> Strip(s) == s
  {
    StripLeftStarts(s);
    StripRightEnds(StripLeft(s));
  }

  lemma {:induction false} StripIndented(indent: string, s: string)
    requires (forall i :: 0 <= i < |indent| ==> IsSpace(indent[i])) && Trimmed(s) && s != []
    ensures Strip(indent + s) == s
    decreases |indent|
  {
    if indent == [] {
      assert indent + s == s;
      StripTrims(s);
    } else {
      assert (indent + s)[1..] == indent[1..] + s;
      StripIndented(indent[1..], s);
    }
  }

  // ------------------------------------------------------------------- lines

  /** `splitlines`; a carriage return and the line feed after it are one break. */
  function SplitLines(s: string, line: string): seq<string>
    decreases |s|
  {
    if s == [] then if line == [] then [] else [line]
    else if s[0] == '\r' && |s| > 1 && s[1] == '\n' then [line] + SplitLines(s[2..], [])
    else if IsBreak(s[0]) then [line] + SplitLines(s[1..], [])
    else SplitLines(s[1..], line + [s[0]])
  }

  predicate OneLine(s: string) { forall i :: 0 <= i < |s| ==> !IsBreak(s[i]) }

  /** `"\n".join`. */
  function JoinLines(lines: seq<string>): string {
    if lines == [] then [] else if |lines| == 1 then lines[0] else lines[0] + "\n" + JoinLines(lines[1..])
  }

  lemma {:induction false} SplitConsumes(s: string, rest: string, line: string)
    requires OneLine(s)
    ensures SplitLines(s + rest, line) == SplitLines(rest, line + s)
    decreases |s|
  {
    if s == [] {
      assert s + rest == rest && line + s == line;
    } else {
      assert (s + rest)[1..] == s[1..] + rest && (s + rest)[0] == s[0];
      SplitConsumes(s[1..], rest, line + [s[0]]);
      assert line + [s[0]] + s[1..] == line + s;
    }
  }

  /** What ends a line: `\r\n`, one other break, or the end of the text after some of it. */
  predicate EndsLine(end: string, line: string, rest: string) {
    || end == "\r\n"
    || (|end| == 1 && IsBreak(end[0]) && !(end == "\r" && rest != "" && rest[0] == '\n'))
    || (end == "" && rest == "" && line != "")
  }

  predicate IsFirstLine(s: string, line: string, end: string, rest: string) {
    s == line + (end + rest) && OneLine(line) && EndsLine(end, line, rest)
  }

  /** The lines of a text, one after another. */
  ghost predicate AreLines(s: string, lines: seq<string>)
    decreases |lines|
  {
    if lines == [] then s == "" else exists end, rest :: IsFirstLine(s, lines[0], end, rest) && AreLines(rest, lines[1..])
  }

  lemma FirstLine(line: string, end: string, rest: string, lines: seq<string>)
    requires OneLine(line) && EndsLine(end, line, rest) && AreLines(rest, lines)
    ensures AreLines(line + (end + rest), [line] + lines)
  {
    hide OneLine, EndsLine;
    var all := [line] + lines;
    assert all[1..] == lines && all[0] == line;
    assert IsFirstLine(line + (end + rest), all[0], end, rest);
  }

  lemma BreakFirst(s: string, line: string, end: string)
    requires OneLine(line) && |end| <= |s| && s[..|end|] == end && EndsLine(end, line, s[|end|..])
    requires AreLines([] + s[|end|..], SplitLines(s[|end|..], []))
    ensures AreLines(line + s, [line] + SplitLines(s[|end|..], []))
  {
    hide OneLine, EndsLine, SplitLines, AreLines;
    var rest := s[|end|..];
    assert [] + rest == rest && s == end + rest;
    FirstLine(line, end, rest, SplitLines(rest, []));
  }

  /** Splitting gives the lines of the text. */
  lemma {:induction false} LinesInPlainTerms(s: string, line: string)
    requires OneLine(line)
    ensures AreLines(line + s, SplitLines(s, line))
    decreases |s|
  {
    hide AreLines;
    if s == [] {
      NoLines();
      if line != [] {
        FirstLine(line, "", "", []);
        assert line + ("" + "") == line + s && [line] + [] == [line];
      }
    } else if s[0] == '\r' && |s| > 1 && s[1] == '\n' {
      LinesInPlainTerms(s[2..], []);
      BreakFirst(s, line, "\r\n");
    } else if IsBreak(s[0]) {
      LinesInPlainTerms(s[1..], []);
      BreakFirst(s, line, [s[0]]);
    } else {
      LinesInPlainTerms(s[1..], line + [s[0]]);
      assert line + [s[0]] + s[1..] == line + s;
    }
  }

  lemma NoLines()
    ensures AreLines("", [])
  {}

  lemma {:induction false} SplitJoined(lines: seq<string>)
    requires forall i :: 0 <= i < |lines| ==> OneLine(lines[i]) && lines[i] != []
    ensures SplitLines(JoinLines(lines), []) == lines
  {
    if |lines| == 1 {
      SplitConsumes(lines[0], [], []);
      assert lines[0] + [] == lines[0] && [] + lines[0] == lines[0];
    } else if |lines| > 1 {
      var rest := JoinLines(lines[1..]);
      SplitJoined(lines[1..]);
      assert lines[0] + "\n" + rest == lines[0] + ("\n" + rest);
      SplitConsumes(lines[0], "\n" + rest, []);
      assert [] + lines[0] == lines[0];
      assert ("\n" + rest)[0] == '\n' && ("\n" + rest)[1..] == rest;
    }
  }

  // -------------------------------------------------------------- separators

  /** The index of the first `c`, or the length. */
  function Find(s: string, c: char): (k: nat)
    ensures k <= |s| && (k < |s| ==> s[k] == c) && forall i :: 0 <= i < k ==> s[i] != c
  {
    if s == [] || s[0] == c then 0 else 1 + Find(s[1..], c)
  }

  lemma FindIs(s: string, c: char, k: nat)
    requires k < |s| && s[k] == c && forall i :: 0 <= i < k ==> s[i] != c
    ensures Find(s, c) == k
  {}

  /** `split(",")`. */
  function SplitCommas(s: string): seq<string>
    decreases |s|
  {
    var k := Find(s, ',');
    if k == |s| then [s] else [s[..k]] + SplitCommas(s[k + 1..])
  }

  /** The stripped parts that are not empty. */
  function Parts(pieces: seq<string>): seq<string> {
    if pieces == [] then []
    else if Strip(pieces[0]) == [] then Parts(pieces[1..])
    else [Strip(pieces[0])] + Parts(pieces[1..])
  }

  /** `", ".join`. */
  function JoinCommas(items: seq<string>): string {
    if items == [] then [] else if |items| == 1 then items[0] else items[0] + ", " + JoinCommas(items[1..])
  }

  predicate IsItem(s: string) { s != [] && Trimmed(s) && forall i :: 0 <= i < |s| ==> s[i] != ',' }

  predicate NoComma(s: string) { forall i :: 0 <= i < |s| ==> s[i] != ',' }

  lemma LastPiece(s: string)
    requires NoComma(s)
    ensures SplitCommas(s) == [s]
  {}

  lemma FirstPiece(s: string, rest: string)
    requires NoComma(s)
    ensures SplitCommas(s + ("," + rest)) == [s] + SplitCommas(rest)
  {
    var all := s + ("," + rest);
    assert forall i :: 0 <= i < |s| ==> all[i] == s[i];
    FindIs(all, ',', |s|);
    assert all[..|s|] == s && all[|s| + 1..] == rest;
  }

  lemma PartsBegin(s: string, pieces: seq<string>, item: string)
    requires Strip(s) == item && item != []
    ensures Parts([s] + pieces) == [item] + Parts(pieces)
  {
    assert ([s] + pieces)[1..] == pieces;
    hide Strip;
  }

  lemma IndentedItem(indent: string, item: string)
    requires IsItem(item) && forall i :: 0 <= i < |indent| ==> indent[i] == ' '
    ensures NoComma(indent + item) && Strip(indent + item) == item && item != []
  {
    StripIndented(indent, item);
  }

  lemma {:induction false} CommasRoundTrip(items: seq<string>, indent: string)
    requires items != [] && (forall i :: 0 <= i < |items| ==> IsItem(items[i]))
    requires forall i :: 0 <= i < |indent| ==> indent[i] == ' '
    ensures Parts(SplitCommas(indent + JoinCommas(items))) == items
    decreases |items|
  {
    var first := indent + items[0];
    IndentedItem(indent, items[0]);
    hide IsItem, NoComma, Strip, SplitCommas, Parts;
    if |items| == 1 {
      LastPiece(first);
      PartsBegin(first, [], items[0]);
      NoParts();
      assert [first] + [] == [first];
    } else {
      var rest := " " + JoinCommas(items[1..]);
      assert indent + JoinCommas(items) == first + ("," + rest);
      FirstPiece(first, rest);
      CommasRoundTrip(items[1..], " ");
      PartsBegin(first, SplitCommas(rest), items[0]);
      assert [items[0]] + items[1..] == items;
    }
  }

  lemma NoParts()
    ensures Parts([]) == []
  {}

  // ----------------------------------------------------------------- numbers

  /** The plain spelling of `int`: an optional sign and digits. */
  function ParseInt(s: string): Option<int> {
    var body := if s != [] && (s[0] == '-' || s[0] == '+') then s[1..] else s;
    if !IsDigits(body) then None
    else
      var n: int := ValueOf(body);
      Some(if s[0] == '-' then -n else n)
  }

  function IntText(n: int): string { if n < 0 then "-" + Decimal(-n) else Decimal(n) }

  lemma IntRoundTrip(n: int)
    ensures ParseInt(IntText(n)) == Some(n)
  {
    if n < 0 {
      DecimalRoundTrip(-n);
      assert IntText(n)[1..] == Decimal(-n);
    } else {
      DecimalRoundTrip(n);
      assert IntText(n)[0] != '-' && IntText(n)[0] != '+';
    }
  }

  function Tenth(n: nat): real { if n == 0 then 1.0 else Tenth(n - 1) / 10.0 }

  /** The digits after a point. */
  function Fraction(part: string): real
    requires part == [] || IsDigits(part)
  {
    if part == [] then 0.0 else ValueOf(part) as real * Tenth(|part|)
  }

  /** The value of digits and digits after a point, if there are any. */
  function Joined(whole: string, part: string): Option<real> {
    if (whole != [] && !IsDigits(whole)) || (part != [] && !IsDigits(part)) || (whole == [] && part == []) then None
    else Some((if whole == [] then 0 else ValueOf(whole)) as real + Fraction(part))
  }

  /** Digits and digits after a point. */
  function Magnitude(body: string): Option<real> {
    var k := Find(body, '.');
    Joined(body[..k], if k < |body| then body[k + 1..] else [])
  }

  /** The plain spelling of `float`: a magnitude after an optional sign. */
  function ParseNumber(s: string): Option<real> {
    var size := Magnitude(if s != [] && (s[0] == '-' || s[0] == '+') then s[1..] else s);
    if size.None? then None else Some(if s != [] && s[0] == '-' then -size.value else size.value)
  }
}
