/** The values of law text in plain terms: how numbers, words, lists and approval policies
    are spelled, in every spelling that the parser takes (governance/parser.py). */
module PlainValues {
  import opened Text
  import opened LawText
  import opened Rules
  import opened Parser

  predicate AreSpaces(s: string) { forall i :: 0 <= i < |s| ==> IsSpace(s[i]) }

  lemma {:induction false} LeftParts(s: string) returns (lead: string)
    ensures AreSpaces(lead) && s == lead + StripLeft(s) && (StripLeft(s) == [] || !IsSpace(StripLeft(s)[0]))
  {
    if s != [] && IsSpace(s[0]) {
      var rest := LeftParts(s[1..]);
      lead := [s[0]] + rest;
    } else {
      lead := [];
    }
  }

  lemma {:induction false} RightParts(s: string) returns (trail: string)
    ensures AreSpaces(trail) && s == StripRight(s) + trail
  {
    if s != [] && IsSpace(s[|s| - 1]) {
      var rest := RightParts(s[..|s| - 1]);
      trail := rest + [s[|s| - 1]];
    } else {
      trail := [];
    }
  }

  /** Stripping takes the spaces at both ends, and nothing else. */
  lemma StripInPlainTerms(s: string) returns (lead: string, trail: string)
    ensures AreSpaces(lead) && AreSpaces(trail) && s == lead + Strip(s) + trail && Trimmed(Strip(s))
  {
    lead := LeftParts(s);
    trail := RightParts(StripLeft(s));
    StripTrims(s);
    assert lead + (Strip(s) + trail) == lead + Strip(s) + trail;
  }

  lemma {:induction false} LeftOf(lead: string, s: string)
    requires AreSpaces(lead) && (s == [] || !IsSpace(s[0]))
    ensures StripLeft(lead + s) == s
  {
    if lead == [] {
      assert lead + s == s;
    } else {
      assert (lead + s)[0] == lead[0] && (lead + s)[1..] == lead[1..] + s;
      LeftOf(lead[1..], s);
    }
  }

  lemma {:induction false} RightOf(s: string, trail: string)
    requires AreSpaces(trail) && (s == [] || !IsSpace(s[|s| - 1]))
    ensures StripRight(s + trail) == s
  {
    if trail == [] {
      assert s + trail == s;
    } else {
      assert (s + trail)[|s + trail| - 1] == trail[|trail| - 1] && (s + trail)[..|s + trail| - 1] == s + trail[..|trail| - 1];
      RightOf(s, trail[..|trail| - 1]);
    }
  }

  /** What is trimmed is what stripping leaves of it between any spaces. */
  lemma StripOf(lead: string, s: string, trail: string)
    requires AreSpaces(lead) && AreSpaces(trail) && Trimmed(s)
    ensures Strip(lead + s + trail) == s
  {
    if s == [] {
      assert lead + s + trail == lead + trail;
      OnlySpaces(lead + trail);
    } else {
      assert lead + s + trail == lead + (s + trail) && (s + trail)[0] == s[0];
      LeftOf(lead, s + trail);
      RightOf(s, trail);
    }
  }

  lemma {:induction false} OnlySpaces(s: string)
    requires AreSpaces(s)
    ensures Strip(s) == []
  {
    if s != [] { OnlySpaces(s[1..]); }
  }

  // ------------------------------------------------------------------ numbers

  predicate IsSign(s: string) { s == "" || s == "-" || s == "+" }

  function Signed(sign: string, n: int): int { if sign == "-" then -n else n }

  /** `s` spells the whole number `n`: digits after an optional sign. */
  ghost predicate SpellsWhole(s: string, n: int) {
    exists sign, digits :: IsSign(sign) && s == sign + digits && IsDigits(digits) && n == Signed(sign, ValueOf(digits))
  }

  lemma WholeExactly(s: string, n: int)
    ensures ParseInt(s) == Some(n) <==> SpellsWhole(s, n)
  {
    hide ValueOf;
    if ParseInt(s) == Some(n) {
      var sign := if s != [] && (s[0] == '-' || s[0] == '+') then s[..1] else [];
      assert IsSign(sign) && s == sign + s[|sign|..];
    }
    if SpellsWhole(s, n) {
      var sign, digits :| IsSign(sign) && s == sign + digits && IsDigits(digits) && n == Signed(sign, ValueOf(digits));
      assert s[|sign|..] == digits && IsDigit(digits[0]);
      if sign == "" { assert s == digits; }
    }
  }

  lemma WholeIsTrimmed(s: string, n: int)
    requires SpellsWhole(s, n)
    ensures s != [] && Trimmed(s) && s[0] != '>'
  {
    var sign, digits :| IsSign(sign) && s == sign + digits && IsDigits(digits) && n == Signed(sign, ValueOf(digits));
    hide ValueOf;
    assert IsDigit(digits[0]) && IsDigit(digits[|digits| - 1]) && s[|s| - 1] == digits[|digits| - 1];
  }

  /** A level is a whole number among spaces, after `>=` or not. */
  ghost predicate SpellsLevel(s: string, n: int) {
    || (exists lead, body, trail :: AreSpaces(lead) && AreSpaces(trail) && SpellsWhole(body, n) && s == lead + body + trail)
    || (exists lead, gap, body, trail ::
          AreSpaces(lead) && AreSpaces(gap) && AreSpaces(trail) && SpellsWhole(body, n) && s == lead + (">=" + gap + body) + trail)
  }

  lemma BareLevelReads(lead: string, body: string, trail: string, n: int)
    requires AreSpaces(lead) && AreSpaces(trail) && SpellsWhole(body, n)
    ensures ParseAuthority(lead + body + trail) == Some(n)
  {
    WholeIsTrimmed(body, n);
    StripOf(lead, body, trail);
    WholeExactly(body, n);
    hide SpellsWhole, Strip, ParseInt;
  }

  lemma BoundedLevelReads(lead: string, gap: string, body: string, trail: string, n: int)
    requires AreSpaces(lead) && AreSpaces(gap) && AreSpaces(trail) && SpellsWhole(body, n)
    ensures ParseAuthority(lead + (">=" + gap + body) + trail) == Some(n)
  {
    WholeIsTrimmed(body, n);
    WholeExactly(body, n);
    hide SpellsWhole, Strip, ParseInt;
    var v := ">=" + gap + body;
    assert v[0] == '>' && v[|v| - 1] == body[|body| - 1];
    StripOf(lead, v, trail);
    assert v[2..] == gap + body + [] && ">=" <= v;
    StripOf(gap, body, []);
  }

  lemma LevelReads(s: string, n: int)
    requires SpellsLevel(s, n)
    ensures ParseAuthority(s) == Some(n)
  {
    hide SpellsWhole, ParseAuthority;
    if lead, body, trail :| AreSpaces(lead) && AreSpaces(trail) && SpellsWhole(body, n) && s == lead + body + trail {
      BareLevelReads(lead, body, trail, n);
    } else {
      var lead, gap, body, trail :| AreSpaces(lead) && AreSpaces(gap) && AreSpaces(trail) && SpellsWhole(body, n) && s == lead + (">=" + gap + body) + trail;
      BoundedLevelReads(lead, gap, body, trail, n);
    }
  }

  lemma LevelIsSpelled(s: string, n: int)
    requires ParseAuthority(s) == Some(n)
    ensures SpellsLevel(s, n)
  {
    hide SpellsWhole, Strip, ParseInt;
    var v := Strip(s);
    var lead, trail := StripInPlainTerms(s);
    if ">=" <= v {
      var body := Strip(v[2..]);
      WholeExactly(body, n);
      WholeIsTrimmed(body, n);
      var gap, rest := StripInPlainTerms(v[2..]);
      NoTrail(v, gap, body, rest);
      assert v == ">=" + gap + body;
    } else {
      WholeExactly(v, n);
    }
  }

  /** What ends a trimmed text is not a space. */
  lemma NoTrail(v: string, gap: string, body: string, rest: string)
    requires ">=" <= v && Trimmed(v) && AreSpaces(rest) && v[2..] == gap + body + rest
    ensures rest == []
  {
    assert v == ">=" + (gap + body) + rest;
    if rest != [] { EndsInSpace(">=" + (gap + body), rest); }
  }

  lemma EndsInSpace(s: string, trail: string)
    requires AreSpaces(trail) && trail != []
    ensures IsSpace((s + trail)[|s + trail| - 1])
  {}

  /** An authority level is read exactly from its spellings. */
  lemma LevelExactly(s: string, n: int)
    ensures ParseAuthority(s) == Some(n) <==> SpellsLevel(s, n)
  {
    if SpellsLevel(s, n) { LevelReads(s, n); }
    if ParseAuthority(s) == Some(n) { LevelIsSpelled(s, n); }
  }

  function TenTo(k: nat): (x: real)
    ensures x > 0.0
  {
    if k == 0 then 1.0 else 10.0 * TenTo(k - 1)
  }

  lemma {:induction false} TenthIs(k: nat)
    ensures Tenth(k) == 1.0 / TenTo(k)
  {
    if k > 0 {
      TenthIs(k - 1);
      var t := TenTo(k - 1);
      assert 1.0 / t / 10.0 == 1.0 / (10.0 * t);
    }
  }

  function Size(digits: string): nat
    requires digits == "" || IsDigits(digits)
  {
    if digits == "" then 0 else ValueOf(digits)
  }

  function Amount(whole: string, part: string): real
    requires (whole == "" || IsDigits(whole)) && (part == "" || IsDigits(part))
  {
    Size(whole) as real + Size(part) as real / TenTo(|part|)
  }

  lemma FractionIs(part: string)
    requires part == "" || IsDigits(part)
    ensures Fraction(part) == Size(part) as real / TenTo(|part|)
  {
    TenthIs(|part|);
    hide ValueOf, Tenth, TenTo;
    Product(Size(part) as real, TenTo(|part|));
  }

  /** Digits after an optional sign, with an optional point before, among or after them. */
  ghost predicate IsNumeral(s: string, x: real, sign: string, whole: string, part: string, point: bool) {
    && IsSign(sign) && (whole == "" || IsDigits(whole)) && (part == "" || IsDigits(part)) && (whole != "" || part != "") && (!point ==> part == "")
    && s == sign + (whole + (if point then "." + part else ""))
    && x == (if sign == "-" then -Amount(whole, part) else Amount(whole, part))
  }

  ghost predicate SpellsNumber(s: string, x: real) { exists sign, whole, part, point :: IsNumeral(s, x, sign, whole, part, point) }

  lemma AmountIs(whole: string, part: string)
    requires (whole == "" || IsDigits(whole)) && (part == "" || IsDigits(part))
    ensures Amount(whole, part) == Size(whole) as real + Fraction(part)
  {
    FractionIs(part);
    hide Fraction, ValueOf, TenTo;
  }

  lemma JoinedIs(whole: string, part: string)
    requires (whole == "" || IsDigits(whole)) && (part == "" || IsDigits(part)) && (whole != "" || part != "")
    ensures Joined(whole, part) == Some(Amount(whole, part))
  {
    AmountIs(whole, part);
    hide Amount, Fraction, ValueOf;
  }

  lemma PointedReads(whole: string, part: string)
    requires (whole == "" || IsDigits(whole)) && (part == "" || IsDigits(part)) && (whole != "" || part != "")
    ensures Magnitude(whole + ("." + part)) == Some(Amount(whole, part))
  {
    JoinedIs(whole, part);
    PointFound(whole, part);
    hide Joined, Amount, Find, IsDigits;
  }

  lemma PointFound(whole: string, part: string)
    requires whole == "" || IsDigits(whole)
    ensures var body := whole + ("." + part);
            Find(body, '.') == |whole| < |body| && body[..|whole|] == whole && body[|whole| + 1..] == part
  {
    var body := whole + ("." + part);
    assert forall i :: 0 <= i < |whole| ==> body[i] == whole[i] && IsDigit(whole[i]);
    assert body[|whole|] == '.';
    FindIs(body, '.', |whole|);
  }

  lemma PointlessReads(whole: string)
    requires IsDigits(whole)
    ensures Magnitude(whole) == Some(Amount(whole, ""))
  {
    DigitsAreMagnitude(whole);
    hide Magnitude, ValueOf;
  }

  lemma MagnitudeReads(whole: string, part: string, point: bool)
    requires (whole == "" || IsDigits(whole)) && (part == "" || IsDigits(part)) && (whole != "" || part != "") && (!point ==> part == "")
    ensures Magnitude(whole + (if point then "." + part else "")) == Some(Amount(whole, part))
  {
    hide Magnitude, Amount;
    if point {
      PointedReads(whole, part);
    } else {
      assert whole + "" == whole;
      PointlessReads(whole);
    }
  }

  lemma Product(x: real, t: real)
    requires t > 0.0
    ensures x * (1.0 / t) == x / t
  {}

  lemma NumberReads(s: string, x: real, sign: string, whole: string, part: string, point: bool)
    requires IsNumeral(s, x, sign, whole, part, point)
    ensures ParseNumber(s) == Some(x)
  {
    MagnitudeReads(whole, part, point);
    hide Magnitude, Amount;
    var body := whole + (if point then "." + part else "");
    StartsUnsigned(whole, part, point);
    SignIsRead(sign, body);
    hide IsDigits, ParseNumber;
  }

  lemma SignIsRead(sign: string, body: string)
    requires IsSign(sign) && body != [] && body[0] != '-' && body[0] != '+'
    ensures ParseNumber(sign + body)
         == if Magnitude(body).None? then None else Some(if sign == "-" then -Magnitude(body).value else Magnitude(body).value)
  {
    hide Magnitude;
    assert (sign + body)[|sign|..] == body;
  }

  lemma StartsUnsigned(whole: string, part: string, point: bool)
    requires (whole == "" || IsDigits(whole)) && (part == "" || IsDigits(part)) && (whole != "" || part != "") && (!point ==> part == "")
    ensures var body := whole + (if point then "." + part else ""); body != [] && body[0] != '-' && body[0] != '+'
  {}

  lemma NumberIsSpelled(s: string)
    requires ParseNumber(s).Some?
    ensures SpellsNumber(s, ParseNumber(s).value)
  {
    var sign, body := SignedParts(s);
    SignIsRead(sign, body);
    hide ParseNumber;
    var whole, part, point := MagnitudeParts(body);
    MagnitudeReads(whole, part, point);
    NumeralOf(sign, whole, part, point);
    hide Magnitude, Amount, IsDigits, IsSign, IsNumeral;
  }

  lemma NumeralOf(sign: string, whole: string, part: string, point: bool)
    requires IsSign(sign) && (whole == "" || IsDigits(whole)) && (part == "" || IsDigits(part)) && (whole != "" || part != "") && (!point ==> part == "")
    ensures var x := Amount(whole, part);
            IsNumeral(sign + (whole + (if point then "." + part else "")), if sign == "-" then -x else x, sign, whole, part, point)
  {
    hide Amount;
  }

  lemma SignedParts(s: string) returns (sign: string, body: string)
    requires ParseNumber(s).Some?
    ensures IsSign(sign) && s == sign + body && body != [] && body[0] != '-' && body[0] != '+'
  {
    sign := if s != [] && (s[0] == '-' || s[0] == '+') then s[..1] else [];
    body := s[|sign|..];
    assert Magnitude(body).Some?;
    UnsignedMagnitude(body);
  }

  lemma UnsignedMagnitude(body: string)
    requires Magnitude(body).Some?
    ensures body != [] && body[0] != '-' && body[0] != '+'
  {
    hide ValueOf, Fraction;
  }

  lemma MagnitudeParts(body: string) returns (whole: string, part: string, point: bool)
    requires Magnitude(body).Some?
    ensures (whole == "" || IsDigits(whole)) && (part == "" || IsDigits(part)) && (whole != "" || part != "") && (!point ==> part == "")
    ensures body == whole + (if point then "." + part else "")
  {
    var k := Find(body, '.');
    whole, part, point := body[..k], if k < |body| then body[k + 1..] else [], k < |body|;
    assert Joined(whole, part).Some?;
    hide IsDigits, ValueOf, Fraction;
  }

  /** A number is read exactly from its spellings. */
  lemma NumberExactly(s: string, x: real)
    ensures ParseNumber(s) == Some(x) <==> SpellsNumber(s, x)
  {
    hide IsNumeral;
    if SpellsNumber(s, x) {
      var sign, whole, part, point :| IsNumeral(s, x, sign, whole, part, point);
      NumberReads(s, x, sign, whole, part, point);
    }
    if ParseNumber(s) == Some(x) { NumberIsSpelled(s); }
  }

  // -------------------------------------------------------------------- lists

  function Listed(pieces: seq<string>): string {
    if pieces == [] then "" else if |pieces| == 1 then pieces[0] else pieces[0] + "," + Listed(pieces[1..])
  }

  lemma FirstPieceSplits(s: string)
    ensures var k := Find(s, ','); SplitCommas(s) == if k == |s| then [s] else [s[..k]] + SplitCommas(s[k + 1..])
  {
    hide Find;
  }

  /** The pieces between commas. */
  lemma {:induction false} PiecesInPlainTerms(s: string)
    ensures var pieces := SplitCommas(s); pieces != [] && Listed(pieces) == s && forall i :: 0 <= i < |pieces| ==> ',' !in pieces[i]
    decreases |s|
  {
    var k := Find(s, ',');
    FirstPieceSplits(s);
    hide SplitCommas, Find;
    if k == |s| {
      assert ',' !in s && Listed([s]) == s;
    } else {
      var tail := s[k + 1..];
      PiecesInPlainTerms(tail);
      ListedFirst(s[..k], SplitCommas(tail));
      hide Listed;
      assert ',' !in s[..k] && s == s[..k] + "," + tail;
    }
  }

  lemma ListedFirst(piece: string, rest: seq<string>)
    requires rest != []
    ensures Listed([piece] + rest) == piece + "," + Listed(rest)
  {
    assert ([piece] + rest)[1..] == rest;
  }

  /** The members of a list: what each of its pieces strips to, in order, without the empty ones. */
  lemma {:induction false} MembersInPlainTerms(a: seq<string>, piece: string, b: seq<string>)
    ensures Parts(a + [piece] + b) == Parts(a) + (if Strip(piece) == "" then [] else [Strip(piece)]) + Parts(b)
    decreases |a|
  {
    hide Strip;
    if a == [] {
      assert (a + [piece] + b)[0] == piece && (a + [piece] + b)[1..] == b;
    } else {
      assert (a + [piece] + b)[0] == a[0] && (a + [piece] + b)[1..] == a[1..] + [piece] + b;
      MembersInPlainTerms(a[1..], piece, b);
    }
  }

  // ------------------------------------------------------------------ policies

  /** `keyword` in any ASCII case. */
  predicate SpellsKeyword(s: string, keyword: string) {
    |s| == |keyword| && forall i :: 0 <= i < |s| ==> s[i] == keyword[i] || ('A' <= s[i] <= 'Z' && s[i] as int + 32 == keyword[i] as int)
  }

  lemma KeywordExactly(s: string, keyword: string)
    requires forall i :: 0 <= i < |keyword| ==> 'a' <= keyword[i] <= 'z' || keyword[i] == '-'
    ensures SpellsKeyword(s, keyword) <==> LoweredAscii(s) == keyword
  {
    if LoweredAscii(s) == keyword {
      forall i | 0 <= i < |s| ensures s[i] == keyword[i] || ('A' <= s[i] <= 'Z' && s[i] as int + 32 == keyword[i] as int) {
        assert LoweredAscii(s)[i] == keyword[i];
      }
    }
  }

  /** `quorum N of A, B`: the keywords in any case, spaces between the words. */
  ghost predicate IsPolicy(v: string, first: string, gap: string, digits: string, space: string, second: string, rest: string) {
    && v == first + (gap + (digits + (space + (second + rest))))
    && SpellsKeyword(first, "quorum") && SpellsKeyword(second, "of") && gap != "" && AreSpaces(gap) && space != "" && AreSpaces(space)
    && IsDigits(digits) && rest != "" && IsSpace(rest[0])
  }

  lemma {:induction false} DigitsCounted(digits: string, rest: string)
    requires (forall i :: 0 <= i < |digits| ==> IsDigit(digits[i])) && (rest == [] || !IsDigit(rest[0]))
    ensures Digits(digits + rest) == |digits| && DigitsOf(digits + rest, |digits|) == digits
  {
    if digits == [] {
      assert digits + rest == rest;
    } else {
      var s := digits + rest;
      assert s[0] == digits[0] && s[1..] == digits[1..] + rest;
      DigitsCounted(digits[1..], rest);
    }
  }

  lemma PolicyReads(value: string, first: string, gap: string, digits: string, space: string, second: string, rest: string)
    requires IsPolicy(Strip(value), first, gap, digits, space, second, rest)
    ensures var quorum := Quorum(Parts(SplitCommas(rest)), ValueOf(digits));
            ParsePolicy(value) == if IsQuorum(quorum) then Some(quorum) else None
  {
    var v := Strip(value);
    var third := second + rest;
    var after := space + third;
    var counted := digits + after;
    KeywordExactly(first, "quorum");
    KeywordExactly(second, "of");
    assert v == first + (gap + counted) && v[..6] == first && v[6..] == gap + counted && v[6] == gap[0];
    assert counted[0] == digits[0] && IsDigit(digits[0]);
    LeftOf(gap, counted);
    assert after[0] == space[0] && !IsDigit(after[0]);
    DigitsCounted(digits, after);
    assert counted[|digits|..] == after;
    NotSpaced(second, rest);
    LeftOf(space, third);
    assert third[..2] == second && third[2..] == rest && third[2] == rest[0];
    assert third != after by { assert |after| > |third|; }
    hide Strip, StripLeft, Digits, DigitsOf, LoweredAscii, SplitCommas, Parts, ValueOf, IsQuorum, AreSpaces, SpellsKeyword, IsDigits;
  }

  lemma NotSpaced(second: string, rest: string)
    requires SpellsKeyword(second, "of")
    ensures (second + rest) != [] && !IsSpace((second + rest)[0])
  {}

  lemma PolicyIsSpelled(value: string) returns (first: string, gap: string, digits: string, space: string, second: string, rest: string)
    requires ParsePolicy(value).Some?
    ensures IsPolicy(Strip(value), first, gap, digits, space, second, rest)
    ensures ParsePolicy(value).value == Quorum(Parts(SplitCommas(rest)), ValueOf(digits))
  {
    var v := Strip(value);
    first := v[..6];
    var counted := StripLeft(v[6..]);
    gap := LeftParts(v[6..]);
    var k := Digits(counted);
    digits := counted[..k];
    DigitsTaken(counted);
    var third := StripLeft(counted[k..]);
    space := LeftParts(counted[k..]);
    second, rest := third[..2], third[2..];
    KeywordExactly(first, "quorum");
    KeywordExactly(second, "of");
    hide Strip, StripLeft, Digits, DigitsOf, LoweredAscii, SplitCommas, Parts, ValueOf, IsQuorum, SpellsKeyword;
    assert v == first + v[6..] && counted == digits + counted[k..] && third == second + rest;
    var tail := v[6..];
    assert tail[0] == v[6] && (gap == "" ==> tail == counted);
  }

  lemma {:induction false} DigitsTaken(s: string)
    ensures DigitsOf(s, Digits(s)) == s[..Digits(s)] && forall i :: 0 <= i < Digits(s) ==> IsDigit(s[i])
  {
    if s != [] && IsDigit(s[0]) {
      DigitsTaken(s[1..]);
      assert s[..Digits(s)] == [s[0]] + s[1..][..Digits(s[1..])];
    }
  }

  /** A policy is read exactly from its spellings. */
  lemma PolicyExactly(value: string, quorum: ApprovalRequirement)
    ensures ParsePolicy(value) == Some(quorum)
            <==> exists first, gap, digits, space, second, rest ::
                   && IsPolicy(Strip(value), first, gap, digits, space, second, rest)
                   && quorum.roles == Parts(SplitCommas(rest)) && quorum.threshold == ValueOf(digits)
  {
    hide ParsePolicy, ValueOf, Parts, SplitCommas, Strip, SpellsKeyword, AreSpaces;
    if ParsePolicy(value) == Some(quorum) {
      var first, gap, digits, space, second, rest := PolicyIsSpelled(value);
    }
    if first, gap, digits, space, second, rest :|
         && IsPolicy(Strip(value), first, gap, digits, space, second, rest)
         && quorum.roles == Parts(SplitCommas(rest)) && quorum.threshold == ValueOf(digits) {
      PolicyReads(value, first, gap, digits, space, second, rest);
    }
  }

  // -------------------------------------------------------------------- words

  /** Double quotes with a backslash before each quote and each backslash. */
  function Escapes(w: string): string {
    if w == "" then "" else (if w[0] == '"' || w[0] == '\\' then ['\\', w[0]] else [w[0]]) + Escapes(w[1..])
  }

  /** `s` spells the word `w`: bare, in single quotes or in double quotes. */
  predicate SpellsWord(s: string, w: string) {
    || (s == w && w != "" && forall i :: 0 <= i < |w| ==> !IsBlank(w[i]) && !IsQuote(w[i]) && w[i] != '\\')
    || ('\'' !in w && s == ['\''] + (w + ['\'']))
    || s == ['"'] + (Escapes(w) + ['"'])
  }

  lemma {:induction false} SingleReads(w: string, rest: string, word: string, quoted: bool)
    requires '\'' !in w
    ensures ShellSplit(w + (['\''] + rest), InQuote('\''), word, quoted) == ShellSplit(rest, InWord, word + w, true)
    decreases |w|
  {
    var s := w + (['\''] + rest);
    if w == "" {
      assert s[0] == '\'' && s[1..] == rest && word + w == word;
    } else {
      assert s[0] == w[0] && s[1..] == w[1..] + (['\''] + rest);
      assert word + w == word + [w[0]] + w[1..];
      SingleReads(w[1..], rest, word + [w[0]], quoted);
    }
  }

  lemma {:induction false} DoubleReads(w: string, rest: string, word: string, quoted: bool)
    ensures ShellSplit(Escapes(w) + (['"'] + rest), InQuote('"'), word, quoted) == ShellSplit(rest, InWord, word + w, true)
    decreases |w|
  {
    var s := Escapes(w) + (['"'] + rest);
    if w == "" {
      assert s[0] == '"' && s[1..] == rest && word + w == word;
    } else {
      var tail := Escapes(w[1..]) + (['"'] + rest);
      assert word + w == word + [w[0]] + w[1..];
      if w[0] == '"' || w[0] == '\\' {
        assert s[0] == '\\' && s[1..][0] == w[0] && s[1..][1..] == tail;
        DoubleReads(w[1..], rest, word + [w[0]], true);
        EscapeReads(w[0], tail, word, quoted);
        assert s == ['\\', w[0]] + tail;
      } else {
        assert s[0] == w[0] && s[1..] == tail;
        DoubleReads(w[1..], rest, word + [w[0]], quoted);
      }
    }
  }

  lemma EscapeReads(c: char, tail: string, word: string, quoted: bool)
    requires c == '"' || c == '\\'
    ensures ShellSplit(['\\', c] + tail, InQuote('"'), word, quoted) == ShellSplit(tail, InQuote('"'), word + [c], true)
  {
    var s := ['\\', c] + tail;
    assert s[0] == '\\' && s[1..] == [c] + tail && ([c] + tail)[0] == c && ([c] + tail)[1..] == tail;
  }

  /** A spelled word is read, and is a word even when it is empty. */
  lemma SpelledIsRead(s: string, w: string, rest: string) returns (quoted: bool)
    requires SpellsWord(s, w)
    ensures w != "" || quoted
    ensures ShellSplit(s + rest, Between, [], false) == ShellSplit(rest, InWord, w, quoted)
  {
    var all := s + rest;
    if s == w && w != "" && forall i :: 0 <= i < |w| ==> !IsBlank(w[i]) && !IsQuote(w[i]) && w[i] != '\\' {
      quoted := false;
      assert all[0] == w[0] && all[1..] == w[1..] + rest;
      WordContinues(w[1..], rest, [w[0]]);
      assert [w[0]] + w[1..] == w;
    } else if '\'' !in w && s == ['\''] + (w + ['\'']) {
      quoted := true;
      assert all[0] == '\'' && all[1..] == w + (['\''] + rest);
      SingleReads(w, rest, [], false);
      assert [] + w == w;
    } else {
      quoted := true;
      assert all[0] == '"' && all[1..] == Escapes(w) + (['"'] + rest);
      DoubleReads(w, rest, [], false);
      assert [] + w == w;
    }
  }

  predicate AreBlanks(s: string) { forall i :: 0 <= i < |s| ==> IsBlank(s[i]) }

  lemma {:induction false} BlanksAreSkipped(gap: string, rest: string)
    requires AreBlanks(gap)
    ensures ShellSplit(gap + rest, Between, [], false) == ShellSplit(rest, Between, [], false)
    decreases |gap|
  {
    if gap == "" {
      assert gap + rest == rest;
    } else {
      assert (gap + rest)[0] == gap[0] && (gap + rest)[1..] == gap[1..] + rest;
      BlanksAreSkipped(gap[1..], rest);
    }
  }

  lemma BlankEnds(w: string, quoted: bool, gap: string, rest: string)
    requires (w != "" || quoted) && gap != "" && AreBlanks(gap)
    ensures var more := ShellSplit(rest, Between, [], false);
            ShellSplit(gap + rest, InWord, w, quoted) == if more.None? then None else Some([w] + more.value)
  {
    assert (gap + rest)[0] == gap[0] && (gap + rest)[1..] == gap[1..] + rest;
    BlanksAreSkipped(gap[1..], rest);
  }

  /** Words, each spelled in its way, with blanks between them. */
  ghost predicate SpellsWords(s: string, words: seq<string>)
    decreases |words|
  {
    match |words|
    case 0 => s == ""
    case 1 => SpellsWord(s, words[0])
    case _ => exists first, gap, rest :: IsSplit(s, first, gap, rest) && SpellsWord(first, words[0]) && SpellsWords(rest, words[1..])
  }

  predicate IsSplit(s: string, first: string, gap: string, rest: string) { s == first + (gap + rest) && gap != "" && AreBlanks(gap) }

  /** Words are read from any spelling of them. */
  lemma {:induction false} WordsRead(s: string, words: seq<string>)
    requires SpellsWords(s, words)
    ensures ShellSplit(s, Between, [], false) == Some(words)
    decreases |words|
  {
    if |words| == 1 {
      var quoted := SpelledIsRead(s, words[0], []);
      assert s + [] == s && words == [words[0]];
    } else if |words| > 1 {
      var first, gap, rest :| IsSplit(s, first, gap, rest) && SpellsWord(first, words[0]) && SpellsWords(rest, words[1..]);
      WordsRead(rest, words[1..]);
      var quoted := SpelledIsRead(first, words[0], gap + rest);
      hide ShellSplit;
      BlankEnds(words[0], quoted, gap, rest);
      assert [words[0]] + words[1..] == words;
    }
  }

  predicate SpellsOperator(s: string, op: Comparison) {
    match op
    case Le => s == "<="
    case Ge => s == ">="
    case Lt => s == "<"
    case Gt => s == ">"
    case Eq => s == "=="
    case Ne => s == "!="
  }

  /** A constraint: a field, an operator and a number or a word, in any spelling; anything
      else that can be split is refused. */
  lemma ConstraintInPlainTerms(value: string, words: seq<string>)
    requires SpellsWords(Strip(value), words)
    ensures if |words| != 3 then ParseConstraint(value) == Err(BadConstraint)
            else if forall op :: !SpellsOperator(words[1], op) then ParseConstraint(value) == Err(UnknownOperator)
            else if words[2] == "" then ParseConstraint(value) == Err(EmptyThreshold)
            else
              && ParseConstraint(value).Ok?
              && var p := ParseConstraint(value).value;
                 && p.field == words[0] && SpellsOperator(words[1], p.op)
                 && match p.threshold
                    case Number(x) => SpellsNumber(words[2], x)
                    case Words(w) => w == words[2] && forall x :: !SpellsNumber(words[2], x)
                    case _ => false
  {
    WordsRead(Strip(value), words);
    if |words| == 3 {
      assert words == [words[0], words[1], words[2]];
      hide ShellSplit, SpellsWords, SpellsNumber, SpellsOperator, Strip, ParseConstraint;
      ThreeWordsRead(value, words[0], words[1], words[2]);
    } else {
      hide ShellSplit, SpellsWords, Strip;
    }
  }

  lemma ThreeWordsRead(value: string, field: string, operator: string, threshold: string)
    requires ShellSplit(Strip(value), Between, [], false) == Some([field, operator, threshold])
    ensures if forall op :: !SpellsOperator(operator, op) then ParseConstraint(value) == Err(UnknownOperator)
            else if threshold == "" then ParseConstraint(value) == Err(EmptyThreshold)
            else
              && ParseConstraint(value).Ok?
              && var p := ParseConstraint(value).value;
                 && p.field == field && SpellsOperator(operator, p.op)
                 && match p.threshold
                    case Number(x) => SpellsNumber(threshold, x)
                    case Words(w) => w == threshold && forall x :: !SpellsNumber(threshold, x)
                    case _ => false
  {
    hide ShellSplit, Strip;
    OperatorExactly(operator);
    ThresholdExactly(threshold);
    hide ParseNumber, SpellsNumber, ParseOperator, SpellsOperator;
  }

  lemma ThresholdExactly(s: string)
    ensures s == "" ==> ParseNumber(s).None?
    ensures ParseNumber(s).Some? ==> SpellsNumber(s, ParseNumber(s).value)
    ensures ParseNumber(s).None? ==> forall x :: !SpellsNumber(s, x)
  {
    NoNumber();
    if ParseNumber(s).Some? { NumberExactly(s, ParseNumber(s).value); }
    forall x ensures SpellsNumber(s, x) ==> ParseNumber(s) == Some(x) { NumberExactly(s, x); }
    hide ParseNumber, SpellsNumber;
  }

  lemma NoNumber()
    ensures ParseNumber("").None?
  {}

  lemma OperatorExactly(s: string)
    ensures forall op :: ParseOperator(s) == Some(op) <==> SpellsOperator(s, op)
  {}

  lemma {:induction false} OpenIsRefused(w: string, quote: char, word: string, quoted: bool)
    requires IsQuote(quote) && quote !in w && '\\' !in w
    ensures ShellSplit(w, InQuote(quote), word, quoted) == None
    decreases |w|
  {
    if w != "" { OpenIsRefused(w[1..], quote, word + [w[0]], quoted); }
  }

  /** A quote that is not closed is refused, whatever bare text comes before it. */
  lemma {:induction false} UnclosedIsRefused(bare: string, quote: char, w: string, state: Shell, word: string, quoted: bool)
    requires state == Between || state == InWord
    requires (forall i :: 0 <= i < |bare| ==> !IsQuote(bare[i]) && bare[i] != '\\') && IsQuote(quote) && quote !in w && '\\' !in w
    ensures ShellSplit(bare + ([quote] + w), state, word, quoted) == None
    decreases |bare|
  {
    var s := bare + ([quote] + w);
    if bare == "" {
      assert s[0] == quote && s[1..] == w;
      OpenIsRefused(w, quote, [], false);
      OpenIsRefused(w, quote, word, quoted);
    } else {
      assert s[0] == bare[0] && s[1..] == bare[1..] + ([quote] + w);
      UnclosedIsRefused(bare[1..], quote, w, Between, [], false);
      UnclosedIsRefused(bare[1..], quote, w, InWord, [bare[0]], false);
      UnclosedIsRefused(bare[1..], quote, w, InWord, word + [bare[0]], quoted);
    }
  }

  /** Such a constraint has bad quoting. */
  lemma OpenConstraintIsRefused(value: string, bare: string, quote: char, w: string)
    requires Strip(value) == bare + ([quote] + w)
    requires (forall i :: 0 <= i < |bare| ==> !IsQuote(bare[i]) && bare[i] != '\\') && IsQuote(quote) && quote !in w && '\\' !in w
    ensures ParseConstraint(value) == Err(BadQuoting)
  {
    UnclosedIsRefused(bare, quote, w, Between, [], false);
    hide ShellSplit, Strip;
  }
}
