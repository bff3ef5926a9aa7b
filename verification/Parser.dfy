/** Law text: the line parser (governance/parser.py) and the printer that it
    inverts (evaluation/reference.py). */
module Parser {
  import opened Text
  import opened LawText
  import opened Model
  import opened Rules
  import Composition

  datatype Fault =
    | NoLaws | OutsideBlock | NoColon | UnknownField | BadAuthority | BadQuoting | BadConstraint | UnknownOperator
    | EmptyThreshold | BadPolicy | ExclusiveApproval | BadDisposition | NoCapability | DuplicateLaw

  datatype ParseError = ParseError(line: nat, fault: Fault)

  // ---------------------------------------------------------- shell splitting

  /** The states of `shlex` on POSIX text: between words, in a word, in a quote,
      and after a backslash. */
  datatype Shell = Between | InWord | InQuote(quote: char) | Escaped(within: Option<char>)

  predicate IsBlank(c: char) { c == ' ' || c == '\t' || c == '\r' || c == '\n' }

  predicate IsQuote(c: char) { c == '\'' || c == '"' }

  /** `shlex.split`: the words, or nothing when a quote or an escape is not closed. */
  function ShellSplit(s: string, state: Shell, word: string, quoted: bool): Option<seq<string>>
    decreases |s|
  {
    var emitted := if word != [] || quoted then [word] else [];
    if s == [] then
      match state
      case Between => Some([])
      case InWord => Some(emitted)
      case _ => None
    else
      var c, rest := s[0], s[1..];
      match state
      case Between =>
        if IsBlank(c) then ShellSplit(rest, Between, [], false)
        else if c == '\\' then ShellSplit(rest, Escaped(None), [], false)
        else if IsQuote(c) then ShellSplit(rest, InQuote(c), [], false)
        else ShellSplit(rest, InWord, [c], false)
      case InWord =>
        if IsBlank(c) then
          var more := ShellSplit(rest, Between, [], false);
          if more.None? then None else Some(emitted + more.value)
        else if IsQuote(c) then ShellSplit(rest, InQuote(c), word, quoted)
        else if c == '\\' then ShellSplit(rest, Escaped(None), word, quoted)
        else ShellSplit(rest, InWord, word + [c], quoted)
      case InQuote(q) =>
        if c == q then ShellSplit(rest, InWord, word, true)
        else if c == '\\' && q == '"' then ShellSplit(rest, Escaped(Some(q)), word, true)
        else ShellSplit(rest, InQuote(q), word + [c], true)
      case Escaped(q) =>
        if q.None? then ShellSplit(rest, InWord, word + [c], quoted)
        else ShellSplit(rest, InQuote(q.value), if c == '\\' || c == q.value then word + [c] else word + ['\\', c], quoted)
  }

  // ---------------------------------------------------------------- fields

  /** `_parse_authority`. */
  function ParseAuthority(value: string): Option<int> {
    var v := Strip(value);
    if ">=" <= v then ParseInt(Strip(v[2..])) else ParseInt(v)
  }

  function ParseOperator(s: string): Option<Comparison> {
    if s == "<=" then Some(Le) else if s == ">=" then Some(Ge) else if s == "<" then Some(Lt)
    else if s == ">" then Some(Gt) else if s == "==" then Some(Eq) else if s == "!=" then Some(Ne) else None
  }

  /** `_parse_constraint`. */
  function ParseConstraint(value: string): Result<PredicateSpec, Fault> {
    var parts := ShellSplit(Strip(value), Between, [], false);
    if parts.None? then Err(BadQuoting)
    else if |parts.value| != 3 then Err(BadConstraint)
    else
      var op, number := ParseOperator(parts.value[1]), ParseNumber(parts.value[2]);
      if op.None? then Err(UnknownOperator)
      else if number.Some? then Ok(PredicateSpec(parts.value[0], op.value, Number(number.value)))
      else if parts.value[2] == [] then Err(EmptyThreshold)
      else Ok(PredicateSpec(parts.value[0], op.value, Words(parts.value[2])))
  }

  function Lowered(s: string): string {
    seq(|s|, i requires 0 <= i < |s| => LowerChar(s[i]))
  }

  /** Lower case as far as the keywords need it; the Kelvin sign is a capital k. */
  function LowerChar(c: char): char {
    if 'A' <= c <= 'Z' then (c as int + 32) as char else if c == '\U{212A}' then 'k' else c
  }

  /** A keyword, in any ASCII case, at the start. */
  predicate StartsWith(s: string, keyword: string) { |keyword| <= |s| && keyword == LoweredAscii(s[..|keyword|]) }

  function LoweredAscii(s: string): string {
    seq(|s|, i requires 0 <= i < |s| => if 'A' <= s[i] <= 'Z' then (s[i] as int + 32) as char else s[i])
  }

  function Digits(s: string): (k: nat)
    ensures k <= |s|
  {
    if s != [] && IsDigit(s[0]) then 1 + Digits(s[1..]) else 0
  }

  /** `_parse_approval_policy`: `quorum N of RoleA, RoleB`. */
  function ParsePolicy(value: string): Option<ApprovalRequirement> {
    var v := Strip(value);
    if !StartsWith(v, "quorum") || |v| == 6 || !IsSpace(v[6]) then None
    else
      var counted := StripLeft(v[6..]);
      var k := Digits(counted);
      var after := StripLeft(counted[k..]);
      if k == 0 || after == counted[k..] || !StartsWith(after, "of") || |after| == 2 || !IsSpace(after[2]) then None
      else
        var quorum := Quorum(Parts(SplitCommas(after[2..])), ValueOf(DigitsOf(counted, k)));
        if IsQuorum(quorum) then Some(quorum) else None
  }

  function DigitsOf(s: string, k: nat): (d: string)
    requires k <= Digits(s)
    ensures forall i :: 0 <= i < |d| ==> IsDigit(d[i])
    decreases k
  {
    if k == 0 then [] else [s[0]] + DigitsOf(s[1..], k - 1)
  }

  // ----------------------------------------------------------------- blocks

  /** The `current` dictionary: an absent field is `None`. */
  datatype LawBlock = LawBlock(
    id: string, line: nat, capability: Option<string>, minAuthority: Option<int>, condition: Option<PredicateSpec>,
    forbidden: Option<set<string>>, requiresApproval: Option<string>, requirement: Option<ApprovalRequirement>,
    disposition: Option<Disposition>, parent: Option<string>)

  function NewBlock(id: string, line: nat): LawBlock { LawBlock(id, line, None, None, None, None, None, None, None, None) }

  function Or<T>(o: Option<T>, otherwise: T): T { if o.Some? then o.value else otherwise }

  /** `finalize`. */
  function Finalized(b: LawBlock): Result<Rule, ParseError> {
    if b.capability.None? then Err(ParseError(b.line, NoCapability))
    else
      Ok(Rule(b.id, b.capability.value, Or(b.minAuthority, 0), Or(b.disposition, BlockIt), b.requiresApproval,
              b.requirement, b.condition, Or(b.forbidden, {}), b.parent))
  }

  /** One `key: value` line of a block. */
  function WithField(b: LawBlock, key: string, value: string): Result<LawBlock, Fault> {
    if key == "capability" then Ok(b.(capability := Some(value)))
    else if key == "authority_level" then
      var level := ParseAuthority(value);
      if level.None? then Err(BadAuthority) else Ok(b.(minAuthority := level))
    else if key == "constraint" then
      var condition := ParseConstraint(value);
      if condition.Err? then Err(condition.error) else Ok(b.(condition := Some(condition.value)))
    else if key == "forbidden_classes" then Ok(b.(forbidden := Some(Members(Parts(SplitCommas(value))))))
    else if key == "requires_approval" then
      if b.requirement.Some? then Err(ExclusiveApproval) else Ok(b.(requiresApproval := Some(value)))
    else if key == "approval_policy" then
      var requirement := ParsePolicy(value);
      if b.requiresApproval.Some? || b.requirement.Some? then Err(ExclusiveApproval)
      else if requirement.None? then Err(BadPolicy) else Ok(b.(requirement := requirement))
    else if key == "on_violation" then
      if Lowered(value) == "block" then Ok(b.(disposition := Some(BlockIt)))
      else if Lowered(value) == "escalate" then Ok(b.(disposition := Some(EscalateIt)))
      else Err(BadDisposition)
    else if key == "parent" || key == "inherits" then Ok(b.(parent := Some(value)))
    else Err(UnknownField)
  }

  // ------------------------------------------------------------------- lines

  /** The rules finished so far and the block being read. */
  datatype Reading = Reading(rules: seq<Rule>, current: Option<LawBlock>)

  function Close(r: Reading): Result<seq<Rule>, ParseError> {
    if r.current.None? then Ok(r.rules)
    else
      var rule := Finalized(r.current.value);
      if rule.Err? then Err(rule.error) else Ok(r.rules + [rule.value])
  }

  predicate IsHeader(line: string) { StartsWith(line, "law-") }

  /** One turn of the loop of `parse_laws`, on line `no`. */
  function ReadLine(r: Reading, raw: string, no: nat): Result<Reading, ParseError> {
    var line := Strip(raw);
    if line == [] || line[0] == '#' then Ok(r)
    else if IsHeader(line) then
      var closed := Close(r);
      if closed.Err? then Err(closed.error) else Ok(Reading(closed.value, Some(NewBlock(line, no))))
    else if r.current.None? then Err(ParseError(no, OutsideBlock))
    else
      var k := Find(line, ':');
      if k == |line| then Err(ParseError(no, NoColon))
      else
        var block := WithField(r.current.value, Strip(line[..k]), Strip(line[k + 1..]));
        if block.Err? then Err(ParseError(no, block.error)) else Ok(r.(current := Some(block.value)))
  }

  function ReadLines(r: Reading, lines: seq<string>, no: nat): Result<Reading, ParseError>
    decreases |lines|
  {
    if lines == [] then Ok(r)
    else
      var next := ReadLine(r, lines[0], no);
      if next.Err? then next else ReadLines(next.value, lines[1..], no + 1)
  }

  /** `parse_laws`. */
  function Parsed(source: string): Result<seq<Rule>, ParseError> {
    var read := ReadLines(Reading([], None), SplitLines(source, []), 1);
    if read.Err? then Err(read.error)
    else
      var closed := Close(read.value);
      if closed.Err? then closed
      else if closed.value == [] then Err(ParseError(0, NoLaws))
      else if !Composition.DistinctIds(closed.value) then Err(ParseError(0, DuplicateLaw))
      else closed
  }

  lemma {:induction false} ReadingComposes(r: Reading, a: seq<string>, b: seq<string>, no: nat)
    ensures ReadLines(r, a + b, no) ==
              if ReadLines(r, a, no).Err? then ReadLines(r, a, no) else ReadLines(ReadLines(r, a, no).value, b, no + |a|)
    decreases |a|
  {
    if a == [] {
      assert a + b == b;
    } else {
      assert (a + b)[0] == a[0] && (a + b)[1..] == a[1..] + b;
      var next := ReadLine(r, a[0], no);
      if next.Ok? { ReadingComposes(next.value, a[1..], b, no + 1); }
    }
  }

  /** The loop itself. */
  method ParseLaws(source: string) returns (res: Result<seq<Rule>, ParseError>)
    ensures res == Parsed(source)
  {
    hide ReadLine, Close, SplitLines;
    var lines := SplitLines(source, []);
    var reading := Reading([], None);
    for i := 0 to |lines|
      invariant ReadLines(Reading([], None), lines[..i], 1) == Ok(reading)
    {
      assert lines == lines[..i] + lines[i..];
      ReadingComposes(Reading([], None), lines[..i], lines[i..], 1);
      var next := ReadLine(reading, lines[i], i + 1);
      assert lines[i..][0] == lines[i];
      if next.Err? { return Err(next.error); }
      assert lines[..i + 1] == lines[..i] + [lines[i]];
      ReadingComposes(Reading([], None), lines[..i], [lines[i]], 1);
      assert ReadLines(reading, [lines[i]], i + 1) == ReadLines(next.value, [lines[i]][1..], i + 2);
      reading := next.value;
    }
    assert lines[..|lines|] == lines;
    res := Close(reading);
    if res.Err? { return; }
    if res.value == [] { return Err(ParseError(0, NoLaws)); }
    var seen: set<string> := {};
    for j := 0 to |res.value|
      invariant seen == set k | 0 <= k < j :: res.value[k].id
      invariant forall a, b :: 0 <= a < b < j ==> res.value[a].id != res.value[b].id
    {
      if res.value[j].id in seen { return Err(ParseError(0, DuplicateLaw)); }
      seen := seen + {res.value[j].id};
    }
  }

  // ----------------------------------------------------------------- printer

  /** A rule of a scenario, as the printer is given it. */
  datatype LawSpec = LawSpec(
    id: string, capability: string, authority: Option<int>, constraint: Option<string>, forbidden: seq<string>,
    requiresApproval: Option<string>, parent: Option<string>, disposition: Option<Disposition>)

  function Optional<T>(present: bool, item: T): seq<T> { if present then [item] else [] }

  function DispositionText(d: Disposition): string { if d.BlockIt? then "block" else "escalate" }

  /** The fields that are printed, in order. */
  function Fields(l: LawSpec): seq<(string, string)> {
    [("capability", l.capability)]
    + Optional(l.authority.Some?, ("authority_level", IntText(Or(l.authority, 0))))
    + Optional(l.constraint.Some?, ("constraint", Or(l.constraint, "")))
    + Optional(l.forbidden != [], ("forbidden_classes", JoinCommas(l.forbidden)))
    + Optional(Truthy(l.requiresApproval), ("requires_approval", Or(l.requiresApproval, "")))
    + Optional(Truthy(l.parent), ("parent", Or(l.parent, "")))
    + [("on_violation", DispositionText(Or(l.disposition, BlockIt)))]
  }

  function FieldLine(f: (string, string)): string { "  " + f.0 + ": " + f.1 }

  function FieldLines(fields: seq<(string, string)>): seq<string> {
    seq(|fields|, i requires 0 <= i < |fields| => FieldLine(fields[i]))
  }

  function LawLines(l: LawSpec): seq<string> { [l.id] + FieldLines(Fields(l)) }

  function AllLines(laws: seq<LawSpec>): seq<string> {
    if laws == [] then [] else AllLines(laws[..|laws| - 1]) + LawLines(laws[|laws| - 1])
  }

  function Blocks(laws: seq<LawSpec>): seq<string> {
    seq(|laws|, i requires 0 <= i < |laws| => JoinLines(LawLines(laws[i])))
  }

  lemma FieldLinesAppend(fields: seq<(string, string)>, f: (string, string))
    ensures FieldLines(fields + [f]) == FieldLines(fields) + [FieldLine(f)]
    ensures fields + [] == fields
  {
    hide FieldLine;
  }

  lemma NoFieldLines()
    ensures FieldLines([]) == []
  {}

  /** The lines of one block, and for the proof the fields they print. */
  method PrintField(lines: seq<string>, ghost fields: seq<(string, string)>, present: bool, key: string, value: string)
    returns (more: seq<string>)
    requires lines != [] && lines[1..] == FieldLines(fields)
    ensures more != [] && more[0] == lines[0] && more[1..] == FieldLines(fields + Optional(present, (key, value)))
  {
    FieldLinesAppend(fields, (key, value));
    more := lines;
    if present { more := more + [FieldLine((key, value))]; }
  }

  method PrintLaw(law: LawSpec) returns (lines: seq<string>)
    ensures lines == LawLines(law)
  {
    hide FieldLines, IntText, JoinCommas, DispositionText;
    NoFieldLines();
    lines := PrintField([law.id], [], true, "capability", law.capability);
    ghost var fields := [("capability", law.capability)];
    assert [] + Optional(true, ("capability", law.capability)) == fields;
    lines := PrintField(lines, fields, law.authority.Some?, "authority_level", IntText(Or(law.authority, 0)));
    fields := fields + Optional(law.authority.Some?, ("authority_level", IntText(Or(law.authority, 0))));
    lines := PrintField(lines, fields, law.constraint.Some?, "constraint", Or(law.constraint, ""));
    fields := fields + Optional(law.constraint.Some?, ("constraint", Or(law.constraint, "")));
    lines := PrintField(lines, fields, law.forbidden != [], "forbidden_classes", JoinCommas(law.forbidden));
    fields := fields + Optional(law.forbidden != [], ("forbidden_classes", JoinCommas(law.forbidden)));
    lines := PrintField(lines, fields, Truthy(law.requiresApproval), "requires_approval", Or(law.requiresApproval, ""));
    fields := fields + Optional(Truthy(law.requiresApproval), ("requires_approval", Or(law.requiresApproval, "")));
    lines := PrintField(lines, fields, Truthy(law.parent), "parent", Or(law.parent, ""));
    fields := fields + Optional(Truthy(law.parent), ("parent", Or(law.parent, "")));
    lines := PrintField(lines, fields, true, "on_violation", DispositionText(Or(law.disposition, BlockIt)));
    fields := fields + Optional(true, ("on_violation", DispositionText(Or(law.disposition, BlockIt))));
    assert fields == Fields(law);
    assert lines == [lines[0]] + lines[1..];
  }

  /** `_policy_source`. */
  method PolicySource(laws: seq<LawSpec>) returns (source: string)
    ensures source == JoinLines(Blocks(laws))
  {
    hide LawLines;
    var blocks: seq<string> := [];
    for i := 0 to |laws|
      invariant blocks == Blocks(laws[..i])
    {
      var lines := PrintLaw(laws[i]);
      blocks := blocks + [JoinLines(lines)];
      assert laws[..i + 1] == laws[..i] + [laws[i]];
    }
    assert laws[..|laws|] == laws;
    return JoinLines(blocks);
  }

  // -------------------------------------------------------------- round trip

  /** A value that takes one line and no quoting of its own. */
  predicate Token(s: string) { s != [] && Trimmed(s) && OneLine(s) }

  /** The laws whose text is read back. */
  predicate Plain(l: LawSpec) {
    && IsHeader(l.id) && Token(l.id) && Token(l.capability)
    && (l.constraint.Some? ==> Token(l.constraint.value) && ParseConstraint(l.constraint.value).Ok?)
    && (forall i :: 0 <= i < |l.forbidden| ==> IsItem(l.forbidden[i]) && OneLine(l.forbidden[i]))
    && (Truthy(l.requiresApproval) ==> Token(l.requiresApproval.value))
    && (Truthy(l.parent) ==> Token(l.parent.value))
  }

  /** The rule that a law states, with the parser's defaults. */
  function RuleOf(l: LawSpec): Rule
    requires Plain(l)
  {
    Rule(l.id, l.capability, Or(l.authority, 0), Or(l.disposition, BlockIt),
         if Truthy(l.requiresApproval) then l.requiresApproval else None, None,
         if l.constraint.Some? then Some(ParseConstraint(l.constraint.value).value) else None,
         Members(l.forbidden), if Truthy(l.parent) then l.parent else None)
  }

  /** Lower-case words, as the field names are. */
  predicate IsKey(key: string) {
    key != [] && key[0] != 'l' && forall i :: 0 <= i < |key| ==> 'a' <= key[i] <= 'z' || key[i] == '_'
  }

  lemma KeyIsPlain(key: string)
    requires IsKey(key)
    ensures key != [] && Trimmed(key) && OneLine(key) && key[0] != '#'
    ensures forall i :: 0 <= i < |key| ==> key[i] != ':'
    ensures key[0] != 'l' && key[0] != 'L'
  {}

  /** What is left of a field line once its indent is stripped. */
  lemma FieldLineStrips(key: string, value: string)
    requires IsKey(key) && Token(value)
    ensures var line := key + (": " + value);
            && Strip(FieldLine((key, value))) == line && line != [] && line[0] != '#' && !IsHeader(line)
  {
    KeyIsPlain(key);
    var line := key + (": " + value);
    assert FieldLine((key, value)) == "  " + line;
    assert line[0] == key[0] && line[|line| - 1] == value[|value| - 1];
    StripIndented("  ", line);
    if |line| >= 4 { assert LoweredAscii(line[..4])[0] != 'l'; }
  }

  lemma FieldLineSplits(key: string, value: string)
    requires IsKey(key) && Token(value)
    ensures var line, k := key + (": " + value), |key|;
            && Find(line, ':') == k < |line| && Strip(line[..k]) == key && Strip(line[k + 1..]) == value
  {
    KeyIsPlain(key);
    hide IsKey;
    var line := key + (": " + value);
    assert line[|key|] == ':' && forall i :: 0 <= i < |key| ==> line[i] == key[i];
    FindIs(line, ':', |key|);
    assert line[..|key|] == key && line[|key| + 1..] == " " + value;
    StripTrims(key);
    StripIndented(" ", value);
  }

  lemma FieldLineReads(r: Reading, f: (string, string), no: nat)
    requires r.current.Some? && IsKey(f.0) && Token(f.1)
    ensures var block := WithField(r.current.value, f.0, f.1);
            ReadLine(r, FieldLine(f), no) == if block.Err? then Err(ParseError(no, block.error)) else Ok(r.(current := Some(block.value)))
  {
    FieldLineStrips(f.0, f.1);
    FieldLineSplits(f.0, f.1);
    hide IsKey, Token, WithField, Strip, IsHeader, FieldLine, Find, Close;
  }

  function WithFields(b: LawBlock, fields: seq<(string, string)>): Result<LawBlock, Fault>
    decreases |fields|
  {
    if fields == [] then Ok(b)
    else
      var next := WithField(b, fields[0].0, fields[0].1);
      if next.Err? then next else WithFields(next.value, fields[1..])
  }

  lemma {:induction false} FieldLinesRead(r: Reading, fields: seq<(string, string)>, no: nat)
    requires r.current.Some? && WithFields(r.current.value, fields).Ok?
    requires forall i :: 0 <= i < |fields| ==> IsKey(fields[i].0) && Token(fields[i].1)
    ensures ReadLines(r, FieldLines(fields), no) == Ok(r.(current := Some(WithFields(r.current.value, fields).value)))
    decreases |fields|
  {
    hide WithField, ReadLine, IsKey, Token;
    if fields == [] {
      assert FieldLines(fields) == [];
    } else {
      var lines := FieldLines(fields);
      FieldLineReads(r, fields[0], no);
      var next := WithField(r.current.value, fields[0].0, fields[0].1);
      FieldLinesRead(r.(current := Some(next.value)), fields[1..], no + 1);
      assert lines[1..] == FieldLines(fields[1..]) && lines[0] == FieldLine(fields[0]);
    }
  }

  lemma {:induction false} JoinedIsToken(items: seq<string>)
    requires items != [] && forall i :: 0 <= i < |items| ==> IsItem(items[i]) && OneLine(items[i])
    ensures Token(JoinCommas(items)) && items[0] != [] && JoinCommas(items)[0] == items[0][0]
  {
    if |items| > 1 {
      JoinedIsToken(items[1..]);
      var rest := JoinCommas(items[1..]);
      var all := items[0] + ", " + rest;
      assert all[|all| - 1] == rest[|rest| - 1];
    }
  }

  lemma {:induction false} FieldsCompose(b: LawBlock, a: seq<(string, string)>, c: seq<(string, string)>)
    requires WithFields(b, a).Ok?
    ensures WithFields(b, a + c) == WithFields(WithFields(b, a).value, c)
    decreases |a|
  {
    hide WithField;
    if a == [] {
      assert a + c == c;
    } else {
      assert (a + c)[0] == a[0] && (a + c)[1..] == a[1..] + c;
      FieldsCompose(WithField(b, a[0].0, a[0].1).value, a[1..], c);
    }
  }

  lemma OneField(b: LawBlock, present: bool, key: string, value: string, after: LawBlock)
    requires if present then WithField(b, key, value) == Ok(after) else after == b
    ensures WithFields(b, Optional(present, (key, value))) == Ok(after)
  {
    hide WithField;
  }

  lemma DigitsAreToken(digits: string)
    requires IsDigits(digits)
    ensures Token(digits) && Strip(digits) == digits && !(">=" <= digits)
    ensures Token("-" + digits) && Strip("-" + digits) == "-" + digits && !(">=" <= "-" + digits)
  {
    var negative := "-" + digits;
    assert forall i :: 0 <= i < |digits| ==> IsDigit(digits[i]);
    assert forall i :: 0 <= i < |negative| ==> negative[i] == '-' || IsDigit(negative[i]);
    hide IsDigits, Strip;
    StripTrims(digits);
    StripTrims(negative);
  }

  lemma IntIsToken(n: int)
    ensures Token(IntText(n)) && ParseAuthority(IntText(n)) == Some(n)
  {
    var m: nat := if n < 0 then -n else n;
    DecimalRoundTrip(m);
    IntRoundTrip(n);
    DigitsAreToken(Decimal(m));
    hide Decimal, IsDigits, ValueOf, Strip, ParseInt, Token;
  }

  /** The block of a law after its fields were read. */
  function BlockOf(l: LawSpec, line: nat): LawBlock
    requires Plain(l)
  {
    LawBlock(l.id, line, Some(l.capability), l.authority,
             if l.constraint.Some? then Some(ParseConstraint(l.constraint.value).value) else None,
             if l.forbidden != [] then Some(Members(l.forbidden)) else None,
             if Truthy(l.requiresApproval) then l.requiresApproval else None, None,
             Some(Or(l.disposition, BlockIt)), if Truthy(l.parent) then l.parent else None)
  }

  lemma CapabilityReads(b: LawBlock, value: string)
    ensures WithField(b, "capability", value) == Ok(b.(capability := Some(value)))
  {}

  lemma AuthorityReads(b: LawBlock, n: int)
    ensures WithField(b, "authority_level", IntText(n)) == Ok(b.(minAuthority := Some(n)))
  {
    IntIsToken(n);
    hide ParseAuthority, IntText;
  }

  lemma ConstraintReads(b: LawBlock, value: string)
    requires ParseConstraint(value).Ok?
    ensures WithField(b, "constraint", value) == Ok(b.(condition := Some(ParseConstraint(value).value)))
  {
    hide ParseConstraint;
  }

  lemma ForbiddenIsList(b: LawBlock, value: string)
    ensures WithField(b, "forbidden_classes", value) == Ok(b.(forbidden := Some(Members(Parts(SplitCommas(value))))))
  {
    hide Parts, SplitCommas, Members, ParseConstraint, ParsePolicy, ParseAuthority, Lowered;
  }

  lemma ForbiddenReads(b: LawBlock, items: seq<string>)
    requires items != [] && forall i :: 0 <= i < |items| ==> IsItem(items[i])
    ensures WithField(b, "forbidden_classes", JoinCommas(items)) == Ok(b.(forbidden := Some(Members(items))))
  {
    hide WithField, Parts, SplitCommas, Members, JoinCommas, IsItem;
    ForbiddenIsList(b, JoinCommas(items));
    ItemsRead(items);
  }

  lemma ItemsRead(items: seq<string>)
    requires items != [] && forall i :: 0 <= i < |items| ==> IsItem(items[i])
    ensures Parts(SplitCommas(JoinCommas(items))) == items
  {
    hide Parts, SplitCommas, JoinCommas, IsItem;
    CommasRoundTrip(items, "");
    assert "" + JoinCommas(items) == JoinCommas(items);
  }

  lemma ApprovalReads(b: LawBlock, value: string)
    requires b.requirement.None?
    ensures WithField(b, "requires_approval", value) == Ok(b.(requiresApproval := Some(value)))
  {}

  lemma ParentReads(b: LawBlock, value: string)
    ensures WithField(b, "parent", value) == Ok(b.(parent := Some(value)))
  {}

  lemma DispositionReads(b: LawBlock, d: Disposition)
    ensures WithField(b, "on_violation", DispositionText(d)) == Ok(b.(disposition := Some(d)))
  {
    assert Lowered(DispositionText(d)) == DispositionText(d);
    hide Lowered;
  }

  lemma FieldsMakeBlock(l: LawSpec, line: nat)
    requires Plain(l)
    ensures WithFields(NewBlock(l.id, line), Fields(l)) == Ok(BlockOf(l, line))
  {
    hide ParseConstraint, IntText, Token, JoinCommas, Members, WithField, DispositionText, IsHeader, IsItem;
    var b0 := NewBlock(l.id, line);
    var b1 := b0.(capability := Some(l.capability));
    var b2 := if l.authority.Some? then b1.(minAuthority := l.authority) else b1;
    var b3 := if l.constraint.Some? then b2.(condition := Some(ParseConstraint(l.constraint.value).value)) else b2;
    var b4 := if l.forbidden != [] then b3.(forbidden := Some(Members(l.forbidden))) else b3;
    var b5 := if Truthy(l.requiresApproval) then b4.(requiresApproval := l.requiresApproval) else b4;
    var b6 := if Truthy(l.parent) then b5.(parent := l.parent) else b5;
    var b7 := b6.(disposition := Some(Or(l.disposition, BlockIt)));
    CapabilityReads(b0, l.capability);
    OneField(b0, true, "capability", l.capability, b1);
    AuthorityReads(b1, Or(l.authority, 0));
    OneField(b1, l.authority.Some?, "authority_level", IntText(Or(l.authority, 0)), b2);
    if l.constraint.Some? { ConstraintReads(b2, l.constraint.value); }
    OneField(b2, l.constraint.Some?, "constraint", Or(l.constraint, ""), b3);
    if l.forbidden != [] { ForbiddenReads(b3, l.forbidden); }
    OneField(b3, l.forbidden != [], "forbidden_classes", JoinCommas(l.forbidden), b4);
    ApprovalReads(b4, Or(l.requiresApproval, ""));
    OneField(b4, Truthy(l.requiresApproval), "requires_approval", Or(l.requiresApproval, ""), b5);
    ParentReads(b5, Or(l.parent, ""));
    OneField(b5, Truthy(l.parent), "parent", Or(l.parent, ""), b6);
    DispositionReads(b6, Or(l.disposition, BlockIt));
    var text := DispositionText(Or(l.disposition, BlockIt));
    OneField(b6, true, "on_violation", text, b7);
    assert Optional(true, ("capability", l.capability)) == [("capability", l.capability)];
    assert Optional(true, ("on_violation", text)) == [("on_violation", text)];
    hide Optional;
    ChainFields(b0, b1, b2, b3, b4, b5, b6, b7,
                [("capability", l.capability)],
                Optional(l.authority.Some?, ("authority_level", IntText(Or(l.authority, 0)))),
                Optional(l.constraint.Some?, ("constraint", Or(l.constraint, ""))),
                Optional(l.forbidden != [], ("forbidden_classes", JoinCommas(l.forbidden))),
                Optional(Truthy(l.requiresApproval), ("requires_approval", Or(l.requiresApproval, ""))),
                Optional(Truthy(l.parent), ("parent", Or(l.parent, ""))),
                [("on_violation", text)]);
    assert b7 == BlockOf(l, line);
  }

  /** Pieces of a field list, each read in turn. */
  lemma ChainFields(b0: LawBlock, b1: LawBlock, b2: LawBlock, b3: LawBlock, b4: LawBlock, b5: LawBlock, b6: LawBlock, b7: LawBlock,
                    p1: seq<(string, string)>, p2: seq<(string, string)>, p3: seq<(string, string)>, p4: seq<(string, string)>,
                    p5: seq<(string, string)>, p6: seq<(string, string)>, p7: seq<(string, string)>)
    requires WithFields(b0, p1) == Ok(b1) && WithFields(b1, p2) == Ok(b2) && WithFields(b2, p3) == Ok(b3)
    requires WithFields(b3, p4) == Ok(b4) && WithFields(b4, p5) == Ok(b5) && WithFields(b5, p6) == Ok(b6) && WithFields(b6, p7) == Ok(b7)
    ensures WithFields(b0, p1 + p2 + p3 + p4 + p5 + p6 + p7) == Ok(b7)
  {
    hide WithFields;
    FieldsCompose(b0, p1, p2);
    FieldsCompose(b0, p1 + p2, p3);
    FieldsCompose(b0, p1 + p2 + p3, p4);
    FieldsCompose(b0, p1 + p2 + p3 + p4, p5);
    FieldsCompose(b0, p1 + p2 + p3 + p4 + p5, p6);
    FieldsCompose(b0, p1 + p2 + p3 + p4 + p5 + p6, p7);
  }

  lemma {:induction false} AllAreTokens(pieces: seq<(string, string)>, more: seq<(string, string)>)
    requires forall i :: 0 <= i < |pieces| ==> IsKey(pieces[i].0) && Token(pieces[i].1)
    requires forall i :: 0 <= i < |more| ==> IsKey(more[i].0) && Token(more[i].1)
    ensures forall i :: 0 <= i < |pieces + more| ==> IsKey((pieces + more)[i].0) && Token((pieces + more)[i].1)
  {
    hide IsKey, Token;
  }

  lemma FirstKeys()
    ensures IsKey("capability") && IsKey("authority_level") && IsKey("constraint")
  {}

  lemma LastKeys()
    ensures IsKey("forbidden_classes") && IsKey("requires_approval") && IsKey("parent") && IsKey("on_violation")
  {}

  lemma DispositionIsToken(d: Disposition)
    ensures Token(DispositionText(d))
  {}

  lemma FieldsAreTokens(l: LawSpec)
    requires Plain(l)
    ensures forall i :: 0 <= i < |Fields(l)| ==> IsKey(Fields(l)[i].0) && Token(Fields(l)[i].1)
  {
    hide IsKey, Token, IntText, JoinCommas, IsHeader, IsItem, ParseConstraint, DispositionText;
    FirstKeys();
    LastKeys();
    IntIsToken(Or(l.authority, 0));
    if l.forbidden != [] { JoinedIsToken(l.forbidden); }
    DispositionIsToken(Or(l.disposition, BlockIt));
    var f1 := [("capability", l.capability)];
    var p2 := Optional(l.authority.Some?, ("authority_level", IntText(Or(l.authority, 0))));
    var p3 := Optional(l.constraint.Some?, ("constraint", Or(l.constraint, "")));
    var p4 := Optional(l.forbidden != [], ("forbidden_classes", JoinCommas(l.forbidden)));
    var p5 := Optional(Truthy(l.requiresApproval), ("requires_approval", Or(l.requiresApproval, "")));
    var p6 := Optional(Truthy(l.parent), ("parent", Or(l.parent, "")));
    AllAreTokens(f1, p2);
    AllAreTokens(f1 + p2, p3);
    AllAreTokens(f1 + p2 + p3, p4);
    AllAreTokens(f1 + p2 + p3 + p4, p5);
    AllAreTokens(f1 + p2 + p3 + p4 + p5, p6);
    AllAreTokens(f1 + p2 + p3 + p4 + p5 + p6, [("on_violation", DispositionText(Or(l.disposition, BlockIt)))]);
  }

  lemma HeaderReads(r: Reading, id: string, no: nat)
    requires IsHeader(id) && Token(id) && Close(r).Ok?
    ensures ReadLine(r, id, no) == Ok(Reading(Close(r).value, Some(NewBlock(id, no))))
  {
    StripTrims(id);
    assert id[0] != '#' by { assert LoweredAscii(id[..4])[0] == 'l'; }
    hide Close;
  }

  /** A printed law closes the block before it and leaves its own. */
  lemma LawReads(r: Reading, l: LawSpec, no: nat)
    requires Plain(l) && Close(r).Ok?
    ensures ReadLines(r, LawLines(l), no) == Ok(Reading(Close(r).value, Some(BlockOf(l, no))))
  {
    hide WithFields, Fields, Close, FieldLines, Token, IsHeader, ReadLine, BlockOf;
    HeaderReads(r, l.id, no);
    FieldsAreTokens(l);
    FieldsMakeBlock(l, no);
    FieldLinesRead(Reading(Close(r).value, Some(NewBlock(l.id, no))), Fields(l), no + 1);
    assert LawLines(l)[0] == l.id && LawLines(l)[1..] == FieldLines(Fields(l));
  }

  lemma BlockMakesRule(l: LawSpec, no: nat)
    requires Plain(l)
    ensures Finalized(BlockOf(l, no)) == Ok(RuleOf(l))
  {
    hide Members, ParseConstraint, Token, IsHeader;
    assert l.forbidden == [] ==> Members(l.forbidden) == {} by { NoMembers(); }
  }

  lemma NoMembers()
    ensures Members([]) == {}
  {}

  function RulesOf(laws: seq<LawSpec>): seq<Rule>
    requires forall i :: 0 <= i < |laws| ==> Plain(laws[i])
  {
    seq(|laws|, i requires 0 <= i < |laws| => RuleOf(laws[i]))
  }

  lemma {:induction false} LawsRead(laws: seq<LawSpec>)
    requires forall i :: 0 <= i < |laws| ==> Plain(laws[i])
    ensures var read := ReadLines(Reading([], None), AllLines(laws), 1);
            read.Ok? && Close(read.value) == Ok(RulesOf(laws))
  {
    hide Plain, RuleOf, LawLines, ReadLine;
    if laws == [] {
      assert RulesOf(laws) == [];
    } else {
      var front, last := laws[..|laws| - 1], laws[|laws| - 1];
      LawsRead(front);
      ReadingComposes(Reading([], None), AllLines(front), LawLines(last), 1);
      var r := ReadLines(Reading([], None), AllLines(front), 1).value;
      LawReads(r, last, 1 + |AllLines(front)|);
      BlockMakesRule(last, 1 + |AllLines(front)|);
      assert RulesOf(laws) == RulesOf(front) + [RuleOf(last)];
    }
  }

  lemma {:induction false} JoinSplits(a: seq<string>, b: seq<string>)
    requires a != [] && b != []
    ensures JoinLines(a + b) == JoinLines(a) + "\n" + JoinLines(b)
    decreases |a|
  {
    if |a| == 1 {
      assert (a + b)[0] == a[0] && (a + b)[1..] == b;
    } else {
      JoinSplits(a[1..], b);
      assert (a + b)[0] == a[0] && (a + b)[1..] == a[1..] + b;
      assert a[0] + "\n" + (JoinLines(a[1..]) + "\n" + JoinLines(b)) == a[0] + "\n" + JoinLines(a[1..]) + "\n" + JoinLines(b);
    }
  }

  lemma {:induction false} BlocksFlatten(laws: seq<LawSpec>)
    requires laws != []
    ensures JoinLines(Blocks(laws)) == JoinLines(AllLines(laws)) && AllLines(laws) != []
  {
    hide FieldLines, Fields;
    var front, last := laws[..|laws| - 1], laws[|laws| - 1];
    assert LawLines(last) != [];
    assert Blocks(laws) == Blocks(front) + [JoinLines(LawLines(last))];
    if front == [] {
      assert Blocks(front) == [] && AllLines(front) == [];
      assert AllLines(laws) == LawLines(last) && Blocks(laws) == [JoinLines(LawLines(last))];
    } else {
      BlocksFlatten(front);
      assert Blocks(front) != [];
      JoinSplits(Blocks(front), [JoinLines(LawLines(last))]);
      JoinSplits(AllLines(front), LawLines(last));
    }
  }

  lemma FieldIsLine(f: (string, string))
    requires IsKey(f.0) && Token(f.1)
    ensures OneLine(FieldLine(f)) && FieldLine(f) != []
  {
    KeyIsPlain(f.0);
    hide IsKey;
  }

  lemma LawLinesAreLines(l: LawSpec)
    requires Plain(l)
    ensures forall i :: 0 <= i < |LawLines(l)| ==> OneLine(LawLines(l)[i]) && LawLines(l)[i] != []
  {
    assert OneLine(l.id) && l.id != [];
    FieldsAreTokens(l);
    hide Plain, Fields, OneLine, FieldLine, FieldLines, LawLines, IsKey, Token;
    var fields, lines := Fields(l), LawLines(l);
    HeadedLines(l);
    forall i | 0 <= i < |fields| ensures OneLine(FieldLine(fields[i])) && FieldLine(fields[i]) != [] { FieldIsLine(fields[i]); }
    forall i | 0 <= i < |lines| ensures OneLine(lines[i]) && lines[i] != [] {
      if i > 0 { assert lines[i] == FieldLine(fields[i - 1]); }
    }
  }

  lemma HeadedLines(l: LawSpec)
    ensures |LawLines(l)| == |Fields(l)| + 1 && LawLines(l)[0] == l.id
    ensures forall i :: 0 < i < |LawLines(l)| ==> LawLines(l)[i] == FieldLine(Fields(l)[i - 1])
  {
    hide Fields, FieldLine;
  }

  lemma {:induction false} LinesAreLines(laws: seq<LawSpec>)
    requires forall i :: 0 <= i < |laws| ==> Plain(laws[i])
    ensures forall i :: 0 <= i < |AllLines(laws)| ==> OneLine(AllLines(laws)[i]) && AllLines(laws)[i] != []
  {
    hide Plain, OneLine, LawLines;
    if laws != [] {
      LinesAreLines(laws[..|laws| - 1]);
      LawLinesAreLines(laws[|laws| - 1]);
    }
  }

  /** The parser reads back what the printer writes: for plain laws with distinct ids,
      the rules they state, in their order, with the defaults filled in. */
  lemma LawTextRoundTrip(laws: seq<LawSpec>)
    requires laws != [] && forall i :: 0 <= i < |laws| ==> Plain(laws[i])
    requires forall i, j :: 0 <= i < j < |laws| ==> laws[i].id != laws[j].id
    ensures Parsed(JoinLines(Blocks(laws))) == Ok(RulesOf(laws))
  {
    hide Plain, ReadLines, SplitLines, JoinLines, AllLines, Blocks, OneLine;
    BlocksFlatten(laws);
    LinesAreLines(laws);
    SplitJoined(AllLines(laws));
    LawsRead(laws);
  }

  // ------------------------------------------------------------- constraints

  /** A word that the shell rules leave alone. */
  predicate PlainWord(s: string) {
    s != [] && forall i :: 0 <= i < |s| ==> !IsBlank(s[i]) && !IsQuote(s[i]) && s[i] != '\\' && !IsSpace(s[i])
  }

  lemma {:induction false} WordContinues(s: string, rest: string, word: string)
    requires (forall i :: 0 <= i < |s| ==> !IsBlank(s[i]) && !IsQuote(s[i]) && s[i] != '\\')
    ensures ShellSplit(s + rest, InWord, word, false) == ShellSplit(rest, InWord, word + s, false)
    decreases |s|
  {
    if s == [] {
      assert s + rest == rest && word + s == word;
    } else {
      assert (s + rest)[0] == s[0] && (s + rest)[1..] == s[1..] + rest;
      WordContinues(s[1..], rest, word + [s[0]]);
      assert word + [s[0]] + s[1..] == word + s;
    }
  }

  lemma WordIsRead(s: string, rest: string)
    requires PlainWord(s)
    ensures ShellSplit(s + rest, Between, [], false) == ShellSplit(rest, InWord, s, false)
  {
    assert (s + rest)[0] == s[0] && (s + rest)[1..] == s[1..] + rest;
    WordContinues(s[1..], rest, [s[0]]);
    assert [s[0]] + s[1..] == s;
  }

  lemma ThreeWords(a: string, b: string, c: string)
    requires PlainWord(a) && PlainWord(b) && PlainWord(c)
    ensures ShellSplit(a + (" " + (b + (" " + c))), Between, [], false) == Some([a, b, c])
  {
    hide PlainWord, ShellSplit;
    Nonempty(a);
    Nonempty(b);
    Nonempty(c);
    var second := b + (" " + c);
    WordIsRead(a, " " + second);
    WordEnds(a, second);
    WordIsRead(b, " " + c);
    WordEnds(b, c);
    WordIsRead(c, []);
    assert c + [] == c;
    LastWord(c);
    assert [b] + [c] == [b, c] && [a] + [b, c] == [a, b, c];
  }

  lemma WordEnds(word: string, rest: string)
    requires word != []
    ensures var more := ShellSplit(rest, Between, [], false);
            ShellSplit(" " + rest, InWord, word, false) == if more.None? then None else Some([word] + more.value)
  {
    assert (" " + rest)[0] == ' ' && (" " + rest)[1..] == rest;
  }

  lemma LastWord(word: string)
    requires word != []
    ensures ShellSplit([], InWord, word, false) == Some([word])
  {}

  lemma Nonempty(s: string)
    requires PlainWord(s)
    ensures s != []
  {}

  function OperatorText(op: Comparison): string {
    match op
    case Le => "<="
    case Ge => ">="
    case Lt => "<"
    case Gt => ">"
    case Eq => "=="
    case Ne => "!="
  }

  function ConstraintText(field: string, op: Comparison, threshold: string): string {
    field + (" " + (OperatorText(op) + (" " + threshold)))
  }

  lemma OperatorReads(op: Comparison)
    ensures PlainWord(OperatorText(op)) && ParseOperator(OperatorText(op)) == Some(op)
  {}

  lemma ConstraintIsTrimmed(field: string, op: Comparison, threshold: string)
    requires PlainWord(field) && PlainWord(threshold)
    ensures Strip(ConstraintText(field, op, threshold)) == ConstraintText(field, op, threshold)
  {
    hide OperatorText;
    var text := ConstraintText(field, op, threshold);
    assert text[0] == field[0] && text[|text| - 1] == threshold[|threshold| - 1];
    StripTrims(text);
    hide Strip;
  }

  /** The text of a comparison states it: with a number its value, otherwise the word. */
  lemma ConstraintRoundTrip(field: string, op: Comparison, threshold: string)
    requires PlainWord(field) && PlainWord(threshold)
    ensures ParseConstraint(ConstraintText(field, op, threshold))
         == Ok(PredicateSpec(field, op, if ParseNumber(threshold).Some? then Number(ParseNumber(threshold).value) else Words(threshold)))
  {
    OperatorReads(op);
    ConstraintIsTrimmed(field, op, threshold);
    ThreeWords(field, OperatorText(op), threshold);
    assert threshold != [];
    hide ParseNumber, ParseOperator, OperatorText, ShellSplit, PlainWord, Strip;
  }

  lemma WholeThresholdRoundTrip(field: string, op: Comparison, n: int)
    requires PlainWord(field)
    ensures ParseConstraint(ConstraintText(field, op, IntText(n))) == Ok(PredicateSpec(field, op, Number(n as real)))
  {
    var t := IntText(n);
    if n < 0 { DecimalRoundTrip(-n); } else { DecimalRoundTrip(n); }
    assert forall i :: 0 <= i < |t| ==> t[i] == '-' || IsDigit(t[i]);
    assert PlainWord(t);
    ConstraintRoundTrip(field, op, t);
    WholeNumber(n);
    hide ParseConstraint, ConstraintText;
  }

  lemma NoPoint(digits: string)
    requires IsDigits(digits)
    ensures digits != [] && Find(digits, '.') == |digits| && digits[0] != '-' && digits[0] != '+'
  {
    assert forall i :: 0 <= i < |digits| ==> digits[i] != '.';
  }

  lemma DigitsAreMagnitude(digits: string)
    requires IsDigits(digits)
    ensures Magnitude(digits) == Some(ValueOf(digits) as real)
  {
    NoPoint(digits);
    hide IsDigits, Find, ValueOf, Tenth;
    assert digits[..|digits|] == digits;
  }

  lemma SignedMagnitude(body: string, size: real)
    requires body != [] && body[0] != '-' && body[0] != '+' && Magnitude(body) == Some(size)
    ensures ParseNumber(body) == Some(size) && ParseNumber("-" + body) == Some(-size)
  {
    hide Magnitude;
    var negative := "-" + body;
    assert negative[0] == '-' && negative[1..] == body;
  }

  lemma WholeNumber(n: int)
    ensures ParseNumber(IntText(n)) == Some(n as real)
  {
    var m: nat := if n < 0 then -n else n;
    DecimalRoundTrip(m);
    NoPoint(Decimal(m));
    hide Decimal, IsDigits, ValueOf, ParseNumber, Magnitude, Find;
    DigitsAreMagnitude(Decimal(m));
    SignedMagnitude(Decimal(m), m as real);
    assert n < 0 ==> -(m as real) == n as real;
  }
}
