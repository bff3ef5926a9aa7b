/** Law text in plain terms: which lines make up a law, what its fields state, and what is
    refused, for every text (governance/parser.py). */
module PlainLaws {
  import opened Text
  import opened LawText
  import opened Rules
  import opened Parser
  import opened PlainValues
  import Composition

  // ------------------------------------------------------------------- fields

  /** The last value that is given under one of the keys. */
  function LastOf(entries: seq<(string, string)>, keys: set<string>): Option<string> {
    if entries == [] then None
    else if entries[|entries| - 1].0 in keys then Some(entries[|entries| - 1].1)
    else LastOf(entries[..|entries| - 1], keys)
  }

  predicate Mentions(entries: seq<(string, string)>, key: string) { exists i :: 0 <= i < |entries| && entries[i].0 == key }

  /** A disposition in any case, for which Python takes the Kelvin sign for a `k`. */
  predicate SpellsDisposition(s: string, d: Disposition) {
    var word := match d case BlockIt => "block" case EscalateIt => "escalate";
    && |s| == |word|
    && forall i :: 0 <= i < |s| ==>
         s[i] == word[i] || ('A' <= s[i] <= 'Z' && s[i] as int + 32 == word[i] as int) || (s[i] == '\U{212A}' && word[i] == 'k')
  }

  lemma DispositionExactly(s: string)
    ensures SpellsDisposition(s, BlockIt) <==> Lowered(s) == "block"
    ensures SpellsDisposition(s, EscalateIt) <==> Lowered(s) == "escalate"
  {
    LoweredIs(s, "block");
    LoweredIs(s, "escalate");
  }

  lemma LoweredIs(s: string, word: string)
    requires forall i :: 0 <= i < |word| ==> 'a' <= word[i] <= 'z'
    ensures Lowered(s) == word <==>
              && |s| == |word|
              && forall i :: 0 <= i < |s| ==>
                   s[i] == word[i] || ('A' <= s[i] <= 'Z' && s[i] as int + 32 == word[i] as int) || (s[i] == '\U{212A}' && word[i] == 'k')
  {
    if Lowered(s) == word {
      assert forall i :: 0 <= i < |s| ==> Lowered(s)[i] == word[i];
    }
  }

  /** The fault of one more field after those before it, if it has one. */
  ghost predicate IsFault(before: seq<(string, string)>, key: string, value: string, fault: Fault) {
    if key == "authority_level" then fault == BadAuthority && forall n :: !SpellsLevel(value, n)
    else if key == "constraint" then ParseConstraint(value) == Err(fault)
    else if key == "requires_approval" then fault == ExclusiveApproval && Mentions(before, "approval_policy")
    else if key == "approval_policy" then
      if Mentions(before, "requires_approval") || Mentions(before, "approval_policy") then fault == ExclusiveApproval
      else fault == BadPolicy && ParsePolicy(value) == None
    else if key == "on_violation" then fault == BadDisposition && forall d :: !SpellsDisposition(value, d)
    else fault == UnknownField && key != "capability" && key != "forbidden_classes" && key != "parent" && key != "inherits"
  }

  ghost predicate IsFine(before: seq<(string, string)>, key: string, value: string) { forall fault :: !IsFault(before, key, value, fault) }

  ghost predicate AllFine(entries: seq<(string, string)>) {
    forall i {:trigger entries[i]} :: 0 <= i < |entries| ==> IsFine(entries[..i], entries[i].0, entries[i].1)
  }

  ghost predicate StatesLevel(level: Option<int>, v: Option<string>) {
    match v
    case Some(s) => level.Some? && SpellsLevel(s, level.value)
    case None => level == None
  }

  predicate StatesCondition(condition: Option<PredicateSpec>, v: Option<string>) {
    match v
    case Some(s) => condition.Some? && ParseConstraint(s) == Ok(condition.value)
    case None => condition == None
  }

  predicate StatesClasses(classes: Option<set<string>>, v: Option<string>) {
    match v
    case Some(s) => classes.Some? && classes.value == Members(Parts(SplitCommas(s)))
    case None => classes == None
  }

  predicate StatesPolicy(requirement: Option<ApprovalRequirement>, v: Option<string>) {
    match v
    case Some(s) => requirement.Some? && ParsePolicy(s) == requirement
    case None => requirement == None
  }

  predicate StatesDisposition(disposition: Option<Disposition>, v: Option<string>) {
    match v
    case Some(s) => disposition.Some? && SpellsDisposition(s, disposition.value)
    case None => disposition == None
  }

  /** The block states the last value of every field. */
  ghost predicate States(b: LawBlock, id: string, line: nat, entries: seq<(string, string)>) {
    && b.id == id && b.line == line
    && b.capability == LastOf(entries, {"capability"})
    && StatesLevel(b.minAuthority, LastOf(entries, {"authority_level"}))
    && StatesCondition(b.condition, LastOf(entries, {"constraint"}))
    && StatesClasses(b.forbidden, LastOf(entries, {"forbidden_classes"}))
    && b.requiresApproval == LastOf(entries, {"requires_approval"})
    && StatesPolicy(b.requirement, LastOf(entries, {"approval_policy"}))
    && StatesDisposition(b.disposition, LastOf(entries, {"on_violation"}))
    && b.parent == LastOf(entries, {"parent", "inherits"})
  }

  lemma {:induction false} MentionedIsLast(entries: seq<(string, string)>, key: string)
    ensures Mentions(entries, key) <==> LastOf(entries, {key}).Some?
  {
    if entries != [] {
      var front := entries[..|entries| - 1];
      MentionedIsLast(front, key);
      if Mentions(front, key) {
        var i :| 0 <= i < |front| && front[i].0 == key;
        assert entries[i].0 == key;
      }
      if entries[|entries| - 1].0 != key && Mentions(entries, key) {
        var i :| 0 <= i < |entries| && entries[i].0 == key;
        assert front[i].0 == key;
      }
    }
  }

  lemma LastOfMore(before: seq<(string, string)>, key: string, value: string, keys: set<string>)
    ensures LastOf(before + [(key, value)], keys) == if key in keys then Some(value) else LastOf(before, keys)
  {
    assert (before + [(key, value)])[..|before|] == before;
  }

  lemma ApprovalsMentioned(b: LawBlock, id: string, line: nat, before: seq<(string, string)>)
    requires States(b, id, line, before)
    ensures b.requirement.Some? <==> Mentions(before, "approval_policy")
    ensures b.requiresApproval.Some? <==> Mentions(before, "requires_approval")
  {
    MentionedIsLast(before, "approval_policy");
    MentionedIsLast(before, "requires_approval");
    hide LastOf, Mentions, StatesLevel, StatesCondition, StatesClasses, StatesDisposition, ParsePolicy;
  }

  lemma ValuesAreSpelled(value: string)
    ensures ParseAuthority(value).Some? ==> StatesLevel(ParseAuthority(value), Some(value))
    ensures ParseAuthority(value).None? ==> forall n :: !SpellsLevel(value, n)
    ensures ParseConstraint(value).Ok? ==> StatesCondition(Some(ParseConstraint(value).value), Some(value))
    ensures StatesClasses(Some(Members(Parts(SplitCommas(value)))), Some(value))
    ensures ParsePolicy(value).Some? ==> StatesPolicy(ParsePolicy(value), Some(value))
  {
    if ParseAuthority(value).Some? { LevelExactly(value, ParseAuthority(value).value); }
    forall n ensures ParseAuthority(value) == Some(n) <==> SpellsLevel(value, n) { LevelExactly(value, n); }
    hide ParseAuthority, SpellsLevel, ParseConstraint, ParsePolicy, Parts, SplitCommas;
  }

  lemma DispositionIsSpelled(value: string)
    ensures Lowered(value) == "block" ==> StatesDisposition(Some(BlockIt), Some(value))
    ensures Lowered(value) == "escalate" ==> StatesDisposition(Some(EscalateIt), Some(value))
    ensures Lowered(value) != "block" && Lowered(value) != "escalate" <==> forall d :: !SpellsDisposition(value, d)
  {
    DispositionExactly(value);
    hide Lowered, SpellsDisposition;
    forall d ensures SpellsDisposition(value, d) ==> Lowered(value) == "block" || Lowered(value) == "escalate" {
      match d
      case BlockIt =>
      case EscalateIt =>
    }
  }

  lemma FieldIsFaulted(b: LawBlock, id: string, line: nat, before: seq<(string, string)>, key: string, value: string)
    requires States(b, id, line, before)
    ensures WithField(b, key, value).Err? ==> IsFault(before, key, value, WithField(b, key, value).error)
  {
    ApprovalsMentioned(b, id, line, before);
    DispositionIsSpelled(value);
    if ParseAuthority(value).None? { forall n ensures !SpellsLevel(value, n) { LevelExactly(value, n); } }
    hide States, Mentions, ParseAuthority, SpellsLevel, ParseConstraint, ParsePolicy, SpellsDisposition, Lowered, Parts, SplitCommas;
    hide StatesLevel, StatesCondition, StatesClasses, StatesPolicy, StatesDisposition;
  }

  lemma FieldIsFine(b: LawBlock, id: string, line: nat, before: seq<(string, string)>, key: string, value: string)
    requires States(b, id, line, before) && WithField(b, key, value).Ok?
    ensures IsFine(before, key, value)
  {
    ApprovalsMentioned(b, id, line, before);
    DispositionIsSpelled(value);
    if ParseAuthority(value).Some? { LevelExactly(value, ParseAuthority(value).value); }
    hide States, Mentions, ParseAuthority, SpellsLevel, ParseConstraint, ParsePolicy, SpellsDisposition, Lowered, Parts, SplitCommas;
    hide StatesDisposition;
  }

  lemma FieldIsStated(b: LawBlock, id: string, line: nat, before: seq<(string, string)>, key: string, value: string)
    requires States(b, id, line, before) && WithField(b, key, value).Ok?
    ensures States(WithField(b, key, value).value, id, line, before + [(key, value)])
  {
    ValuesAreSpelled(value);
    DispositionIsSpelled(value);
    LastOfMore(before, key, value, {"capability"});
    LastOfMore(before, key, value, {"authority_level"});
    LastOfMore(before, key, value, {"constraint"});
    LastOfMore(before, key, value, {"forbidden_classes"});
    LastOfMore(before, key, value, {"requires_approval"});
    LastOfMore(before, key, value, {"approval_policy"});
    LastOfMore(before, key, value, {"on_violation"});
    LastOfMore(before, key, value, {"parent", "inherits"});
    hide ParseAuthority, SpellsLevel, ParseConstraint, ParsePolicy, SpellsDisposition, Lowered, Parts, SplitCommas, LastOf, Members;
    hide StatesLevel, StatesCondition, StatesClasses, StatesPolicy, StatesDisposition;
  }

  /** One more field: refused for its fault, or stated. */
  lemma FieldInPlainTerms(b: LawBlock, id: string, line: nat, before: seq<(string, string)>, key: string, value: string)
    requires States(b, id, line, before)
    ensures var next := WithField(b, key, value);
            && (next.Err? <==> !IsFine(before, key, value))
            && (next.Err? ==> IsFault(before, key, value, next.error))
            && (next.Ok? ==> States(next.value, id, line, before + [(key, value)]))
  {
    FieldIsFaulted(b, id, line, before, key, value);
    if WithField(b, key, value).Ok? {
      FieldIsFine(b, id, line, before, key, value);
      FieldIsStated(b, id, line, before, key, value);
    }
    hide WithField, States, IsFault;
  }

  // -------------------------------------------------------------------- lines

  predicate IsNoise(raw: string) { Strip(raw) == "" || Strip(raw)[0] == '#' }

  /** A line that starts with `law-` in any case begins a law, whose id is the whole line. */
  predicate IsHead(raw: string, id: string) {
    !IsNoise(raw) && id == Strip(raw) && |id| >= 4 && SpellsKeyword(id[..4], "law-")
  }

  /** A field: what comes before the first colon, and what comes after it. */
  ghost predicate IsField(raw: string, key: string, value: string) {
    && !IsNoise(raw) && !IsHead(raw, Strip(raw))
    && exists left, right :: IsCut(Strip(raw), left, right) && Strip(left) == key && Strip(right) == value
  }

  predicate IsCut(line: string, left: string, right: string) { line == left + ":" + right && ':' !in left }

  /** A law as it is written: its id, the line on which it begins, and its fields. */
  datatype Block = Block(id: string, line: nat, entries: seq<(string, string)>)

  function WithEntry(b: Block, key: string, value: string): Block { b.(entries := b.entries + [(key, value)]) }

  /** The lines make up these laws: every line is noise, begins a law, or adds a field to
      the law that was begun last. */
  ghost predicate Lays(lines: seq<string>, blocks: seq<Block>) {
    if lines == [] then blocks == []
    else
      var front, raw := lines[..|lines| - 1], lines[|lines| - 1];
      if IsNoise(raw) then Lays(front, blocks)
      else
        && blocks != []
        && var laid, last := blocks[..|blocks| - 1], blocks[|blocks| - 1];
           if IsHead(raw, Strip(raw)) then last == Block(Strip(raw), |lines|, []) && Lays(front, laid)
           else exists key, value, b :: IsField(raw, key, value) && last == WithEntry(b, key, value) && Lays(front, laid + [b])
  }

  lemma FieldExactly(raw: string, key: string, value: string)
    requires IsField(raw, key, value)
    ensures var line := Strip(raw);
            var k := Find(line, ':');
            && line != [] && line[0] != '#' && !IsHeader(line)
            && k < |line| && key == Strip(line[..k]) && value == Strip(line[k + 1..])
  {
    var line := Strip(raw);
    var left, right :| IsCut(line, left, right) && Strip(left) == key && Strip(right) == value;
    assert line == left + (":" + right) && line[|left|] == ':';
    FindIs(line, ':', |left|);
    assert line[..|left|] == left && line[|left| + 1..] == right;
    HeadExactly(raw);
    hide Strip, StartsWith;
  }

  lemma HeadExactly(raw: string)
    ensures !IsNoise(raw) ==> (IsHead(raw, Strip(raw)) <==> IsHeader(Strip(raw)))
  {
    var line := Strip(raw);
    if |line| >= 4 { KeywordExactly(line[..4], "law-"); }
    hide Strip, SpellsKeyword;
  }

  lemma FieldFound(raw: string)
    requires !IsNoise(raw) && !IsHead(raw, Strip(raw)) && Find(Strip(raw), ':') < |Strip(raw)|
    ensures var line := Strip(raw);
            var k := Find(line, ':');
            IsField(raw, Strip(line[..k]), Strip(line[k + 1..]))
  {
    var line := Strip(raw);
    var k := Find(line, ':');
    assert line == line[..k] + ":" + line[k + 1..];
    assert IsCut(line, line[..k], line[k + 1..]);
    hide Strip, IsHead;
  }

  // -------------------------------------------------------------------- laws

  /** The rule that a law makes: its id, and the last value of every field, with the
      defaults for those that are not given. */
  ghost predicate Makes(r: Rule, b: Block) {
    && r.id == b.id && LastOf(b.entries, {"capability"}) == Some(r.capability)
    && (match LastOf(b.entries, {"authority_level"})
        case Some(v) => SpellsLevel(v, r.minAuthority)
        case None => r.minAuthority == 0)
    && (match LastOf(b.entries, {"on_violation"})
        case Some(v) => SpellsDisposition(v, r.disposition)
        case None => r.disposition == BlockIt)
    && r.forbidden == (match LastOf(b.entries, {"forbidden_classes"})
                       case Some(v) => Members(Parts(SplitCommas(v)))
                       case None => {})
    && StatesCondition(r.condition, LastOf(b.entries, {"constraint"}))
    && r.requiresApproval == LastOf(b.entries, {"requires_approval"})
    && StatesPolicy(r.requirement, LastOf(b.entries, {"approval_policy"}))
    && r.parent == LastOf(b.entries, {"parent", "inherits"})
  }

  predicate IsComplete(b: Block) { LastOf(b.entries, {"capability"}).Some? }

  lemma FinalizedMakes(b: LawBlock, block: Block)
    requires States(b, block.id, block.line, block.entries)
    ensures Finalized(b).Ok? <==> IsComplete(block)
    ensures Finalized(b).Ok? ==> Makes(Finalized(b).value, block)
    ensures Finalized(b).Err? ==> Finalized(b).error == ParseError(block.line, NoCapability)
  {
    hide LastOf, SpellsLevel, SpellsDisposition, Members, Parts, SplitCommas, ParsePolicy, ParseConstraint;
  }

  /** What has been read shows these laws: the rules of all but the last, and that one open. */
  ghost predicate Shows(r: Reading, blocks: seq<Block>) {
    if blocks == [] then r == Reading([], None)
    else
      var last := blocks[|blocks| - 1];
      && |r.rules| == |blocks| - 1 && (forall i :: 0 <= i < |r.rules| ==> Makes(r.rules[i], blocks[i]))
      && r.current.Some? && States(r.current.value, last.id, last.line, last.entries)
  }

  lemma ClosingMakes(r: Reading, blocks: seq<Block>)
    requires Shows(r, blocks)
    ensures blocks == [] || IsComplete(blocks[|blocks| - 1])
            ==> && Close(r).Ok? && |Close(r).value| == |blocks| && forall i :: 0 <= i < |blocks| ==> Makes(Close(r).value[i], blocks[i])
    ensures blocks != [] && !IsComplete(blocks[|blocks| - 1]) ==> Close(r) == Err(ParseError(blocks[|blocks| - 1].line, NoCapability))
  {
    if blocks != [] { FinalizedMakes(r.current.value, blocks[|blocks| - 1]); }
    hide Finalized, Makes, States, IsComplete;
  }

  lemma HeadShows(r: Reading, blocks: seq<Block>, raw: string, no: nat)
    requires Shows(r, blocks) && IsHead(raw, Strip(raw))
    ensures var next := ReadLine(r, raw, no);
            if blocks != [] && !IsComplete(blocks[|blocks| - 1]) then next == Err(ParseError(blocks[|blocks| - 1].line, NoCapability))
            else next.Ok? && Shows(next.value, blocks + [Block(Strip(raw), no, [])])
  {
    HeadExactly(raw);
    ClosingMakes(r, blocks);
    hide Strip, StartsWith, SpellsKeyword, Close, Makes, IsComplete;
    assert States(NewBlock(Strip(raw), no), Strip(raw), no, []);
    hide States;
  }

  lemma StrayIsRefused(r: Reading, blocks: seq<Block>, raw: string, no: nat)
    requires Shows(r, blocks) && !IsNoise(raw) && !IsHead(raw, Strip(raw))
    ensures blocks == [] ==> ReadLine(r, raw, no) == Err(ParseError(no, OutsideBlock))
    ensures blocks != [] && ':' !in Strip(raw) ==> ReadLine(r, raw, no) == Err(ParseError(no, NoColon))
  {
    HeadExactly(raw);
    hide Strip, IsHead, StartsWith, States, Makes, WithField;
  }

  lemma FieldShows(r: Reading, blocks: seq<Block>, raw: string, no: nat, key: string, value: string)
    requires Shows(r, blocks) && blocks != [] && IsField(raw, key, value)
    ensures var next, last := ReadLine(r, raw, no), blocks[|blocks| - 1];
            if IsFine(last.entries, key, value) then next.Ok? && Shows(next.value, blocks[..|blocks| - 1] + [WithEntry(last, key, value)])
            else next.Err? && next.error.line == no && IsFault(last.entries, key, value, next.error.fault)
  {
    FieldIsRead(r, raw, no, key, value);
    var last := blocks[|blocks| - 1];
    FieldInPlainTerms(r.current.value, last.id, last.line, last.entries, key, value);
    hide ReadLine, IsField, States, Makes, WithField, IsFine, IsFault;
    var block := WithField(r.current.value, key, value);
    if block.Ok? { LastShows(r, blocks, block.value, WithEntry(last, key, value)); }
    hide Shows;
  }

  lemma LastShows(r: Reading, blocks: seq<Block>, b: LawBlock, last: Block)
    requires Shows(r, blocks) && blocks != [] && States(b, last.id, last.line, last.entries)
    ensures Shows(r.(current := Some(b)), blocks[..|blocks| - 1] + [last])
  {
    hide States, Makes;
  }

  lemma FieldIsRead(r: Reading, raw: string, no: nat, key: string, value: string)
    requires r.current.Some? && IsField(raw, key, value)
    ensures var block := WithField(r.current.value, key, value);
            ReadLine(r, raw, no) == if block.Err? then Err(ParseError(no, block.error)) else Ok(r.(current := Some(block.value)))
  {
    FieldExactly(raw, key, value);
    hide Strip, IsField, IsHeader, WithField, Find, Close;
  }

  /** All fields are fine, and every law but the last has a capability. */
  ghost predicate Fits(blocks: seq<Block>) {
    && (forall i :: 0 <= i < |blocks| ==> AllFine(blocks[i].entries))
    && (forall i :: 0 <= i < |blocks| - 1 ==> IsComplete(blocks[i]))
  }

  lemma FineEntries(entries: seq<(string, string)>, key: string, value: string)
    ensures AllFine(entries + [(key, value)]) <==> AllFine(entries) && IsFine(entries, key, value)
  {
    hide IsFine;
    var more := entries + [(key, value)];
    assert more[..|entries|] == entries && more[|entries|] == (key, value);
    forall i | 0 <= i < |entries| ensures more[..i] == entries[..i] && more[i] == entries[i] {}
    if AllFine(entries + [(key, value)]) {
      assert IsFine(more[..|entries|], more[|entries|].0, more[|entries|].1);
      forall i | 0 <= i < |entries| ensures IsFine(entries[..i], entries[i].0, entries[i].1) { assert more[i] == entries[i] && more[..i] == entries[..i]; }
    }
  }

  /** Laws that were laid out and fit are read. */
  lemma {:induction false} LaidIsRead(lines: seq<string>, blocks: seq<Block>)
    requires Lays(lines, blocks) && Fits(blocks)
    ensures var read := ReadLines(Reading([], None), lines, 1); read.Ok? && Shows(read.value, blocks)
    decreases |lines|
  {
    if lines != [] {
      var front, raw := lines[..|lines| - 1], lines[|lines| - 1];
      assert lines == front + [raw];
      ReadingContinues(front, raw);
      hide Makes, States, IsFine, ReadLine, IsComplete, ReadLines;
      if IsNoise(raw) {
        LaidIsRead(front, blocks);
        NoiseIsSkipped(ReadLines(Reading([], None), front, 1).value, raw, |lines|);
      } else {
        var laid, last := blocks[..|blocks| - 1], blocks[|blocks| - 1];
        if IsHead(raw, Strip(raw)) {
          assert blocks == laid + [last];
          LaidIsRead(front, laid);
          HeadShows(ReadLines(Reading([], None), front, 1).value, laid, raw, |lines|);
        } else {
          var key, value, b :| IsField(raw, key, value) && last == WithEntry(b, key, value) && Lays(front, laid + [b]);
          FineEntries(b.entries, key, value);
          FitsBefore(laid, b, key, value, blocks);
          LaidIsRead(front, laid + [b]);
          FieldShows(ReadLines(Reading([], None), front, 1).value, laid + [b], raw, |lines|, key, value);
          assert (laid + [b])[..|laid|] == laid && blocks == laid + [last];
        }
      }
    }
  }

  lemma FitsBefore(laid: seq<Block>, b: Block, key: string, value: string, blocks: seq<Block>)
    requires blocks == laid + [WithEntry(b, key, value)] && Fits(blocks) && AllFine(b.entries)
    ensures Fits(laid + [b])
  {
    hide AllFine, IsComplete;
    forall i | 0 <= i < |laid| ensures AllFine(laid[i].entries) && IsComplete(laid[i]) { assert blocks[i] == laid[i]; }
  }

  lemma NoiseIsSkipped(r: Reading, raw: string, no: nat)
    requires IsNoise(raw)
    ensures ReadLine(r, raw, no) == Ok(r)
  {}

  lemma ReadingContinues(front: seq<string>, raw: string)
    ensures var read := ReadLines(Reading([], None), front, 1);
            ReadLines(Reading([], None), front + [raw], 1) == if read.Err? then read else ReadLine(read.value, raw, |front| + 1)
  {
    hide ReadLine;
    ReadingComposes(Reading([], None), front, [raw], 1);
    var read := ReadLines(Reading([], None), front, 1);
    if read.Ok? {
      var next := ReadLine(read.value, raw, |front| + 1);
      assert ReadLines(read.value, [raw], 1 + |front|) == if next.Err? then next else ReadLines(next.value, [], |front| + 2);
    }
  }

  /** The line that stops a reading of these laws, and its error. */
  ghost predicate IsRefusal(blocks: seq<Block>, raw: string, no: nat, e: ParseError) {
    && !IsNoise(raw)
    && if IsHead(raw, Strip(raw)) then blocks != [] && !IsComplete(blocks[|blocks| - 1]) && e == ParseError(blocks[|blocks| - 1].line, NoCapability)
       else if blocks == [] then e == ParseError(no, OutsideBlock)
       else if ':' !in Strip(raw) then e == ParseError(no, NoColon)
       else e.line == no && exists key, value :: IsField(raw, key, value) && IsFault(blocks[|blocks| - 1].entries, key, value, e.fault)
  }

  lemma HeadAfter(r: Reading, front: seq<string>, blocks: seq<Block>, raw: string) returns (more: seq<Block>)
    requires Lays(front, blocks) && Fits(blocks) && Shows(r, blocks) && IsHead(raw, Strip(raw))
    ensures var next := ReadLine(r, raw, |front| + 1);
            && (next.Ok? ==> Lays(front + [raw], more) && Fits(more) && Shows(next.value, more))
            && (next.Err? ==> IsRefusal(blocks, raw, |front| + 1, next.error))
  {
    HeadShows(r, blocks, raw, |front| + 1);
    more := blocks + [Block(Strip(raw), |front| + 1, [])];
    HeadLays(front, blocks, raw);
    hide Makes, States, IsComplete, ReadLine, Shows, Lays, Fits, Strip, SpellsKeyword;
    if blocks == [] || IsComplete(blocks[|blocks| - 1]) { HeadFits(blocks, Strip(raw), |front| + 1); }
  }

  lemma HeadLays(front: seq<string>, blocks: seq<Block>, raw: string)
    requires Lays(front, blocks) && IsHead(raw, Strip(raw))
    ensures Lays(front + [raw], blocks + [Block(Strip(raw), |front| + 1, [])]) && !IsNoise(raw)
  {
    var lines, more := front + [raw], blocks + [Block(Strip(raw), |front| + 1, [])];
    assert !IsNoise(raw) && lines[..|lines| - 1] == front && lines[|lines| - 1] == raw && more[..|more| - 1] == blocks;
    hide IsNoise, Strip, SpellsKeyword;
  }

  lemma HeadFits(blocks: seq<Block>, id: string, line: nat)
    requires Fits(blocks) && (blocks == [] || IsComplete(blocks[|blocks| - 1]))
    ensures Fits(blocks + [Block(id, line, [])])
  {
    assert AllFine([]);
    hide AllFine, IsComplete;
  }

  lemma FieldAfter(r: Reading, front: seq<string>, blocks: seq<Block>, raw: string) returns (more: seq<Block>)
    requires Lays(front, blocks) && Fits(blocks) && Shows(r, blocks)
    requires blocks != [] && !IsNoise(raw) && !IsHead(raw, Strip(raw)) && ':' in Strip(raw)
    ensures var next := ReadLine(r, raw, |front| + 1);
            && (next.Ok? ==> Lays(front + [raw], more) && Fits(more) && Shows(next.value, more))
            && (next.Err? ==> IsRefusal(blocks, raw, |front| + 1, next.error))
  {
    var key, value := FieldIn(raw);
    FieldShows(r, blocks, raw, |front| + 1, key, value);
    var laid, last := blocks[..|blocks| - 1], blocks[|blocks| - 1];
    more := laid + [WithEntry(last, key, value)];
    assert AllFine(last.entries);
    hide Makes, States, IsFine, IsComplete, ReadLine, IsFault, Lays, Shows, Strip, IsNoise, IsHead, IsField, Fits, AllFine;
    if IsFine(last.entries, key, value) {
      FineEntries(last.entries, key, value);
      FieldLays(front, blocks, raw, key, value);
      FitsAfter(blocks, key, value);
    }
  }

  /** One line after these laws. */
  lemma LineInPlainTerms(r: Reading, front: seq<string>, blocks: seq<Block>, raw: string) returns (more: seq<Block>)
    requires Lays(front, blocks) && Fits(blocks) && Shows(r, blocks)
    ensures var next := ReadLine(r, raw, |front| + 1);
            && (next.Ok? ==> Lays(front + [raw], more) && Fits(more) && Shows(next.value, more))
            && (next.Err? ==> IsRefusal(blocks, raw, |front| + 1, next.error))
  {
    more := blocks;
    hide Fits, Shows, IsFault, ReadLine, IsComplete;
    if IsNoise(raw) {
      NoiseIsSkipped(r, raw, |front| + 1);
      NoiseLays(front, blocks, raw);
    } else if IsHead(raw, Strip(raw)) {
      more := HeadAfter(r, front, blocks, raw);
    } else if blocks != [] && ':' in Strip(raw) {
      more := FieldAfter(r, front, blocks, raw);
    } else {
      StrayIsRefused(r, blocks, raw, |front| + 1);
      hide IsNoise, IsHead, Strip, Lays;
    }
  }

  lemma NoiseLays(front: seq<string>, blocks: seq<Block>, raw: string)
    requires Lays(front, blocks) && IsNoise(raw)
    ensures Lays(front + [raw], blocks)
  {
    var lines := front + [raw];
    assert lines[..|lines| - 1] == front && lines[|lines| - 1] == raw;
    hide IsNoise;
  }

  lemma FieldIn(raw: string) returns (key: string, value: string)
    requires !IsNoise(raw) && !IsHead(raw, Strip(raw)) && ':' in Strip(raw)
    ensures IsField(raw, key, value)
  {
    var line := Strip(raw);
    var k := Find(line, ':');
    key, value := Strip(line[..k]), Strip(line[k + 1..]);
    FieldFound(raw);
  }

  lemma FieldLays(front: seq<string>, blocks: seq<Block>, raw: string, key: string, value: string)
    requires Lays(front, blocks) && blocks != [] && IsField(raw, key, value)
    ensures Lays(front + [raw], blocks[..|blocks| - 1] + [WithEntry(blocks[|blocks| - 1], key, value)])
  {
    var laid, last := blocks[..|blocks| - 1], blocks[|blocks| - 1];
    assert laid + [last] == blocks && !IsNoise(raw) && !IsHead(raw, Strip(raw));
    hide IsNoise, IsHead, IsField, Strip, WithEntry;
    FieldLast(front + [raw], laid + [WithEntry(last, key, value)], raw, key, value, last);
  }

  lemma FieldLast(lines: seq<string>, blocks: seq<Block>, raw: string, key: string, value: string, b: Block)
    requires lines != [] && blocks != [] && lines[|lines| - 1] == raw && blocks[|blocks| - 1] == WithEntry(b, key, value)
    requires IsField(raw, key, value) && !IsNoise(raw) && !IsHead(raw, Strip(raw))
    requires Lays(lines[..|lines| - 1], blocks[..|blocks| - 1] + [b])
    ensures Lays(lines, blocks)
  {
    hide IsNoise, IsHead, IsField, Strip, WithEntry;
  }

  lemma FitsAfter(blocks: seq<Block>, key: string, value: string)
    requires blocks != [] && Fits(blocks) && AllFine(WithEntry(blocks[|blocks| - 1], key, value).entries)
    ensures Fits(blocks[..|blocks| - 1] + [WithEntry(blocks[|blocks| - 1], key, value)])
  {
    hide AllFine, IsComplete;
  }

  /** Whatever is read is laid out and fits, up to the line that is refused, if one is. */
  lemma {:induction false} ReadIsLaid(lines: seq<string>) returns (blocks: seq<Block>, k: nat)
    ensures var read := ReadLines(Reading([], None), lines, 1);
            && (read.Ok? ==> k == |lines| && Lays(lines, blocks) && Fits(blocks) && Shows(read.value, blocks))
            && (read.Err? ==> k < |lines| && Lays(lines[..k], blocks) && Fits(blocks) && IsRefusal(blocks, lines[k], k + 1, read.error))
    decreases |lines|
  {
    hide Makes, States, AllFine, IsComplete, ReadLine, ReadLines, IsRefusal;
    if lines == [] {
      blocks, k := [], 0;
      NothingIsRead();
    } else {
      var front, raw := lines[..|lines| - 1], lines[|lines| - 1];
      assert lines == front + [raw];
      ReadingContinues(front, raw);
      blocks, k := ReadIsLaid(front);
      var read := ReadLines(Reading([], None), front, 1);
      if read.Ok? {
        var more := LineInPlainTerms(read.value, front, blocks, raw);
        assert lines[..|front|] == front && lines[|front|] == raw;
        if ReadLine(read.value, raw, |front| + 1).Ok? { blocks, k := more, |lines|; }
      } else {
        assert lines[..k] == front[..k] && lines[k] == front[k];
      }
    }
  }

  lemma NothingIsRead()
    ensures ReadLines(Reading([], None), [], 1) == Ok(Reading([], None))
  {}

  predicate DifferentIds(blocks: seq<Block>) { forall i, j :: 0 <= i < j < |blocks| ==> blocks[i].id != blocks[j].id }

  /** Laws that are accepted together: there are some, their fields are fine, they have
      capabilities and different ids. */
  ghost predicate IsCode(blocks: seq<Block>) {
    && blocks != [] && DifferentIds(blocks)
    && forall i :: 0 <= i < |blocks| ==> AllFine(blocks[i].entries) && IsComplete(blocks[i])
  }

  ghost predicate MakesAll(rules: seq<Rule>, blocks: seq<Block>) { |rules| == |blocks| && forall i :: 0 <= i < |rules| ==> Makes(rules[i], blocks[i]) }

  lemma LevelOnce(s: string, m: int, n: int)
    requires SpellsLevel(s, m) && SpellsLevel(s, n)
    ensures m == n
  {
    LevelExactly(s, m);
    LevelExactly(s, n);
    hide SpellsLevel, ParseAuthority;
  }

  lemma DispositionOnce(s: string, d: Disposition, e: Disposition)
    requires SpellsDisposition(s, d) && SpellsDisposition(s, e)
    ensures d == e
  {
    DispositionExactly(s);
    hide SpellsDisposition, Lowered;
  }

  /** A law makes one rule. */
  lemma MakesOnce(q: Rule, r: Rule, b: Block)
    requires Makes(q, b) && Makes(r, b)
    ensures q == r
  {
    hide LastOf, SpellsLevel, ParsePolicy, ParseConstraint, SpellsDisposition, Members, Parts, SplitCommas;
    var v, d := LastOf(b.entries, {"authority_level"}), LastOf(b.entries, {"on_violation"});
    if v.Some? { LevelOnce(v.value, q.minAuthority, r.minAuthority); }
    if d.Some? { DispositionOnce(d.value, q.disposition, r.disposition); }
  }

  lemma SameMakes(q: seq<Rule>, r: seq<Rule>, blocks: seq<Block>)
    requires MakesAll(q, blocks) && MakesAll(r, blocks)
    ensures q == r
  {
    hide Makes;
    forall i | 0 <= i < |q| ensures q[i] == r[i] { MakesOnce(q[i], r[i], blocks[i]); }
  }

  lemma IdsAreMade(rules: seq<Rule>, blocks: seq<Block>)
    requires MakesAll(rules, blocks)
    ensures Composition.DistinctIds(rules) <==> DifferentIds(blocks)
  {
    hide LastOf, SpellsLevel, StatesCondition, StatesPolicy, SpellsDisposition;
    assert forall i :: 0 <= i < |rules| ==> rules[i].id == blocks[i].id;
  }

  /** What a whole text comes to: the rules that its laws make, or the first error. */
  lemma ParsingInPlainTerms(source: string) returns (blocks: seq<Block>, k: nat)
    ensures var lines, res := SplitLines(source, []), Parsed(source);
            && k <= |lines| && Lays(lines[..k], blocks) && Fits(blocks)
            && if k < |lines| then res.Err? && IsRefusal(blocks, lines[k], k + 1, res.error)
               else if blocks == [] then res == Err(ParseError(0, NoLaws))
               else if !IsComplete(blocks[|blocks| - 1]) then res == Err(ParseError(blocks[|blocks| - 1].line, NoCapability))
               else if !DifferentIds(blocks) then res == Err(ParseError(0, DuplicateLaw))
               else IsCode(blocks) && res.Ok? && MakesAll(res.value, blocks)
  {
    var lines := SplitLines(source, []);
    blocks, k := ReadIsLaid(lines);
    var read := ReadLines(Reading([], None), lines, 1);
    hide SplitLines, ReadLines, Lays, IsRefusal, Makes, AllFine, IsComplete, States, DifferentIds;
    if read.Ok? {
      assert lines[..k] == lines;
      ClosingMakes(read.value, blocks);
      hide Close;
      if blocks == [] || IsComplete(blocks[|blocks| - 1]) { IdsAreMade(Close(read.value).value, blocks); }
    }
  }

  /** A text is accepted, and gives these rules, exactly when it lays out laws that are
      accepted together and that make them. */
  lemma ParsingExactly(source: string, rules: seq<Rule>)
    ensures Parsed(source) == Ok(rules) <==> exists blocks :: Lays(SplitLines(source, []), blocks) && IsCode(blocks) && MakesAll(rules, blocks)
  {
    var lines := SplitLines(source, []);
    var found, k := ParsingInPlainTerms(source);
    hide SplitLines, Lays, IsRefusal, MakesAll, IsCode, Fits, Parsed;
    if Parsed(source) == Ok(rules) { assert lines[..k] == lines; }
    if blocks :| Lays(lines, blocks) && IsCode(blocks) && MakesAll(rules, blocks) { CodeIsParsed(source, blocks, rules); }
  }

  lemma CodeIsParsed(source: string, blocks: seq<Block>, rules: seq<Rule>)
    requires Lays(SplitLines(source, []), blocks) && IsCode(blocks) && MakesAll(rules, blocks)
    ensures Parsed(source) == Ok(rules)
  {
    var lines := SplitLines(source, []);
    hide SplitLines, Lays, Makes, AllFine, IsComplete, States, DifferentIds, ReadLines;
    assert Fits(blocks);
    LaidIsRead(lines, blocks);
    var read := ReadLines(Reading([], None), lines, 1);
    ClosingMakes(read.value, blocks);
    hide Close, Shows;
    assert MakesAll(Close(read.value).value, blocks);
    SameMakes(Close(read.value).value, rules, blocks);
    IdsAreMade(rules, blocks);
  }
}
