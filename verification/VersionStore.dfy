/** Activation and rollback of bundles (governance/versioning.py). */
module VersionStore {
  import opened Text
  import opened LawText
  import opened Versions
  import opened Versioning
  import PrintedBundles
  import P = Parser

  datatype Kind = Activated | RolledBack

  datatype VersionEvent = VersionEvent(
    id: string, policyId: string, kind: Kind, from: Option<string>, to: string, semantics: Semantics, reason: string)

  /** Bundles by policy and version. */
  datatype State = State(
    bundles: map<(string, string), BundleRecord>, active: map<string, string>, events: seq<VersionEvent>, nextEventId: nat)

  datatype Error = NoReason | DoesNotCompile | DifferentContent | NeedsOverride | ContentReplaced | UnknownVersion

  function KeyOf(b: BundleRecord): (string, string) { (b.policyId, b.version) }

  /** What the content hash covers: the identity and the semantics. */
  predicate SameContent(a: BundleRecord, b: BundleRecord) {
    a.policyId == b.policyId && a.version == b.version && a.semantics == b.semantics
  }

  /** `register`. */
  function RegisterStep(s: State, b: BundleRecord): (State, Option<Error>) {
    if KeyOf(b) in s.bundles && !SameContent(s.bundles[KeyOf(b)], b) then (s, Some(DifferentContent))
    else (s.(bundles := s.bundles[KeyOf(b) := b]), None)
  }

  function EventFor(s: State, b: BundleRecord, previous: Option<string>, kind: Kind, reason: string): VersionEvent {
    VersionEvent("policy-version-" + Pad4(s.nextEventId), b.policyId, kind, previous, b.version, b.semantics, reason)
  }

  function Recorded(s: State, b: BundleRecord, previous: Option<string>, kind: Kind, reason: string): State {
    s.(events := s.events + [EventFor(s, b, previous, kind, reason)], nextEventId := s.nextEventId + 1)
  }

  /** The last event that brought a policy to a version. */
  function LastTo(events: seq<VersionEvent>, policyId: string, version: string): Option<VersionEvent> {
    if events == [] then None
    else
      var last := events[|events| - 1];
      if last.policyId == policyId && last.to == version then Some(last) else LastTo(events[..|events| - 1], policyId, version)
  }

  predicate Older(a: string, b: string) {
    VersionKey(a).Some? && VersionKey(b).Some? && Precedes(VersionKey(a).value, VersionKey(b).value)
  }

  /** `activate`: the bundle is registered even when a rollback is then refused. */
  ghost function ActivateStep(s: State, b: BundleRecord, reason: string, override: bool): (State, Result<VersionEvent, Error>) {
    var (r, refused) := RegisterStep(s, b);
    var previous := if b.policyId in s.active then Some(s.active[b.policyId]) else None;
    if Strip(reason) == "" then (s, Err(NoReason))
    else if !Compiles(b) then (s, Err(DoesNotCompile))
    else if refused.Some? then (r, Err(refused.value))
    else if previous.Some? && Older(b.version, previous.value) && !override then (r, Err(NeedsOverride))
    else if previous.Some? && VersionKey(b.version) == VersionKey(previous.value) then
      if (b.policyId, previous.value) !in r.bundles || !SameContent(r.bundles[(b.policyId, previous.value)], b) then (r, Err(ContentReplaced))
      else
        var found := LastTo(r.events, b.policyId, previous.value);
        if found.Some? then (r, Ok(found.value))
        else (Recorded(r, b, previous, Activated, reason), Ok(EventFor(r, b, previous, Activated, reason)))
    else
      var kind := if previous.Some? && Older(b.version, previous.value) then RolledBack else Activated;
      (Recorded(r, b, previous, kind, reason).(active := r.active[b.policyId := b.version]), Ok(EventFor(r, b, previous, kind, reason)))
  }

  /** `rollback`. */
  ghost function RollbackStep(s: State, policyId: string, version: string, reason: string): (State, Result<VersionEvent, Error>) {
    if (policyId, version) !in s.bundles then (s, Err(UnknownVersion))
    else ActivateStep(s, s.bundles[(policyId, version)], reason, true)
  }

  // -------------------------------------------------------------------- runs

  datatype Op =
    | Register(b: BundleRecord)
    | Activate(b: BundleRecord, reason: string, override: bool)
    | Rollback(policyId: string, version: string, reason: string)

  /** Only valid bundles exist. */
  predicate Proper(op: Op) { (op.Register? || op.Activate?) ==> IsBundle(op.b) }

  /** Neither a rollback nor an override. */
  predicate Forward(op: Op) { op.Register? || (op.Activate? && !op.override) }

  ghost function Step(s: State, op: Op): State {
    match op
    case Register(b) => RegisterStep(s, b).0
    case Activate(b, reason, override) => ActivateStep(s, b, reason, override).0
    case Rollback(policyId, version, reason) => RollbackStep(s, policyId, version, reason).0
  }

  function Empty(): State { State(map[], map[], [], 1) }

  ghost function Run(s: State, ops: seq<Op>): State
    decreases |ops|
  {
    if ops == [] then s else Step(Run(s, ops[..|ops| - 1]), ops[|ops| - 1])
  }

  // --------------------------------------------------------------- invariant

  predicate Filed(s: State, key: (string, string))
    requires key in s.bundles
  {
    KeyOf(s.bundles[key]) == key && VersionKey(key.1).Some?
  }

  /** Bundles are filed under what they say, the active version is registered and was
      recorded, and every event carries its number and its bundle's semantics. */
  ghost predicate Valid(s: State) {
    && (forall key {:trigger Filed(s, key)} :: key in s.bundles ==> Filed(s, key))
    && (forall p :: p in s.active ==> (p, s.active[p]) in s.bundles && LastTo(s.events, p, s.active[p]).Some?)
    && s.nextEventId == |s.events| + 1
    && (forall k {:trigger s.events[k]} :: 0 <= k < |s.events| ==>
          && s.events[k].id == "policy-version-" + Pad4(k + 1)
          && (s.events[k].policyId, s.events[k].to) in s.bundles
          && s.bundles[(s.events[k].policyId, s.events[k].to)].semantics == s.events[k].semantics)
  }

  /** Registered content stays, whatever replaces the bundle's source and provenance. */
  ghost predicate ContentKept(s: State, t: State) {
    forall key :: key in s.bundles ==> key in t.bundles && SameContent(s.bundles[key], t.bundles[key])
  }

  lemma RegisterKeeps(s: State, b: BundleRecord)
    requires Valid(s) && IsBundle(b)
    ensures var t := RegisterStep(s, b).0;
            Valid(t) && ContentKept(s, t) && t.active == s.active && t.events == s.events && (RegisterStep(s, b).1.None? ==> KeyOf(b) in t.bundles && t.bundles[KeyOf(b)] == b)
  {
    hide VersionKey, Pad4, Strip;
    var t := RegisterStep(s, b).0;
    forall key | key in t.bundles ensures Filed(t, key) { if key != KeyOf(b) { assert Filed(s, key); } }
    forall key | key in s.bundles ensures key in t.bundles && SameContent(s.bundles[key], t.bundles[key]) { assert Filed(s, key); }
  }

  lemma RecordKeeps(s: State, b: BundleRecord, previous: Option<string>, kind: Kind, reason: string)
    requires Valid(s) && KeyOf(b) in s.bundles && s.bundles[KeyOf(b)] == b
    ensures var t := Recorded(s, b, previous, kind, reason);
            Valid(t) && Valid(t.(active := s.active[b.policyId := b.version])) && t.bundles == s.bundles
  {
    hide VersionKey, Pad4;
    var t := Recorded(s, b, previous, kind, reason);
    var n := t.(active := s.active[b.policyId := b.version]);
    assert t.events[..|s.events|] == s.events;
    forall key | key in t.bundles ensures Filed(t, key) && Filed(n, key) { assert Filed(s, key); }
    forall p | p in s.active ensures LastTo(t.events, p, s.active[p]).Some? { assert LastTo(s.events, p, s.active[p]).Some?; }
  }

  /** The order of the active version across one step. */
  ghost predicate NotOlder(s: State, t: State) {
    forall p :: p in s.active ==> p in t.active && !Older(t.active[p], s.active[p])
  }

  lemma ActivateKeepsOrder(s: State, b: BundleRecord, reason: string, override: bool)
    ensures forall p :: p in s.active ==> p in ActivateStep(s, b, reason, override).0.active
    ensures !override ==> NotOlder(s, ActivateStep(s, b, reason, override).0)
  {
    hide Strip, Compiles, Older, SameContent, LastTo, EventFor, KeyOf;
    forall p | p in s.active ensures !Older(s.active[p], s.active[p]) { NotOlderThanItself(s.active[p]); }
  }

  lemma ActivateKeeps(s: State, b: BundleRecord, reason: string, override: bool)
    requires Valid(s) && IsBundle(b)
    ensures var t := ActivateStep(s, b, reason, override).0;
            Valid(t) && ContentKept(s, t) && (!override ==> NotOlder(s, t))
  {
    hide Pad4, Strip, VersionKey, Compiles, Valid, ContentKept, NotOlder, LastTo, EventFor, Recorded, RegisterStep;
    ActivateKeepsOrder(s, b, reason, override);
    RegisterKeeps(s, b);
    SameContentKept(s);
    var (r, refused) := RegisterStep(s, b);
    var previous := if b.policyId in s.active then Some(s.active[b.policyId]) else None;
    if refused.None? {
      RecordKeeps(r, b, previous, Activated, reason);
      RecordKeeps(r, b, previous, RolledBack, reason);
      SameBundlesKept(s, r, Recorded(r, b, previous, Activated, reason));
      SameBundlesKept(s, r, Recorded(r, b, previous, RolledBack, reason));
      SameBundlesKept(s, r, Recorded(r, b, previous, Activated, reason).(active := r.active[b.policyId := b.version]));
      SameBundlesKept(s, r, Recorded(r, b, previous, RolledBack, reason).(active := r.active[b.policyId := b.version]));
    }
  }

  lemma SameBundlesKept(s: State, r: State, t: State)
    requires ContentKept(s, r) && t.bundles == r.bundles
    ensures ContentKept(s, t)
  {}

  lemma SameKeySameVersion(s: State, policyId: string, version: string)
    requires Valid(s) && policyId in s.active && VersionKey(version).Some? && VersionKey(version) == VersionKey(s.active[policyId])
    ensures s.active[policyId] == version && !Older(version, version) && LastTo(s.events, policyId, version).Some?
  {
    VersionIsCanonical(version);
    VersionIsCanonical(s.active[policyId]);
    NotOlderThanItself(version);
    hide VersionKey;
  }

  /** A version has one text, so activating the active version again finds itself: it
      is answered with the event that brought it in, and records nothing. */
  lemma ReactivationRecordsNothing(s: State, b: BundleRecord, reason: string, override: bool)
    requires Valid(s) && IsBundle(b) && Compiles(b) && Strip(reason) != "" && RegisterStep(s, b).1.None?
    requires b.policyId in s.active && VersionKey(b.version) == VersionKey(s.active[b.policyId])
    ensures LastTo(s.events, b.policyId, b.version).Some?
    ensures ActivateStep(s, b, reason, override)
         == (RegisterStep(s, b).0, Ok(LastTo(s.events, b.policyId, b.version).value))
  {
    SameKeySameVersion(s, b.policyId, b.version);
    RegisteredIsItself(s, b);
    hide Strip, Compiles, Valid, VersionKey, LastTo, Older, Recorded, EventFor, RegisterStep, SameContent, IsBundle, Pad4;
  }

  lemma RegisteredIsItself(s: State, b: BundleRecord)
    requires RegisterStep(s, b).1.None?
    ensures var r := RegisterStep(s, b).0;
            && r.events == s.events && r.active == s.active
            && (b.policyId, b.version) in r.bundles && SameContent(r.bundles[(b.policyId, b.version)], b)
  {}

  // ------------------------------------------------------ refused activations

  /** `b` is not on file, or on file with the same content but not as it is given. */
  predicate FilesAnew(s: State, b: BundleRecord) {
    KeyOf(b) in s.bundles ==> SameContent(s.bundles[KeyOf(b)], b) && s.bundles[KeyOf(b)] != b
  }

  lemma ActiveIsItself(s: State, b: BundleRecord)
    requires Valid(s) && RegisterStep(s, b).1.None?
    requires b.policyId in s.active && VersionKey(b.version) == VersionKey(s.active[b.policyId])
    ensures var r, at := RegisterStep(s, b).0, (b.policyId, s.active[b.policyId]);
            at in r.bundles && SameContent(r.bundles[at], b)
  {
    ActiveHasKey(s, b.policyId);
    SameKeySameVersion(s, b.policyId, b.version);
    hide Valid, VersionKey, RegisterStep, SameContent, LastTo, Older;
    RegisteredIsItself(s, b);
  }

  /** A version has one text and one content, so the last check of `activate` never fails. */
  lemma ContentIsNeverReplaced(s: State, b: BundleRecord, reason: string, override: bool)
    requires Valid(s)
    ensures ActivateStep(s, b, reason, override).1 != Err(ContentReplaced)
  {
    hide Valid, Strip, Compiles, VersionKey, LastTo, Recorded, EventFor, SameContent, Older, RegisterStep, IsBundle, Pad4;
    var (r, refused) := RegisterStep(s, b);
    RegisteringKeepsActive(s, b);
    if refused.None? && b.policyId in s.active && VersionKey(b.version) == VersionKey(s.active[b.policyId]) {
      ActiveIsItself(s, b);
    }
  }

  lemma RegisteringKeepsActive(s: State, b: BundleRecord)
    ensures var (r, refused) := RegisterStep(s, b);
            r.active == s.active && (refused.Some? ==> refused == Some(DifferentContent))
  {}

  /** How an activation can be refused. */
  lemma RefusalShape(s: State, b: BundleRecord, reason: string, override: bool)
    requires ActivateStep(s, b, reason, override).1 != Err(ContentReplaced)
    ensures var (t, res) := ActivateStep(s, b, reason, override);
            var sound := Strip(reason) != "" && Compiles(b) && RegisterStep(s, b).1.None?;
            var late := sound && b.policyId in s.active && Older(b.version, s.active[b.policyId]) && !override;
            && (late ==> t == RegisterStep(s, b).0 && res == Err(NeedsOverride))
            && (!late && res.Err? ==> t == s)
  {
    hide Strip, Compiles, VersionKey, LastTo, Recorded, EventFor, SameContent, Older;
  }

  /** A refused activation changes the store exactly when a rollback was refused for want
      of an override, after its bundle was filed anew; then that filing is the change. */
  lemma RefusedActivationChangesExactly(s: State, b: BundleRecord, reason: string, override: bool)
    requires Valid(s)
    ensures var (t, res) := ActivateStep(s, b, reason, override);
            && (res.Err? && t != s <==>
                  && Strip(reason) != "" && Compiles(b) && b.policyId in s.active && Older(b.version, s.active[b.policyId])
                  && !override && FilesAnew(s, b))
            && (res.Err? && t != s ==> res == Err(NeedsOverride) && t == s.(bundles := s.bundles[KeyOf(b) := b]))
  {
    hide Valid, Strip, Compiles, VersionKey, SameContent, Older, ActivateStep;
    ContentIsNeverReplaced(s, b, reason, override);
    RefusalShape(s, b, reason, override);
    RefilingChanges(s, b);
  }

  lemma FirstActivation(b: BundleRecord, reason: string)
    requires Strip(reason) != "" && Compiles(b)
    ensures var t := ActivateStep(Empty(), b, reason, false).0; t.bundles == map[KeyOf(b) := b] && t.active == map[b.policyId := b.version]
  {
    hide Strip, Compiles, VersionKey, Pad4, SameContent, Older;
  }

  lemma SampleBundle(v: Version) returns (b: BundleRecord)
    ensures IsBundle(b) && Compiles(b) && b.policyId == "p" && VersionKey(b.version) == Some(v)
  {
    var laws := [PrintedBundles.Law("LAW-A", "pay")];
    assert PrintedBundles.Simple(laws) by {
      assert P.LoweredAscii("LAW-A"[..4]) == "law-";
      assert P.Plain(laws[0]);
    }
    hide PrintedBundles.Simple, Compiles, P.Plain;
    b := PrintedBundles.Printed(laws, v);
    PrintedBundles.PrintedCompiles(laws, v);
    VersionRoundTrip(v);
  }

  /** Such an activation: version 2.0.0 is active, 1.0.0 is refused without an override
      and is on file afterwards. */
  lemma RefusedRollbackIsFiled() returns (s: State, b: BundleRecord)
    ensures exists first :: IsBundle(first) && s == Run(Empty(), [Activate(first, "new", false)])
    ensures IsBundle(b) && Compiles(b) && KeyOf(b) !in s.bundles
    ensures var (t, res) := ActivateStep(s, b, "back", false); res == Err(NeedsOverride) && KeyOf(b) in t.bundles
  {
    SampleReasons();
    var two := SampleBundle(Version(2, 0, 0));
    b := SampleBundle(Version(1, 0, 0));
    hide Compiles, Strip, VersionKey, IsBundle, SameContent;
    s := Run(Empty(), [Activate(two, "new", false)]);
    OneStep(Empty(), Activate(two, "new", false));
    FirstActivation(two, "new");
    hide Run, ActivateStep;
    assert Older(b.version, two.version);
    RefusedIsFiled(s, b, two.version);
  }

  lemma SampleReasons()
    ensures Strip("new") != "" && Strip("back") != ""
  {
    StripTrims("new");
    StripTrims("back");
  }

  lemma OneStep(s: State, op: Op)
    ensures Run(s, [op]) == Step(s, op)
  {
    hide Step;
    assert [op][..0] == [];
    assert Run(s, []) == s;
  }

  lemma RefusedIsFiled(s: State, b: BundleRecord, active: string)
    requires Strip("back") != "" && Compiles(b) && KeyOf(b) !in s.bundles
    requires b.policyId in s.active && s.active[b.policyId] == active && Older(b.version, active)
    ensures var (t, res) := ActivateStep(s, b, "back", false); res == Err(NeedsOverride) && KeyOf(b) in t.bundles
  {
    hide Strip, Compiles, VersionKey, SameContent, Older;
  }

  lemma ActiveHasKey(s: State, policyId: string)
    requires Valid(s) && policyId in s.active
    ensures (policyId, s.active[policyId]) in s.bundles && VersionKey(s.active[policyId]).Some?
  {
    assert Filed(s, (policyId, s.active[policyId]));
  }

  lemma RefilingChanges(s: State, b: BundleRecord)
    ensures s.(bundles := s.bundles[KeyOf(b) := b]) == s <==> KeyOf(b) in s.bundles && s.bundles[KeyOf(b)] == b
    ensures SameContent(b, b)
  {
    if KeyOf(b) in s.bundles && s.bundles[KeyOf(b)] == b { assert s.bundles[KeyOf(b) := b] == s.bundles; }
    if s.(bundles := s.bundles[KeyOf(b) := b]) == s { assert s.bundles[KeyOf(b) := b] == s.bundles; }
  }

  lemma NotOlderThanItself(v: string)
    ensures !Older(v, v)
  {}

  lemma SameContentKept(s: State)
    ensures ContentKept(s, s)
  {}

  lemma StepKeeps(s: State, op: Op)
    requires Valid(s) && Proper(op) && (op.Rollback? ==> forall key :: key in s.bundles ==> IsBundle(s.bundles[key]))
    ensures Valid(Step(s, op)) && ContentKept(s, Step(s, op)) && (Forward(op) ==> NotOlder(s, Step(s, op)))
  {
    hide Valid, ContentKept, ActivateStep, IsBundle;
    SameContentKept(s);
    match op
    case Register(b) =>
      RegisterKeeps(s, b);
      forall p | p in s.active ensures !Older(s.active[p], s.active[p]) { NotOlderThanItself(s.active[p]); }
    case Activate(b, reason, override) => ActivateKeeps(s, b, reason, override);
    case Rollback(policyId, version, reason) =>
      if (policyId, version) in s.bundles { ActivateKeeps(s, s.bundles[(policyId, version)], reason, true); }
  }

  ghost predicate AllBundles(s: State) { forall key :: key in s.bundles ==> IsBundle(s.bundles[key]) }

  lemma StepKeepsBundles(s: State, op: Op)
    requires AllBundles(s) && Proper(op)
    ensures AllBundles(Step(s, op))
  {
    hide IsBundle, Compiles, Strip, VersionKey, Pad4, LastTo;
  }

  lemma {:induction false} RunIsValid(ops: seq<Op>)
    requires forall k :: 0 <= k < |ops| ==> Proper(ops[k])
    ensures Valid(Run(Empty(), ops)) && AllBundles(Run(Empty(), ops))
  {
    if ops != [] {
      var front := ops[..|ops| - 1];
      RunIsValid(front);
      hide Step, Valid, Proper;
      StepKeeps(Run(Empty(), front), ops[|ops| - 1]);
      StepKeepsBundles(Run(Empty(), front), ops[|ops| - 1]);
    }
  }

  lemma RunContinues(ops: seq<Op>, more: seq<Op>)
    requires more != []
    ensures Run(Empty(), ops + more) == Step(Run(Empty(), ops + more[..|more| - 1]), more[|more| - 1])
  {
    hide Step;
    var all := ops + more;
    assert all[..|all| - 1] == ops + more[..|more| - 1] && all[|all| - 1] == more[|more| - 1];
  }

  lemma KeptTwice(s: State, t: State, u: State)
    requires ContentKept(s, t) && ContentKept(t, u)
    ensures ContentKept(s, u)
  {}

  /** The content of a registered version never changes, through rollbacks too. */
  lemma {:induction false} ContentNeverChanges(ops: seq<Op>, more: seq<Op>)
    requires forall k :: 0 <= k < |ops| ==> Proper(ops[k])
    requires forall k :: 0 <= k < |more| ==> Proper(more[k])
    ensures ContentKept(Run(Empty(), ops), Run(Empty(), ops + more))
    decreases |more|
  {
    hide Step, Valid, Proper, ContentKept, Run;
    if more == [] {
      assert ops + more == ops;
      SameContentKept(Run(Empty(), ops));
    } else {
      var front, last := more[..|more| - 1], more[|more| - 1];
      ContentNeverChanges(ops, front);
      RunIsValid(ops + front);
      RunContinues(ops, more);
      StepKeeps(Run(Empty(), ops + front), last);
      KeptTwice(Run(Empty(), ops), Run(Empty(), ops + front), Run(Empty(), ops + more));
    }
  }

  lemma NotOlderTwice(s: State, t: State, u: State)
    requires Valid(s) && Valid(t) && Valid(u) && NotOlder(s, t) && NotOlder(t, u)
    ensures NotOlder(s, u)
  {
    forall p | p in s.active ensures p in u.active && !Older(u.active[p], s.active[p]) {
      assert Filed(s, (p, s.active[p])) && Filed(t, (p, t.active[p])) && Filed(u, (p, u.active[p]));
      var x, y, z := VersionKey(s.active[p]).value, VersionKey(t.active[p]).value, VersionKey(u.active[p]).value;
      PrecedenceIsStrictOrder(y, z, x);
      PrecedenceIsStrictOrder(z, y, x);
      PrecedenceIsStrictOrder(z, x, y);
    }
  }

  /** Without rollbacks and overrides the active version of a policy never decreases. */
  lemma {:induction false} ActiveNeverDecreases(ops: seq<Op>, more: seq<Op>)
    requires forall k :: 0 <= k < |ops| ==> Proper(ops[k])
    requires forall k :: 0 <= k < |more| ==> Proper(more[k]) && Forward(more[k])
    ensures NotOlder(Run(Empty(), ops), Run(Empty(), ops + more))
    decreases |more|
  {
    hide Step, Valid, Proper, Older, Run;
    if more == [] {
      assert ops + more == ops;
      forall p | p in Run(Empty(), ops).active ensures !Older(Run(Empty(), ops).active[p], Run(Empty(), ops).active[p]) {
        NotOlderThanItself(Run(Empty(), ops).active[p]);
      }
    } else {
      var front, last := more[..|more| - 1], more[|more| - 1];
      ActiveNeverDecreases(ops, front);
      RunIsValid(ops);
      RunIsValid(ops + front);
      RunIsValid(ops + more);
      RunContinues(ops, more);
      StepKeeps(Run(Empty(), ops + front), last);
      NotOlderTwice(Run(Empty(), ops), Run(Empty(), ops + front), Run(Empty(), ops + more));
    }
  }

  // --------------------------------------------------------------- the object

  class PolicyVersionStore {
    var bundles: map<(string, string), BundleRecord>
    var active: map<string, string>
    var events: seq<VersionEvent>
    var nextEventId: nat

    function View(): State
      reads this
    {
      State(bundles, active, events, nextEventId)
    }

    constructor ()
      ensures View() == Empty()
    {
      bundles, active, events, nextEventId := map[], map[], [], 1;
    }

    method RegisterBundle(b: BundleRecord) returns (error: Option<Error>)
      modifies `bundles
      ensures (View(), error) == RegisterStep(old(View()), b)
    {
      if KeyOf(b) in bundles && !SameContent(bundles[KeyOf(b)], b) { return Some(DifferentContent); }
      bundles := bundles[KeyOf(b) := b];
      return None;
    }

    /** `_event`. */
    method Record(b: BundleRecord, previous: Option<string>, kind: Kind, reason: string) returns (event: VersionEvent)
      modifies `events, `nextEventId
      ensures View() == Recorded(old(View()), b, previous, kind, reason) && event == EventFor(old(View()), b, previous, kind, reason)
    {
      event := VersionEvent("policy-version-" + Pad4(nextEventId), b.policyId, kind, previous, b.version, b.semantics, reason);
      nextEventId := nextEventId + 1;
      events := events + [event];
    }

    method ActivateBundle(b: BundleRecord, reason: string, override: bool) returns (res: Result<VersionEvent, Error>)
      modifies this
      ensures (View(), res) == ActivateStep(old(View()), b, reason, override)
    {
      hide Compiles, Strip, VersionKey, EventFor, Recorded, LastTo;
      if Strip(reason) == "" { return Err(NoReason); }
      var compiled := Compile(b);
      if compiled.Err? { return Err(DoesNotCompile); }
      var refused := RegisterBundle(b);
      if refused.Some? { return Err(refused.value); }
      var previous := if b.policyId in active then Some(active[b.policyId]) else None;
      if previous.Some? {
        if Older(b.version, previous.value) && !override { return Err(NeedsOverride); }
        if VersionKey(b.version) == VersionKey(previous.value) {
          if (b.policyId, previous.value) !in bundles || !SameContent(bundles[(b.policyId, previous.value)], b) { return Err(ContentReplaced); }
          var found := LastTo(events, b.policyId, previous.value);
          if found.Some? { return Ok(found.value); }
          var again := Record(b, previous, Activated, reason);
          return Ok(again);
        }
      }
      var event := Record(b, previous, if previous.Some? && Older(b.version, previous.value) then RolledBack else Activated, reason);
      active := active[b.policyId := b.version];
      return Ok(event);
    }

    method RollBack(policyId: string, version: string, reason: string) returns (res: Result<VersionEvent, Error>)
      modifies this
      ensures (View(), res) == RollbackStep(old(View()), policyId, version, reason)
    {
      if (policyId, version) !in bundles { return Err(UnknownVersion); }
      res := ActivateBundle(bundles[(policyId, version)], reason, true);
    }

    /** `current`. */
    method Current(policyId: string) returns (b: Option<BundleRecord>)
      requires Valid(View())
      ensures b.Some? <==> policyId in active
      ensures b.Some? ==> KeyOf(b.value) == (policyId, active[policyId]) && b.value == bundles[KeyOf(b.value)]
    {
      if policyId !in active { return None; }
      assert Filed(View(), (policyId, active[policyId]));
      return Some(bundles[(policyId, active[policyId])]);
    }
  }
}
