/** The version store in plain terms: what registration, activation and rollback come
    to, said of version numbers and stored bundles (governance/versioning.py). */
module PlainVersions {
  import opened Text
  import opened LawText
  import opened Versions
  import opened Versioning
  import opened VersionStore

  /** Behind by major number, then minor, then patch. */
  predicate Behind(a: Version, b: Version) {
    || a.major < b.major
    || (a.major == b.major && a.minor < b.minor)
    || (a.major == b.major && a.minor == b.minor && a.patch < b.patch)
  }

  /** The text of a version of three numbers. */
  predicate Spells(s: string, v: Version) { s == Decimal(v.major) + ("." + (Decimal(v.minor) + ("." + Decimal(v.patch)))) }

  lemma SpellsKey(s: string, v: Version)
    requires Spells(s, v)
    ensures VersionKey(s) == Some(v)
  {
    VersionRoundTrip(v);
    hide Decimal, VersionKey;
  }

  lemma BehindIsPreceding(a: Version, b: Version)
    ensures Behind(a, b) <==> Precedes(a, b)
  {}

  /** The same identity and semantics. */
  predicate Agree(a: BundleRecord, b: BundleRecord) { a.policyId == b.policyId && a.version == b.version && a.semantics == b.semantics }

  /** Another content is on file under the bundle's version. */
  predicate Disputed(s: State, b: BundleRecord) {
    (b.policyId, b.version) in s.bundles && !Agree(s.bundles[(b.policyId, b.version)], b)
  }

  predicate FiledIn(s: State, t: State, b: BundleRecord) { t.bundles == s.bundles[(b.policyId, b.version) := b] }

  /** A registration files the bundle, or refuses one whose version has other content. */
  lemma RegistrationInPlainTerms(s: State, b: BundleRecord)
    ensures var (t, refused) := RegisterStep(s, b);
            && t.active == s.active && t.events == s.events && t.nextEventId == s.nextEventId
            && (if Disputed(s, b) then t == s && refused == Some(DifferentContent) else FiledIn(s, t, b) && refused.None?)
  {}

  /** The event that an activation records. */
  predicate Notes(t: State, s: State, b: BundleRecord, kind: Kind, from: Option<string>, reason: string) {
    && t.events == s.events + [VersionEvent("policy-version-" + Pad4(s.nextEventId), b.policyId, kind, from, b.version, b.semantics, reason)]
    && t.nextEventId == s.nextEventId + 1
  }

  /** In a valid store every active version is spelled as numbers. */
  lemma ActiveIsSpelled(s: State, policyId: string)
    requires Valid(s) && policyId in s.active
    ensures exists v :: Spells(s.active[policyId], v)
  {
    ActiveHasKey(s, policyId);
    var text := s.active[policyId];
    var v := VersionKey(text).value;
    VersionIsCanonical(text);
    hide Decimal, VersionKey, Valid;
    assert Spells(text, v);
  }

  predicate SameLog(s: State, t: State) { t.active == s.active && t.events == s.events && t.nextEventId == s.nextEventId }

  /** What stops an activation before it looks at the active version. */
  ghost predicate Stopped(s: State, b: BundleRecord, reason: string) { Strip(reason) == "" || !Compiles(b) || Disputed(s, b) }

  lemma StoppedInPlainTerms(s: State, b: BundleRecord, reason: string, override: bool)
    ensures Stopped(s, b, reason) ==>
              ActivateStep(s, b, reason, override)
              == (s, Err(if Strip(reason) == "" then NoReason else if !Compiles(b) then DoesNotCompile else DifferentContent))
    ensures !Stopped(s, b, reason) ==> FiledIn(s, ActivateStep(s, b, reason, override).0, b)
  {
    hide Strip, Compiles, VersionKey, LastTo, Pad4, Older;
  }

  /** A policy's first activation. */
  lemma FirstActivationInPlainTerms(s: State, b: BundleRecord, reason: string, override: bool)
    requires !Stopped(s, b, reason) && b.policyId !in s.active
    ensures var (t, res) := ActivateStep(s, b, reason, override);
            res.Ok? && t.active == s.active[b.policyId := b.version] && Notes(t, s, b, Activated, None, reason) && res.value == t.events[|t.events| - 1]
  {
    hide Strip, Compiles, VersionKey, LastTo, Pad4, Older;
  }

  /** An activation over an active version: an earlier version needs an override, the same
      one is answered without a new event, and any other becomes active and is noted. */
  lemma ActivationInPlainTerms(s: State, b: BundleRecord, reason: string, override: bool, from: Version, to: Version)
    requires Valid(s) && !Stopped(s, b, reason) && b.policyId in s.active && Spells(s.active[b.policyId], from) && Spells(b.version, to)
    ensures var (t, res) := ActivateStep(s, b, reason, override);
            if Behind(to, from) && !override then res == Err(NeedsOverride) && SameLog(s, t)
            else if to == from then res.Ok? && SameLog(s, t)
            else
              && res.Ok? && t.active == s.active[b.policyId := b.version]
              && Notes(t, s, b, if Behind(to, from) then RolledBack else Activated, Some(s.active[b.policyId]), reason)
              && res.value == t.events[|t.events| - 1]
  {
    hide Valid, Strip, Compiles, VersionKey, LastTo, Pad4, Decimal, Spells, Behind, Older, ActivateStep, Notes, Stopped;
    NumbersDecide(s.active[b.policyId], b.version, from, to);
    ContentIsNeverReplaced(s, b, reason, override);
    if to == from { SameKeySameVersion(s, b.policyId, b.version); }
    ActivationShape(s, b, reason, override);
  }

  lemma NumbersDecide(active: string, version: string, from: Version, to: Version)
    requires Spells(active, from) && Spells(version, to)
    ensures Older(version, active) <==> Behind(to, from)
    ensures VersionKey(version) == VersionKey(active) <==> to == from
    ensures VersionKey(version).Some?
  {
    SpellsKey(version, to);
    SpellsKey(active, from);
    BehindIsPreceding(to, from);
    hide VersionKey, Spells, Behind, Precedes;
  }

  lemma ActivationShape(s: State, b: BundleRecord, reason: string, override: bool)
    requires !Stopped(s, b, reason) && b.policyId in s.active && ActivateStep(s, b, reason, override).1 != Err(ContentReplaced)
    ensures var (t, res) := ActivateStep(s, b, reason, override);
            var active := s.active[b.policyId];
            if Older(b.version, active) && !override then res == Err(NeedsOverride) && SameLog(s, t)
            else if VersionKey(b.version) == VersionKey(active) then LastTo(s.events, b.policyId, active).Some? ==> res.Ok? && SameLog(s, t)
            else
              && res.Ok? && t.active == s.active[b.policyId := b.version]
              && Notes(t, s, b, if Older(b.version, active) then RolledBack else Activated, Some(active), reason)
              && res.value == t.events[|t.events| - 1]
  {
    RegisteringKeepsEvents(s, b);
    hide Strip, Compiles, VersionKey, LastTo, Pad4, Older, RegisterStep, SameContent;
  }

  lemma RegisteringKeepsEvents(s: State, b: BundleRecord)
    ensures SameLog(s, RegisterStep(s, b).0) && (Disputed(s, b) <==> RegisterStep(s, b).1.Some?)
  {}

  /** A rollback activates the stored bundle with an override. */
  lemma RollbackInPlainTerms(s: State, policyId: string, version: string, reason: string)
    ensures RollbackStep(s, policyId, version, reason)
         == if (policyId, version) in s.bundles then ActivateStep(s, s.bundles[(policyId, version)], reason, true) else (s, Err(UnknownVersion))
  {}

  /** The event that answers a repeated activation: the last that brought the policy there. */
  lemma {:induction false} LastToIsLast(events: seq<VersionEvent>, policyId: string, version: string)
    ensures match LastTo(events, policyId, version)
            case None => forall i :: 0 <= i < |events| ==> events[i].policyId != policyId || events[i].to != version
            case Some(e) =>
              exists k :: 0 <= k < |events| && events[k] == e && e.policyId == policyId && e.to == version
                && forall i :: k < i < |events| ==> events[i].policyId != policyId || events[i].to != version
  {
    if events != [] {
      var front, last := events[..|events| - 1], events[|events| - 1];
      LastToIsLast(front, policyId, version);
      if last.policyId == policyId && last.to == version {
        assert events[|front|] == last;
      } else if LastTo(front, policyId, version).Some? {
        var k :| 0 <= k < |front| && front[k] == LastTo(front, policyId, version).value
              && forall i :: k < i < |front| ==> front[i].policyId != policyId || front[i].to != version;
        assert events[k] == front[k];
      }
    }
  }
}
