/** What descriptor validation and negotiation answer, said of the declarations, the versions' precedence and the limits. */
module NegotiationMeaning {
  import opened Wrappers
  import opened Sorting
  import opened SemanticVersion
  import opened CapabilityNegotiation

  // ----- a sound descriptor -----

  ghost predicate IsVersion(text: string) {
    ParseVersion(text).Some?
  }

  ghost predicate FirstMajor(text: string) {
    IsVersion(text) && ParseVersion(text).value.prerelease == [] && |ParseVersion(text).value.core| == 3 && ParseVersion(text).value.core[0] == 1
  }

  ghost predicate WellFormed(c: Declaration) {
    c.id in CAPABILITY_IDS && IsVersion(c.version)
  }

  ghost predicate SafeLimits(c: Declaration) {
    forall key: LimitKey :: key in c.limits ==> 0 <= c.limits[key] < 0x20_0000_0000_0000
  }

  ghost predicate EvidenceDeclared(evidence: seq<Evidence>, ids: seq<string>) {
    forall k :: 0 <= k < |ids| ==> exists i :: 0 <= i < |evidence| && evidence[i].id == ids[k]
  }

  ghost predicate Evidenced(c: Declaration, evidence: seq<Evidence>) {
    && ((c.status == Supported || c.status == Experimental) ==> |c.evidence| > 0)
    && EvidenceDeclared(evidence, c.evidence)
  }

  /** The declarations list this one under this id as supported or experimental. */
  ghost predicate Offers(caps: seq<Declaration>, id: string, c: Declaration) {
    c in caps && c.id == id && (c.status == Supported || c.status == Experimental)
  }

  ghost predicate Offered(caps: seq<Declaration>, id: string) {
    exists c :: Offers(caps, id, c)
  }

  ghost predicate DistinctIds(caps: seq<Declaration>) {
    forall i, j :: 0 <= i < j < |caps| ==> caps[i].id != caps[j].id
  }

  ghost predicate HeaderSound(d: Descriptor) {
    d.contract == "fortemi.dataset-execution-capabilities/v1" && FirstMajor(d.schemaVersion) && IsVersion(d.runtimeVersion)
  }

  ghost predicate LiveQualified(evidence: seq<Evidence>) {
    exists i :: 0 <= i < |evidence| && evidence[i].kind == LiveQualification
  }

  ghost predicate Consistent(d: Descriptor) {
    var caps := d.capabilities;
    && (Offered(caps, "ingest.incremental") ==> Offered(caps, "identity.stable-revision") && Offered(caps, "checkpoint.read") && Offered(caps, "checkpoint.write"))
    && (Offered(caps, "lineage.field") ==> Offered(caps, "lineage.relationship-evidence"))
    && (Offered(caps, "mutation.reconcile") ==> Offered(caps, "mutation.upsert") && Offered(caps, "mutation.tombstone"))
    && (Offered(caps, "index.hybrid") ==> Offered(caps, "index.lexical") && Offered(caps, "index.vector"))
    && (d.transaction == AtomicBatch ==> Offered(caps, "transaction.atomic-batch"))
    && (d.plane == StaticCachePlane ==> d.dataClass == StaticCache)
    && (d.plane == LiveRemotePersistence && d.maturity == Stable ==> LiveQualified(d.evidence))
  }

  ghost predicate DeclarationSound(c: Declaration, evidence: seq<Evidence>) {
    WellFormed(c) && SafeLimits(c) && Evidenced(c, evidence)
  }

  ghost predicate Sound(d: Descriptor) {
    && HeaderSound(d)
    && (forall i :: 0 <= i < |d.capabilities| ==> DeclarationSound(d.capabilities[i], d.evidence))
    && DistinctIds(d.capabilities)
    && Consistent(d)
  }

  lemma {:induction false} LimitsClear(c: Declaration, keys: seq<LimitKey>)
    ensures LimitDiagnostics(c, keys) == [] <==> forall k :: k in keys ==> !BadLimit(c, k)
  {
    hide BadLimit;
    if keys != [] {
      LimitsClear(c, keys[1..]);
      assert forall k :: k in keys <==> k == keys[0] || k in keys[1..];
    }
  }

  lemma AllLimitsClear(c: Declaration)
    ensures LimitDiagnostics(c, LIMIT_KEYS) == [] <==> SafeLimits(c)
  {
    hide LimitDiagnostics;
    LimitsClear(c, LIMIT_KEYS);
    forall key: LimitKey ensures key in LIMIT_KEYS && (BadLimit(c, key) <==> key in c.limits && !(0 <= c.limits[key] < 0x20_0000_0000_0000)) {
      AllLimitKeys(key);
    }
  }

  lemma {:induction false} EvidenceClear(c: Declaration, evidence: seq<Evidence>, ids: seq<string>)
    ensures EvidenceDiagnostics(c, evidence, ids) == [] <==> EvidenceDeclared(evidence, ids)
  {
    if ids != [] {
      EvidenceClear(c, evidence, ids[1..]);
      assert forall k :: 0 <= k < |ids| - 1 ==> ids[1..][k] == ids[k + 1];
      if EvidenceDeclared(evidence, ids) { assert Declared(evidence, ids[0]); }
      if EvidenceDeclared(evidence, ids[1..]) && Declared(evidence, ids[0]) {
        forall k | 0 <= k < |ids| ensures exists i :: 0 <= i < |evidence| && evidence[i].id == ids[k] {
          assert k > 0 ==> ids[k] == ids[1..][k - 1];
        }
      }
    }
  }

  lemma WellFormedAgrees(c: Declaration)
    ensures Readable(c) <==> WellFormed(c)
  {
    hide ParseVersion;
  }

  lemma DeclarationClear(c: Declaration, registered: map<string, Declaration>, evidence: seq<Evidence>)
    ensures DeclarationDiagnostics(c, registered, evidence) == [] <==> DeclarationSound(c, evidence) && c.id !in registered
  {
    hide Readable, LimitDiagnostics, EvidenceDiagnostics, SafeLimits, WellFormed, EvidenceDeclared;
    WellFormedAgrees(c);
    AllLimitsClear(c);
    EvidenceClear(c, evidence, c.evidence);
  }

  /** The last well-formed declaration of this id among the first `n`. */
  ghost predicate Latest(caps: seq<Declaration>, n: nat, id: string, i: int) {
    0 <= i < n <= |caps| && caps[i].id == id && WellFormed(caps[i]) && forall j :: i < j < n ==> caps[j].id != id || !WellFormed(caps[j])
  }

  /** What is registered for an id is its last well-formed declaration. */
  lemma {:induction false} RegisteredMeans(caps: seq<Declaration>, n: nat, id: string)
    requires n <= |caps|
    ensures forall i :: Latest(caps, n, id, i) ==> id in Registered(caps, n) && Registered(caps, n)[id] == caps[i]
    ensures id in Registered(caps, n) ==> exists i :: Latest(caps, n, id, i)
  {
    hide WellFormed, Readable;
    if n > 0 {
      RegisteredMeans(caps, n - 1, id);
      WellFormedAgrees(caps[n - 1]);
      forall i | Latest(caps, n, id, i) ensures id in Registered(caps, n) && Registered(caps, n)[id] == caps[i] {
        assert i < n - 1 ==> Latest(caps, n - 1, id, i);
      }
      if id in Registered(caps, n) {
        if Readable(caps[n - 1]) && caps[n - 1].id == id {
          assert Latest(caps, n, id, n - 1);
        } else {
          var i :| Latest(caps, n - 1, id, i);
          assert Latest(caps, n, id, i);
        }
      }
    }
  }

  ghost predicate SoundUpTo(d: Descriptor, n: nat)
    requires n <= |d.capabilities|
  {
    && (forall i :: 0 <= i < n ==> DeclarationSound(d.capabilities[i], d.evidence))
    && (forall i, j :: 0 <= i < j < n ==> d.capabilities[i].id != d.capabilities[j].id)
  }

  lemma SoundIds(d: Descriptor, n: nat, id: string)
    requires n <= |d.capabilities| && SoundUpTo(d, n)
    ensures id in Registered(d.capabilities, n) <==> exists i :: 0 <= i < n && d.capabilities[i].id == id
    ensures forall i :: 0 <= i < n && d.capabilities[i].id == id ==> Get(Registered(d.capabilities, n), id) == Some(d.capabilities[i])
  {
    hide WellFormed, Registered, SafeLimits, Evidenced;
    RegisteredMeans(d.capabilities, n, id);
    forall i | 0 <= i < n && d.capabilities[i].id == id ensures Latest(d.capabilities, n, id, i) {
      assert DeclarationSound(d.capabilities[i], d.evidence);
    }
    if i :| Latest(d.capabilities, n, id, i) { assert d.capabilities[i].id == id; }
  }

  lemma {:induction false} DeclarationsClear(d: Descriptor, n: nat)
    requires n <= |d.capabilities|
    ensures CapabilityDiagnostics(d, n) == [] <==> SoundUpTo(d, n)
  {
    hide DeclarationDiagnostics, DeclarationSound, Registered;
    if n > 0 {
      DeclarationsClear(d, n - 1);
      DeclarationClear(d.capabilities[n - 1], Registered(d.capabilities, n - 1), d.evidence);
      if SoundUpTo(d, n - 1) { SoundIds(d, n - 1, d.capabilities[n - 1].id); }
    }
  }

  /** In a descriptor whose declarations are sound, a capability is usable exactly when one declaration offers it. */
  lemma OfferedAgrees(d: Descriptor, id: string)
    requires SoundUpTo(d, |d.capabilities|)
    ensures IsSupported(Get(Registered(d.capabilities, |d.capabilities|), id)) <==> Offered(d.capabilities, id)
    ensures forall c :: Offers(d.capabilities, id, c) ==> Get(Registered(d.capabilities, |d.capabilities|), id) == Some(c)
    ensures Offered(d.capabilities, id) ==> Offers(d.capabilities, id, Get(Registered(d.capabilities, |d.capabilities|), id).value)
  {
    hide Registered, SoundUpTo;
    SoundIds(d, |d.capabilities|, id);
    var caps := Registered(d.capabilities, |d.capabilities|);
    if IsSupported(Get(caps, id)) { assert Offers(d.capabilities, id, Get(caps, id).value); }
  }

  lemma {:induction false} TogetherClear(caps: map<string, Declaration>, source: string, needs: seq<string>)
    ensures RequireTogether(caps, source, needs) == [] <==> (IsSupported(Get(caps, source)) ==> forall id :: id in needs ==> IsSupported(Get(caps, id)))
  {
    hide IsSupported;
    if needs != [] {
      TogetherClear(caps, source, needs[1..]);
      assert forall id :: id in needs <==> id == needs[0] || id in needs[1..];
    }
  }

  lemma LiveAgrees(evidence: seq<Evidence>)
    ensures HasLiveEvidence(evidence) <==> LiveQualified(evidence)
  {
    if HasLiveEvidence(evidence) { var i :| 0 <= i < |evidence| && evidence[i].kind.LiveQualification?; assert evidence[i].kind == LiveQualification; }
    if LiveQualified(evidence) { var i :| 0 <= i < |evidence| && evidence[i].kind == LiveQualification; assert evidence[i].kind.LiveQualification?; }
  }

  ghost predicate AllOffered(caps: seq<Declaration>, needs: seq<string>) {
    forall id :: id in needs ==> Offered(caps, id)
  }

  lemma OfferedLists(caps: seq<Declaration>, a: string, b: string, c: string)
    ensures AllOffered(caps, [a]) <==> Offered(caps, a)
    ensures AllOffered(caps, [a, b]) <==> Offered(caps, a) && Offered(caps, b)
    ensures AllOffered(caps, [a, b, c]) <==> Offered(caps, a) && Offered(caps, b) && Offered(caps, c)
  {
    hide Offered;
    assert a in [a] && a in [a, b] && b in [a, b] && a in [a, b, c] && b in [a, b, c] && c in [a, b, c];
  }

  lemma NeedsClear(d: Descriptor, source: string, needs: seq<string>)
    requires SoundUpTo(d, |d.capabilities|)
    ensures RequireTogether(Registered(d.capabilities, |d.capabilities|), source, needs) == []
      <==> (Offered(d.capabilities, source) ==> AllOffered(d.capabilities, needs))
  {
    hide SoundUpTo, Registered, RequireTogether, IsSupported, Get, Offered;
    TogetherClear(Registered(d.capabilities, |d.capabilities|), source, needs);
    OfferedAgrees(d, source);
    forall id ensures IsSupported(Get(Registered(d.capabilities, |d.capabilities|), id)) <==> Offered(d.capabilities, id) { OfferedAgrees(d, id); }
  }

  lemma ConsistencyClear(d: Descriptor)
    requires SoundUpTo(d, |d.capabilities|)
    ensures ConsistencyDiagnostics(d, Registered(d.capabilities, |d.capabilities|)) == [] <==> Consistent(d)
  {
    hide SoundUpTo, Registered, RequireTogether, IsSupported, HasLiveEvidence, LiveQualified, Get, Offered, AllOffered;
    NeedsClear(d, "ingest.incremental", ["identity.stable-revision", "checkpoint.read", "checkpoint.write"]);
    NeedsClear(d, "lineage.field", ["lineage.relationship-evidence"]);
    NeedsClear(d, "mutation.reconcile", ["mutation.upsert", "mutation.tombstone"]);
    NeedsClear(d, "index.hybrid", ["index.lexical", "index.vector"]);
    OfferedLists(d.capabilities, "identity.stable-revision", "checkpoint.read", "checkpoint.write");
    OfferedLists(d.capabilities, "lineage.relationship-evidence", "", "");
    OfferedLists(d.capabilities, "mutation.upsert", "mutation.tombstone", "");
    OfferedLists(d.capabilities, "index.lexical", "index.vector", "");
    OfferedAgrees(d, "transaction.atomic-batch");
    LiveAgrees(d.evidence);
  }

  lemma HeaderClear(d: Descriptor)
    ensures HeaderDiagnostics(d) == [] <==> HeaderSound(d)
  {
    MajorIs(d.schemaVersion);
    hide Major, ParseVersion, FirstMajor;
  }

  lemma MajorIs(text: string)
    ensures Major(text) == Some(1) <==> FirstMajor(text)
  {
    if ParseVersion(text).Some? { ParsedCore(text); }
    hide ParseVersion;
  }

  /** A descriptor has no diagnostics exactly when it is sound. */
  lemma ValidExactly(d: Descriptor)
    ensures DescriptorDiagnostics(d) == [] <==> Sound(d)
  {
    hide HeaderSound, Consistent, ConsistencyDiagnostics, CapabilityDiagnostics, HeaderDiagnostics, Registered, DeclarationSound;
    HeaderClear(d);
    DeclarationsClear(d, |d.capabilities|);
    if SoundUpTo(d, |d.capabilities|) { ConsistencyClear(d); }
  }

  // ----- which diagnostics a descriptor draws -----

  /** The last well-formed declaration of the id is supported or experimental. */
  ghost predicate Usable(caps: seq<Declaration>, id: string) {
    exists i :: Latest(caps, |caps|, id, i) && (caps[i].status == Supported || caps[i].status == Experimental)
  }

  lemma UsableAgrees(caps: seq<Declaration>, id: string)
    ensures IsSupported(Get(Registered(caps, |caps|), id)) <==> Usable(caps, id)
  {
    hide Registered, WellFormed;
    RegisteredMeans(caps, |caps|, id);
    if id in Registered(caps, |caps|) { var i :| Latest(caps, |caps|, id, i); }
  }

  ghost predicate Malformed(caps: seq<Declaration>, n: nat)
    requires n <= |caps|
  {
    exists i :: 0 <= i < n && !WellFormed(caps[i])
  }

  ghost predicate Repeated(caps: seq<Declaration>, n: nat, id: string)
    requires n <= |caps|
  {
    exists i, j :: 0 <= i < j < n && caps[i].id == id && caps[j].id == id && WellFormed(caps[i]) && WellFormed(caps[j])
  }

  ghost predicate Invalid(d: Descriptor, n: nat, id: string)
    requires n <= |d.capabilities|
  {
    exists i :: 0 <= i < n && d.capabilities[i].id == id && WellFormed(d.capabilities[i]) && !(SafeLimits(d.capabilities[i]) && Evidenced(d.capabilities[i], d.evidence))
  }

  /** What the first `n` declarations draw. */
  ghost predicate DrawnByDeclarations(d: Descriptor, n: nat, x: Diagnostic)
    requires n <= |d.capabilities|
  {
    match x.code
    case DescriptorInvalid => if x.capability.None? then Malformed(d.capabilities, n) else Invalid(d, n, x.capability.value)
    case CapabilityDuplicate => x.capability.Some? && Repeated(d.capabilities, n, x.capability.value)
    case _ => false
  }

  ghost predicate DrawnByHeader(d: Descriptor, x: Diagnostic) {
    || (x == Diagnostic(ContractMajorUnsupported, None) && d.contract != "fortemi.dataset-execution-capabilities/v1")
    || (x == Diagnostic(SchemaVersionUnsupported, None) && !FirstMajor(d.schemaVersion))
    || (x == Diagnostic(DescriptorInvalid, None) && !IsVersion(d.runtimeVersion))
  }

  /** A usable capability lacks one it needs, or a guarantee or plane lacks what it stands on. */
  ghost predicate Inconsistent(d: Descriptor, capability: Option<string>) {
    var caps := d.capabilities;
    match capability
    case None =>
      (d.plane == StaticCachePlane && d.dataClass != StaticCache) || (d.plane == LiveRemotePersistence && d.maturity == Stable && !LiveQualified(d.evidence))
    case Some(id) =>
      || (id == "ingest.incremental" && Usable(caps, id)
          && (!Usable(caps, "identity.stable-revision") || !Usable(caps, "checkpoint.read") || !Usable(caps, "checkpoint.write")))
      || (id == "lineage.field" && Usable(caps, id) && !Usable(caps, "lineage.relationship-evidence"))
      || (id == "mutation.reconcile" && Usable(caps, id) && (!Usable(caps, "mutation.upsert") || !Usable(caps, "mutation.tombstone")))
      || (id == "index.hybrid" && Usable(caps, id) && (!Usable(caps, "index.lexical") || !Usable(caps, "index.vector")))
      || (id == "transaction.atomic-batch" && d.transaction == AtomicBatch && !Usable(caps, id))
  }

  lemma {:induction false} LimitsReport(c: Declaration, keys: seq<LimitKey>)
    ensures forall x :: x in LimitDiagnostics(c, keys) ==> x == Diagnostic(DescriptorInvalid, Some(c.id))
  {
    hide BadLimit;
    if keys != [] { LimitsReport(c, keys[1..]); }
  }

  lemma {:induction false} EvidenceReports(c: Declaration, evidence: seq<Evidence>, ids: seq<string>)
    ensures forall x :: x in EvidenceDiagnostics(c, evidence, ids) ==> x == Diagnostic(DescriptorInvalid, Some(c.id))
  {
    hide Declared;
    if ids != [] { EvidenceReports(c, evidence, ids[1..]); }
  }

  lemma SomeMember<T>(s: seq<T>, x: T)
    requires forall y :: y in s ==> y == x
    ensures x in s <==> s != []
  {
    assert s != [] ==> s[0] in s;
  }

  lemma DeclarationReports(c: Declaration, registered: map<string, Declaration>, evidence: seq<Evidence>, x: Diagnostic)
    ensures x in DeclarationDiagnostics(c, registered, evidence) <==>
      || (x == Diagnostic(DescriptorInvalid, None) && !WellFormed(c))
      || (x == Diagnostic(CapabilityDuplicate, Some(c.id)) && WellFormed(c) && c.id in registered)
      || (x == Diagnostic(DescriptorInvalid, Some(c.id)) && WellFormed(c) && !(SafeLimits(c) && Evidenced(c, evidence)))
  {
    hide Readable, WellFormed, LimitDiagnostics, EvidenceDiagnostics, SafeLimits, EvidenceDeclared;
    WellFormedAgrees(c);
    AllLimitsClear(c);
    LimitsReport(c, LIMIT_KEYS);
    EvidenceClear(c, evidence, c.evidence);
    EvidenceReports(c, evidence, c.evidence);
    SomeMember(LimitDiagnostics(c, LIMIT_KEYS), Diagnostic(DescriptorInvalid, Some(c.id)));
    SomeMember(EvidenceDiagnostics(c, evidence, c.evidence), Diagnostic(DescriptorInvalid, Some(c.id)));
  }

  lemma DrawnNext(d: Descriptor, n: nat, x: Diagnostic)
    requires 0 < n <= |d.capabilities|
    ensures var c := d.capabilities[n - 1];
      DrawnByDeclarations(d, n, x) <==>
        || DrawnByDeclarations(d, n - 1, x)
        || (x == Diagnostic(DescriptorInvalid, None) && !WellFormed(c))
        || (x == Diagnostic(CapabilityDuplicate, Some(c.id)) && WellFormed(c) && exists i :: 0 <= i < n - 1 && d.capabilities[i].id == c.id && WellFormed(d.capabilities[i]))
        || (x == Diagnostic(DescriptorInvalid, Some(c.id)) && WellFormed(c) && !(SafeLimits(c) && Evidenced(c, d.evidence)))
  {
    hide WellFormed, SafeLimits, Evidenced;
    var c := d.capabilities[n - 1];
    if x.code.CapabilityDuplicate? && x.capability.Some? {
      if i, j :| 0 <= i < j < n && d.capabilities[i].id == x.capability.value && d.capabilities[j].id == x.capability.value && WellFormed(d.capabilities[i]) && WellFormed(d.capabilities[j]) {
        assert j < n - 1 ==> Repeated(d.capabilities, n - 1, x.capability.value);
      }
    }
  }

  lemma RegisteredBefore(caps: seq<Declaration>, n: nat, id: string)
    requires n <= |caps|
    ensures id in Registered(caps, n) <==> exists i :: 0 <= i < n && caps[i].id == id && WellFormed(caps[i])
  {
    hide Registered, WellFormed;
    RegisteredMeans(caps, n, id);
    if i :| 0 <= i < n && caps[i].id == id && WellFormed(caps[i]) { LatestFrom(caps, n, id, i); }
  }

  lemma {:induction false} LatestFrom(caps: seq<Declaration>, n: nat, id: string, i: nat)
    requires i < n <= |caps| && caps[i].id == id && WellFormed(caps[i])
    ensures exists j :: Latest(caps, n, id, j)
    decreases n - i
  {
    hide WellFormed;
    if k :| i < k < n && caps[k].id == id && WellFormed(caps[k]) {
      LatestFrom(caps, n, id, k);
    } else {
      assert Latest(caps, n, id, i);
    }
  }

  lemma {:induction false} DeclarationsReport(d: Descriptor, n: nat, x: Diagnostic)
    requires n <= |d.capabilities|
    ensures x in CapabilityDiagnostics(d, n) <==> DrawnByDeclarations(d, n, x)
  {
    hide DeclarationDiagnostics, DrawnByDeclarations, Registered, WellFormed, SafeLimits, Evidenced;
    if n > 0 {
      DeclarationsReport(d, n - 1, x);
      DrawnNext(d, n, x);
      RegisteredBefore(d.capabilities, n - 1, d.capabilities[n - 1].id);
      DeclarationReports(d.capabilities[n - 1], Registered(d.capabilities, n - 1), d.evidence, x);
    } else {
      NoneDrawn(d, x);
    }
  }

  lemma NoneDrawn(d: Descriptor, x: Diagnostic)
    ensures !DrawnByDeclarations(d, 0, x)
  {
  }

  lemma {:induction false} TogetherReports(caps: map<string, Declaration>, source: string, needs: seq<string>, x: Diagnostic)
    ensures x in RequireTogether(caps, source, needs) <==>
      x == Diagnostic(CapabilityInconsistent, Some(source)) && IsSupported(Get(caps, source)) && exists id :: id in needs && !IsSupported(Get(caps, id))
  {
    hide IsSupported, Get;
    if needs != [] {
      TogetherReports(caps, source, needs[1..], x);
      assert forall id :: id in needs <==> id == needs[0] || id in needs[1..];
    }
  }

  ghost predicate Lacking(d: Descriptor, needs: seq<string>) {
    exists id :: id in needs && !Usable(d.capabilities, id)
  }

  ghost predicate DrawnByNeed(d: Descriptor, x: Diagnostic, source: string, lacking: bool) {
    x == Diagnostic(CapabilityInconsistent, Some(source)) && Usable(d.capabilities, source) && lacking
  }

  lemma NeedsReport(d: Descriptor, x: Diagnostic, source: string, needs: seq<string>)
    ensures x in RequireTogether(Registered(d.capabilities, |d.capabilities|), source, needs) <==> DrawnByNeed(d, x, source, Lacking(d, needs))
  {
    hide Registered, RequireTogether, IsSupported, Get, Usable;
    TogetherReports(Registered(d.capabilities, |d.capabilities|), source, needs, x);
    UsableAgrees(d.capabilities, source);
    forall id ensures IsSupported(Get(Registered(d.capabilities, |d.capabilities|), id)) <==> Usable(d.capabilities, id) { UsableAgrees(d.capabilities, id); }
  }

  lemma LackingOf(d: Descriptor, a: string, b: string, c: string)
    ensures Lacking(d, [a]) <==> !Usable(d.capabilities, a)
    ensures Lacking(d, [a, b]) <==> !Usable(d.capabilities, a) || !Usable(d.capabilities, b)
    ensures Lacking(d, [a, b, c]) <==> !Usable(d.capabilities, a) || !Usable(d.capabilities, b) || !Usable(d.capabilities, c)
  {
    hide Usable;
    assert a in [a] && a in [a, b] && b in [a, b] && a in [a, b, c] && b in [a, b, c] && c in [a, b, c];
  }

  ghost predicate DrawnByNeeds(d: Descriptor, x: Diagnostic) {
    || DrawnByNeed(d, x, "ingest.incremental", Lacking(d, ["identity.stable-revision", "checkpoint.read", "checkpoint.write"]))
    || DrawnByNeed(d, x, "lineage.field", Lacking(d, ["lineage.relationship-evidence"]))
    || DrawnByNeed(d, x, "mutation.reconcile", Lacking(d, ["mutation.upsert", "mutation.tombstone"]))
    || DrawnByNeed(d, x, "index.hybrid", Lacking(d, ["index.lexical", "index.vector"]))
  }

  ghost predicate DrawnByRuntime(d: Descriptor, x: Diagnostic) {
    || (x == Diagnostic(CapabilityInconsistent, Some("transaction.atomic-batch")) && d.transaction == AtomicBatch && !Usable(d.capabilities, "transaction.atomic-batch"))
    || (x == Diagnostic(CapabilityInconsistent, None) && d.plane == StaticCachePlane && d.dataClass != StaticCache)
    || (x == Diagnostic(CapabilityInconsistent, None) && d.plane == LiveRemotePersistence && d.maturity == Stable && !LiveQualified(d.evidence))
  }

  lemma ConsistencyDrawn(d: Descriptor, x: Diagnostic)
    ensures x in ConsistencyDiagnostics(d, Registered(d.capabilities, |d.capabilities|)) <==> DrawnByNeeds(d, x) || DrawnByRuntime(d, x)
  {
    hide Registered, RequireTogether, IsSupported, HasLiveEvidence, LiveQualified, Get, Usable, DrawnByNeed, Lacking;
    NeedsReport(d, x, "ingest.incremental", ["identity.stable-revision", "checkpoint.read", "checkpoint.write"]);
    NeedsReport(d, x, "lineage.field", ["lineage.relationship-evidence"]);
    NeedsReport(d, x, "mutation.reconcile", ["mutation.upsert", "mutation.tombstone"]);
    NeedsReport(d, x, "index.hybrid", ["index.lexical", "index.vector"]);
    LiveAgrees(d.evidence);
    UsableAgrees(d.capabilities, "transaction.atomic-batch");
  }

  lemma InconsistentWhen(d: Descriptor, x: Diagnostic)
    ensures DrawnByNeeds(d, x) || DrawnByRuntime(d, x) <==> x.code == CapabilityInconsistent && Inconsistent(d, x.capability)
  {
    hide Usable, LiveQualified, Lacking;
    LackingOf(d, "identity.stable-revision", "checkpoint.read", "checkpoint.write");
    LackingOf(d, "lineage.relationship-evidence", "", "");
    LackingOf(d, "mutation.upsert", "mutation.tombstone", "");
    LackingOf(d, "index.lexical", "index.vector", "");
  }

  lemma HeaderReports(d: Descriptor, x: Diagnostic)
    ensures x in HeaderDiagnostics(d) <==> DrawnByHeader(d, x)
  {
    MajorIs(d.schemaVersion);
    hide Major, ParseVersion, FirstMajor;
  }

  /** Each diagnostic of a descriptor has its cause there, and each cause draws its diagnostic. */
  lemma DiagnosticsMean(d: Descriptor, x: Diagnostic)
    ensures x in DescriptorDiagnostics(d) <==>
      DrawnByHeader(d, x) || DrawnByDeclarations(d, |d.capabilities|, x) || (x.code == CapabilityInconsistent && Inconsistent(d, x.capability))
  {
    hide HeaderDiagnostics, DrawnByHeader, CapabilityDiagnostics, DrawnByDeclarations, ConsistencyDiagnostics, Inconsistent, Registered, DrawnByNeeds, DrawnByRuntime;
    HeaderReports(d, x);
    DeclarationsReport(d, |d.capabilities|, x);
    ConsistencyDrawn(d, x);
    InconsistentWhen(d, x);
  }

  // ----- a requirement that is met -----

  /** Both are versions, and the first does not precede the second in section 11 of Semantic Versioning 2.0.0. */
  ghost predicate Reaches(version: string, minimum: string) {
    && IsVersion(version) && IsVersion(minimum)
    && |ParseVersion(version).value.core| == 3 && |ParseVersion(minimum).value.core| == 3
    && !Lower(ParseVersion(version).value, ParseVersion(minimum).value)
  }

  ghost predicate NewEnough(c: Declaration, r: Requirement) {
    r.minimumVersion.Some? ==> Reaches(c.version, r.minimumVersion.value)
  }

  /** Each requested limit is at most the declared one, which may be missing only under a negative request. */
  ghost predicate WideEnough(c: Declaration, r: Requirement) {
    forall key: LimitKey :: key in r.minimumLimits ==> (key in c.limits && r.minimumLimits[key] <= c.limits[key]) || (key !in c.limits && r.minimumLimits[key] < 0)
  }

  /** Some declaration offers the capability in a version that is high enough and with limits that are wide enough. */
  ghost predicate Meets(caps: seq<Declaration>, r: Requirement) {
    exists c :: Offers(caps, r.id, c) && NewEnough(c, r) && WideEnough(c, r)
  }

  lemma ReachesAgrees(version: string, minimum: string)
    ensures CompareVersions(version, minimum).Some? && CompareVersions(version, minimum).value >= 0 <==> Reaches(version, minimum)
  {
    hide ParseVersion;
    if ParseVersion(version).Some? && ParseVersion(minimum).Some? {
      ParsedProper(version);
      ParsedProper(minimum);
      CompareAgrees(ParseVersion(version).value, ParseVersion(minimum).value);
      hide Compare, Lower;
    }
  }

  lemma VersionAgrees(c: Declaration, r: Requirement)
    ensures VersionSuffices(c, r.minimumVersion) <==> NewEnough(c, r)
  {
    hide CompareVersions, Reaches;
    if r.minimumVersion.Some? { ReachesAgrees(c.version, r.minimumVersion.value); }
  }

  lemma LimitsAgree(c: Declaration, r: Requirement)
    ensures LimitsSuffice(c, r) <==> WideEnough(c, r)
  {
    forall key: LimitKey | key in r.minimumLimits
      ensures LimitSuffices(c, r, key) <==> (key in c.limits && r.minimumLimits[key] <= c.limits[key]) || (key !in c.limits && r.minimumLimits[key] < 0)
    {
    }
    if WideEnough(c, r) { assert forall key: LimitKey :: LimitSuffices(c, r, key); }
    if LimitsSuffice(c, r) { assert forall key: LimitKey :: LimitSuffices(c, r, key); }
  }

  /** Why a requirement falls short: unsupported first, then the version, then a limit. */
  ghost predicate Because(caps: seq<Declaration>, r: Requirement, reason: Reason) {
    match reason
    case UnsupportedCapability => !Offered(caps, r.id)
    case VersionInsufficient => exists c :: Offers(caps, r.id, c) && !NewEnough(c, r)
    case LimitInsufficient => exists c :: Offers(caps, r.id, c) && NewEnough(c, r) && !WideEnough(c, r)
  }

  lemma AssessMeans(d: Descriptor, r: Requirement)
    requires SoundUpTo(d, |d.capabilities|)
    ensures var missing := Assess(r, Registered(d.capabilities, |d.capabilities|));
      && (missing.None? <==> Meets(d.capabilities, r))
      && (forall reason :: missing == Some(reason) <==> Because(d.capabilities, r, reason))
  {
    hide SoundUpTo, Registered, VersionSuffices, LimitsSuffice, NewEnough, WideEnough, IsSupported, Offers;
    OfferedAgrees(d, r.id);
    var c := Get(Registered(d.capabilities, |d.capabilities|), r.id);
    if c.Some? {
      VersionAgrees(c.value, r);
      LimitsAgree(c.value, r);
    }
  }

  // ----- negotiating with a sound descriptor -----

  ghost predicate VersionsReadable(rs: seq<Requirement>) {
    forall i :: 0 <= i < |rs| && rs[i].minimumVersion.Some? ==> IsVersion(rs[i].minimumVersion.value)
  }

  lemma {:induction false} VersionsClear(rs: seq<Requirement>)
    ensures VersionDiagnostics(rs) == [] <==> VersionsReadable(rs)
  {
    hide ParseVersion;
    if rs != [] {
      VersionsClear(rs[1..]);
      assert forall i :: 0 < i < |rs| ==> rs[i] == rs[1..][i - 1];
    }
  }

  /** Descriptor and request pass validation. */
  ghost predicate Negotiable(d: Descriptor, r: Request) {
    Sound(d) && VersionsReadable(r.required) && VersionsReadable(r.optional)
  }

  /** Otherwise the answer holds diagnostics and nothing else. */
  lemma NegotiableExactly(d: Descriptor, r: Request)
    ensures DescriptorDiagnostics(d) + RequestDiagnostics(r) == [] <==> Negotiable(d, r)
    ensures !Negotiable(d, r) ==> !Negotiate(d, r).accepted && Negotiate(d, r).diagnostics != [] && Negotiate(d, r).selected == [] && Negotiate(d, r).degradations == []
  {
    hide Sound, DescriptorDiagnostics, VersionDiagnostics, VersionsReadable, Registered, Required, Optional;
    ValidExactly(d);
    VersionsClear(r.required);
    VersionsClear(r.optional);
  }

  ghost function Unmet(caps: seq<Declaration>): Requirement -> bool {
    (r: Requirement) => !Meets(caps, r)
  }

  /** The diagnostic of a required capability names it, with the code of the reason. */
  ghost predicate ReportedBy(caps: seq<Declaration>, r: Requirement, x: Diagnostic) {
    && x.capability == Some(r.id)
    && (x.code == RequiredCapabilityMissing || x.code == CapabilityVersionInsufficient || x.code == CapabilityLimitInsufficient)
    && (x.code == RequiredCapabilityMissing ==> Because(caps, r, UnsupportedCapability))
    && (x.code == CapabilityVersionInsufficient ==> Because(caps, r, VersionInsufficient))
    && (x.code == CapabilityLimitInsufficient ==> Because(caps, r, LimitInsufficient))
  }

  ghost predicate Reports(caps: seq<Declaration>, rs: seq<Requirement>, xs: seq<Diagnostic>) {
    |xs| == |rs| && forall k :: 0 <= k < |xs| ==> ReportedBy(caps, rs[k], xs[k])
  }

  /** The first offered fallback, or none. */
  ghost predicate FallsBackTo(caps: seq<Declaration>, ids: seq<string>, selected: Option<string>) {
    match selected
    case None => forall k :: 0 <= k < |ids| ==> !Offered(caps, ids[k])
    case Some(id) => exists k :: 0 <= k < |ids| && ids[k] == id && Offered(caps, id) && forall j :: 0 <= j < k ==> !Offered(caps, ids[j])
  }

  /** A degradation names the requirement, why it falls short and its first offered fallback. */
  ghost predicate DegradedBy(caps: seq<Declaration>, r: Requirement, g: Degradation) {
    g.requested == r.id && Because(caps, r, g.reason) && FallsBackTo(caps, r.fallback, g.selected)
  }

  ghost predicate Degrades(caps: seq<Declaration>, rs: seq<Requirement>, gs: seq<Degradation>) {
    |gs| == |rs| && forall k :: 0 <= k < |gs| ==> DegradedBy(caps, rs[k], gs[k])
  }

  lemma {:induction false} FallbackMeans(d: Descriptor, ids: seq<string>)
    requires SoundUpTo(d, |d.capabilities|)
    ensures FallsBackTo(d.capabilities, ids, FirstSupported(ids, Registered(d.capabilities, |d.capabilities|)))
  {
    hide SoundUpTo, Registered, IsSupported, Offered;
    if ids != [] {
      OfferedAgrees(d, ids[0]);
      FallbackMeans(d, ids[1..]);
      FallbackNext(d.capabilities, ids, FirstSupported(ids[1..], Registered(d.capabilities, |d.capabilities|)));
    }
  }

  lemma FallbackNext(caps: seq<Declaration>, ids: seq<string>, rest: Option<string>)
    requires ids != [] && FallsBackTo(caps, ids[1..], rest)
    ensures Offered(caps, ids[0]) ==> FallsBackTo(caps, ids, Some(ids[0]))
    ensures !Offered(caps, ids[0]) ==> FallsBackTo(caps, ids, rest)
  {
    hide Offered;
    if !Offered(caps, ids[0]) {
      assert forall k :: 0 < k < |ids| ==> ids[k] == ids[1..][k - 1];
      if rest.Some? {
        var k :| 0 <= k < |ids| - 1 && ids[1..][k] == rest.value && Offered(caps, rest.value) && forall j :: 0 <= j < k ==> !Offered(caps, ids[1..][j]);
        assert ids[k + 1] == rest.value;
      }
    }
  }

  lemma ReportAgrees(d: Descriptor, r: Requirement, reason: Reason)
    requires SoundUpTo(d, |d.capabilities|) && Assess(r, Registered(d.capabilities, |d.capabilities|)) == Some(reason)
    ensures ReportedBy(d.capabilities, r, DiagnosticOf(r.id, reason))
  {
    hide SoundUpTo, Registered, Assess, Because;
    AssessMeans(d, r);
  }

  /** Required entries: each unmet one is reported, once and in order; the ids of the met ones are selected. */
  lemma {:induction false} RequiredMeans(d: Descriptor, rs: seq<Requirement>, n: nat)
    requires SoundUpTo(d, |d.capabilities|) && n <= |rs|
    ensures var (selected, diagnostics) := Required(rs, Registered(d.capabilities, |d.capabilities|), n);
      && Reports(d.capabilities, Filter(rs[..n], Unmet(d.capabilities)), diagnostics)
      && (forall id :: id in selected <==> exists i :: 0 <= i < n && rs[i].id == id && Meets(d.capabilities, rs[i]))
  {
    hide SoundUpTo, Registered, Assess, Meets, Because, Filter, ReportedBy, DiagnosticOf;
    if n > 0 {
      RequiredMeans(d, rs, n - 1);
      AssessMeans(d, rs[n - 1]);
      var missing := Assess(rs[n - 1], Registered(d.capabilities, |d.capabilities|));
      if missing.Some? { ReportAgrees(d, rs[n - 1], missing.value); }
      assert rs[..n] == rs[..n - 1] + [rs[n - 1]];
      FilterConcat(rs[..n - 1], [rs[n - 1]], Unmet(d.capabilities));
      FilterOne(rs[n - 1], Unmet(d.capabilities));
    } else {
      FilterNone<Requirement>([], Unmet(d.capabilities));
      assert rs[..0] == [];
    }
  }

  /** What an optional entry selects: its own id when met, and otherwise its first offered fallback. */
  ghost predicate Selects(caps: seq<Declaration>, r: Requirement, id: string) {
    if Meets(caps, r) then id == r.id else FallsBackTo(caps, r.fallback, Some(id))
  }

  lemma FallbackIsOne(caps: seq<Declaration>, ids: seq<string>, a: Option<string>, b: Option<string>)
    requires FallsBackTo(caps, ids, a) && FallsBackTo(caps, ids, b)
    ensures a == b
  {
    hide Offered;
    if a.Some? && b.Some? {
      var k :| 0 <= k < |ids| && ids[k] == a.value && Offered(caps, a.value) && forall j :: 0 <= j < k ==> !Offered(caps, ids[j]);
      var m :| 0 <= m < |ids| && ids[m] == b.value && Offered(caps, b.value) && forall j :: 0 <= j < m ==> !Offered(caps, ids[j]);
      assert Offered(caps, ids[k]) && Offered(caps, ids[m]);
    }
  }

  lemma SelectsOne(d: Descriptor, r: Requirement)
    requires SoundUpTo(d, |d.capabilities|)
    ensures var caps, missing := Registered(d.capabilities, |d.capabilities|), Assess(r, Registered(d.capabilities, |d.capabilities|));
      forall id :: Selects(d.capabilities, r, id) <==> (missing.None? && id == r.id) || (missing.Some? && FirstSupported(r.fallback, caps) == Some(id))
  {
    hide SoundUpTo, Registered, Assess, Meets, Because, FallsBackTo, FirstSupported;
    var caps := Registered(d.capabilities, |d.capabilities|);
    AssessMeans(d, r);
    FallbackMeans(d, r.fallback);
    forall id | FallsBackTo(d.capabilities, r.fallback, Some(id)) ensures FirstSupported(r.fallback, caps) == Some(id) {
      FallbackIsOne(d.capabilities, r.fallback, Some(id), FirstSupported(r.fallback, caps));
    }
  }

  lemma DegradeAgrees(d: Descriptor, r: Requirement, reason: Reason)
    requires SoundUpTo(d, |d.capabilities|) && Assess(r, Registered(d.capabilities, |d.capabilities|)) == Some(reason)
    ensures DegradedBy(d.capabilities, r, Degradation(r.id, FirstSupported(r.fallback, Registered(d.capabilities, |d.capabilities|)), reason))
  {
    hide SoundUpTo, Registered, Assess, Because, FallsBackTo, FirstSupported;
    AssessMeans(d, r);
    FallbackMeans(d, r.fallback);
  }

  /** Optional entries: each unmet one is degraded, once and in order. */
  lemma {:induction false} OptionalMeans(d: Descriptor, rs: seq<Requirement>, n: nat)
    requires SoundUpTo(d, |d.capabilities|) && n <= |rs|
    ensures var (selected, degradations) := Optional(rs, Registered(d.capabilities, |d.capabilities|), n);
      && Degrades(d.capabilities, Filter(rs[..n], Unmet(d.capabilities)), degradations)
      && (forall id :: id in selected <==> exists i :: 0 <= i < n && Selects(d.capabilities, rs[i], id))
  {
    hide SoundUpTo, Registered, Assess, Meets, Because, Filter, DegradedBy, Selects, FirstSupported;
    if n > 0 {
      OptionalMeans(d, rs, n - 1);
      AssessMeans(d, rs[n - 1]);
      SelectsOne(d, rs[n - 1]);
      var missing := Assess(rs[n - 1], Registered(d.capabilities, |d.capabilities|));
      if missing.Some? { DegradeAgrees(d, rs[n - 1], missing.value); }
      assert rs[..n] == rs[..n - 1] + [rs[n - 1]];
      FilterConcat(rs[..n - 1], [rs[n - 1]], Unmet(d.capabilities));
      FilterOne(rs[n - 1], Unmet(d.capabilities));
    } else {
      FilterNone<Requirement>([], Unmet(d.capabilities));
      assert rs[..0] == [];
    }
  }

  ghost predicate AllMet(caps: seq<Declaration>, rs: seq<Requirement>) {
    forall i :: 0 <= i < |rs| ==> Meets(caps, rs[i])
  }

  lemma NoneUnmet(caps: seq<Declaration>, rs: seq<Requirement>)
    ensures Filter(rs, Unmet(caps)) == [] <==> AllMet(caps, rs)
  {
    hide Meets, Filter;
    var unmet := Filter(rs, Unmet(caps));
    if AllMet(caps, rs) { FilterNone(rs, Unmet(caps)); }
    if unmet == [] {
      forall i | 0 <= i < |rs| ensures Meets(caps, rs[i]) { assert rs[i] !in unmet; }
    }
  }

  lemma NegotiateParts(d: Descriptor, r: Request)
    requires Negotiable(d, r)
    ensures var caps := Registered(d.capabilities, |d.capabilities|);
      var (required, missing) := Required(r.required, caps, |r.required|);
      var (optional, degradations) := Optional(r.optional, caps, |r.optional|);
      Negotiate(d, r) == Negotiation(missing == [], Unique(required + optional), degradations, missing)
  {
    hide Negotiable, DescriptorDiagnostics, RequestDiagnostics, Registered, Required, Optional;
    NegotiableExactly(d, r);
  }

  /** Every optional requirement that falls short is degraded, once and in order; no other is. */
  lemma DegradedExactly(d: Descriptor, r: Request)
    requires Negotiable(d, r)
    ensures Degrades(d.capabilities, Filter(r.optional, Unmet(d.capabilities)), Negotiate(d, r).degradations)
  {
    hide DeclarationSound, HeaderSound, Consistent, VersionsReadable, Registered, Required, Optional, Degrades, Filter, Negotiate;
    NegotiateParts(d, r);
    OptionalMeans(d, r.optional, |r.optional|);
    assert r.optional[..|r.optional|] == r.optional;
  }

  /** Every required capability that falls short is reported, once and in order, and nothing else is. */
  lemma ReportedExactly(d: Descriptor, r: Request)
    requires Negotiable(d, r)
    ensures Reports(d.capabilities, Filter(r.required, Unmet(d.capabilities)), Negotiate(d, r).diagnostics)
  {
    hide DeclarationSound, HeaderSound, Consistent, VersionsReadable, Registered, Required, Optional, Reports, Filter, Negotiate;
    NegotiateParts(d, r);
    RequiredMeans(d, r.required, |r.required|);
    assert r.required[..|r.required|] == r.required;
  }

  /** Acceptance: both sides pass validation and every required capability is met. */
  lemma AcceptedExactly(d: Descriptor, r: Request)
    ensures Negotiate(d, r).accepted <==> Negotiable(d, r) && AllMet(d.capabilities, r.required)
  {
    hide Negotiable, Registered, Required, Optional, Filter, Negotiate, ReportedBy, Meets, AllMet;
    NegotiableExactly(d, r);
    if Negotiable(d, r) {
      NegotiateParts(d, r);
      ReportedExactly(d, r);
      NoneUnmet(d.capabilities, r.required);
    }
  }

  ghost predicate SelectedBy(caps: seq<Declaration>, r: Request, id: string) {
    || (exists i :: 0 <= i < |r.required| && r.required[i].id == id && Meets(caps, r.required[i]))
    || (exists i :: 0 <= i < |r.optional| && Selects(caps, r.optional[i], id))
  }

  /** Selected, each once: what the met requirements ask for and the fallbacks of the unmet optional ones. */
  lemma SelectedExactly(d: Descriptor, r: Request)
    requires Negotiable(d, r)
    ensures forall id :: id in Negotiate(d, r).selected <==> SelectedBy(d.capabilities, r, id)
    ensures forall id :: id in Negotiate(d, r).selected ==> Offered(d.capabilities, id)
    ensures Distinct(Negotiate(d, r).selected)
  {
    hide DeclarationSound, HeaderSound, Consistent, VersionsReadable, Registered, Required, Optional, Selects, Meets, Filter, Negotiate, Offered, Unique;
    NegotiateParts(d, r);
    RequiredMeans(d, r.required, |r.required|);
    OptionalMeans(d, r.optional, |r.optional|);
    var caps := Registered(d.capabilities, |d.capabilities|);
    UniqueOnce(Required(r.required, caps, |r.required|).0 + Optional(r.optional, caps, |r.optional|).0);
    forall id | SelectedBy(d.capabilities, r, id) ensures Offered(d.capabilities, id) { SelectedOffered(d.capabilities, r, id); }
  }

  lemma SelectedOffered(caps: seq<Declaration>, r: Request, id: string)
    requires SelectedBy(caps, r, id)
    ensures Offered(caps, id)
  {
    hide NewEnough, WideEnough;
    if i :| 0 <= i < |r.optional| && Selects(caps, r.optional[i], id) {
      assert Meets(caps, r.optional[i]) ==> Offered(caps, r.optional[i].id);
    }
  }

  lemma {:induction false} UniqueOnce(s: seq<string>)
    ensures Distinct(Unique(s))
  {
    if s != [] { UniqueOnce(s[..|s| - 1]); }
  }

  // ----- growing a descriptor -----

  /** Every offered capability stays offered, at no lower version and with no lower limit. */
  ghost predicate Grown(caps: seq<Declaration>, caps': seq<Declaration>) {
    forall id, c :: Offers(caps, id, c) ==> exists c' :: Offers(caps', id, c') && GrownDeclaration(c, c')
  }

  ghost predicate GrownDeclaration(c: Declaration, c': Declaration) {
    Reaches(c'.version, c.version) && forall key: LimitKey :: key in c.limits ==> key in c'.limits && c.limits[key] <= c'.limits[key]
  }

  lemma ReachesOn(a: string, b: string, c: string)
    requires Reaches(a, b) && Reaches(b, c)
    ensures Reaches(a, c)
  {
    hide ParseVersion;
    ParsedProper(a);
    ParsedProper(b);
    ParsedProper(c);
    hide Proper;
    NotLowerOn(ParseVersion(a).value, ParseVersion(b).value, ParseVersion(c).value);
    hide Lower;
  }

  lemma NotLowerOn(a: Version, b: Version, c: Version)
    requires Proper(a) && Proper(b) && Proper(c) && !Lower(a, b) && !Lower(b, c)
    ensures !Lower(a, c)
  {
    CompareAgrees(a, b);
    CompareAgrees(b, c);
    CompareAgrees(c, a);
    CompareAgrees(a, c);
    CompareTransitive(c, b, a);
    CompareAgrees(c, b);
    CompareAgrees(b, a);
    hide Compare, Lower, Proper;
  }

  lemma GrownMeets(caps: seq<Declaration>, caps': seq<Declaration>, r: Requirement)
    requires Grown(caps, caps') && Meets(caps, r) && forall c' :: c' in caps' ==> SafeLimits(c')
    ensures Meets(caps', r)
  {
    hide Reaches;
    var c :| Offers(caps, r.id, c) && NewEnough(c, r) && WideEnough(c, r);
    var c' :| Offers(caps', r.id, c') && GrownDeclaration(c, c');
    if r.minimumVersion.Some? { ReachesOn(c'.version, c.version, r.minimumVersion.value); }
    assert NewEnough(c', r);
    assert SafeLimits(c');
    assert WideEnough(c', r);
  }

  /**
    Monotone negotiation: when a sound descriptor's versions and limits only grow into another sound one, every accepted
    request stays accepted, and no optional requirement that was met becomes degraded.
   */
  lemma GrowthKeepsAcceptance(d: Descriptor, d': Descriptor, r: Request)
    requires Sound(d) && Sound(d') && Grown(d.capabilities, d'.capabilities)
    ensures Negotiate(d, r).accepted ==> Negotiate(d', r).accepted
    ensures forall i :: 0 <= i < |r.optional| && Meets(d.capabilities, r.optional[i]) ==> Meets(d'.capabilities, r.optional[i])
  {
    hide HeaderSound, Consistent, VersionsReadable, Negotiate, Meets, Grown, SafeLimits, WellFormed, Evidenced;
    AcceptedExactly(d, r);
    AcceptedExactly(d', r);
    assert forall c' :: c' in d'.capabilities ==> SafeLimits(c');
    forall i | 0 <= i < |r.required| && Meets(d.capabilities, r.required[i]) ensures Meets(d'.capabilities, r.required[i]) {
      GrownMeets(d.capabilities, d'.capabilities, r.required[i]);
    }
    forall i | 0 <= i < |r.optional| && Meets(d.capabilities, r.optional[i]) ensures Meets(d'.capabilities, r.optional[i]) {
      GrownMeets(d.capabilities, d'.capabilities, r.optional[i]);
    }
  }
}
