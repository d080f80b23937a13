/** Capability descriptors, their consistency rules, and the negotiation of a request against one descriptor. */
module CapabilityNegotiation {
  import opened Wrappers
  import opened Sorting
  import opened SemanticVersion

  const CONTRACT := "fortemi.dataset-execution-capabilities/v1"

  const CAPABILITY_IDS: seq<string> :=
    ["ingest.full", "ingest.snapshot", "ingest.incremental", "ingest.stream", "schema.inspect", "identity.stable-revision",
     "identity.record", "mutation.upsert", "mutation.tombstone", "mutation.reconcile", "checkpoint.read", "checkpoint.write",
     "execution.cancel", "rejection.record", "index.lexical", "index.chunk", "index.vector", "index.hybrid", "index.rerank",
     "index.graph", "index.community", "lineage.dataset", "lineage.record", "lineage.field", "lineage.relationship-evidence",
     "transaction.atomic-batch", "privacy.pre-materialization-filter", "pagination.cursor", "ordering.deterministic"]

  datatype LimitKey = MaxInputBytes | MaxRecordBytes | MaxBatchRecords | MaxConcurrency | MaxPageSize | MaxTraversalDepth

  const LIMIT_KEYS: seq<LimitKey> := [MaxInputBytes, MaxRecordBytes, MaxBatchRecords, MaxConcurrency, MaxPageSize, MaxTraversalDepth]

  datatype Status = Supported | Experimental | Unsupported

  datatype Declaration = Declaration(id: string, version: string, status: Status, limits: map<LimitKey, int>, evidence: seq<string>)

  datatype EvidenceKind = Fixture | ConformanceReport | LiveQualification
  datatype Evidence = Evidence(id: string, kind: EvidenceKind)

  datatype Plane = BrowserLocalArchive | StaticCachePlane | PortableShard | ServerProcess | LiveRemotePersistence
  datatype DataClass = Canonical | RegenerableIndex | StaticCache | PortableProjection | RemotePersistence
  datatype Maturity = ExperimentalRuntime | Alpha | Beta | Stable
  datatype Transaction = NoTransaction | SingleRecord | AtomicBatch

  datatype Descriptor = Descriptor(
    contract: string, schemaVersion: string, runtimeVersion: string, plane: Plane, dataClass: DataClass, maturity: Maturity,
    transaction: Transaction, capabilities: seq<Declaration>, evidence: seq<Evidence>)

  datatype Requirement = Requirement(id: string, minimumVersion: Option<string>, minimumLimits: map<LimitKey, int>, fallback: seq<string>)

  /** A structurally valid request, whose contract member is the constant; fallbacks count for optional requirements only. */
  datatype Request = Request(required: seq<Requirement>, optional: seq<Requirement>)

  datatype Code =
    | ContractMajorUnsupported | SchemaVersionUnsupported | DescriptorInvalid | CapabilityDuplicate | CapabilityInconsistent
    | RequiredCapabilityMissing | CapabilityVersionInsufficient | CapabilityLimitInsufficient

  datatype Diagnostic = Diagnostic(code: Code, capability: Option<string>)

  // ----- descriptor rules -----

  function Major(version: string): Option<nat> {
    var parsed := ParseVersion(version);
    if parsed.None? || parsed.value.prerelease != [] || parsed.value.core == [] then None else Some(parsed.value.core[0])
  }

  predicate IsSupported(c: Option<Declaration>) {
    c.Some? && !c.value.status.Unsupported?
  }

  predicate Readable(c: Declaration) {
    c.id in CAPABILITY_IDS && ParseVersion(c.version).Some?
  }

  /** The declarations registered after the first `n`: later ones replace earlier ones. */
  function Registered(caps: seq<Declaration>, n: nat): map<string, Declaration>
    requires n <= |caps|
  {
    if n == 0 then map[]
    else
      var before := Registered(caps, n - 1);
      if Readable(caps[n - 1]) then before[caps[n - 1].id := caps[n - 1]] else before
  }

  function Get(caps: map<string, Declaration>, id: string): Option<Declaration> {
    if id in caps then Some(caps[id]) else None
  }

  predicate BadLimit(c: Declaration, key: LimitKey) {
    key in c.limits && !(0 <= c.limits[key] <= MAX_SAFE)
  }

  function LimitDiagnostics(c: Declaration, keys: seq<LimitKey>): seq<Diagnostic> {
    if keys == [] then []
    else (if BadLimit(c, keys[0]) then [Diagnostic(DescriptorInvalid, Some(c.id))] else []) + LimitDiagnostics(c, keys[1..])
  }

  predicate Declared(evidence: seq<Evidence>, id: string) {
    exists i :: 0 <= i < |evidence| && evidence[i].id == id
  }

  function EvidenceDiagnostics(c: Declaration, evidence: seq<Evidence>, ids: seq<string>): seq<Diagnostic> {
    if ids == [] then []
    else (if Declared(evidence, ids[0]) then [] else [Diagnostic(DescriptorInvalid, Some(c.id))]) + EvidenceDiagnostics(c, evidence, ids[1..])
  }

  function DeclarationDiagnostics(c: Declaration, registered: map<string, Declaration>, evidence: seq<Evidence>): seq<Diagnostic> {
    if !Readable(c) then [Diagnostic(DescriptorInvalid, None)]
    else
      (if c.id in registered then [Diagnostic(CapabilityDuplicate, Some(c.id))] else [])
      + LimitDiagnostics(c, LIMIT_KEYS)
      + (if !c.status.Unsupported? && c.evidence == [] then [Diagnostic(DescriptorInvalid, Some(c.id))] else [])
      + EvidenceDiagnostics(c, evidence, c.evidence)
  }

  function CapabilityDiagnostics(d: Descriptor, n: nat): seq<Diagnostic>
    requires n <= |d.capabilities|
  {
    if n == 0 then []
    else CapabilityDiagnostics(d, n - 1) + DeclarationDiagnostics(d.capabilities[n - 1], Registered(d.capabilities, n - 1), d.evidence)
  }

  function RequireTogether(caps: map<string, Declaration>, source: string, needs: seq<string>): seq<Diagnostic> {
    if !IsSupported(Get(caps, source)) || needs == [] then []
    else
      (if IsSupported(Get(caps, needs[0])) then [] else [Diagnostic(CapabilityInconsistent, Some(source))]) + RequireTogether(caps, source, needs[1..])
  }

  function Only(present: bool, code: Code, capability: Option<string>): seq<Diagnostic> {
    if present then [Diagnostic(code, capability)] else []
  }

  function HeaderDiagnostics(d: Descriptor): seq<Diagnostic> {
    Only(d.contract != CONTRACT, ContractMajorUnsupported, None)
    + Only(Major(d.schemaVersion) != Some(1), SchemaVersionUnsupported, None)
    + Only(ParseVersion(d.runtimeVersion).None?, DescriptorInvalid, None)
  }

  predicate HasLiveEvidence(evidence: seq<Evidence>) {
    exists i :: 0 <= i < |evidence| && evidence[i].kind.LiveQualification?
  }

  function ConsistencyDiagnostics(d: Descriptor, caps: map<string, Declaration>): seq<Diagnostic> {
    RequireTogether(caps, "ingest.incremental", ["identity.stable-revision", "checkpoint.read", "checkpoint.write"])
    + RequireTogether(caps, "lineage.field", ["lineage.relationship-evidence"])
    + RequireTogether(caps, "mutation.reconcile", ["mutation.upsert", "mutation.tombstone"])
    + RequireTogether(caps, "index.hybrid", ["index.lexical", "index.vector"])
    + Only(d.transaction.AtomicBatch? && !IsSupported(Get(caps, "transaction.atomic-batch")), CapabilityInconsistent, Some("transaction.atomic-batch"))
    + Only(d.plane.StaticCachePlane? && !d.dataClass.StaticCache?, CapabilityInconsistent, None)
    + Only(d.plane.LiveRemotePersistence? && d.maturity.Stable? && !HasLiveEvidence(d.evidence), CapabilityInconsistent, None)
  }

  /** `validateDatasetExecutionDescriptor` on a structurally valid descriptor. */
  function DescriptorDiagnostics(d: Descriptor): seq<Diagnostic> {
    var n := |d.capabilities|;
    HeaderDiagnostics(d) + CapabilityDiagnostics(d, n) + ConsistencyDiagnostics(d, Registered(d.capabilities, n))
  }

  function VersionDiagnostics(rs: seq<Requirement>): seq<Diagnostic> {
    if rs == [] then []
    else Only(rs[0].minimumVersion.Some? && ParseVersion(rs[0].minimumVersion.value).None?, DescriptorInvalid, None) + VersionDiagnostics(rs[1..])
  }

  /** `validateDatasetExecutionRequest` on a structurally valid request. */
  function RequestDiagnostics(r: Request): seq<Diagnostic> {
    VersionDiagnostics(r.required) + VersionDiagnostics(r.optional)
  }

  // ----- negotiation -----

  datatype Reason = UnsupportedCapability | VersionInsufficient | LimitInsufficient

  predicate VersionSuffices(c: Declaration, minimum: Option<string>) {
    minimum.None? || (CompareVersions(c.version, minimum.value).Some? && CompareVersions(c.version, minimum.value).value >= 0)
  }

  predicate LimitSuffices(c: Declaration, r: Requirement, key: LimitKey) {
    key in r.minimumLimits ==> (if key in c.limits then c.limits[key] else -1) >= r.minimumLimits[key]
  }

  predicate LimitsSuffice(c: Declaration, r: Requirement) {
    forall key: LimitKey :: LimitSuffices(c, r, key)
  }

  /** `assessRequirement`: what is missing, if anything. */
  function Assess(r: Requirement, caps: map<string, Declaration>): Option<Reason> {
    var c := Get(caps, r.id);
    if !IsSupported(c) then Some(UnsupportedCapability)
    else if !VersionSuffices(c.value, r.minimumVersion) then Some(VersionInsufficient)
    else if !LimitsSuffice(c.value, r) then Some(LimitInsufficient)
    else None
  }

  lemma AllLimitKeys(key: LimitKey)
    ensures key in LIMIT_KEYS
  {
    assert LIMIT_KEYS[0] == MaxInputBytes && LIMIT_KEYS[1] == MaxRecordBytes && LIMIT_KEYS[2] == MaxBatchRecords
      && LIMIT_KEYS[3] == MaxConcurrency && LIMIT_KEYS[4] == MaxPageSize && LIMIT_KEYS[5] == MaxTraversalDepth;
  }

  /** The assessment as it runs: early returns out of the loop over the limits. */
  method AssessRequirement(r: Requirement, caps: map<string, Declaration>) returns (missing: Option<Reason>)
    ensures missing == Assess(r, caps)
  {
    hide CompareVersions;
    var c := Get(caps, r.id);
    if !IsSupported(c) { return Some(UnsupportedCapability); }
    if r.minimumVersion.Some? {
      var comparison := CompareVersionTexts(c.value.version, r.minimumVersion.value);
      if comparison.None? || comparison.value < 0 { return Some(VersionInsufficient); }
    }
    var i := 0;
    while i < |LIMIT_KEYS|
      invariant 0 <= i <= |LIMIT_KEYS|
      invariant forall k :: 0 <= k < i ==> LimitSuffices(c.value, r, LIMIT_KEYS[k])
    {
      if !LimitSuffices(c.value, r, LIMIT_KEYS[i]) { return Some(LimitInsufficient); }
      i := i + 1;
    }
    forall key: LimitKey ensures LimitSuffices(c.value, r, key) { AllLimitKeys(key); }
    return None;
  }

  datatype Degradation = Degradation(requested: string, selected: Option<string>, reason: Reason)

  datatype Negotiation = Negotiation(accepted: bool, selected: seq<string>, degradations: seq<Degradation>, diagnostics: seq<Diagnostic>)

  function DiagnosticOf(id: string, reason: Reason): Diagnostic {
    Diagnostic(match reason
               case UnsupportedCapability => RequiredCapabilityMissing
               case VersionInsufficient => CapabilityVersionInsufficient
               case LimitInsufficient => CapabilityLimitInsufficient, Some(id))
  }

  function FirstSupported(ids: seq<string>, caps: map<string, Declaration>): Option<string> {
    if ids == [] then None else if IsSupported(Get(caps, ids[0])) then Some(ids[0]) else FirstSupported(ids[1..], caps)
  }

  /** What the first `n` required entries select and report. */
  function Required(rs: seq<Requirement>, caps: map<string, Declaration>, n: nat): (seq<string>, seq<Diagnostic>)
    requires n <= |rs|
  {
    if n == 0 then ([], [])
    else
      var (selected, diagnostics) := Required(rs, caps, n - 1);
      match Assess(rs[n - 1], caps)
      case None => (selected + [rs[n - 1].id], diagnostics)
      case Some(reason) => (selected, diagnostics + [DiagnosticOf(rs[n - 1].id, reason)])
  }

  /** What the first `n` optional entries select and degrade. */
  function Optional(rs: seq<Requirement>, caps: map<string, Declaration>, n: nat): (seq<string>, seq<Degradation>)
    requires n <= |rs|
  {
    if n == 0 then ([], [])
    else
      var (selected, degradations) := Optional(rs, caps, n - 1);
      match Assess(rs[n - 1], caps)
      case None => (selected + [rs[n - 1].id], degradations)
      case Some(reason) =>
        var fallback := FirstSupported(rs[n - 1].fallback, caps);
        (if fallback.Some? then selected + [fallback.value] else selected, degradations + [Degradation(rs[n - 1].id, fallback, reason)])
  }

  /** Each value once, where it first occurs. */
  function Unique(s: seq<string>): (r: seq<string>)
    ensures forall x :: x in r <==> x in s
  {
    if s == [] then []
    else
      var r := Unique(s[..|s| - 1]);
      assert s == s[..|s| - 1] + [s[|s| - 1]];
      if s[|s| - 1] in r then r else r + [s[|s| - 1]]
  }

  /** `negotiateDatasetExecutionCapabilities`. */
  function Negotiate(d: Descriptor, r: Request): Negotiation {
    var diagnostics := DescriptorDiagnostics(d) + RequestDiagnostics(r);
    if diagnostics != [] then Negotiation(false, [], [], diagnostics)
    else
      var caps := Registered(d.capabilities, |d.capabilities|);
      var (required, missing) := Required(r.required, caps, |r.required|);
      var (optional, degradations) := Optional(r.optional, caps, |r.optional|);
      Negotiation(missing == [], Unique(required + optional), degradations, missing)
  }

  /** The declaration loop of the validator. */
  method ValidateDeclarations(d: Descriptor) returns (diagnostics: seq<Diagnostic>, capabilities: map<string, Declaration>)
    ensures diagnostics == CapabilityDiagnostics(d, |d.capabilities|)
    ensures capabilities == Registered(d.capabilities, |d.capabilities|)
  {
    hide LimitDiagnostics, EvidenceDiagnostics, Readable;
    diagnostics, capabilities := [], map[];
    var i := 0;
    while i < |d.capabilities|
      invariant 0 <= i <= |d.capabilities|
      invariant diagnostics == CapabilityDiagnostics(d, i) && capabilities == Registered(d.capabilities, i)
    {
      var c := d.capabilities[i];
      ghost var before := diagnostics;
      if !Readable(c) {
        diagnostics := diagnostics + [Diagnostic(DescriptorInvalid, None)];
      } else {
        var own: seq<Diagnostic> := [];
        if c.id in capabilities { own := own + [Diagnostic(CapabilityDuplicate, Some(c.id))]; }
        capabilities := capabilities[c.id := c];
        own := own + LimitDiagnostics(c, LIMIT_KEYS);
        if !c.status.Unsupported? && c.evidence == [] { own := own + [Diagnostic(DescriptorInvalid, Some(c.id))]; }
        own := own + EvidenceDiagnostics(c, d.evidence, c.evidence);
        diagnostics := diagnostics + own;
      }
      i := i + 1;
    }
  }

  /** The negotiation as it runs: two loops that push onto the result's lists. */
  method NegotiateCapabilities(d: Descriptor, r: Request) returns (result: Negotiation)
    ensures result == Negotiate(d, r)
  {
    hide DescriptorDiagnostics, RequestDiagnostics, Assess, Unique, FirstSupported;
    var diagnostics := DescriptorDiagnostics(d) + RequestDiagnostics(r);
    if diagnostics != [] { return Negotiation(false, [], [], diagnostics); }
    var caps := Registered(d.capabilities, |d.capabilities|);
    hide Registered;
    var required: seq<string> := [];
    var i := 0;
    while i < |r.required|
      invariant 0 <= i <= |r.required| && (required, diagnostics) == Required(r.required, caps, i)
    {
      var missing := AssessRequirement(r.required[i], caps);
      if missing.None? {
        required := required + [r.required[i].id];
      } else {
        diagnostics := diagnostics + [DiagnosticOf(r.required[i].id, missing.value)];
      }
      i := i + 1;
    }
    var optional: seq<string> := [];
    var degradations: seq<Degradation> := [];
    i := 0;
    while i < |r.optional|
      invariant 0 <= i <= |r.optional| && (optional, degradations) == Optional(r.optional, caps, i)
    {
      var missing := AssessRequirement(r.optional[i], caps);
      if missing.None? {
        optional := optional + [r.optional[i].id];
      } else {
        var fallback := FirstSupported(r.optional[i].fallback, caps);
        if fallback.Some? { optional := optional + [fallback.value]; }
        degradations := degradations + [Degradation(r.optional[i].id, fallback, missing.value)];
      }
      i := i + 1;
    }
    result := Negotiation(diagnostics == [], Unique(required + optional), degradations, diagnostics);
  }
}
