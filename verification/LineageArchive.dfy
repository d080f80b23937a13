/** Archive export and import, and when an import rebuilds what was exported. */
module LineageArchive {
  import opened Wrappers
  import opened Sorting
  import opened LineageLedger

  const CONTRACT := "fortemi.dataset-lineage/v1"
  const SCHEMA_VERSION := "1.0.0"

  datatype Archive = Archive(content: ArchiveContent, digest: string)

  // ----- export -----

  function LessBy<T>(env: Env, keyOf: T -> string): (T, T) -> bool {
    (a, b) => env.less(keyOf(a), keyOf(b))
  }

  function SortedById<T>(env: Env, t: Table<T>, keyOf: T -> string): seq<T> {
    Sort(Values(t), LessBy(env, keyOf))
  }

  function AssertionId(x: Assertion): string { x.id }

  /** The archive of a whole ledger; assertions are sorted by id alone, so revisions keep their order of arrival. */
  function Content(env: Env, l: Ledger): ArchiveContent {
    ArchiveContent(CONTRACT, SCHEMA_VERSION, l.sequence,
                   SortedById(env, l.entities, EntityKey), SortedById(env, l.agents, AgentKey),
                   SortedById(env, l.activities, ActivityKey), SortedById(env, l.evidence, EvidenceKey),
                   SortedById(env, l.assertions, AssertionId), SortedById(env, l.corrections, CorrectionKey))
  }

  function Sealed(env: Env, content: ArchiveContent): Archive {
    Archive(content, env.digest(OfArchive(content)))
  }

  function Export(env: Env, l: Ledger, snapshot: int): Result<Archive, Code> {
    if snapshot < 0 || snapshot > l.sequence then Err(SnapshotUnavailable)
    else Ok(Sealed(env, Content(env, At(l, snapshot))))
  }

  // ----- import -----

  /** Appends one after another; the first rejection stops the import. */
  function AppendAll(env: Env, l: Ledger, events: seq<Event>): Result<Ledger, Code>
    decreases |events|
  {
    if events == [] then Ok(l)
    else
      var l' :- Append(env, l, events[0]);
      AppendAll(env, l', events[1..])
  }

  function EventsOf<T>(xs: seq<T>, wrap: T -> Event): (es: seq<Event>)
    ensures |es| == |xs| && forall i :: 0 <= i < |xs| ==> es[i] == wrap(xs[i])
  {
    seq(|xs|, i requires 0 <= i < |xs| => wrap(xs[i]))
  }

  predicate Names(c: Correction, key: string) {
    NamesReplacement(c) && ReplacementKey(c) == key
  }

  predicate NamedBy(cs: seq<Correction>, key: string) {
    exists i :: 0 <= i < |cs| && Names(cs[i], key)
  }

  /** The assertions no correction names, which the import appends before any correction. */
  function Unnamed(xs: seq<Assertion>, cs: seq<Correction>): (r: seq<Assertion>)
    ensures forall x :: x in r <==> x in xs && !NamedBy(cs, AssertionKey(x))
  {
    if xs == [] then []
    else
      assert xs == [xs[0]] + xs[1..];
      (if NamedBy(cs, AssertionKey(xs[0])) then [] else [xs[0]]) + Unnamed(xs[1..], cs)
  }

  /** Index of the first correction whose target is already in the ledger. */
  function FirstEligible(t: Table<Assertion>, pending: seq<Correction>): (r: Option<nat>)
    ensures r.Some? ==> r.value < |pending| && Has(t, TargetKey(pending[r.value]))
    ensures r.Some? ==> forall i :: 0 <= i < r.value ==> !Has(t, TargetKey(pending[i]))
    ensures r.None? ==> forall i :: 0 <= i < |pending| ==> !Has(t, TargetKey(pending[i]))
  {
    if pending == [] then None
    else if Has(t, TargetKey(pending[0])) then Some(0)
    else
      var r := FirstEligible(t, pending[1..]);
      if r.None? then None else Some(r.value + 1)
  }

  function FindAssertion(xs: seq<Assertion>, key: string): (r: Option<Assertion>)
    ensures r.Some? ==> r.value in xs && AssertionKey(r.value) == key
    ensures r.None? ==> forall x :: x in xs ==> AssertionKey(x) != key
  {
    if xs == [] then None
    else if AssertionKey(xs[0]) == key then Some(xs[0])
    else
      assert xs == [xs[0]] + xs[1..];
      FindAssertion(xs[1..], key)
  }

  function Without<T>(xs: seq<T>, i: nat): (r: seq<T>)
    requires i < |xs|
    ensures multiset(xs) == multiset(r) + multiset{xs[i]}
  {
    assert xs == xs[..i] + [xs[i]] + xs[i + 1..];
    xs[..i] + xs[i + 1..]
  }

  /** Appends a correction and then, unless already there, the assertion it names. */
  function ImportOne(env: Env, archived: seq<Assertion>, l: Ledger, c: Correction): Result<Ledger, Code> {
    var l' :- Append(env, l, NewCorrection(c));
    if NamesReplacement(c) && !Has(l'.assertions, ReplacementKey(c)) then
      var replacement := FindAssertion(archived, ReplacementKey(c));
      if replacement.None? then Err(IdentityDangling) else Append(env, l', NewAssertion(replacement.value))
    else Ok(l')
  }

  /** The pending loop: always the first correction whose target has been imported. */
  function ImportCorrections(env: Env, archived: seq<Assertion>, l: Ledger, pending: seq<Correction>): Result<Ledger, Code>
    decreases |pending|
  {
    if pending == [] then Ok(l)
    else
      var next := FirstEligible(l.assertions, pending);
      if next.None? then Err(CorrectionInvalid)
      else
        var l' :- ImportOne(env, archived, l, pending[next.value]);
        ImportCorrections(env, archived, l', Without(pending, next.value))
  }

  /** What the import appends before the pending loop, in its order. */
  function BaseEvents(content: ArchiveContent): seq<Event> {
    EventsOf(content.agents, x => NewAgent(x)) + EventsOf(content.entities, x => NewEntity(x))
    + EventsOf(content.activities, x => NewActivity(x)) + EventsOf(content.evidence, x => NewEvidence(x))
    + EventsOf(Unnamed(content.assertions, content.corrections), x => NewAssertion(x))
  }

  function Import(env: Env, archive: Archive): Result<Ledger, Code> {
    var content := archive.content;
    if content.contract != CONTRACT || !("1." <= content.schemaVersion) then Err(ValueInvalid)
    else if env.digest(OfArchive(content)) != archive.digest then Err(EvidenceDigestMismatch)
    else
      var base :- AppendAll(env, Empty, BaseEvents(content));
      ImportCorrections(env, content.assertions, base, content.corrections)
  }
}
