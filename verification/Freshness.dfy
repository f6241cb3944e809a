/** The compatibility policy: which recorded snapshot may serve which query, and why not. */
module Freshness {
  import opened Prelude
  import opened Knowledge

  datatype State = Fresh | Stale | BuildingNow | FailedBuild | Unknown

  datatype Coverage = Sufficient | Insufficient | CoverageUnknown

  datatype Reason =
    | NoUsableSnapshot | UnverifiedProvenance | UnknownRevision | RepositoryMismatch | RevisionMismatch
    | DirtyWorkspace | SourceDrift | SourceUnavailable | ArtifactGenerationMismatch | ArtifactMismatch
    | ArtifactUnavailable | ArtifactInvalid | ConfigurationMismatch | ToolchainMismatch | RuleVersionMismatch
    | ScopeInsufficient | LatestBuilding | LatestFailed

  datatype FreshnessResult = FreshnessResult(
    state: State, snapshotState: State, coverage: Coverage, snapshot: Option<SnapshotIdentity>,
    latestAttempt: Option<BuildAttempt>, diagnostics: seq<Reason>)
  {
    /** The record's own validation: a fresh result is revision-bound and carries no compatibility failure. */
    predicate Valid() {
      && snapshotState in {Fresh, Stale, Unknown}
      && (state == Fresh ==>
            && snapshot.Some? && snapshot.value.revision.Some? && snapshotState == Fresh
            && forall i :: 0 <= i < |diagnostics| ==> diagnostics[i] == ScopeInsufficient)
    }

    predicate CanBind() {
      state == Fresh && coverage == Sufficient
    }
  }

  /** A snapshot that vouches for itself: verified provenance, one sealed generation, agreeing versions. */
  predicate SelfConsistent(s: KnowledgeSnapshot) {
    s.build.provenance == VerifiedBuild && s.identity.revision.Some? && s.build.source == s.source && Sealed(s)
  }

  /** The working tree is exactly the one the snapshot was built from, committed and clean. */
  predicate SourceAgrees(s: KnowledgeSnapshot, source: SourceObservation) {
    && source.repository == s.identity.repository
    && source.revision == s.identity.revision
    && !source.dirty
    && source.fingerprint == s.source
    && s.source.files.Keys <= source.tracked
    && (s.scope.kind == FullRepository ==> source.tracked <= s.source.files.Keys)
  }

  /** What a manifest, a query and two readings must satisfy for the last usable snapshot to be served. */
  predicate Bindable(m: KnowledgeManifest, req: QueryRequirement, source: Option<SourceObservation>,
                     checks: Option<seq<Reason>>)
  {
    && checks == Some([])
    && m.lastUsable.Some?
    && SelfConsistent(m.lastUsable.value)
    && m.lastUsable.value.identity.repository == req.repository
    && m.lastUsable.value.identity.revision == req.revision
    && m.lastUsable.value.configuration == req.configuration
    && m.lastUsable.value.scope.Covers(req.scope)
    && source.Some? && SourceAgrees(m.lastUsable.value, source.value)
    && (m.latestAttempt.Some? ==> m.latestAttempt.value.status == Succeeded)
  }

  /** The artifacts all belong to the snapshot's generation and its recorded versions. */
  predicate Sealed(s: KnowledgeSnapshot) {
    && (forall a :: a in s.artifacts.Files() ==> a.snapshot == s.identity)
    && s.artifacts.text.snapshot == s.identity
    && s.artifacts.symbols.path == s.artifacts.tests.path
    && s.artifacts.symbols.sha256 == s.artifacts.tests.sha256
    && s.artifacts.symbols.schemaVersion == s.artifacts.tests.schemaVersion == s.configuration.symbolSchema
    && s.artifacts.graph.schemaVersion == s.configuration.graphSchema
    && s.artifacts.domain.schemaVersion == s.configuration.domainSchema
    && s.artifacts.text.source == s.source
    && s.artifacts.text.reader == s.configuration.textReader
  }

  /** The snapshot cannot be judged: something about its origin is missing or contradictory. */
  predicate Doubtful(s: KnowledgeSnapshot, req: QueryRequirement, source: Option<SourceObservation>) {
    || s.build.provenance != VerifiedBuild || s.identity.revision.None? || req.revision.None?
    || s.identity.repository != req.repository || s.build.source != s.source || !Sealed(s)
    || source.None? || source.value.revision.None? || source.value.repository != s.identity.repository
    || !(s.source.files.Keys <= source.value.tracked)
    || (s.scope.kind == FullRepository && !(source.value.tracked <= s.source.files.Keys))
  }

  /** The snapshot is of another revision, source or configuration than the query and the worktree. */
  predicate Outdated(s: KnowledgeSnapshot, req: QueryRequirement, source: Option<SourceObservation>) {
    || s.identity.revision != req.revision || s.configuration != req.configuration
    || (source.Some? && (source.value.revision != s.identity.revision || source.value.dirty ||
                         source.value.fingerprint != s.source))
  }

  /** Why a snapshot is not simply fresh, reason by reason. */
  predicate Objected(reason: Reason, s: KnowledgeSnapshot, req: QueryRequirement, source: Option<SourceObservation>) {
    match reason
    case UnverifiedProvenance =>
      s.build.provenance != VerifiedBuild || s.build.source != s.source || Untracked(s, source)
    case UnknownRevision =>
      s.identity.revision.None? || req.revision.None? || (source.Some? && source.value.revision.None?)
    case RepositoryMismatch =>
      s.identity.repository != req.repository || (source.Some? && source.value.repository != s.identity.repository)
    case RevisionMismatch =>
      s.identity.revision != req.revision || (source.Some? && source.value.revision != s.identity.revision)
    case DirtyWorkspace => source.Some? && source.value.dirty
    case SourceDrift => source.Some? && source.value.fingerprint != s.source
    case SourceUnavailable => source.None?
    case ArtifactGenerationMismatch => MixedGenerations(s)
    case ArtifactMismatch => MixedArtifacts(s)
    case ConfigurationMismatch => BuildFields(s.configuration) != BuildFields(req.configuration)
    case ToolchainMismatch => s.configuration.toolchain != req.configuration.toolchain
    case RuleVersionMismatch => VersionFields(s.configuration) != VersionFields(req.configuration)
    case ScopeInsufficient => !s.scope.Covers(req.scope)
    case _ => false
  }

  /** The fingerprint holds a file that is not tracked, or, of a full repository, lacks one that is. */
  predicate Untracked(s: KnowledgeSnapshot, source: Option<SourceObservation>) {
    source.Some? &&
    (|| (exists p :: p in s.source.files && p !in source.value.tracked)
     || (s.scope.kind == FullRepository && exists p :: p in source.value.tracked && p !in s.source.files))
  }

  predicate MixedGenerations(s: KnowledgeSnapshot) {
    || (exists a :: a in s.artifacts.Files() && a.snapshot != s.identity) || s.artifacts.text.snapshot != s.identity
  }

  /** The artifacts disagree with one another or with the recorded source and versions. */
  predicate MixedArtifacts(s: KnowledgeSnapshot) {
    MixedContents(s) || MixedVersions(s)
  }

  predicate MixedContents(s: KnowledgeSnapshot) {
    || s.artifacts.symbols.path != s.artifacts.tests.path || s.artifacts.symbols.sha256 != s.artifacts.tests.sha256
    || s.artifacts.symbols.schemaVersion != s.artifacts.tests.schemaVersion || s.artifacts.text.source != s.source
  }

  predicate MixedVersions(s: KnowledgeSnapshot) {
    || s.artifacts.symbols.schemaVersion != s.configuration.symbolSchema
    || s.artifacts.tests.schemaVersion != s.configuration.symbolSchema
    || s.artifacts.graph.schemaVersion != s.configuration.graphSchema
    || s.artifacts.domain.schemaVersion != s.configuration.domainSchema
    || s.artifacts.text.reader != s.configuration.textReader
  }

  /** What the build was configured with. */
  function BuildFields(c: BuildConfiguration): (int, seq<int>, seq<int>, Option<int>) {
    (c.configuration, c.compilerFlags, c.includeDirectories, c.compileDatabase)
  }

  /** The versions of schemas, readers and rules. */
  function VersionFields(c: BuildConfiguration): seq<int> {
    [c.symbolSchema, c.graphSchema, c.domainSchema, c.textReader, c.testRules, c.projection, c.domainRuleset,
     c.frameworkRules, c.scannerPolicy]
  }

  /** Every reason an evaluation gives. */
  predicate Given(reason: Reason, m: KnowledgeManifest, req: QueryRequirement, source: Option<SourceObservation>,
                  checks: Option<seq<Reason>>)
  {
    || (checks.Some? && reason in checks.value)
    || (reason == ArtifactUnavailable && checks.None?)
    || (reason == NoUsableSnapshot && m.lastUsable.None?)
    || (m.lastUsable.Some? && Objected(reason, m.lastUsable.value, req, source))
    || (reason == LatestBuilding && m.latestAttempt.Some? && m.latestAttempt.value.status == Building)
    || (reason == LatestFailed && m.latestAttempt.Some? && m.latestAttempt.value.status in {Failed, Cancelled})
  }

  /** The policy itself: flags and an issue list updated check by check. The result always passes its own
      validation, and it can be bound exactly when every compatibility condition holds. */
  method EvaluateFreshness(m: KnowledgeManifest, req: QueryRequirement, source: Option<SourceObservation>,
                           checks: Option<seq<Reason>>) returns (r: FreshnessResult)
    ensures r.Valid()
    ensures r.CanBind() <==> Bindable(m, req, source, checks)
    ensures r.snapshotState == (if checks != Some([]) || m.lastUsable.None? ||
                                Doubtful(m.lastUsable.value, req, source) then Unknown
                                else if Outdated(m.lastUsable.value, req, source) then Stale else Fresh)
    ensures m.latestAttempt.None? || m.latestAttempt.value.status == Succeeded ==> r.state == r.snapshotState
    ensures r.latestAttempt == m.latestAttempt
    ensures r.snapshot == if m.lastUsable.Some? then Some(m.lastUsable.value.identity) else None
    ensures r.coverage == (if m.lastUsable == None then CoverageUnknown
                           else if m.lastUsable.value.scope.Covers(req.scope) then Sufficient else Insufficient)
    ensures m.latestAttempt.Some? ==>
              (r.state == BuildingNow <==> m.latestAttempt.value.status == Building) &&
              (r.state == FailedBuild <==> m.latestAttempt.value.status in {Failed, Cancelled})
    ensures forall reason :: reason in r.diagnostics <==> Given(reason, m, req, source, checks)
  {
    hide Objected, Doubtful, Outdated, Sealed, SourceAgrees;
    var issues := if checks.Some? then checks.value else [];
    var unknown := checks.None? || issues != [];
    var stale := false;
    var coverage := CoverageUnknown;
    if checks.None? {
      issues := issues + [ArtifactUnavailable];
    }
    if m.lastUsable.None? {
      unknown := true;
      issues := issues + [NoUsableSnapshot];
    } else {
      var s := m.lastUsable.value;
      coverage := if s.scope.Covers(req.scope) then Sufficient else Insufficient;
      if coverage == Insufficient {
        issues := issues + [ScopeInsufficient];
      }
      PlainObjections(s, req, source);
      var u, st, more := CheckSnapshot(s, req, source, SourceUnavailable in issues);
      unknown, stale, issues := unknown || u, stale || st, issues + more;
    }
    var snapshotState := if unknown then Unknown else if stale then Stale else Fresh;
    var state := snapshotState;
    if m.latestAttempt.Some? {
      if m.latestAttempt.value.status == Building {
        state := BuildingNow;
        issues := issues + [LatestBuilding];
      } else if m.latestAttempt.value.status in {Failed, Cancelled} {
        state := FailedBuild;
        issues := issues + [LatestFailed];
      }
    }
    r := FreshnessResult(state, snapshotState, coverage,
                         if m.lastUsable.None? then None else Some(m.lastUsable.value.identity),
                         m.latestAttempt, issues);
  }

  lemma PlainObjections(s: KnowledgeSnapshot, req: QueryRequirement, source: Option<SourceObservation>)
    ensures Objected(ScopeInsufficient, s, req, source) <==> !s.scope.Covers(req.scope)
    ensures Objected(SourceUnavailable, s, req, source) <==> source.None?
  {
  }

  /** Every check of the snapshot itself, in the order they are reported. */
  method CheckSnapshot(s: KnowledgeSnapshot, req: QueryRequirement, source: Option<SourceObservation>, reported: bool)
    returns (unknown: bool, stale: bool, issues: seq<Reason>)
    ensures !unknown && !stale <==>
      && SelfConsistent(s) && s.identity.repository == req.repository && s.identity.revision == req.revision
      && s.configuration == req.configuration && source.Some? && SourceAgrees(s, source.value)
    ensures unknown <==> Doubtful(s, req, source)
    ensures stale <==> Outdated(s, req, source)
    ensures !unknown && !stale ==> issues == []
    ensures forall reason :: reason in issues <==>
              && reason != ScopeInsufficient && Objected(reason, s, req, source)
              && (reason == SourceUnavailable ==> !reported)
  {
    hide Objected, MixedContents, MixedVersions, MixedGenerations, Untracked, VersionFields, BuildFields, Sealed;
    var u, st, query, origin, sealed, fields, versions;
    unknown, stale, query := CheckQuery(s, req, source);
    u, st, origin := CheckSource(s, source, reported);
    unknown, stale := unknown || u, stale || st;
    u, sealed := CheckArtifacts(s);
    unknown := unknown || u;
    st, fields := CheckConfiguration(s.configuration, req.configuration);
    stale := stale || st;
    u, versions := CheckVersions(s);
    unknown, issues := unknown || u, query + origin + sealed + fields + versions;
    SealedExactly(s);
    ReasonsTogether(s, req, source, reported, query, origin, sealed, fields, versions);
  }

  lemma ReasonsTogether(s: KnowledgeSnapshot, req: QueryRequirement, source: Option<SourceObservation>, reported: bool,
                        query: seq<Reason>, origin: seq<Reason>, sealed: seq<Reason>, fields: seq<Reason>,
                        versions: seq<Reason>)
    requires forall reason :: reason in query <==>
               || (reason == UnverifiedProvenance && s.build.provenance != VerifiedBuild)
               || (reason in {UnknownRevision, RepositoryMismatch, RevisionMismatch}
                   && Objected(reason, s, req, source))
    requires forall reason :: reason in origin <==>
               || (reason == SourceUnavailable && source.None? && !reported)
               || (reason == DirtyWorkspace && source.Some? && source.value.dirty)
               || (reason == SourceDrift && source.Some? && source.value.fingerprint != s.source)
               || (reason == UnverifiedProvenance && (s.build.source != s.source || Untracked(s, source)))
    requires forall reason :: reason in sealed <==>
               || (reason == ArtifactGenerationMismatch && MixedGenerations(s))
               || (reason == ArtifactMismatch && MixedContents(s))
    requires forall reason :: reason in versions <==> reason == ArtifactMismatch && MixedVersions(s)
    requires forall reason :: reason in fields <==>
               || (reason == ConfigurationMismatch && BuildFields(s.configuration) != BuildFields(req.configuration))
               || (reason == ToolchainMismatch && s.configuration.toolchain != req.configuration.toolchain)
               || (reason == RuleVersionMismatch && VersionFields(s.configuration) != VersionFields(req.configuration))
    ensures forall reason :: reason in query + origin + sealed + fields + versions <==>
              && reason != ScopeInsufficient && Objected(reason, s, req, source)
              && (reason == SourceUnavailable ==> !reported)
  {
    hide MixedContents, MixedVersions, MixedGenerations, Untracked, VersionFields, BuildFields;
    forall reason
      ensures reason in query + origin + sealed + fields + versions <==>
                reason in query || reason in origin || reason in sealed || reason in fields || reason in versions
    {
    }
  }

  /** Provenance, repository and revision checks. */
  method CheckQuery(s: KnowledgeSnapshot, req: QueryRequirement, source: Option<SourceObservation>)
    returns (unknown: bool, stale: bool, issues: seq<Reason>)
    ensures !unknown && !stale <==>
      && s.build.provenance == VerifiedBuild
      && s.identity.revision.Some? && s.identity.repository == req.repository && s.identity.revision == req.revision
      && (source.Some? ==>
            source.value.repository == s.identity.repository && source.value.revision == s.identity.revision)
            ensures unknown <==>
      (|| s.build.provenance != VerifiedBuild || s.identity.revision.None? || req.revision.None?
       || s.identity.repository != req.repository
       || (source.Some? && (source.value.revision.None? || source.value.repository != s.identity.repository)))
    ensures stale <==>
               s.identity.revision != req.revision || (source.Some? && source.value.revision != s.identity.revision)
    ensures issues == [] <==> !unknown && !stale
    ensures forall reason :: reason in issues <==>
              || (reason == UnverifiedProvenance && s.build.provenance != VerifiedBuild)
              || (reason in {UnknownRevision, RepositoryMismatch, RevisionMismatch} && Objected(reason, s, req, source))
  {
    unknown, stale, issues := false, false, [];
    if s.build.provenance != VerifiedBuild {
      unknown, issues := true, issues + [UnverifiedProvenance];
    }
    if s.identity.revision.None? || req.revision.None? || (source.Some? && source.value.revision.None?) {
      unknown, issues := true, issues + [UnknownRevision];
    }
    if s.identity.repository != req.repository || (source.Some? && source.value.repository != s.identity.repository) {
      unknown, issues := true, issues + [RepositoryMismatch];
    }
    if s.identity.revision != req.revision || (source.Some? && source.value.revision != s.identity.revision) {
      stale, issues := true, issues + [RevisionMismatch];
    }
  }

  /** Working-tree checks; an unreadable source is reported once. */
  method CheckSource(s: KnowledgeSnapshot, source: Option<SourceObservation>, reported: bool)
    returns (unknown: bool, stale: bool, issues: seq<Reason>)
    ensures !unknown && !stale <==>
      && source.Some? && !source.value.dirty && source.value.fingerprint == s.source
      && s.source.files.Keys <= source.value.tracked
      && (s.scope.kind == FullRepository ==> source.value.tracked <= s.source.files.Keys)
      && s.build.source == s.source
    ensures unknown <==>
      (|| s.build.source != s.source || source.None? || !(s.source.files.Keys <= source.value.tracked)
       || (s.scope.kind == FullRepository && !(source.value.tracked <= s.source.files.Keys)))
    ensures stale <==> source.Some? && (source.value.dirty || source.value.fingerprint != s.source)
    ensures !unknown && !stale ==> issues == []
    ensures forall reason :: reason in issues <==>
              || (reason == SourceUnavailable && source.None? && !reported)
              || (reason == DirtyWorkspace && source.Some? && source.value.dirty)
              || (reason == SourceDrift && source.Some? && source.value.fingerprint != s.source)
              || (reason == UnverifiedProvenance && (s.build.source != s.source || Untracked(s, source)))
  {
    unknown, stale, issues := false, false, [];
    if source.None? {
      unknown := true;
      if !reported {
        issues := issues + [SourceUnavailable];
      }
    } else {
      if !(s.source.files.Keys <= source.value.tracked) {
        unknown, issues := true, issues + [UnverifiedProvenance];
      }
      if source.value.dirty {
        stale, issues := true, issues + [DirtyWorkspace];
      }
      if source.value.fingerprint != s.source {
        stale, issues := true, issues + [SourceDrift];
      }
      if s.scope.kind == FullRepository && !(source.value.tracked <= s.source.files.Keys) {
        unknown, issues := true, issues + [UnverifiedProvenance];
      }
    }
    if s.build.source != s.source {
      unknown, issues := true, issues + [UnverifiedProvenance];
    }
  }

  /** Every artifact names the snapshot's generation, and their contents belong together. */
  method CheckArtifacts(s: KnowledgeSnapshot) returns (unknown: bool, issues: seq<Reason>)
    ensures unknown <==> MixedGenerations(s) || MixedContents(s)
    ensures issues == [] <==> !unknown
    ensures forall reason :: reason in issues <==>
              || (reason == ArtifactGenerationMismatch && MixedGenerations(s))
              || (reason == ArtifactMismatch && MixedContents(s))
  {
    unknown, issues := false, [];
    var files := s.artifacts.Files();
    for i := 0 to |files|
      invariant !unknown <==> forall j :: 0 <= j < i ==> files[j].snapshot == s.identity
      invariant issues == [] <==> !unknown
      invariant forall reason :: reason in issues <==> reason == ArtifactGenerationMismatch && unknown
    {
      if files[i].snapshot != s.identity {
        unknown, issues := true, issues + [ArtifactGenerationMismatch];
      }
    }
    assert !unknown <==> forall a :: a in files ==> a.snapshot == s.identity;
    if s.artifacts.text.snapshot != s.identity {
      unknown, issues := true, issues + [ArtifactGenerationMismatch];
    }
    var symbols, tests := s.artifacts.symbols, s.artifacts.tests;
    if (symbols.path, symbols.sha256, symbols.schemaVersion) != (tests.path, tests.sha256, tests.schemaVersion) {
      unknown, issues := true, issues + [ArtifactMismatch];
    }
    if s.artifacts.text.source != s.source {
      unknown, issues := true, issues + [ArtifactMismatch];
    }
  }

  /** The artifacts were written in the versions the configuration names. */
  method CheckVersions(s: KnowledgeSnapshot) returns (unknown: bool, issues: seq<Reason>)
    ensures unknown <==> MixedVersions(s)
    ensures issues == [] <==> !unknown
    ensures forall reason :: reason in issues <==> reason == ArtifactMismatch && MixedVersions(s)
  {
    var a, c := s.artifacts, s.configuration;
    unknown := || a.symbols.schemaVersion != c.symbolSchema || a.tests.schemaVersion != c.symbolSchema
               || a.graph.schemaVersion != c.graphSchema || a.domain.schemaVersion != c.domainSchema
               || a.text.reader != c.textReader;
    issues := if unknown then [ArtifactMismatch] else [];
  }

  lemma SealedExactly(s: KnowledgeSnapshot)
    ensures Sealed(s) <==> !MixedGenerations(s) && !MixedContents(s) && !MixedVersions(s)
  {
  }

  /** The three groups of configuration fields together cover the whole record. */
  method CheckConfiguration(actual: BuildConfiguration, expected: BuildConfiguration)
    returns (stale: bool, issues: seq<Reason>)
    ensures !stale <==> actual == expected
    ensures issues == [] <==> !stale
    ensures forall reason :: reason in issues <==>
              || (reason == ConfigurationMismatch && BuildFields(actual) != BuildFields(expected))
              || (reason == ToolchainMismatch && actual.toolchain != expected.toolchain)
              || (reason == RuleVersionMismatch && VersionFields(actual) != VersionFields(expected))
  {
    stale, issues := false, [];
    if || actual.configuration != expected.configuration || actual.compilerFlags != expected.compilerFlags
       || actual.includeDirectories != expected.includeDirectories || actual.compileDatabase != expected.compileDatabase
    {
      stale, issues := true, issues + [ConfigurationMismatch];
    }
    if actual.toolchain != expected.toolchain {
      stale, issues := true, issues + [ToolchainMismatch];
    }
    if || actual.symbolSchema != expected.symbolSchema || actual.graphSchema != expected.graphSchema
       || actual.domainSchema != expected.domainSchema || actual.textReader != expected.textReader
       || actual.testRules != expected.testRules || actual.projection != expected.projection
       || actual.domainRuleset != expected.domainRuleset || actual.frameworkRules != expected.frameworkRules
       || actual.scannerPolicy != expected.scannerPolicy
    {
      stale, issues := true, issues + [RuleVersionMismatch];
    }
  }
}
