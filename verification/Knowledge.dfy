/** The records of a knowledge root: snapshots, build attempts and the manifest that ties them together.
    A digest is represented by the value that was digested, which makes it injective; a tuple that must be
    sorted and free of duplicates is represented by the set or map of its elements. */
module Knowledge {
  import opened Prelude

  type RepoPath = string
  type Bytes = int

  datatype ScopeKind = SelectedFiles | FullRepository

  datatype BuildScope = BuildScope(kind: ScopeKind, semantic: set<RepoPath>, tests: set<RepoPath>,
                                   text: set<RepoPath>)
  {
    function Files(): set<RepoPath> {
      semantic + tests + text
    }

    predicate Covers(requested: BuildScope) {
      && (requested.kind == FullRepository ==> kind == FullRepository)
      && requested.semantic <= semantic && requested.tests <= tests && requested.text <= text
    }
  }

  datatype SourceFingerprint = SourceFingerprint(files: map<RepoPath, Bytes>)

  datatype SnapshotIdentity =
    SnapshotIdentity(snapshotId: nat, generation: nat, repository: string, revision: Option<nat>)

  datatype BuildConfiguration = BuildConfiguration(
    configuration: int, toolchain: int, symbolSchema: int, graphSchema: int, domainSchema: int,
    textReader: int, testRules: int, projection: int, domainRuleset: int, frameworkRules: int,
    compilerFlags: seq<int>, includeDirectories: seq<int>, compileDatabase: Option<int>, scannerPolicy: int)

  datatype FileName = IndexFile | DomainFile | ObservationsFile | CoverageFile | FailureFile | OrphanFile

  /** Every file of a generation lives under a path keyed by the generation. */
  datatype DiskPath =
    | GenerationFile(generation: nat, name: FileName)
    | GraphFile(repository: string, generation: nat)

  datatype Content =
    | IndexContent(files: set<RepoPath>, body: Bytes)
    | GraphContent(repository: string, snapshotKey: nat, body: Bytes)
    | DomainContent(repository: string, snapshotKey: nat, ruleset: int, body: Bytes)
    | ReportContent(body: Bytes)

  datatype ArtifactKind = SymbolArtifact | TestArtifact | GraphArtifact | DomainArtifact

  datatype ArtifactIdentity = ContentDigest(content: Content) | GraphKey(generation: nat)

  datatype ArtifactReference = ArtifactReference(
    kind: ArtifactKind, identity: ArtifactIdentity, snapshot: SnapshotIdentity,
    path: DiskPath, sha256: Content, schemaVersion: int)
  {
    predicate Valid() {
      schemaVersion > 0 && (kind != GraphArtifact ==> identity == ContentDigest(sha256))
    }
  }

  datatype TextKnowledge =
    TextKnowledge(identity: SourceFingerprint, snapshot: SnapshotIdentity, source: SourceFingerprint, reader: int)

  datatype KnowledgeArtifacts = KnowledgeArtifacts(
    symbols: ArtifactReference, tests: ArtifactReference, graph: ArtifactReference,
    domain: ArtifactReference, text: TextKnowledge)
  {
    function Files(): seq<ArtifactReference> {
      [symbols, tests, graph, domain]
    }

    predicate Valid() {
      && symbols.kind == SymbolArtifact && tests.kind == TestArtifact
      && graph.kind == GraphArtifact && domain.kind == DomainArtifact
      && symbols.Valid() && tests.Valid() && graph.Valid() && domain.Valid()
      && text.identity == text.source
    }
  }

  datatype BuildStatus = Succeeded | Building | Failed | Cancelled

  datatype Provenance = VerifiedBuild | Unverified

  datatype SnapshotBuild = SnapshotBuild(
    attemptId: nat, status: BuildStatus, builtAt: int, provenance: Provenance, source: SourceFingerprint)

  datatype KnowledgeSnapshot = KnowledgeSnapshot(
    identity: SnapshotIdentity, scope: BuildScope, source: SourceFingerprint,
    configuration: BuildConfiguration, artifacts: KnowledgeArtifacts, build: SnapshotBuild)
  {
    predicate Valid() {
      artifacts.Valid() && scope.Files() <= source.files.Keys
    }
  }

  datatype BuildAttempt = BuildAttempt(
    attemptId: nat, target: SnapshotIdentity, status: BuildStatus, reason: nat,
    startedAt: int, finishedAt: Option<int>, failure: Option<nat>)
  {
    predicate Valid() {
      if status == Building then finishedAt == None && failure == None
      else
        && finishedAt.Some? && startedAt <= finishedAt.value
        && (failure.Some? <==> status == Failed || status == Cancelled)
    }
  }

  datatype KnowledgeManifest =
    KnowledgeManifest(lastUsable: Option<KnowledgeSnapshot>, latestAttempt: Option<BuildAttempt>)
  {
    predicate Valid() {
      && (lastUsable.Some? ==> lastUsable.value.Valid() && lastUsable.value.build.status == Succeeded)
      && (latestAttempt.Some? ==> latestAttempt.value.Valid())
      && (lastUsable.Some? && latestAttempt.Some? ==> AttemptMatches(lastUsable.value, latestAttempt.value))
      && (latestAttempt.Some? && latestAttempt.value.status == Succeeded ==> lastUsable.Some?)
    }
  }

  predicate AttemptMatches(snapshot: KnowledgeSnapshot, attempt: BuildAttempt) {
    && snapshot.identity.repository == attempt.target.repository
    && if attempt.status == Succeeded then
         && attempt.target == snapshot.identity
         && attempt.attemptId == snapshot.build.attemptId
         && attempt.startedAt <= snapshot.build.builtAt
         && attempt.finishedAt.Some? && snapshot.build.builtAt <= attempt.finishedAt.value
       else
         attempt.target.generation != snapshot.identity.generation
  }

  /** One reading of the Git working tree: HEAD, cleanliness, the hashed paths with their file stamps, the index. */
  datatype SourceObservation = SourceObservation(
    repository: string, revision: Option<nat>, dirty: bool,
    fingerprint: SourceFingerprint, stamps: map<RepoPath, int>, tracked: set<RepoPath>)

  datatype QueryRequirement = QueryRequirement(
    repository: string, revision: Option<nat>, scope: BuildScope, configuration: BuildConfiguration)
}
