/** The completeness audit: it lists every violation it finds, and passes when there is none. */
module ReleaseAudit {
  import opened Wrappers
  import opened P = Promotion
  import M = Materialization

  datatype Code =
    | DesiredVersionMismatch
    | DesiredValidationContractMismatch
    | CurrentArtifactMissing
    | PendingWork
    | CurrentValidationContractMismatch
    | PreviousValidationContractMismatch
    | PreviousPublicationInvalid
    | CurrentVersionMismatch
    | ChunkCountMismatch
    | ChunkMetadataInvalid

  datatype GlobalCode =
    | ReleaseStateMismatch
    | ReaderNotReady
    | ReaderIncompatible
    | WorkerNotReady
    | WorkerIncompatible
    | ActiveJobs

  datatype Violation = Global(code: GlobalCode) | Titled(title: TitleId, what: Code)

  /** One title joined with the artifacts its pointers name. */
  datatype AuditRow = AuditRow(
    id: TitleId, matches: nat, desired: M.Desired, pendingWork: bool, current: Option<Artifact>,
        previous: Option<Artifact>)

  datatype Policy = Policy(requireCurrent: bool, requireQuiescent: bool)

  /** Everything the audit reads besides the titles. */
  datatype Surroundings = Surroundings(release: Option<M.Version>, readers: Capability, workers: Capability,
      activeJobs: nat)

  /** Every declared chunk count that is present is the actual one. */
  predicate CountsMatch(chunks: Chunks) {
    forall i | 0 <= i < |chunks.declared| && i < |chunks.actual| && chunks.declared[i].Some? ::
        chunks.declared[i].value == chunks.actual[i]
  }

  predicate Violates(code: Code, row: AuditRow, policy: Policy, released: Released) {
    match code
    case DesiredVersionMismatch =>
      row.desired.version.algorithm != released.algorithm || row.desired.version.schema != released.schema
    case DesiredValidationContractMismatch => row.desired.version.contract != Some(released.contract)
    case CurrentArtifactMissing => policy.requireCurrent && row.matches > 0 && row.current.None?
    case PendingWork => policy.requireQuiescent && row.pendingWork
    case CurrentValidationContractMismatch =>
      row.current.Some? && row.current.value.version.contract != Some(released.contract)
    case PreviousValidationContractMismatch =>
      row.previous.Some? && row.previous.value.version.contract != Some(released.contract)
    case PreviousPublicationInvalid =>
      row.previous.Some? && (!row.previous.value.published || row.previous.value.version.schema != released.schema)
    case CurrentVersionMismatch =>
      row.current.Some? && (!row.current.value.published || row.current.value.revision != row.desired.revision
                            || row.current.value.version.algorithm != row.desired.version.algorithm
                            || row.current.value.version.schema != row.desired.version.schema)
    case ChunkCountMismatch => row.current.Some? && !CountsMatch(row.current.value.chunks)
    case ChunkMetadataInvalid =>
      row.current.Some? && (|row.current.value.chunks.actual| == 0 || row.current.value.chunks.actual[0] < 1
          || row.current.value.chunks.invalid > 0)
  }

  predicate ViolatesGlobally(code: GlobalCode, around: Surroundings, policy: Policy, released: Released) {
    match code
    case ReleaseStateMismatch => around.release != Some(VersionOf(released))
    case ReaderNotReady => around.readers.compatible == 0
    case ReaderIncompatible => around.readers.incompatible > 0
    case WorkerNotReady => around.workers.compatible == 0
    case WorkerIncompatible => around.workers.incompatible > 0
    case ActiveJobs => policy.requireQuiescent && around.activeJobs > 0
  }

  /** A title in order: it wants the released version; what it shows is of the released contract, published for its
  present revision and version, and complete; what it showed before is still readable; and where the policy asks for
  it, there is a result and no work is left. */
  ghost predicate IsInOrder(row: AuditRow, policy: Policy, released: Released) {
    && row.desired.version == VersionOf(released)
    && (policy.requireCurrent && row.matches > 0 ==> row.current.Some?)
    && (policy.requireQuiescent ==> !row.pendingWork)
    && (row.current.Some? ==>
          && var a := row.current.value;
             a.published && a.revision == row.desired.revision && a.version == VersionOf(released)
             && IsComplete(a.chunks))
    && (row.previous.Some? ==>
          && var b := row.previous.value;
             b.published && b.version.schema == released.schema && b.version.contract == Some(released.contract))
  }

  /** There is at least one aggregate chunk, none is invalid, and every declared count is the actual one. */
  ghost predicate IsComplete(chunks: Chunks) {
    && chunks.invalid <= 0 && chunks.actual != [] && chunks.actual[0] >= 1
    && forall i: nat | i < |chunks.actual| && i < |chunks.declared| ::
         chunks.declared[i] in {None, Some(chunks.actual[i])}
  }

  lemma CompleteIffMatching(chunks: Chunks)
    ensures IsComplete(chunks) <==>
              CountsMatch(chunks) && |chunks.actual| != 0 && chunks.actual[0] >= 1 && chunks.invalid <= 0
  {
    if CountsMatch(chunks) {
      forall i: nat | i < |chunks.actual| && i < |chunks.declared|
        ensures chunks.declared[i] in {None, Some(chunks.actual[i])}
      {
        if chunks.declared[i].Some? {
          assert chunks.declared[i] == Some(chunks.declared[i].value);
        }
      }
    }
  }

  /** The violations of a title are those of a title that is not in order, one code for each part. */
  lemma InOrderIffNoViolation(row: AuditRow, policy: Policy, released: Released)
    ensures IsInOrder(row, policy, released) <==> forall code: Code :: !Violates(code, row, policy, released)
  {
    if row.current.Some? {
      CompleteIffMatching(row.current.value.chunks);
      hide IsComplete, CountsMatch;
    }
    if forall code: Code :: !Violates(code, row, policy, released) {
      assert !Violates(DesiredVersionMismatch, row, policy, released);
      assert !Violates(DesiredValidationContractMismatch, row, policy, released);
      assert !Violates(CurrentArtifactMissing, row, policy, released) && !Violates(PendingWork, row, policy, released);
      assert !Violates(CurrentValidationContractMismatch, row, policy, released);
      assert !Violates(PreviousValidationContractMismatch, row, policy, released);
      assert !Violates(PreviousPublicationInvalid, row, policy, released);
      assert !Violates(CurrentVersionMismatch, row, policy, released);
      assert !Violates(ChunkCountMismatch, row, policy, released)
               && !Violates(ChunkMetadataInvalid, row, policy, released);
    }
  }

  /** Around the titles: the release row, readers and workers that are there and compatible, and no running job where
  the policy asks for rest. */
  lemma SurroundingsInOrderIff(around: Surroundings, policy: Policy, released: Released)
    ensures (forall code: GlobalCode :: !ViolatesGlobally(code, around, policy, released)) <==>
              && around.release == Some(VersionOf(released)) && IsReady(around.readers, around.workers)
              && (policy.requireQuiescent ==> around.activeJobs == 0)
  {
    if forall code: GlobalCode :: !ViolatesGlobally(code, around, policy, released) {
      assert !ViolatesGlobally(GlobalCode.ReleaseStateMismatch, around, policy, released);
      assert !ViolatesGlobally(GlobalCode.ReaderNotReady, around, policy, released);
      assert !ViolatesGlobally(GlobalCode.ReaderIncompatible, around, policy, released);
      assert !ViolatesGlobally(GlobalCode.WorkerNotReady, around, policy, released);
      assert !ViolatesGlobally(GlobalCode.WorkerIncompatible, around, policy, released);
      assert !ViolatesGlobally(GlobalCode.ActiveJobs, around, policy, released);
    }
  }

  function PushIf(found: seq<Violation>, violated: bool, v: Violation): (r: seq<Violation>)
    ensures forall w :: w in r <==> w in found || (violated && w == v)
    ensures r == [] <==> found == [] && !violated
  {
    if violated then found + [v] else found
  }

  /** `found` holds what the title violates among the codes `looked` at so far. */
  ghost predicate Lists(found: seq<Violation>, looked: set<Code>, row: AuditRow, policy: Policy, released: Released) {
    forall v :: v in found <==>
                  v.Titled? && v.title == row.id && v.what in looked && Violates(v.what, row, policy, released)
  }

  method Check(found: seq<Violation>, ghost looked: set<Code>, code: Code, violated: bool, row: AuditRow,
      policy: Policy, released: Released)
    returns (more: seq<Violation>)
    requires violated == Violates(code, row, policy, released) && Lists(found, looked, row, policy, released)
    ensures Lists(more, looked + {code}, row, policy, released)
  {
    hide Violates;
    more := PushIf(found, violated, Titled(row.id, code));
  }

  const OF_DESIRED := {DesiredVersionMismatch, DesiredValidationContractMismatch, CurrentArtifactMissing, PendingWork}
  const OF_ATTESTATION := {CurrentValidationContractMismatch, PreviousValidationContractMismatch,
                           PreviousPublicationInvalid}
  const OF_CURRENT := {CurrentVersionMismatch, ChunkCountMismatch, ChunkMetadataInvalid}

  method InspectDesired(row: AuditRow, policy: Policy, released: Released) returns (found: seq<Violation>)
    ensures Lists(found, OF_DESIRED, row, policy, released)
  {
    var version := row.desired.version;
    found := [];
    assert Lists(found, {}, row, policy, released);
    hide Lists;
    found := Check(found, {}, DesiredVersionMismatch,
                   version.algorithm != released.algorithm || version.schema != released.schema, row, policy, released);
    found := Check(found, {DesiredVersionMismatch}, DesiredValidationContractMismatch,
                   version.contract != Some(released.contract), row, policy, released);
    found := Check(found, {DesiredVersionMismatch, DesiredValidationContractMismatch}, CurrentArtifactMissing,
                   policy.requireCurrent && row.matches > 0 && row.current.None?, row, policy, released);
    found := Check(found, {DesiredVersionMismatch, DesiredValidationContractMismatch, CurrentArtifactMissing},
                   PendingWork,
                   policy.requireQuiescent && row.pendingWork, row, policy, released);
    assert {DesiredVersionMismatch, DesiredValidationContractMismatch, CurrentArtifactMissing} + {PendingWork}
             == OF_DESIRED;
  }

  method InspectAttestation(row: AuditRow, policy: Policy, released: Released, before: seq<Violation>,
      ghost looked: set<Code>)
    returns (found: seq<Violation>)
    requires Lists(before, looked, row, policy, released)
    ensures Lists(found, looked + OF_ATTESTATION, row, policy, released)
  {
    hide Lists;
    var (current, previous) := (row.current, row.previous);
    found := Check(before, looked, CurrentValidationContractMismatch,
                   current.Some? && current.value.version.contract != Some(released.contract), row, policy, released);
    found := Check(found, looked + {CurrentValidationContractMismatch}, PreviousValidationContractMismatch,
                   previous.Some? && previous.value.version.contract != Some(released.contract), row, policy, released);
    found := Check(found, looked + {CurrentValidationContractMismatch} + {PreviousValidationContractMismatch},
                   PreviousPublicationInvalid,
                   previous.Some? && (!previous.value.published || previous.value.version.schema != released.schema),
                       row, policy, released);
    assert looked + {CurrentValidationContractMismatch} + {PreviousValidationContractMismatch}
           + {PreviousPublicationInvalid}
        == looked + OF_ATTESTATION;
  }

  method InspectCurrent(row: AuditRow, policy: Policy, released: Released, before: seq<Violation>,
      ghost looked: set<Code>)
    returns (found: seq<Violation>)
    requires Lists(before, looked, row, policy, released)
    ensures Lists(found, looked + OF_CURRENT, row, policy, released)
  {
    hide Lists, CountsMatch;
    var (version, current) := (row.desired.version, row.current);
    found := Check(before, looked, CurrentVersionMismatch,
                   current.Some? && (!current.value.published || current.value.revision != row.desired.revision
                                     || current.value.version.algorithm != version.algorithm
                                     || current.value.version.schema != version.schema), row, policy, released);
    found := Check(found, looked + {CurrentVersionMismatch}, ChunkCountMismatch,
                   current.Some? && !CountsMatch(current.value.chunks), row, policy, released);
    found := Check(found, looked + {CurrentVersionMismatch} + {ChunkCountMismatch}, ChunkMetadataInvalid,
                   current.Some? && (|current.value.chunks.actual| == 0 || current.value.chunks.actual[0] < 1
                                     || current.value.chunks.invalid > 0), row, policy, released);
    assert looked + {CurrentVersionMismatch} + {ChunkCountMismatch} + {ChunkMetadataInvalid} == looked + OF_CURRENT;
  }

  /** `inspect_title`: pushes what this title violates, and nothing else. */
  method InspectTitle(row: AuditRow, policy: Policy, released: Released, violations: seq<Violation>)
    returns (out: seq<Violation>)
    ensures violations <= out
    ensures forall v :: v in out[|violations|..] <==>
                          v.Titled? && v.title == row.id && Violates(v.what, row, policy, released)
  {
    hide Violates, Lists;
    var found := InspectDesired(row, policy, released);
    found := InspectAttestation(row, policy, released, found, OF_DESIRED);
    found := InspectCurrent(row, policy, released, found, OF_DESIRED + OF_ATTESTATION);
    forall code: Code ensures code in OF_DESIRED + OF_ATTESTATION + OF_CURRENT {
      EveryCode(code);
    }
    ListsAll(found, OF_DESIRED + OF_ATTESTATION + OF_CURRENT, row, policy, released);
    out := violations + found;
    assert out[|violations|..] == found;
  }

  lemma EveryCode(code: Code)
    ensures code in OF_DESIRED + OF_ATTESTATION + OF_CURRENT
  {
    match code
    case DesiredVersionMismatch => assert code in OF_DESIRED;
    case DesiredValidationContractMismatch => assert code in OF_DESIRED;
    case CurrentArtifactMissing => assert code in OF_DESIRED;
    case PendingWork => assert code in OF_DESIRED;
    case CurrentVersionMismatch => assert code in OF_CURRENT;
    case ChunkCountMismatch => assert code in OF_CURRENT;
    case ChunkMetadataInvalid => assert code in OF_CURRENT;
    case _ => assert code in OF_ATTESTATION;
  }

  lemma ListsAll(found: seq<Violation>, looked: set<Code>, row: AuditRow, policy: Policy, released: Released)
    requires Lists(found, looked, row, policy, released) && forall code: Code :: code in looked
    ensures forall v :: v in found <==> v.Titled? && v.title == row.id && Violates(v.what, row, policy, released)
  {
    hide Violates;
  }

  method InspectSurroundings(around: Surroundings, policy: Policy, released: Released) returns (found: seq<Violation>)
    ensures forall v :: v in found <==> v.Global? && ViolatesGlobally(v.code, around, policy, released)
  {
    found := PushIf([], around.release != Some(VersionOf(released)), Global(GlobalCode.ReleaseStateMismatch));
    found := PushIf(found, around.readers.compatible == 0, Global(GlobalCode.ReaderNotReady));
    found := PushIf(found, around.readers.incompatible > 0, Global(GlobalCode.ReaderIncompatible));
    found := PushIf(found, around.workers.compatible == 0, Global(GlobalCode.WorkerNotReady));
    found := PushIf(found, around.workers.incompatible > 0, Global(GlobalCode.WorkerIncompatible));
    found := PushIf(found, policy.requireQuiescent && around.activeJobs > 0, Global(GlobalCode.ActiveJobs));
  }

  predicate Found(v: Violation, around: Surroundings, rows: seq<AuditRow>, policy: Policy, released: Released) {
    match v
    case Global(code) => ViolatesGlobally(code, around, policy, released)
    case Titled(id, code) => exists i ::
                               0 <= i < |rows| && rows[i].id == id && Violates(code, rows[i], policy, released)
  }

  /** `inspect_completeness`: the report holds exactly what is violated somewhere, and passes exactly when
  that is nothing. */
  method InspectCompleteness(around: Surroundings, rows: seq<AuditRow>, policy: Policy, released: Released)
    returns (violations: seq<Violation>, passed: bool, currentArtifacts: nat)
    ensures forall v :: v in violations <==> Found(v, around, rows, policy, released)
    ensures passed <==> forall v :: !Found(v, around, rows, policy, released)
    ensures currentArtifacts == |set i | 0 <= i < |rows| && rows[i].current.Some?|
  {
    hide Violates, ViolatesGlobally;
    violations := InspectSurroundings(around, policy, released);
    currentArtifacts := 0;
    ghost var counted: set<int> := {};
    for i := 0 to |rows|
      invariant forall v :: v in violations <==> Found(v, around, rows[..i], policy, released)
      invariant counted == (set k | 0 <= k < i && rows[k].current.Some?) && currentArtifacts == |counted|
    {
      ghost var before := violations;
      violations := InspectTitle(rows[i], policy, released, violations);
      assert violations == before + violations[|before|..];
      forall v ensures v in violations <==> Found(v, around, rows[..i + 1], policy, released) {
        OneMoreRow(v, around, rows, i, policy, released);
      }
      if rows[i].current.Some? {
        currentArtifacts := currentArtifacts + 1;
        counted := counted + {i};
      }
    }
    assert rows[..|rows|] == rows;
    passed := violations == [];
    assert !passed ==> violations[0] in violations;
  }

  lemma OneMoreRow(v: Violation, around: Surroundings, rows: seq<AuditRow>, i: nat, policy: Policy, released: Released)
    requires i < |rows|
    ensures Found(v, around, rows[..i + 1], policy, released) <==>
              Found(v, around, rows[..i], policy, released)
              || (v.Titled? && v.title == rows[i].id && Violates(v.what, rows[i], policy, released))
  {
    hide Violates, ViolatesGlobally;
    if v.Titled? {
      forall k | 0 <= k < i ensures rows[..i + 1][k] == rows[..i][k] {
      }
      assert rows[..i + 1][i] == rows[i];
    }
  }

  // ---------------------------------------------------------------- the audit of a store

  function Joined(s: Store, pointer: Option<ArtifactId>): Option<Artifact> {
    if pointer.Some? && pointer.value in s.artifacts then Some(s.artifacts[pointer.value]) else None
  }

  function RowOf(s: Store, id: TitleId): AuditRow
    requires id in Locked(s)
  {
    var row := s.titles[id];
    AuditRow(id, row.matches, row.title.desired.value, row.title.pendingWork, Joined(s, row.current),
             Joined(s, row.previous))
  }

  /** `title_audit_rows`: one row per title with a state row, in the order of the ids. */
  ghost predicate RowsOf(s: Store, rows: seq<AuditRow>) {
    && (forall i | 0 <= i < |rows| :: rows[i].id in Locked(s) && rows[i] == RowOf(s, rows[i].id))
    && (forall id | id in Locked(s) :: exists i :: 0 <= i < |rows| && rows[i].id == id)
    && forall i, j | 0 <= i < j < |rows| :: rows[i].id < rows[j].id
  }

  /** What a promotion leaves to the jobs it asked for: results that are missing or out of date, and work
  that is still to be done. */
  predicate MayRemain(v: Violation) {
    match v
    case Global(code) => code.ActiveJobs?
    case Titled(_, code) =>
      code.CurrentArtifactMissing? || code.PendingWork? || code.CurrentVersionMismatch? || code.ChunkCountMismatch?
          || code.ChunkMetadataInvalid?
  }

  /** Right after an application the audit finds no mismatch of the release row, of a desired version or
  contract, of an attestation, of a previous result, or of a reader or worker. */
  lemma AuditAfterApply(s: Store, request: Request, released: Released, readers: Capability, workers: Capability,
                        rows: seq<AuditRow>, policy: Policy, activeJobs: nat, v: Violation)
    requires Applies(s, request, released, readers, workers)
    requires RowsOf(Promote(s, request, released, readers, workers).0, rows)
    requires Found(v, Surroundings(Promote(s, request, released, readers, workers).0.release, readers, workers,
                                   activeJobs), rows, policy, released)
    ensures MayRemain(v)
  {
    var after := Promote(s, request, released, readers, workers).0;
    if v.Titled? {
      var i :| 0 <= i < |rows| && rows[i].id == v.title && Violates(v.what, rows[i], policy, released);
      ApplyMovesEverything(s, request, released, readers, workers, v.title);
      PointersAreSupported(s, request, released, readers, workers, v.title);
      hide CountsMatch;
    }
  }

  lemma PointersAreSupported(s: Store, request: Request, released: Released, readers: Capability, workers: Capability,
      id: TitleId)
    requires Applies(s, request, released, readers, workers) && id in Locked(s)
    ensures var after := Promote(s, request, released, readers, workers).0;
            && (after.titles[id].current.Some? ==> Supported(after.artifacts, after.titles[id].current.value, released))
            && (after.titles[id].previous.Some? ==>
                 Supported(after.artifacts, after.titles[id].previous.value, released))
            && (s.titles[id].current.Some? && Supported(s.artifacts, s.titles[id].current.value, released) ==>
                  after.titles[id].current == s.titles[id].current)
            && (s.titles[id].previous.Some? && Supported(s.artifacts, s.titles[id].previous.value, released) ==>
                  after.titles[id].previous == s.titles[id].previous)
  {
  }

  /** Of the version mismatches one can remain, and exactly then: the title keeps a readable result that was
  calculated from another revision or by another algorithm. */
  lemma StaleResultsRemain(s: Store, request: Request, released: Released, readers: Capability, workers: Capability,
                           id: TitleId, policy: Policy)
    requires Applies(s, request, released, readers, workers) && id in Locked(s)
    ensures var after := Promote(s, request, released, readers, workers).0;
            id in Locked(after)
            && (Violates(CurrentVersionMismatch, RowOf(after, id), policy, released) <==>
                  && s.titles[id].current.Some? && Supported(s.artifacts, s.titles[id].current.value, released)
                  && var a := s.artifacts[s.titles[id].current.value];
                     a.revision != s.titles[id].title.desired.value.revision
                         || a.version.algorithm != released.algorithm)
  {
    ApplyMovesEverything(s, request, released, readers, workers, id);
    PointersAreSupported(s, request, released, readers, workers, id);
  }
}
