/** Validate-then-replace ingestion of benchmark artifacts, with every disk state it passes through. */
module ArtifactIngest {
  import opened Wrappers
  import opened Sequences
  import opened StableSort
  import Lexicographic

  newtype byte = x: int | 0 <= x < 256

  type Bytes = seq<byte>

  datatype Path = Path(dir: seq<string>, name: string)

  type Files = map<Path, Bytes>

  // ----- Validation

  datatype Expected = Expected(engine: string, vectors: int)

  datatype ResultRow = ResultRow(
    groupVectors: Option<int>,
    engine: string,
    vectors: Option<int>,
    skipped: bool,
    recall: Option<real>,
    p99: Option<real>,
    sloStatus: string,
    costStatus: string)

  datatype Payload = Payload(
    sourceRef: string,
    executionId: string,
    generatedAt: string,
    evidenceSource: string,
    workflowRunId: string,
    workflowRunUrl: string,
    scenarioName: string,
    rows: seq<ResultRow>)

  datatype Rejection =
    | NotRecognised | InvalidJson
    | BadSourceRef | NoExecutionId | NoGeneratedAt | NoRealRun | NoWorkflowRun | WrongScenario
    | EngineMissing | WrongVectors | RowSkipped | MissingNumber | RecallBelowFloor | P99AboveCeiling
    | SloNotAccepted | CostNotAccepted

  const RECALL_FLOOR := 0.95
  const P99_CEILING_MS := 100.0

  predicate IsHex(c: char) {
    '0' <= c <= '9' || 'a' <= c <= 'f' || 'A' <= c <= 'F'
  }

  predicate IsCommit(s: string) {
    |s| == 40 && forall i :: 0 <= i < |s| ==> IsHex(s[i])
  }

  function WithEngine(engine: string): ResultRow -> bool {
    (row: ResultRow) => row.engine == engine
  }

  /** `validate_artifact` on a decoded payload: the first failing check names the rejection. */
  function ValidatePayload(p: Payload, e: Expected): Result<ResultRow, Rejection> {
    if !IsCommit(p.sourceRef) then Err(BadSourceRef)
    else if p.executionId == "" then Err(NoExecutionId)
    else if p.generatedAt == "" then Err(NoGeneratedAt)
    else if p.evidenceSource in ["", "fixture", "sample", "plan-only"] then Err(NoRealRun)
    else if p.evidenceSource == "github-actions" && (p.workflowRunId == "" || p.workflowRunUrl == "") then
      Err(NoWorkflowRun)
    else if p.scenarioName != "production_streaming_load_profile" then Err(WrongScenario)
    else
      var matches := Filter(WithEngine(e.engine), p.rows);
      if matches == [] then Err(EngineMissing)
      else ValidateRow(matches[0], e)
  }

  function ValidateRow(row: ResultRow, e: Expected): Result<ResultRow, Rejection> {
    if row.groupVectors != Some(e.vectors) || row.vectors != Some(e.vectors) then Err(WrongVectors)
    else if row.skipped then Err(RowSkipped)
    else if row.recall.None? || row.p99.None? then Err(MissingNumber)
    else if row.recall.value < RECALL_FLOOR then Err(RecallBelowFloor)
    else if row.p99.value > P99_CEILING_MS then Err(P99AboveCeiling)
    else if row.sloStatus !in ["pass", "scale_required"] then Err(SloNotAccepted)
    else if row.costStatus != "valid_slo" then Err(CostNotAccepted)
    else Ok(row)
  }

  /** How bytes decode is left open; `None` is anything but a JSON object. */
  type Decoder = Bytes -> Option<Payload>

  function Validate(decode: Decoder, bytes: Bytes, e: Expected): Result<ResultRow, Rejection> {
    match decode(bytes)
    case None => Err(InvalidJson)
    case Some(p) => ValidatePayload(p, e)
  }

  predicate Accepts(decode: Decoder, bytes: Bytes, e: Expected) {
    Validate(decode, bytes, e).Ok?
  }

  /** A measured row of the expected size, within both targets, with accepted SLO and cost status. */
  predicate MeetsTargets(row: ResultRow, e: Expected) {
    && row.groupVectors == Some(e.vectors) && row.vectors == Some(e.vectors)
    && !row.skipped
    && row.recall.Some? && row.recall.value >= 0.95
    && row.p99.Some? && row.p99.value <= 100.0
    && (row.sloStatus == "pass" || row.sloStatus == "scale_required")
    && row.costStatus == "valid_slo"
  }

  /** A full commit, a finished execution and, where it ran on GitHub Actions, the run. */
  predicate HasProvenance(p: Payload) {
    && IsCommit(p.sourceRef) && p.executionId != "" && p.generatedAt != ""
    && p.evidenceSource != "" && p.evidenceSource != "fixture"
    && p.evidenceSource != "sample" && p.evidenceSource != "plan-only"
    && (p.evidenceSource == "github-actions" ==> p.workflowRunId != "" && p.workflowRunUrl != "")
    && p.scenarioName == "production_streaming_load_profile"
  }

  ghost predicate FirstRowFor(engine: string, rows: seq<ResultRow>, i: nat) {
    i < |rows| && rows[i].engine == engine && forall j :: 0 <= j < i ==> rows[j].engine != engine
  }

  ghost predicate FirstRowMeets(rows: seq<ResultRow>, e: Expected) {
    exists i: nat :: FirstRowFor(e.engine, rows, i) && MeetsTargets(rows[i], e)
  }

  /** The first matching row is the first row for the engine, and there is none exactly when no row is for it. */
  lemma FirstRow(rows: seq<ResultRow>, engine: string)
    ensures var matches := Filter(WithEngine(engine), rows);
            && (matches == [] <==> forall j :: 0 <= j < |rows| ==> rows[j].engine != engine)
            && (matches != [] ==> exists i: nat :: FirstRowFor(engine, rows, i))
            && forall i: nat :: FirstRowFor(engine, rows, i) ==> matches != [] && rows[i] == matches[0]
  {
    var matches := Filter(WithEngine(engine), rows);
    if matches != [] {
      var i := FirstMatch(WithEngine(engine), rows);
      assert forall j :: 0 <= j < i ==> !WithEngine(engine)(rows[j]);
      assert FirstRowFor(engine, rows, i);
      forall j: nat | FirstRowFor(engine, rows, j) ensures j == i {
      }
    } else {
      forall j: nat | j < |rows| ensures rows[j].engine != engine {
        FilterIn(WithEngine(engine), rows, rows[j]);
      }
    }
  }

  lemma FirstRowExactly(rows: seq<ResultRow>, e: Expected)
    ensures var matches := Filter(WithEngine(e.engine), rows);
            FirstRowMeets(rows, e) <==> matches != [] && MeetsTargets(matches[0], e)
  {
    hide MeetsTargets;
    FirstRow(rows, e.engine);
  }

  lemma RowMeetsExactly(row: ResultRow, e: Expected)
    ensures ValidateRow(row, e).Ok? <==> MeetsTargets(row, e)
  {
  }

  /** Exactly when an artifact is accepted: it is a JSON object with provenance whose first row for the
      expected engine meets the targets. */
  lemma AcceptedExactly(decode: Decoder, bytes: Bytes, e: Expected)
    ensures Accepts(decode, bytes, e) <==>
              && decode(bytes).Some?
              && HasProvenance(decode(bytes).value)
              && FirstRowMeets(decode(bytes).value.rows, e)
  {
    if decode(bytes).Some? {
      var rows := decode(bytes).value.rows;
      FirstRowExactly(rows, e);
      if Filter(WithEngine(e.engine), rows) != [] {
        RowMeetsExactly(Filter(WithEngine(e.engine), rows)[0], e);
      }
    }
  }

  /** The order in which an artifact is checked. */
  function Place(why: Rejection): nat {
    match why
    case NotRecognised => 0
    case InvalidJson => 1
    case BadSourceRef => 2
    case NoExecutionId => 3
    case NoGeneratedAt => 4
    case NoRealRun => 5
    case NoWorkflowRun => 6
    case WrongScenario => 7
    case EngineMissing => 8
    case WrongVectors => 9
    case RowSkipped => 10
    case MissingNumber => 11
    case RecallBelowFloor => 12
    case P99AboveCeiling => 13
    case SloNotAccepted => 14
    case CostNotAccepted => 15
  }

  /** What each reason means of the payload. */
  predicate PayloadFails(p: Payload, why: Rejection) {
    match why
    case BadSourceRef => !IsCommit(p.sourceRef)
    case NoExecutionId => p.executionId == ""
    case NoGeneratedAt => p.generatedAt == ""
    case NoRealRun =>
      p.evidenceSource == "" || p.evidenceSource == "fixture" || p.evidenceSource == "sample"
      || p.evidenceSource == "plan-only"
    case NoWorkflowRun => p.evidenceSource == "github-actions" && !(p.workflowRunId != "" && p.workflowRunUrl != "")
    case WrongScenario => p.scenarioName != "production_streaming_load_profile"
    case _ => false
  }

  /** What each reason means of the first row for the engine. */
  predicate RowFails(row: ResultRow, e: Expected, why: Rejection) {
    match why
    case WrongVectors => !(row.groupVectors == Some(e.vectors) && row.vectors == Some(e.vectors))
    case RowSkipped => row.skipped
    case MissingNumber => !(row.recall.Some? && row.p99.Some?)
    case RecallBelowFloor => row.recall.Some? && row.recall.value < 0.95
    case P99AboveCeiling => row.p99.Some? && row.p99.value > 100.0
    case SloNotAccepted => row.sloStatus != "pass" && row.sloStatus != "scale_required"
    case CostNotAccepted => row.costStatus != "valid_slo"
    case _ => false
  }

  ghost predicate Fails(decode: Decoder, bytes: Bytes, e: Expected, why: Rejection) {
    match decode(bytes)
    case None => why == InvalidJson
    case Some(p) =>
      || PayloadFails(p, why)
      || (why == EngineMissing && forall j :: 0 <= j < |p.rows| ==> p.rows[j].engine != e.engine)
      || exists i: nat :: FirstRowFor(e.engine, p.rows, i) && RowFails(p.rows[i], e, why)
  }

  lemma RowReason(row: ResultRow, e: Expected, why: Rejection)
    ensures ValidateRow(row, e) == Err(why) <==>
              RowFails(row, e, why) && forall other :: Place(other) < Place(why) ==> !RowFails(row, e, other)
  {
    var v := ValidateRow(row, e);
    if v.Err? {
      assert RowFails(row, e, v.error) && 9 <= Place(v.error);
      assert forall other :: Place(other) < Place(v.error) ==> !RowFails(row, e, other);
      PlacesApart(v.error, why);
    }
  }

  lemma RowPasses(row: ResultRow, e: Expected)
    ensures ValidateRow(row, e).Ok? <==> forall why :: !RowFails(row, e, why)
  {
    if ValidateRow(row, e).Err? {
      assert RowFails(row, e, ValidateRow(row, e).error);
    }
  }

  /** Either the payload's own checks decide, or none of them fails and its rows decide. */
  lemma PayloadReason(p: Payload, e: Expected)
    ensures var v, matches := ValidatePayload(p, e), Filter(WithEngine(e.engine), p.rows);
            if v.Err? && Place(v.error) < 8 then
              PayloadFails(p, v.error) && forall other :: Place(other) < Place(v.error) ==> !PayloadFails(p, other)
            else
              && (forall other :: !PayloadFails(p, other))
              && v == if matches == [] then Err(EngineMissing) else ValidateRow(matches[0], e)
  {
    var matches := Filter(WithEngine(e.engine), p.rows);
    assert matches != [] && ValidateRow(matches[0], e).Err? ==> Place(ValidateRow(matches[0], e).error) >= 9;
  }

  lemma FailsByPart(decode: Decoder, bytes: Bytes, e: Expected, p: Payload, why: Rejection)
    requires decode(bytes) == Some(p)
    ensures var matches := Filter(WithEngine(e.engine), p.rows);
            Fails(decode, bytes, e, why) <==>
              || PayloadFails(p, why)
              || (matches == [] && why == EngineMissing)
              || (matches != [] && RowFails(matches[0], e, why))
  {
    FirstRow(p.rows, e.engine);
    hide PayloadFails;
    hide RowFails;
    hide Filter;
    hide FirstRowFor;
  }

  /** The reason given is the first that applies in the order of the checks. */
  lemma RejectedExactly(decode: Decoder, bytes: Bytes, e: Expected, why: Rejection)
    ensures Validate(decode, bytes, e) == Err(why) <==>
              && Fails(decode, bytes, e, why)
              && forall other :: Place(other) < Place(why) ==> !Fails(decode, bytes, e, other)
  {
    var v := Validate(decode, bytes, e);
    if v.Err? {
      ReasonFails(decode, bytes, e);
      PlacesApart(v.error, why);
      hide Validate;
      hide Fails;
      hide Place;
    } else {
      NothingFails(decode, bytes, e, why);
    }
  }

  lemma ReasonFails(decode: Decoder, bytes: Bytes, e: Expected)
    requires Validate(decode, bytes, e).Err?
    ensures var why := Validate(decode, bytes, e).error;
            && Fails(decode, bytes, e, why)
            && forall other :: Place(other) < Place(why) ==> !Fails(decode, bytes, e, other)
  {
    var why := Validate(decode, bytes, e).error;
    if decode(bytes) == None {
      assert why == InvalidJson;
    } else {
      var p := decode(bytes).value;
      var matches := Filter(WithEngine(e.engine), p.rows);
      PayloadReason(p, e);
      FailsByPart(decode, bytes, e, p, why);
      if matches != [] {
        RowReason(matches[0], e, why);
      }
      forall other | Place(other) < Place(why) ensures !Fails(decode, bytes, e, other) {
        FailsByPart(decode, bytes, e, p, other);
        PartsInOrder(p, e, other, why);
      }
    }
  }

  /** The payload's checks come before the search for the engine, and that before the checks of its row. */
  lemma PartsInOrder(p: Payload, e: Expected, other: Rejection, why: Rejection)
    requires Place(other) < Place(why)
    ensures Place(why) < 8 ==> other != EngineMissing && forall row :: !RowFails(row, e, other)
    ensures why == EngineMissing ==> forall row :: !RowFails(row, e, other)
  {
  }

  lemma NothingFails(decode: Decoder, bytes: Bytes, e: Expected, why: Rejection)
    requires Validate(decode, bytes, e).Ok?
    ensures !Fails(decode, bytes, e, why)
  {
    var p := decode(bytes).value;
    PayloadReason(p, e);
    RowPasses(Filter(WithEngine(e.engine), p.rows)[0], e);
    FailsByPart(decode, bytes, e, p, why);
  }

  lemma PlacesApart(a: Rejection, b: Rejection)
    ensures a == b || Place(a) < Place(b) || Place(b) < Place(a)
  {
  }

  lemma {:induction false} FirstMatch(q: ResultRow -> bool, rows: seq<ResultRow>) returns (i: nat)
    requires Filter(q, rows) != []
    ensures i < |rows| && q(rows[i]) && rows[i] == Filter(q, rows)[0]
    ensures forall j :: 0 <= j < i ==> !q(rows[j])
  {
    if q(rows[0]) {
      i := 0;
    } else {
      i := FirstMatch(q, rows[1..]);
      i := i + 1;
    }
  }

  // ----- Discovery

  const EXPECTED: map<string, Expected> := map[
    "production_streaming_load_qdrant_10m_results.json" :=
      Expected("Qdrant service streaming", 10_000_000),
    "production_streaming_load_qdrant_sharded_10m_results.json" :=
      Expected("Qdrant sharded service streaming", 10_000_000),
    "production_streaming_load_qdrant_sharded_100m_results.json" :=
      Expected("Qdrant sharded service streaming", 100_000_000),
    "production_streaming_load_pgvector_10m_results.json" :=
      Expected("WaveMind pgvector streaming", 10_000_000),
    "production_streaming_load_ivfpq_50m_results.json" :=
      Expected("WaveMind faiss-ivfpq-persisted streaming", 50_000_000)
  ]

  predicate PartsLeq(a: seq<string>, b: seq<string>) {
    a == [] || (b != [] && (Lexicographic.Less(a[0], b[0]) || (a[0] == b[0] && PartsLeq(a[1..], b[1..]))))
  }

  /** Up to part `i` the paths agree; there the first ends, or has the smaller part. */
  ghost predicate FirstPart(a: seq<string>, b: seq<string>, i: nat) {
    i <= |a| && i <= |b| && a[..i] == b[..i] && (i == |a| || (i < |b| && Lexicographic.Less(a[i], b[i])))
  }

  /** Parts are in order exactly when the first difference says so. */
  lemma {:induction false} PartsByFirstDifference(a: seq<string>, b: seq<string>)
    ensures PartsLeq(a, b) <==> exists i: nat :: FirstPart(a, b, i)
  {
    if a == [] || b == [] {
      assert a == [] ==> FirstPart(a, b, 0);
    } else if a[0] != b[0] {
      assert Lexicographic.Less(a[0], b[0]) ==> FirstPart(a, b, 0);
      forall i: nat | FirstPart(a, b, i) ensures i == 0 {
        SharedPart(a, b, i);
      }
    } else {
      PartsByFirstDifference(a[1..], b[1..]);
      assert a == [a[0]] + a[1..] && b == [b[0]] + b[1..];
      if i: nat :| FirstPart(a[1..], b[1..], i) {
        assert a[..i + 1] == [a[0]] + a[1..][..i] && b[..i + 1] == [b[0]] + b[1..][..i];
        assert FirstPart(a, b, i + 1);
      }
      if i: nat :| FirstPart(a, b, i) {
        assert i > 0;
        assert a[1..][..i - 1] == a[..i][1..] && b[1..][..i - 1] == b[..i][1..];
        assert FirstPart(a[1..], b[1..], i - 1);
      }
    }
  }

  lemma SharedPart(a: seq<string>, b: seq<string>, i: nat)
    requires i <= |a| && i <= |b| && a[..i] == b[..i]
    ensures i > 0 ==> a[0] == b[0]
  {
    if i > 0 {
      assert a[..i][0] == b[..i][0];
    }
  }

  /** Paths compare part by part. */
  predicate PathLeq(a: Path, b: Path) {
    PartsLeq(a.dir + [a.name], b.dir + [b.name])
  }

  lemma {:induction false} PartsLeqTotal(a: seq<string>, b: seq<string>)
    ensures PartsLeq(a, b) || PartsLeq(b, a)
  {
    if a != [] && b != [] {
      Lexicographic.Total(a[0], b[0]);
      PartsLeqTotal(a[1..], b[1..]);
    }
  }

  lemma {:induction false} PartsLeqTransitive(a: seq<string>, b: seq<string>, c: seq<string>)
    requires PartsLeq(a, b) && PartsLeq(b, c)
    ensures PartsLeq(a, c)
  {
    if a != [] && b != [] && c != [] {
      if a[0] == b[0] == c[0] {
        PartsLeqTransitive(a[1..], b[1..], c[1..]);
      } else if a[0] != b[0] && b[0] != c[0] {
        Lexicographic.Transitive(a[0], b[0], c[0]);
        if a[0] == c[0] {
          Lexicographic.Antisymmetric(a[0], b[0]);
        }
      }
    }
  }

  lemma PathLeqOrders()
    ensures TotalPreorder(PathLeq)
  {
    forall a, b ensures PathLeq(a, b) || PathLeq(b, a) {
      PartsLeqTotal(a.dir + [a.name], b.dir + [b.name]);
    }
    forall a, b, c | PathLeq(a, b) && PathLeq(b, c) ensures PathLeq(a, c) {
      PartsLeqTransitive(a.dir + [a.name], b.dir + [b.name], c.dir + [c.name]);
    }
  }

  function HasExpectedName(): Path -> bool {
    (p: Path) => p.name in EXPECTED
  }

  /** The recognised files among those found, in path order. */
  function Discovered(found: seq<Path>): seq<Path> {
    Filter(HasExpectedName(), Sort(PathLeq, found))
  }

  lemma DiscoveredAreFound(found: seq<Path>)
    ensures forall p :: p in Discovered(found) <==> p in found && p.name in EXPECTED
    ensures Sorted(PathLeq, Discovered(found))
  {
    PathLeqOrders();
    SortCorrect(PathLeq, found);
    forall p ensures p in Discovered(found) <==> p in found && p.name in EXPECTED {
      SortIn(PathLeq, found, p);
      FilterIn(HasExpectedName(), Sort(PathLeq, found), p);
    }
    FilterSort(HasExpectedName(), PathLeq, found);
    SortCorrect(PathLeq, Filter(HasExpectedName(), found));
  }

  /** `discover_expected_artifacts`. */
  method DiscoverExpectedArtifacts(found: seq<Path>) returns (artifacts: seq<Path>)
    ensures artifacts == Discovered(found)
  {
    var sorted := Sort(PathLeq, found);
    artifacts := [];
    for n := 0 to |sorted|
      invariant artifacts == Filter(HasExpectedName(), sorted[..n])
    {
      TakeSnoc(sorted, n);
      FilterSnoc(HasExpectedName(), sorted[..n], sorted[n]);
      if sorted[n].name in EXPECTED {
        artifacts := artifacts + [sorted[n]];
      }
    }
    TakeAll(sorted);
  }

  // ----- Destinations and their temporary siblings

  function Destination(root: seq<string>, source: Path): Path {
    Path(root, source.name)
  }

  function Temporary(destination: Path): Path {
    destination.(name := destination.name + ".tmp")
  }

  function TemporaryPaths(root: seq<string>): set<Path> {
    set name | name in EXPECTED.Keys :: Path(root, name + ".tmp")
  }

  lemma ExpectedNamesEndInN(name: string)
    requires name in EXPECTED
    ensures name != "" && name[|name| - 1] == 'n'
  {
  }

  /** A recognised name is never the name of a temporary file. */
  lemma NeverTemporary(root: seq<string>, p: Path)
    requires p.name in EXPECTED
    ensures p !in TemporaryPaths(root)
    ensures Temporary(Destination(root, p)) in TemporaryPaths(root)
    ensures forall t: Path :: t in TemporaryPaths(root) <==>
              t.dir == root && exists name: string :: name in EXPECTED && t.name == name + ".tmp"
  {
    forall name | name in EXPECTED.Keys ensures p.name != name + ".tmp" {
      ExpectedNamesEndInN(p.name);
      assert (name + ".tmp")[|name| + 3] == 'p';
    }
  }

  // ----- The copies, as a function of the disk at the start

  /** The verdict on the bytes of a file with a given name. */
  type Validator = (Bytes, string) -> Result<ResultRow, Rejection>

  function ValidatorFor(decode: Decoder): Validator {
    (bytes: Bytes, name: string) =>
      if name in EXPECTED then Validate(decode, bytes, EXPECTED[name]) else Err(NotRecognised)
  }

  /** One ingestion: the disk it starts from, the artifacts in their order, and where they go. */
  datatype Plan = Plan(
    start: Files,
    root: seq<string>,
    artifacts: seq<Path>,
    temporaries: set<Path>,
    validate: Validator,
    dryRun: bool)
  {
    ghost predicate Valid() {
      forall i :: 0 <= i < |artifacts| ==>
        && artifacts[i] in start
        && artifacts[i] !in temporaries
        && Destination(root, artifacts[i]) !in temporaries
        && Temporary(Destination(root, artifacts[i])) in temporaries
    }

    /** The disk after the first `n` artifacts were copied to their destinations. */
    ghost function AfterCopies(n: nat): (files: Files)
      requires n <= |artifacts| && Valid()
      ensures start.Keys <= files.Keys
    {
      if n == 0 || dryRun then start
      else AfterCopies(n - 1)[Destination(root, artifacts[n - 1]) := AfterCopies(n - 1)[artifacts[n - 1]]]
    }

    /** What is on disk apart from the temporary files. */
    ghost function Settled(files: Files): Files {
      files - temporaries
    }

    /** Artifact `i`, read as it stands after the copies before it, is accepted. */
    ghost predicate AcceptedAt(i: nat)
      requires i < |artifacts| && Valid()
    {
      validate(AfterCopies(i)[artifacts[i]], artifacts[i].name).Ok?
    }

    /** The first `n` artifacts are accepted, and the disk shows exactly their copies. */
    ghost predicate Progress(files: Files, n: nat)
      requires Valid()
    {
      && n <= |artifacts|
      && (forall i: nat :: i < n ==> AcceptedAt(i))
      && Settled(files) == Settled(AfterCopies(n))
      && (dryRun ==> files == start)
    }

    /** A state the run may be cut off in: some number of accepted artifacts have replaced their
        destinations, whole, and nothing else but temporary files differs from the start. */
    ghost predicate Safe(files: Files)
      requires Valid()
    {
      exists n: nat :: Progress(files, n)
    }

    /** The run stopped at the first artifact not accepted, for the reason validation gave. */
    ghost predicate Stopped(files: Files, source: Path, reason: Rejection)
      requires Valid()
    {
      exists n: nat :: n < |artifacts| && Progress(files, n) && RejectedAt(n, reason) && artifacts[n] == source
    }

    /** Artifact `i`, read likewise, is rejected. */
    ghost predicate RejectedAt(i: nat, reason: Rejection)
      requires i < |artifacts| && Valid()
    {
      validate(AfterCopies(i)[artifacts[i]], artifacts[i].name) == Err(reason)
    }
  }

  lemma {:induction false} CopiedOrOriginal(plan: Plan, n: nat, p: Path)
    requires plan.Valid() && n <= |plan.artifacts| && p in plan.AfterCopies(n)
    ensures || (p in plan.start && plan.AfterCopies(n)[p] == plan.start[p])
            || (exists i: nat :: i < n && p == Destination(plan.root, plan.artifacts[i])
                   && plan.AfterCopies(n)[p] == plan.AfterCopies(i)[plan.artifacts[i]])
  {
    if n > 0 && !plan.dryRun && p != Destination(plan.root, plan.artifacts[n - 1]) {
      CopiedOrOriginal(plan, n - 1, p);
    }
  }

  /** In a safe state every path but a temporary one holds its original bytes, or the complete bytes that
      an accepted artifact of its own name had when its turn came. */
  lemma SafeHoldsOriginalOrAccepted(plan: Plan, files: Files, p: Path)
    requires plan.Valid() && plan.Safe(files) && p !in plan.temporaries && p in files
    ensures || (p in plan.start && files[p] == plan.start[p])
            || (exists i: nat :: i < |plan.artifacts| && p == Destination(plan.root, plan.artifacts[i])
                   && plan.AcceptedAt(i) && files[p] == plan.AfterCopies(i)[plan.artifacts[i]])
  {
    var n: nat :| plan.Progress(files, n);
    assert p in plan.Settled(files) && plan.Settled(files)[p] == plan.Settled(plan.AfterCopies(n))[p];
    CopiedOrOriginal(plan, n, p);
    if i: nat :| i < n && p == Destination(plan.root, plan.artifacts[i])
                 && plan.AfterCopies(n)[p] == plan.AfterCopies(i)[plan.artifacts[i]] {
      assert plan.AcceptedAt(i);
    }
  }

  /** Artifact `i` is the last of the first `n` that is copied to the path. */
  ghost predicate LastCopiedTo(plan: Plan, n: nat, p: Path, i: nat)
    requires n <= |plan.artifacts|
  {
    && i < n && Destination(plan.root, plan.artifacts[i]) == p
    && forall j: nat :: i < j < n ==> Destination(plan.root, plan.artifacts[j]) != p
  }

  ghost predicate SourcesOutsideRoot(plan: Plan) {
    forall i :: 0 <= i < |plan.artifacts| ==> plan.artifacts[i].dir != plan.root
  }

  ghost predicate NotCopiedTo(plan: Plan, n: nat, p: Path)
    requires n <= |plan.artifacts|
  {
    forall j: nat :: j < n ==> Destination(plan.root, plan.artifacts[j]) != p
  }

  lemma {:induction false} UntouchedAfterCopies(plan: Plan, n: nat, p: Path)
    requires plan.Valid() && n <= |plan.artifacts| && NotCopiedTo(plan, n, p)
    ensures p in plan.AfterCopies(n) <==> p in plan.start
    ensures p in plan.start ==> plan.AfterCopies(n)[p] == plan.start[p]
  {
    if n > 0 {
      UntouchedAfterCopies(plan, n - 1, p);
    }
  }

  lemma {:induction false} LastCopyStays(plan: Plan, n: nat, p: Path, i: nat)
    requires plan.Valid() && SourcesOutsideRoot(plan) && !plan.dryRun && n <= |plan.artifacts|
    requires LastCopiedTo(plan, n, p, i)
    ensures p in plan.AfterCopies(n) && plan.AfterCopies(n)[p] == plan.start[plan.artifacts[i]]
  {
    if i == n - 1 {
      UntouchedAfterCopies(plan, i, plan.artifacts[i]);
    } else {
      LastCopyStays(plan, n - 1, p, i);
    }
  }

  lemma ProgressShows(plan: Plan, files: Files, n: nat, p: Path)
    requires plan.Valid() && plan.Progress(files, n) && p !in plan.temporaries
    ensures p in files <==> p in plan.AfterCopies(n)
    ensures p in files ==> files[p] == plan.AfterCopies(n)[p]
  {
    assert p in plan.Settled(files) <==> p in plan.Settled(plan.AfterCopies(n));
    assert p in files ==> plan.Settled(files)[p] == plan.Settled(plan.AfterCopies(n))[p];
  }

  /** When the artifacts lie outside the destination directory, a run that has copied `n` of them shows, at
      every path, the bytes that the last of them with that destination had at the start. */
  lemma LastArtifactWins(plan: Plan, files: Files, n: nat, p: Path, i: nat)
    requires plan.Valid() && SourcesOutsideRoot(plan) && !plan.dryRun
    requires plan.Progress(files, n) && p !in plan.temporaries && LastCopiedTo(plan, n, p, i)
    ensures p in files && files[p] == plan.start[plan.artifacts[i]]
  {
    LastCopyStays(plan, n, p, i);
    ProgressShows(plan, files, n, p);
  }

  /** Where none of them is copied to, the original state shows, present or absent. */
  lemma OthersKeepOriginals(plan: Plan, files: Files, n: nat, p: Path)
    requires plan.Valid() && plan.Progress(files, n) && p !in plan.temporaries && NotCopiedTo(plan, n, p)
    ensures p in files <==> p in plan.start
    ensures p in files ==> files[p] == plan.start[p]
  {
    UntouchedAfterCopies(plan, n, p);
    ProgressShows(plan, files, n, p);
  }

  /** Nothing that was on disk disappears, and nothing outside the destination directory changes. */
  lemma SafeKeepsTheRest(plan: Plan, files: Files, p: Path)
    requires plan.Valid() && plan.Safe(files) && p !in plan.temporaries && p in plan.start
    ensures p in files
    ensures p.dir != plan.root ==> files[p] == plan.start[p]
  {
    var n: nat :| plan.Progress(files, n);
    assert p in plan.Settled(plan.AfterCopies(n));
    assert p in plan.Settled(files) && plan.Settled(files)[p] == plan.Settled(plan.AfterCopies(n))[p];
    CopiedOrOriginal(plan, n, p);
  }

  // ----- The disk

  class Disk {
    var files: Files
    ghost var history: seq<Files>

    ghost predicate Valid()
      reads this
    {
      history != [] && history[|history| - 1] == files
    }

    constructor (files: Files)
      ensures Valid() && this.files == files && history == [files]
    {
      this.files := files;
      history := [files];
    }

    /** Copies the bytes one at a time, so that every partly written file is in the history. */
    method CopyInto(source: Path, target: Path)
      requires Valid() && source in files && source != target
      modifies this
      ensures Valid() && files == old(files)[target := old(files)[source]]
      ensures |old(history)| <= |history| && history[..|old(history)|] == old(history)
      ensures forall k :: |old(history)| <= k < |history| ==> history[k] - {target} == old(files) - {target}
    {
      var bytes := files[source];
      files := files[target := []];
      history := history + [files];
      for n := 0 to |bytes|
        invariant Valid() && files == old(files)[target := bytes[..n]]
        invariant |old(history)| <= |history| && history[..|old(history)|] == old(history)
        invariant forall k :: |old(history)| <= k < |history| ==> history[k] - {target} == old(files) - {target}
      {
        files := files[target := bytes[..n] + [bytes[n]]];
        TakeSnoc(bytes, n);
        history := history + [files];
      }
      TakeAll(bytes);
    }

    /** Renames over the target in one step. */
    method Replace(source: Path, target: Path)
      requires Valid() && source in files && source != target
      modifies this
      ensures Valid() && files == (old(files) - {source})[target := old(files)[source]]
      ensures history == old(history) + [files]
    {
      files := (files - {source})[target := files[source]];
      history := history + [files];
    }
  }

  /** `_copy_atomic`. */
  method CopyAtomic(disk: Disk, root: seq<string>, source: Path, ghost plan: Plan)
    requires disk.Valid() && source in disk.files
    requires source !in plan.temporaries && Destination(root, source) !in plan.temporaries
    requires Temporary(Destination(root, source)) in plan.temporaries
    modifies disk
    ensures disk.Valid()
    ensures disk.files == (old(disk.files) - {Temporary(Destination(root, source))})
                          [Destination(root, source) := old(disk.files)[source]]
    ensures plan.Settled(disk.files)
         == plan.Settled(old(disk.files)[Destination(root, source) := old(disk.files)[source]])
    ensures |old(disk.history)| < |disk.history| && disk.history[..|old(disk.history)|] == old(disk.history)
    ensures forall k :: |old(disk.history)| <= k < |disk.history| - 1 ==>
              plan.Settled(disk.history[k]) == plan.Settled(old(disk.files))
  {
    var destination := Destination(root, source);
    var temporary := Temporary(destination);
    disk.CopyInto(source, temporary);
    forall k | |old(disk.history)| <= k < |disk.history|
      ensures plan.Settled(disk.history[k]) == plan.Settled(old(disk.files))
    {
      SettledIgnores(plan, disk.history[k], old(disk.files), temporary);
    }
    disk.Replace(temporary, destination);
  }

  lemma SettledIgnores(plan: Plan, a: Files, b: Files, temporary: Path)
    requires temporary in plan.temporaries && a - {temporary} == b - {temporary}
    ensures plan.Settled(a) == plan.Settled(b)
  {
    forall p ensures p in plan.Settled(a) <==> p in plan.Settled(b) {
      assert p in a - {temporary} <==> p in b - {temporary};
    }
    forall p | p in plan.Settled(a) ensures plan.Settled(a)[p] == plan.Settled(b)[p] {
      assert (a - {temporary})[p] == (b - {temporary})[p];
    }
  }

  lemma SettledUpdate(plan: Plan, a: Files, b: Files, p: Path, bytes: Bytes)
    requires plan.Settled(a) == plan.Settled(b)
    ensures plan.Settled(a[p := bytes]) == plan.Settled(b[p := bytes])
  {
    var a', b' := a[p := bytes], b[p := bytes];
    forall q ensures q in plan.Settled(a') <==> q in plan.Settled(b') {
      assert q in plan.Settled(a) <==> q in plan.Settled(b);
    }
    forall q | q in plan.Settled(a') ensures plan.Settled(a')[q] == plan.Settled(b')[q] {
      if q != p {
        assert plan.Settled(a)[q] == plan.Settled(b)[q];
      }
    }
  }

  /** An artifact is read as it stands after the copies before it. */
  lemma SourceReadable(plan: Plan, files: Files, n: nat)
    requires plan.Valid() && n < |plan.artifacts| && plan.Progress(files, n)
    ensures plan.artifacts[n] in files
    ensures files[plan.artifacts[n]] == plan.AfterCopies(n)[plan.artifacts[n]]
  {
    assert plan.artifacts[n] in plan.Settled(plan.AfterCopies(n));
    assert plan.Settled(files)[plan.artifacts[n]] == plan.Settled(plan.AfterCopies(n))[plan.artifacts[n]];
  }

  /** Temporary files do not matter to how far a run has come. */
  lemma ProgressStays(plan: Plan, before: Files, after: Files, n: nat)
    requires plan.Valid() && !plan.dryRun && plan.Progress(before, n)
    requires plan.Settled(after) == plan.Settled(before)
    ensures plan.Progress(after, n) && plan.Safe(after)
  {
  }

  lemma ProgressAdvances(plan: Plan, before: Files, after: Files, n: nat)
    requires plan.Valid() && !plan.dryRun && n < |plan.artifacts| && plan.Progress(before, n) && plan.AcceptedAt(n)
    requires plan.artifacts[n] in before && before[plan.artifacts[n]] == plan.AfterCopies(n)[plan.artifacts[n]]
    requires plan.Settled(after)
        == plan.Settled(before[Destination(plan.root, plan.artifacts[n]) := before[plan.artifacts[n]]])
    ensures plan.Progress(after, n + 1) && plan.Safe(after)
  {
    SettledUpdate(plan, before, plan.AfterCopies(n), Destination(plan.root, plan.artifacts[n]),
        before[plan.artifacts[n]]);
    NextCopy(plan, n);
  }

  lemma NextCopy(plan: Plan, n: nat)
    requires plan.Valid() && !plan.dryRun && n < |plan.artifacts|
    ensures plan.AfterCopies(n + 1)
         == plan.AfterCopies(n)[Destination(plan.root, plan.artifacts[n]) := plan.AfterCopies(n)[plan.artifacts[n]]]
  {
  }

  /** Copying the next accepted artifact keeps every state on the way safe. */
  method CopyNext(disk: Disk, root: seq<string>, source: Path, ghost plan: Plan, ghost n: nat)
    requires disk.Valid() && plan.Valid() && n < |plan.artifacts|
    requires root == plan.root && source == plan.artifacts[n] && !plan.dryRun
    requires plan.Progress(disk.files, n) && plan.AcceptedAt(n)
    modifies disk
    ensures disk.Valid() && |old(disk.history)| <= |disk.history|
    ensures disk.history[..|old(disk.history)|] == old(disk.history)
    ensures Temporary(Destination(root, source)) !in disk.files
    ensures disk.files.Keys <= old(disk.files.Keys) + {Destination(root, source)}
    ensures plan.Progress(disk.files, n + 1)
    ensures forall k :: |old(disk.history)| <= k < |disk.history| ==> plan.Safe(disk.history[k])
  {
    SourceReadable(plan, disk.files, n);
    CopyAtomic(disk, root, source, plan);
    ProgressAdvances(plan, old(disk.files), disk.files, n);
    forall k | |old(disk.history)| <= k < |disk.history| ensures plan.Safe(disk.history[k]) {
      if k < |disk.history| - 1 {
        ProgressStays(plan, old(disk.files), disk.history[k], n);
      }
    }
  }

  /** The temporary files of the first `n` artifacts are gone. */
  ghost predicate Tidy(plan: Plan, files: Files, n: nat)
    requires n <= |plan.artifacts|
  {
    !plan.dryRun ==> forall i :: 0 <= i < n ==> Temporary(Destination(plan.root, plan.artifacts[i])) !in files
  }

  /** A copy to a destination brings no temporary file back. */
  lemma StaysTidy(plan: Plan, before: Files, after: Files, n: nat)
    requires plan.Valid() && n < |plan.artifacts| && Tidy(plan, before, n)
    requires Temporary(Destination(plan.root, plan.artifacts[n])) !in after
    requires after.Keys <= before.Keys + {Destination(plan.root, plan.artifacts[n])}
    ensures Tidy(plan, after, n + 1)
  {
    forall i | 0 <= i < n + 1 && !plan.dryRun ensures Temporary(Destination(plan.root, plan.artifacts[i])) !in after {
      assert Temporary(Destination(plan.root, plan.artifacts[i])) in plan.temporaries;
      assert Destination(plan.root, plan.artifacts[n]) !in plan.temporaries;
    }
  }

  datatype Summary = Summary(source: Path, destination: Path, copied: bool)

  datatype IngestError = NothingRecognised | Rejected(source: Path, reason: Rejection)

  /** The disk part-way through an ingestion: every state since the start was safe. */
  ghost predicate Underway(disk: Disk, plan: Plan, before: seq<Files>, n: nat)
    requires plan.Valid()
    reads disk
  {
    && disk.Valid()
    && |before| <= |disk.history| && disk.history[..|before|] == before
    && plan.Progress(disk.files, n)
    && (forall k :: |before| <= k < |disk.history| ==> plan.Safe(disk.history[k]))
    && (plan.dryRun ==> disk.history == before)
    && Tidy(plan, disk.files, n)
  }

  /** One turn of the loop: validate, note, and copy unless this is a dry run. */
  method IngestOne(disk: Disk, validate: Validator, source: Path, root: seq<string>, dryRun: bool,
                   ghost plan: Plan, ghost before: seq<Files>, ghost n: nat)
    returns (r: Result<Summary, IngestError>)
    requires plan.Valid() && n < |plan.artifacts| && source == plan.artifacts[n] && root == plan.root
    requires plan.validate == validate && plan.dryRun == dryRun
    requires Underway(disk, plan, before, n)
    modifies disk
    ensures r.Ok? ==>
        r.value == Summary(source, Destination(root, source), !dryRun) && Underway(disk, plan, before, n + 1)
    ensures r.Err? ==>
        r.error.Rejected? && Underway(disk, plan, before, n) && plan.Stopped(disk.files, r.error.source, r.error.reason)
  {
    SourceReadable(plan, disk.files, n);
    var verdict := validate(disk.files[source], source.name);
    assert verdict.Ok? == plan.AcceptedAt(n) && (verdict.Err? ==> plan.RejectedAt(n, verdict.error));
    if verdict.Err? {
      return Err(Rejected(source, verdict.error));
    }
    if !dryRun {
      ghost var passed := disk.history;
      CopyNext(disk, root, source, plan, n);
      StaysTidy(plan, old(disk.files), disk.files, n);
      forall k | |before| <= k < |disk.history| ensures plan.Safe(disk.history[k]) {
        assert k < |passed| ==> disk.history[k] == passed[k];
      }
    }
    r := Ok(Summary(source, Destination(root, source), !dryRun));
  }

  /** The loop of `ingest_artifacts`. */
  method IngestAll(disk: Disk, validate: Validator, artifacts: seq<Path>, root: seq<string>, dryRun: bool,
        ghost plan: Plan)
    returns (r: Result<seq<Summary>, IngestError>)
    requires disk.Valid() && plan.Valid()
    requires plan.start == disk.files && plan.root == root && plan.artifacts == artifacts
    requires plan.validate == validate && plan.dryRun == dryRun
    modifies disk
    ensures exists n: nat :: Underway(disk, plan, old(disk.history), n)
    ensures r.Ok? ==> |r.value| == |artifacts| && plan.Progress(disk.files, |artifacts|)
    ensures r.Ok? ==> Tidy(plan, disk.files, |artifacts|)
    ensures r.Ok? ==> forall i :: 0 <= i < |artifacts| ==>
              r.value[i] == Summary(artifacts[i], Destination(root, artifacts[i]), !dryRun)
    ensures r.Err? ==> r.error.Rejected? && plan.Stopped(disk.files, r.error.source, r.error.reason)
  {
    var ingested: seq<Summary> := [];
    for n := 0 to |artifacts|
      invariant Underway(disk, plan, old(disk.history), n) && |ingested| == n
      invariant forall i :: 0 <= i < n ==>
          ingested[i] == Summary(artifacts[i], Destination(root, artifacts[i]), !dryRun)
    {
      var summary := IngestOne(disk, validate, artifacts[n], root, dryRun, plan, old(disk.history), n);
      if summary.Err? {
        return Err(summary.error);
      }
      ingested := ingested + [summary.value];
    }
    r := Ok(ingested);
  }

  /** The ingestion of the files found under an artifact directory. */
  ghost function PlanFor(files: Files, decode: Decoder, found: seq<Path>, root: seq<string>, dryRun: bool): Plan {
    Plan(files, root, Discovered(found), TemporaryPaths(root), ValidatorFor(decode), dryRun)
  }

  lemma PlanForValid(files: Files, decode: Decoder, found: seq<Path>, root: seq<string>, dryRun: bool)
    requires forall p :: p in found ==> p in files
    ensures PlanFor(files, decode, found, root, dryRun).Valid()
    ensures forall i :: 0 <= i < |Discovered(found)| ==> Discovered(found)[i].name in EXPECTED
  {
    DiscoveredAreFound(found);
    var plan := PlanFor(files, decode, found, root, dryRun);
    forall i | 0 <= i < |plan.artifacts|
      ensures plan.artifacts[i] in files && plan.artifacts[i].name in EXPECTED
      ensures plan.artifacts[i] !in plan.temporaries
      ensures Destination(root, plan.artifacts[i]) !in plan.temporaries
      ensures Temporary(Destination(root, plan.artifacts[i])) in plan.temporaries
    {
      assert plan.artifacts[i] in Discovered(found);
      NeverTemporary(root, plan.artifacts[i]);
      NeverTemporary(root, Destination(root, plan.artifacts[i]));
    }
  }

  /** `ingest_artifacts`. Whatever the outcome, and wherever the run is cut off, the disk is in a safe
      state; validation stops it at the first rejected artifact, with the earlier ones already copied. */
  method IngestArtifacts(disk: Disk, decode: Decoder, found: seq<Path>, root: seq<string>, dryRun: bool)
    returns (r: Result<seq<Summary>, IngestError>)
    requires disk.Valid() && forall p :: p in found ==> p in disk.files
    modifies disk
    ensures disk.Valid() && |old(disk.history)| <= |disk.history|
    ensures disk.history[..|old(disk.history)|] == old(disk.history)
    ensures PlanFor(old(disk.files), decode, found, root, dryRun).Valid()
    ensures forall k :: |old(disk.history)| <= k < |disk.history| ==>
              PlanFor(old(disk.files), decode, found, root, dryRun).Safe(disk.history[k])
    ensures dryRun || Discovered(found) == [] ==> disk.history == old(disk.history)
    ensures r == Err(NothingRecognised) <==> Discovered(found) == []
    ensures r.Ok? ==>
              && |r.value| == |Discovered(found)|
              && PlanFor(old(disk.files), decode, found, root, dryRun).Progress(disk.files, |Discovered(found)|)
    ensures r.Ok? && !dryRun ==> forall i :: 0 <= i < |Discovered(found)| ==>
              Temporary(Destination(root, Discovered(found)[i])) !in disk.files
    ensures r.Ok? ==> forall i :: 0 <= i < |r.value| ==>
              r.value[i] == Summary(Discovered(found)[i], Destination(root, Discovered(found)[i]), !dryRun)
    ensures r.Err? && r.error.Rejected? ==>
              PlanFor(old(disk.files), decode, found, root, dryRun).Stopped(disk.files, r.error.source, r.error.reason)
  {
    PlanForValid(disk.files, decode, found, root, dryRun);
    var artifacts := DiscoverExpectedArtifacts(found);
    if artifacts == [] {
      return Err(NothingRecognised);
    }
    r := IngestAll(disk, ValidatorFor(decode), artifacts, root, dryRun,
        PlanFor(disk.files, decode, found, root, dryRun));
  }
}
