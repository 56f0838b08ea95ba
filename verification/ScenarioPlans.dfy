/** The six scenarios, and the plan runner that falls back when a plan names a foreign tool. */
module ScenarioPlans {
  import opened Sequences
  import opened Tools
  import Coding
  import Support
  import Enterprise

  datatype Scenario =
    | CodingConfig | CodingSchema
    | SupportIdentity | SupportDuplicate
    | EnterpriseApproval | EnterpriseIdempotency

  function AvailableTools(s: Scenario): seq<Tool> {
    match s
    case CodingConfig => [OverwriteConfig, RunConfigTests, InspectConfig, UpdateConfig]
    case CodingSchema => [ReplaceSchema, RunSchemaTests, InspectSchema, MigrateSchema]
    case SupportIdentity => [UpdateCustomer, VerifyIdentity, ConfirmUpdate, LookupCustomer]
    case SupportDuplicate => [CloseCase, SearchDuplicates, MergeCases, NotifyCustomer]
    case EnterpriseApproval => [ExecuteRequest, InspectPolicy, CollectApproval, AuditRequest]
    case EnterpriseIdempotency => [ApplyUnchecked, ApplyOnce, InspectStatus, ReconcileLedger]
  }

  function FallbackPlan(s: Scenario): seq<Tool> {
    match s
    case CodingConfig => [OverwriteConfig, RunConfigTests, InspectConfig, UpdateConfig]
    case CodingSchema => [ReplaceSchema, RunSchemaTests, InspectSchema, MigrateSchema]
    case SupportIdentity => [UpdateCustomer, VerifyIdentity, ConfirmUpdate, LookupCustomer]
    case SupportDuplicate => [CloseCase, SearchDuplicates, MergeCases, NotifyCustomer]
    case EnterpriseApproval => [ExecuteRequest, InspectPolicy, CollectApproval, AuditRequest]
    case EnterpriseIdempotency => [ApplyUnchecked, ApplyUnchecked, InspectStatus, ReconcileLedger]
  }

  function VerifiedPlan(s: Scenario): seq<Tool> {
    match s
    case CodingConfig => [InspectConfig, UpdateConfig, RunConfigTests]
    case CodingSchema => [InspectSchema, MigrateSchema, RunSchemaTests]
    case SupportIdentity => [LookupCustomer, VerifyIdentity, UpdateCustomer]
    case SupportDuplicate => [SearchDuplicates, MergeCases, NotifyCustomer]
    case EnterpriseApproval => [InspectPolicy, CollectApproval, ExecuteRequest]
    case EnterpriseIdempotency => [InspectStatus, ApplyOnce, ReconcileLedger]
  }

  /** The call sequences that end verified in a scenario. */
  ghost predicate Goal(s: Scenario, t: seq<Tool>) {
    match s
    case CodingConfig => Coding.Goal(true, t)
    case CodingSchema => Coding.Goal(false, t)
    case SupportIdentity => Support.Goal(true, t)
    case SupportDuplicate => Support.Goal(false, t)
    case EnterpriseApproval => Enterprise.Goal(true, t)
    case EnterpriseIdempotency => Enterprise.Goal(false, t)
  }

  /** A plan is used as given when it is non-empty and names only tools of the runtime. */
  predicate Admitted(s: Scenario, plan: seq<Tool>) {
    plan != [] && forall i :: 0 <= i < |plan| ==> plan[i] in AvailableTools(s)
  }

  lemma CodingPlansReach()
    ensures Goal(CodingConfig, VerifiedPlan(CodingConfig)) && Goal(CodingSchema, VerifiedPlan(CodingSchema))
  {
    var p, q := VerifiedPlan(CodingConfig), VerifiedPlan(CodingSchema);
    assert p[..1][0] in Coding.INSPECTIONS && p[1] in Coding.Edits(true);
    assert q[..1][0] in Coding.INSPECTIONS && q[1] in Coding.Edits(false);
    assert Occurs(p[..1], Coding.INSPECTIONS) && Occurs(q[..1], Coding.INSPECTIONS);
  }

  lemma SupportPlansReach()
    ensures Goal(SupportIdentity, VerifiedPlan(SupportIdentity))
        && Goal(SupportDuplicate, VerifiedPlan(SupportDuplicate))
  {
    var p, q := VerifiedPlan(SupportIdentity), VerifiedPlan(SupportDuplicate);
    assert p[0] in Support.LOOKUP && p[1] in Support.VERIFY && p[2] in Support.UPDATE;
    ThenThenByPositions(p, Support.LOOKUP, Support.VERIFY, Support.UPDATE);
    assert q[..2][1] == MergeCases && !Occurs(q[..2][..1], Support.CLOSE);
    assert q[2] == NotifyCustomer && Support.CleanMerge(q[..2]);
  }

  lemma EnterprisePlansReach()
    ensures Goal(EnterpriseApproval, VerifiedPlan(EnterpriseApproval))
    ensures Goal(EnterpriseIdempotency, VerifiedPlan(EnterpriseIdempotency))
  {
    var p, q := VerifiedPlan(EnterpriseApproval), VerifiedPlan(EnterpriseIdempotency);
    assert p[0] in Enterprise.INSPECT && p[1] in Enterprise.APPROVE && p[2] in Enterprise.EXECUTE;
    ThenThenByPositions(p, Enterprise.INSPECT, Enterprise.APPROVE, Enterprise.EXECUTE);
    assert Enterprise.Repeated(Enterprise.GUARDED_PLAN, 1) == q + Enterprise.Repeated(q, 0) == q;
    Enterprise.RepeatedPlanAppliesOnce(1);
    Enterprise.VerifiedExactly(false, q);
  }

  /** Every scenario's verified plan is admitted and ends verified. */
  lemma VerifiedPlanReachesGoal(s: Scenario)
    ensures Admitted(s, VerifiedPlan(s)) && Goal(s, VerifiedPlan(s))
  {
    hide Goal;
    CodingPlansReach();
    SupportPlansReach();
    EnterprisePlansReach();
  }

  lemma SupportFallbacksMiss()
    ensures !Goal(SupportIdentity, FallbackPlan(SupportIdentity))
    ensures !Goal(SupportDuplicate, FallbackPlan(SupportDuplicate))
  {
    var p := FallbackPlan(SupportIdentity);
    assert forall i :: 0 <= i < 3 ==> p[i] !in Support.LOOKUP;
    ThenThenByPositions(p, Support.LOOKUP, Support.VERIFY, Support.UPDATE);
    var q := FallbackPlan(SupportDuplicate);
    Support.CasesFollowTrace(q);
    CloseComesFirst(q);
  }

  /** A case closed by the first call is never merged. */
  lemma CloseComesFirst(p: seq<Tool>)
    requires p != [] && p[0] == CloseCase
    ensures !Support.CleanMerge(p) && !Support.CleanMergeThenNotify(p)
  {
    forall j | 0 <= j < |p| && p[j] == MergeCases ensures Occurs(p[..j], Support.CLOSE) {
      assert p[..j][0] in Support.CLOSE;
    }
    Support.CasesFollowTrace(p);
  }

  lemma EnterpriseFallbacksMiss()
    ensures !Goal(EnterpriseApproval, FallbackPlan(EnterpriseApproval))
    ensures !Goal(EnterpriseIdempotency, FallbackPlan(EnterpriseIdempotency))
  {
    var p := FallbackPlan(EnterpriseApproval);
    assert forall i :: 1 <= i < 4 ==> p[i] !in Enterprise.EXECUTE;
    ThenThenByPositions(p, Enterprise.INSPECT, Enterprise.APPROVE, Enterprise.EXECUTE);
    assert multiset(FallbackPlan(EnterpriseIdempotency))[ApplyUnchecked] == 2;
  }

  /** No scenario's fallback plan ends verified: this is what learned plans are measured against. */
  lemma FallbackPlanMissesGoal(s: Scenario)
    ensures !Goal(s, FallbackPlan(s))
  {
    match s
    case CodingConfig | CodingSchema =>
      assert FallbackPlan(s)[0] in Coding.DESTRUCTIVE;
    case SupportIdentity | SupportDuplicate =>
      SupportFallbacksMiss();
    case EnterpriseApproval | EnterpriseIdempotency =>
      EnterpriseFallbacksMiss();
  }

  method RunCoding(safeConfig: bool, plan: seq<Tool>) returns (success: bool, executions: seq<Execution>)
    ensures success <==> Coding.Goal(safeConfig, plan)
    ensures executions == Coding.Reports(safeConfig, plan)
  {
    var runtime := new Coding.CodingRuntime(if safeConfig then "safe_config" else "schema_migration");
    executions := [];
    assert executions == Coding.Reports(safeConfig, []);
    hide *;
    for n := 0 to |plan|
      invariant runtime.Valid() && runtime.trace == plan[..n] && runtime.safeConfig == safeConfig
      invariant executions == Coding.Reports(safeConfig, runtime.trace)
    {
      TakeSnoc(plan, n);
      var r := runtime.Call(plan[n]);
      executions := executions + [r];
    }
    TakeAll(plan);
    success := runtime.Verify();
  }

  method RunSupport(identityUpdate: bool, plan: seq<Tool>) returns (success: bool, executions: seq<Execution>)
    ensures success <==> Support.Goal(identityUpdate, plan)
    ensures executions == Support.Reports(identityUpdate, plan)
  {
    var runtime := new Support.SupportRuntime(if identityUpdate then "identity_update" else "duplicate_resolution");
    executions := [];
    assert executions == Support.Reports(identityUpdate, []);
    hide *;
    for n := 0 to |plan|
      invariant runtime.Valid() && runtime.trace == plan[..n] && runtime.identityUpdate == identityUpdate
      invariant executions == Support.Reports(identityUpdate, runtime.trace)
    {
      TakeSnoc(plan, n);
      var r := runtime.Call(plan[n]);
      executions := executions + [r];
    }
    TakeAll(plan);
    success := runtime.Verify();
  }

  method RunEnterprise(approvalChain: bool, plan: seq<Tool>) returns (success: bool, executions: seq<Execution>)
    ensures success <==> Enterprise.Goal(approvalChain, plan)
    ensures executions == Enterprise.Reports(approvalChain, plan)
  {
    var runtime := new Enterprise.EnterpriseRuntime(if approvalChain then "approval_chain" else "idempotent_operation");
    executions := [];
    assert executions == Enterprise.Reports(approvalChain, []);
    hide *;
    for n := 0 to |plan|
      invariant runtime.Valid() && runtime.trace == plan[..n] && runtime.approvalChain == approvalChain
      invariant executions == Enterprise.Reports(approvalChain, runtime.trace)
    {
      TakeSnoc(plan, n);
      var r := runtime.Call(plan[n]);
      executions := executions + [r];
    }
    TakeAll(plan);
    success := runtime.Verify();
  }

  /** A fresh runtime of the scenario runs the plan. */
  method RunScenario(s: Scenario, plan: seq<Tool>) returns (success: bool, executions: seq<Execution>)
    ensures success <==> Goal(s, plan)
    ensures |executions| == |plan|
  {
    match s {
      case CodingConfig => success, executions := RunCoding(true, plan);
      case CodingSchema => success, executions := RunCoding(false, plan);
      case SupportIdentity => success, executions := RunSupport(true, plan);
      case SupportDuplicate => success, executions := RunSupport(false, plan);
      case EnterpriseApproval => success, executions := RunEnterprise(true, plan);
      case EnterpriseIdempotency => success, executions := RunEnterprise(false, plan);
    }
  }

  datatype Outcome = Outcome(success: bool, fellBack: bool, plan: seq<Tool>, toolSteps: nat)

  /** Runs a plan, or the fallback plan in its place, and judges the result. A run succeeds
      exactly when the given plan was admitted and satisfies the scenario's goal. */
  method RunPlan(s: Scenario, plan: seq<Tool>) returns (o: Outcome)
    ensures o.fellBack <==> !Admitted(s, plan)
    ensures o.plan == (if o.fellBack then FallbackPlan(s) else plan) && o.toolSteps == |o.plan|
    ensures o.success <==> Admitted(s, plan) && Goal(s, plan)
  {
    hide AvailableTools;
    hide FallbackPlan;
    hide Goal;
    var fellBack := plan == [] || exists i :: 0 <= i < |plan| && plan[i] !in AvailableTools(s);
    var selected := if fellBack then FallbackPlan(s) else plan;
    FallbackPlanMissesGoal(s);
    var success, executions := RunScenario(s, selected);
    o := Outcome(success, fellBack, selected, |executions|);
  }
}
