/** The enterprise task: an approval-gated request row, or an append-only ledger. */
module Enterprise {
  import opened Tools

  datatype Request = Request(approved: bool, executed: bool)

  /** Only the table of the chosen mode exists; a statement on a missing table raises. */
  datatype Tables =
    | RequestTable(request: Request)
    | LedgerTable(ledger: seq<string>)

  datatype State = State(tables: Tables, inspected: bool)

  const INVOICE := "invoice-7"

  /** Number of ledger rows with the key of the operation. */
  function KeyCount(rows: seq<string>): nat {
    multiset(rows)[INVOICE]
  }

  function InitialTables(approvalChain: bool): Tables {
    if approvalChain then RequestTable(Request(false, false)) else LedgerTable([])
  }

  predicate Passes(tables: Tables) {
    match tables
    case RequestTable(row) => row.approved && row.executed
    case LedgerTable(rows) => KeyCount(rows) == 1
  }

  /** State after one call, and what the caller sees. */
  function Effect(s: State, tool: Tool): (State, Execution) {
    match tool
    case InspectPolicy | InspectStatus => (s.(inspected := true), SUCCEEDED)
    case CollectApproval =>
      if !s.inspected then (s, Failed(PolicyNotInspected))
      else if s.tables.LedgerTable? then (s, Failed(ToolException))
      else (s.(tables := RequestTable(s.tables.request.(approved := true))), SUCCEEDED)
    case ExecuteRequest =>
      if s.tables.LedgerTable? then (s, Failed(ToolException))
      else if !s.inspected || !s.tables.request.approved then (s, Failed(ApprovalMissing))
      else (s.(tables := RequestTable(s.tables.request.(executed := true))), SUCCEEDED)
    case AuditRequest => (s, Checked(Passes(s.tables), ExecutionMissing))
    case ApplyUnchecked =>
      if s.tables.RequestTable? then (s, Failed(ToolException))
      else (s.(tables := LedgerTable(s.tables.ledger + [INVOICE])), SUCCEEDED)
    case ApplyOnce =>
      if !s.inspected then (s, Failed(LedgerNotInspected))
      else if s.tables.RequestTable? then (s, Failed(ToolException))
      else if KeyCount(s.tables.ledger) != 0 then (s, Failed(DuplicateOperation))
      else (s.(tables := LedgerTable(s.tables.ledger + [INVOICE])), SUCCEEDED)
    case ReconcileLedger =>
      if s.tables.RequestTable? then (s, Failed(ToolException))
      else (s, Checked(KeyCount(s.tables.ledger) == 1, DuplicateLedgerEntry))
    case _ => (s, Failed(ToolException))
  }

  function Start(approvalChain: bool): State {
    State(InitialTables(approvalChain), false)
  }

  function Run(approvalChain: bool, t: seq<Tool>): State {
    After(Effect, Start(approvalChain), t)
  }

  function Reports(approvalChain: bool, t: seq<Tool>): seq<Execution> {
    ReportsOf(Effect, Start(approvalChain), t)
  }

  lemma RunOneMore(approvalChain: bool, t: seq<Tool>, tool: Tool)
    ensures var (s, r) := Effect(Run(approvalChain, t), tool);
            Run(approvalChain, t + [tool]) == s && Reports(approvalChain, t + [tool]) == Reports(approvalChain, t) + [r]
  {
    OneMoreCall(Effect, Start(approvalChain), t, tool);
  }

  const INSPECT: set<Tool> := {InspectPolicy, InspectStatus}
  const APPROVE: set<Tool> := {CollectApproval}
  const EXECUTE: set<Tool> := {ExecuteRequest}
  const UNCHECKED: set<Tool> := {ApplyUnchecked}

  /** Number of unchecked applications in a trace. */
  function Unchecked(t: seq<Tool>): nat {
    multiset(t)[ApplyUnchecked]
  }

  /** An `apply_once` comes after an inspection and before every `apply_unchecked`. */
  ghost predicate GuardedFirst(t: seq<Tool>) {
    exists j :: 0 <= j < |t| && t[j] == ApplyOnce && Occurs(t[..j], INSPECT) && !Occurs(t[..j], UNCHECKED)
  }

  /** The number of ledger rows a trace leaves behind. */
  ghost function Applied(t: seq<Tool>): nat {
    Unchecked(t) + if GuardedFirst(t) then 1 else 0
  }

  /** The call sequences that end verified. */
  ghost predicate Goal(approvalChain: bool, t: seq<Tool>) {
    if approvalChain then ThenThen(t, INSPECT, APPROVE, EXECUTE)
    else Applied(t) == 1
  }

  lemma GuardedFirstSnoc(t: seq<Tool>, x: Tool)
    ensures GuardedFirst(t + [x])
       <==> GuardedFirst(t) || (x == ApplyOnce && Occurs(t, INSPECT) && !Occurs(t, UNCHECKED))
  {
    PrefixesSnoc(t, x);
  }

  lemma UncheckedSnoc(t: seq<Tool>, x: Tool)
    ensures Unchecked(t + [x]) == Unchecked(t) + if x == ApplyUnchecked then 1 else 0
    ensures Unchecked(t) == 0 <==> !Occurs(t, UNCHECKED)
  {
    assert multiset(t + [x]) == multiset(t) + multiset{x};
    assert ApplyUnchecked in multiset(t) <==> ApplyUnchecked in t;
  }

  lemma ApprovalEffect(s: State, x: Tool)
    requires s.tables.RequestTable?
    ensures var s' := Effect(s, x).0;
            && s'.tables.RequestTable?
            && s'.inspected == (s.inspected || x in INSPECT)
            && s'.tables.request.approved == (s.tables.request.approved || (x in APPROVE && s.inspected))
            && s'.tables.request.executed ==
               (s.tables.request.executed || (x in EXECUTE && s.inspected && s.tables.request.approved))
  {
  }

  /** Approval mode, after any calls: what the trace says about the request row. */
  lemma {:induction false} ApprovalFollowsTrace(t: seq<Tool>)
    ensures var s := Run(true, t);
            && s.tables.RequestTable?
            && (s.inspected <==> Occurs(t, INSPECT))
            && (s.tables.request.approved <==> Then(t, INSPECT, APPROVE))
            && (s.tables.request.executed <==> ThenThen(t, INSPECT, APPROVE, EXECUTE))
            && (s.tables.request.executed ==> s.tables.request.approved)
            && (s.tables.request.approved ==> s.inspected)
  {
    if t != [] {
      var u, x := t[..|t| - 1], t[|t| - 1];
      ApprovalFollowsTrace(u);
      ApprovalEffect(Run(true, u), x);
      SplitLast(t);
      OccursSnoc(u, x, INSPECT);
      ThenSnoc(u, x, INSPECT, APPROVE);
      ThenThenSnoc(u, x, INSPECT, APPROVE, EXECUTE);
    }
  }

  lemma LedgerEffect(s: State, x: Tool)
    requires s.tables.LedgerTable?
    requires |s.tables.ledger| == KeyCount(s.tables.ledger)
    ensures var s' := Effect(s, x).0;
            && s'.tables.LedgerTable?
            && s'.inspected == (s.inspected || x in INSPECT)
            && |s'.tables.ledger| == KeyCount(s'.tables.ledger)
            && |s'.tables.ledger| == |s.tables.ledger| +
               if x == ApplyUnchecked || (x == ApplyOnce && s.inspected && s.tables.ledger == []) then 1 else 0
  {
    var rows := s.tables.ledger;
    assert multiset(rows + [INVOICE]) == multiset(rows) + multiset{INVOICE};
  }

  /** Ledger mode, after any calls: every row is accounted for by exactly one call. */
  lemma {:induction false} LedgerConservation(t: seq<Tool>)
    ensures var s := Run(false, t);
            && s.tables.LedgerTable?
            && (s.inspected <==> Occurs(t, INSPECT))
            && |s.tables.ledger| == KeyCount(s.tables.ledger) == Applied(t)
  {
    if t == [] {
      assert !GuardedFirst(t);
    } else {
      var u, x := t[..|t| - 1], t[|t| - 1];
      LedgerConservation(u);
      LedgerEffect(Run(false, u), x);
      SplitLast(t);
      OccursSnoc(u, x, INSPECT);
      GuardedFirstSnoc(u, x);
      UncheckedSnoc(u, x);
    }
  }

  lemma TableOfMode(approvalChain: bool, t: seq<Tool>)
    ensures Run(approvalChain, t).tables.RequestTable? == approvalChain
  {
    if approvalChain {
      ApprovalFollowsTrace(t);
    } else {
      LedgerConservation(t);
    }
  }

  /** `verify()` after any calls is decided by the trace alone, in both directions. */
  lemma VerifiedExactly(approvalChain: bool, t: seq<Tool>)
    ensures Passes(Run(approvalChain, t).tables) <==> Goal(approvalChain, t)
  {
    if approvalChain {
      ApprovalFollowsTrace(t);
    } else {
      LedgerConservation(t);
    }
  }

  /** Rows in the ledger after the calls of a trace. */
  function LedgerRows(t: seq<Tool>): nat {
    LedgerConservation(t);
    |Run(false, t).tables.ledger|
  }

  /** An executed request stays executed, whatever is called next. */
  lemma ApprovalForGood(t: seq<Tool>, u: seq<Tool>)
    requires Passes(Run(true, t).tables)
    ensures Passes(Run(true, t + u).tables)
  {
    VerifiedExactly(true, t);
    VerifiedExactly(true, t + u);
    ThenThenMore(t, u, INSPECT, APPROVE, EXECUTE);
  }

  /** An approval run can always still be completed. */
  lemma ApprovalCompletes(t: seq<Tool>)
    ensures Passes(Run(true, t + [InspectPolicy, CollectApproval, ExecuteRequest]).tables)
  {
    var done := t + [InspectPolicy, CollectApproval, ExecuteRequest];
    assert done[|t|] in INSPECT && done[|t| + 1] in APPROVE && done[|t| + 2] in EXECUTE;
    ThenThenByPositions(done, INSPECT, APPROVE, EXECUTE);
    VerifiedExactly(true, done);
  }

  /** The ledger never shrinks. */
  lemma {:induction false} AppliedGrows(t: seq<Tool>, u: seq<Tool>)
    ensures Applied(t) <= Applied(t + u)
  {
    if u == [] {
      assert t + u == t;
    } else {
      var v, x := u[..|u| - 1], u[|u| - 1];
      AppliedGrows(t, v);
      assert t + u == (t + v) + [x];
      UncheckedSnoc(t + v, x);
      GuardedFirstSnoc(t + v, x);
    }
  }

  /** A ledger run can still end verified exactly while it holds at most one row. */
  lemma LedgerRecoverableExactly(t: seq<Tool>)
    ensures (exists u :: Passes(Run(false, t + u).tables)) <==> LedgerRows(t) <= 1
  {
    LedgerConservation(t);
    if Applied(t) == 1 {
      assert t + [] == t;
      VerifiedExactly(false, t + []);
    } else if Applied(t) == 0 {
      UncheckedSnoc(t, ApplyUnchecked);
      GuardedFirstSnoc(t, ApplyUnchecked);
      VerifiedExactly(false, t + [ApplyUnchecked]);
    } else {
      forall u ensures !Passes(Run(false, t + u).tables) {
        AppliedGrows(t, u);
        VerifiedExactly(false, t + u);
      }
    }
  }

  /** What a tool reports, told from the calls made before it. */
  ghost function ReportOf(approvalChain: bool, t: seq<Tool>, tool: Tool): Execution {
    match tool
    case InspectPolicy | InspectStatus => SUCCEEDED
    case CollectApproval =>
      if !Occurs(t, INSPECT) then Failed(PolicyNotInspected) else Checked(approvalChain, ToolException)
    case ExecuteRequest =>
      if !approvalChain then Failed(ToolException) else Checked(Then(t, INSPECT, APPROVE), ApprovalMissing)
    case AuditRequest => Checked(Goal(approvalChain, t), ExecutionMissing)
    case ApplyUnchecked => Checked(!approvalChain, ToolException)
    case ApplyOnce =>
      if !Occurs(t, INSPECT) then Failed(LedgerNotInspected)
      else if approvalChain then Failed(ToolException)
      else Checked(Applied(t) == 0, DuplicateOperation)
    case ReconcileLedger =>
      if approvalChain then Failed(ToolException) else Checked(Applied(t) == 1, DuplicateLedgerEntry)
    case _ => Failed(ToolException)
  }

  lemma ReportFollowsTrace(approvalChain: bool, t: seq<Tool>, tool: Tool)
    ensures Effect(Run(approvalChain, t), tool).1 == ReportOf(approvalChain, t, tool)
  {
    VerifiedExactly(approvalChain, t);
    if approvalChain {
      ApprovalFollowsTrace(t);
    } else {
      LedgerConservation(t);
    }
  }

  /** Every report of every run, with its error code, is decided by the calls before it. */
  lemma ReportsExactly(approvalChain: bool, t: seq<Tool>, i: nat)
    requires i < |t|
    ensures |Reports(approvalChain, t)| == |t|
    ensures Reports(approvalChain, t)[i] == ReportOf(approvalChain, t[..i], t[i])
  {
    ReportAt(Effect, Start(approvalChain), t, i);
    ReportFollowsTrace(approvalChain, t[..i], t[i]);
  }

  const GUARDED_PLAN: seq<Tool> := [InspectStatus, ApplyOnce, ReconcileLedger]

  function Repeated(plan: seq<Tool>, n: nat): seq<Tool> {
    if n == 0 then [] else plan + Repeated(plan, n - 1)
  }

  lemma {:induction false} RepeatedHoldsNoUnchecked(n: nat)
    ensures forall i :: 0 <= i < |Repeated(GUARDED_PLAN, n)| ==> Repeated(GUARDED_PLAN, n)[i] != ApplyUnchecked
  {
    if n > 0 {
      RepeatedHoldsNoUnchecked(n - 1);
    }
  }

  /** Idempotence: the verified plan, run any positive number of times, leaves one row. */
  lemma RepeatedPlanAppliesOnce(n: nat)
    requires n > 0
    ensures LedgerRows(Repeated(GUARDED_PLAN, n)) == 1
    ensures Passes(Run(false, Repeated(GUARDED_PLAN, n)).tables)
  {
    var t := Repeated(GUARDED_PLAN, n);
    RepeatedHoldsNoUnchecked(n);
    assert t[1] == ApplyOnce && t[..1][0] in INSPECT && GuardedFirst(t);
    UncheckedSnoc(t, ApplyOnce);
    LedgerConservation(t);
    VerifiedExactly(false, t);
  }

  class EnterpriseRuntime {
    const approvalChain: bool
    var tables: Tables
    var inspected: bool
    ghost var trace: seq<Tool>

    ghost predicate Valid()
      reads this
    {
      && State(tables, inspected) == Run(approvalChain, trace)
      && tables.RequestTable? == approvalChain
    }

    constructor (mode: string)
      ensures Valid() && trace == [] && approvalChain == (mode == "approval_chain")
    {
      approvalChain := mode == "approval_chain";
      tables := if mode == "approval_chain" then RequestTable(Request(false, false)) else LedgerTable([]);
      inspected := false;
      trace := [];
    }

    method Verify() returns (passed: bool)
      requires Valid()
      ensures passed <==> Goal(approvalChain, trace)
      ensures passed == Passes(tables)
    {
      VerifiedExactly(approvalChain, trace);
      if approvalChain {
        return tables.request.approved && tables.request.executed;
      }
      var count := KeyCount(tables.ledger);
      passed := count == 1;
    }

    /** The tools that touch the request row; in ledger mode their statements raise. */
    method CallRequest(tool: Tool) returns (r: Execution)
      requires Valid() && tool in {CollectApproval, ExecuteRequest}
      modifies this
      ensures (State(tables, inspected), r) == Effect(old(State(tables, inspected)), tool)
      ensures trace == old(trace)
    {
      r := SUCCEEDED;
      match tool {
        case CollectApproval =>
          if !inspected {
            r := Failed(PolicyNotInspected);
          } else if tables.RequestTable? {
            tables := RequestTable(tables.request.(approved := true));
          } else {
            r := Failed(ToolException);
          }
        case ExecuteRequest =>
          if tables.LedgerTable? {
            r := Failed(ToolException);
          } else if !inspected || !tables.request.approved {
            r := Failed(ApprovalMissing);
          } else {
            tables := RequestTable(tables.request.(executed := true));
          }
      }
    }

    /** The tools that touch the ledger; in approval mode their statements raise. */
    method CallLedger(tool: Tool) returns (r: Execution)
      requires Valid() && tool in {ApplyUnchecked, ApplyOnce, ReconcileLedger}
      modifies this
      ensures (State(tables, inspected), r) == Effect(old(State(tables, inspected)), tool)
      ensures trace == old(trace)
    {
      r := SUCCEEDED;
      match tool {
        case ApplyUnchecked =>
          if tables.LedgerTable? {
            tables := LedgerTable(tables.ledger + [INVOICE]);
          } else {
            r := Failed(ToolException);
          }
        case ApplyOnce =>
          if !inspected {
            r := Failed(LedgerNotInspected);
          } else if tables.RequestTable? {
            r := Failed(ToolException);
          } else if KeyCount(tables.ledger) != 0 {
            r := Failed(DuplicateOperation);
          } else {
            tables := LedgerTable(tables.ledger + [INVOICE]);
          }
        case ReconcileLedger =>
          if tables.RequestTable? {
            r := Failed(ToolException);
          } else {
            r := Checked(KeyCount(tables.ledger) == 1, DuplicateLedgerEntry);
          }
      }
    }

    method Call(tool: Tool) returns (r: Execution)
      requires Valid()
      modifies this
      ensures Valid() && trace == old(trace) + [tool]
      ensures Reports(approvalChain, trace) == Reports(approvalChain, old(trace)) + [r]
    {
      hide Run;
      hide Reports;
      RunOneMore(approvalChain, trace, tool);
      hide Goal;
      hide Passes;
      TableOfMode(approvalChain, trace + [tool]);
      match tool {
        case InspectPolicy | InspectStatus =>
          inspected := true;
          r := SUCCEEDED;
        case CollectApproval | ExecuteRequest =>
          r := CallRequest(tool);
        case AuditRequest =>
          var passed := Verify();
          r := Checked(passed, ExecutionMissing);
        case ApplyUnchecked | ApplyOnce | ReconcileLedger =>
          r := CallLedger(tool);
        case _ =>
          r := Failed(ToolException);
      }
      trace := trace + [tool];
    }
  }
}
