/** The support task: one customer row, or two case rows, behind order-checking tools. */
module Support {
  import opened Wrappers
  import opened Tools

  datatype Status = Open | Closed | Merged

  datatype Customer = Customer(newEmail: bool, verified: bool)

  datatype Case = Case(status: Status, mergedInto: Option<int>)

  /** Only the table of the chosen mode exists; a statement on a missing table raises. */
  datatype Tables =
    | CustomerTable(customer: Customer)
    | CaseTable(case1: Case, case2: Case)

  datatype State = State(tables: Tables, lookedUp: bool, verified: bool, notified: bool)

  function InitialTables(identityUpdate: bool): Tables {
    if identityUpdate then CustomerTable(Customer(false, false))
    else CaseTable(Case(Open, None), Case(Open, None))
  }

  predicate Passes(s: State) {
    match s.tables
    case CustomerTable(c) => c.newEmail && c.verified
    case CaseTable(_, c2) => c2.status == Merged && c2.mergedInto == Some(1) && s.notified
  }

  /** State after one call, and what the caller sees. */
  function Effect(s: State, tool: Tool): (State, Execution) {
    match tool
    case LookupCustomer => (s.(lookedUp := true), SUCCEEDED)
    case VerifyIdentity =>
      if !s.lookedUp then (s, Failed(IdentityLookupMissing))
      else if s.tables.CaseTable? then (s.(verified := true), Failed(ToolException))
      else (s.(verified := true, tables := CustomerTable(s.tables.customer.(verified := true))), SUCCEEDED)
    case UpdateCustomer =>
      if !s.verified then (s, Failed(IdentityNotVerified))
      else if s.tables.CaseTable? then (s, Failed(ToolException))
      else (s.(tables := CustomerTable(s.tables.customer.(newEmail := true))), SUCCEEDED)
    case ConfirmUpdate => (s, Checked(Passes(s), UpdateMissing))
    case CloseCase =>
      if s.tables.CustomerTable? then (s, Failed(ToolException))
      else (s.(tables := s.tables.(case1 := s.tables.case1.(status := Closed))), SUCCEEDED)
    case SearchDuplicates =>
      (s, if s.tables.CustomerTable? then Failed(ToolException) else SUCCEEDED)
    case MergeCases =>
      if s.tables.CustomerTable? then (s, Failed(ToolException))
      else if s.tables.case1.status != Open || s.tables.case2.status != Open then (s, Failed(CaseClosedBeforeMerge))
      else (s.(tables := s.tables.(case2 := Case(Merged, Some(1)))), SUCCEEDED)
    case NotifyCustomer =>
      if s.tables.CustomerTable? then (s, Failed(ToolException))
      else if s.tables.case2.mergedInto != Some(1) then (s, Failed(MergeNotCompleted))
      else (s.(notified := true), SUCCEEDED)
    case _ => (s, Failed(ToolException))
  }

  function Start(identityUpdate: bool): State {
    State(InitialTables(identityUpdate), false, false, false)
  }

  function Run(identityUpdate: bool, t: seq<Tool>): State {
    After(Effect, Start(identityUpdate), t)
  }

  function Reports(identityUpdate: bool, t: seq<Tool>): seq<Execution> {
    ReportsOf(Effect, Start(identityUpdate), t)
  }

  lemma RunOneMore(identityUpdate: bool, t: seq<Tool>, tool: Tool)
    ensures var (s, r) := Effect(Run(identityUpdate, t), tool);
            Run(identityUpdate, t + [tool]) == s
                && Reports(identityUpdate, t + [tool]) == Reports(identityUpdate, t) + [r]
  {
    OneMoreCall(Effect, Start(identityUpdate), t, tool);
  }

  const LOOKUP: set<Tool> := {LookupCustomer}
  const VERIFY: set<Tool> := {VerifyIdentity}
  const UPDATE: set<Tool> := {UpdateCustomer}
  const CLOSE: set<Tool> := {CloseCase}

  /** The cases were merged at a moment when none had been closed. */
  ghost predicate CleanMerge(t: seq<Tool>) {
    exists j :: 0 <= j < |t| && t[j] == MergeCases && !Occurs(t[..j], CLOSE)
  }

  ghost predicate CleanMergeThenNotify(t: seq<Tool>) {
    exists k :: 0 <= k < |t| && t[k] == NotifyCustomer && CleanMerge(t[..k])
  }

  /** The call sequences that end verified. */
  ghost predicate Goal(identityUpdate: bool, t: seq<Tool>) {
    if identityUpdate then ThenThen(t, LOOKUP, VERIFY, UPDATE)
    else CleanMergeThenNotify(t)
  }

  lemma CleanMergeSnoc(t: seq<Tool>, x: Tool)
    ensures CleanMerge(t + [x]) <==> CleanMerge(t) || (x == MergeCases && !Occurs(t, CLOSE))
  {
    PrefixesSnoc(t, x);
  }

  lemma NotifySnoc(t: seq<Tool>, x: Tool)
    ensures CleanMergeThenNotify(t + [x]) <==> CleanMergeThenNotify(t) || (x == NotifyCustomer && CleanMerge(t))
  {
    PrefixesSnoc(t, x);
  }

  lemma CleanMergeMore(t: seq<Tool>, u: seq<Tool>)
    ensures CleanMerge(t) ==> CleanMerge(t + u)
    ensures CleanMergeThenNotify(t) ==> CleanMergeThenNotify(t + u)
  {
    assert forall k :: 0 <= k < |t| ==> (t + u)[k] == t[k] && (t + u)[..k] == t[..k];
  }

  lemma IdentityEffect(s: State, x: Tool)
    requires s.tables.CustomerTable?
    requires s.tables.customer.verified == s.verified
    ensures var s' := Effect(s, x).0;
            && s'.tables.CustomerTable?
            && s'.lookedUp == (s.lookedUp || x in LOOKUP)
            && s'.verified == (s.verified || (x in VERIFY && s.lookedUp))
            && s'.tables.customer.verified == s'.verified
            && s'.tables.customer.newEmail == (s.tables.customer.newEmail || (x in UPDATE && s.verified))
  {
  }

  /** Identity mode, after any calls: what the trace says about the flags and the customer row. */
  lemma {:induction false} IdentityFollowsTrace(t: seq<Tool>)
    ensures var s := Run(true, t);
            && s.tables.CustomerTable?
            && (s.lookedUp <==> Occurs(t, LOOKUP))
            && (s.verified <==> Then(t, LOOKUP, VERIFY))
            && s.tables.customer.verified == s.verified
            && (s.tables.customer.newEmail <==> ThenThen(t, LOOKUP, VERIFY, UPDATE))
            && (s.tables.customer.newEmail ==> s.verified)
  {
    if t != [] {
      var u, x := t[..|t| - 1], t[|t| - 1];
      IdentityFollowsTrace(u);
      IdentityEffect(Run(true, u), x);
      SplitLast(t);
      OccursSnoc(u, x, LOOKUP);
      ThenSnoc(u, x, LOOKUP, VERIFY);
      ThenThenSnoc(u, x, LOOKUP, VERIFY, UPDATE);
    }
  }

  lemma CasesEffect(s: State, x: Tool)
    requires s.tables.CaseTable?
    requires s.tables.case2 == Case(Open, None) || s.tables.case2 == Case(Merged, Some(1))
    requires s.tables.case1.status == Open || s.tables.case1.status == Closed
    ensures var s' := Effect(s, x).0;
            && s'.tables.CaseTable?
            && s'.tables.case1.status == (if x in CLOSE then Closed else s.tables.case1.status)
            && s'.tables.case2 == (if x == MergeCases && s.tables.case1.status == Open
                                   then Case(Merged, Some(1)) else s.tables.case2)
            && s'.notified == (s.notified || (x == NotifyCustomer && s.tables.case2 == Case(Merged, Some(1))))
  {
  }

  /** Duplicate mode, after any calls: what the trace says about the two case rows. */
  lemma {:induction false} CasesFollowTrace(t: seq<Tool>)
    ensures var s := Run(false, t);
            && s.tables.CaseTable?
            && s.tables.case1.status == (if Occurs(t, CLOSE) then Closed else Open)
            && s.tables.case2 == (if CleanMerge(t) then Case(Merged, Some(1)) else Case(Open, None))
            && (s.notified <==> CleanMergeThenNotify(t))
            && (s.notified ==> CleanMerge(t))
  {
    if t != [] {
      var u, x := t[..|t| - 1], t[|t| - 1];
      CasesFollowTrace(u);
      CasesEffect(Run(false, u), x);
      SplitLast(t);
      OccursSnoc(u, x, CLOSE);
      CleanMergeSnoc(u, x);
      NotifySnoc(u, x);
      hide Effect;
      hide Occurs;
      hide CleanMerge;
      hide CleanMergeThenNotify;
    }
  }

  lemma TableOfMode(identityUpdate: bool, t: seq<Tool>)
    ensures Run(identityUpdate, t).tables.CustomerTable? == identityUpdate
  {
    if identityUpdate {
      IdentityFollowsTrace(t);
    } else {
      CasesFollowTrace(t);
    }
  }

  /** `verify()` after any calls is decided by the trace alone, in both directions. */
  lemma VerifiedExactly(identityUpdate: bool, t: seq<Tool>)
    ensures Passes(Run(identityUpdate, t)) <==> Goal(identityUpdate, t)
  {
    if identityUpdate {
      IdentityFollowsTrace(t);
    } else {
      CasesFollowTrace(t);
    }
  }

  /** Once verified, no further calls undo it. */
  lemma VerifiedForGood(identityUpdate: bool, t: seq<Tool>, u: seq<Tool>)
    requires Passes(Run(identityUpdate, t))
    ensures Passes(Run(identityUpdate, t + u))
  {
    VerifiedExactly(identityUpdate, t);
    VerifiedExactly(identityUpdate, t + u);
    if identityUpdate {
      ThenThenMore(t, u, LOOKUP, VERIFY, UPDATE);
    } else {
      CleanMergeMore(t, u);
    }
  }

  /** In either mode the two flags follow the customer tools, even where these tools fail. */
  lemma {:induction false} FlagsFollowTrace(identityUpdate: bool, t: seq<Tool>)
    ensures Run(identityUpdate, t).lookedUp <==> Occurs(t, LOOKUP)
    ensures Run(identityUpdate, t).verified <==> Then(t, LOOKUP, VERIFY)
  {
    if t != [] {
      var u, x := t[..|t| - 1], t[|t| - 1];
      FlagsFollowTrace(identityUpdate, u);
      FlagsEffect(Run(identityUpdate, u), x);
      SplitLast(t);
      OccursSnoc(u, x, LOOKUP);
      ThenSnoc(u, x, LOOKUP, VERIFY);
    }
  }

  lemma FlagsEffect(s: State, x: Tool)
    ensures Effect(s, x).0.lookedUp == (s.lookedUp || x in LOOKUP)
    ensures Effect(s, x).0.verified == (s.verified || (x in VERIFY && s.lookedUp))
  {
  }

  /** What a tool reports, told from the calls made before it. */
  ghost function ReportOf(identityUpdate: bool, t: seq<Tool>, tool: Tool): Execution {
    match tool
    case LookupCustomer => SUCCEEDED
    case VerifyIdentity =>
      if !Occurs(t, LOOKUP) then Failed(IdentityLookupMissing) else Checked(identityUpdate, ToolException)
    case UpdateCustomer =>
      if !Then(t, LOOKUP, VERIFY) then Failed(IdentityNotVerified) else Checked(identityUpdate, ToolException)
    case ConfirmUpdate => Checked(Goal(identityUpdate, t), UpdateMissing)
    case CloseCase | SearchDuplicates => Checked(!identityUpdate, ToolException)
    case MergeCases =>
      if identityUpdate then Failed(ToolException)
      else Checked(!Occurs(t, CLOSE) && !CleanMerge(t), CaseClosedBeforeMerge)
    case NotifyCustomer =>
      if identityUpdate then Failed(ToolException) else Checked(CleanMerge(t), MergeNotCompleted)
    case _ => Failed(ToolException)
  }

  lemma ReportFollowsTrace(identityUpdate: bool, t: seq<Tool>, tool: Tool)
    ensures Effect(Run(identityUpdate, t), tool).1 == ReportOf(identityUpdate, t, tool)
  {
    FlagsFollowTrace(identityUpdate, t);
    VerifiedExactly(identityUpdate, t);
    if identityUpdate {
      IdentityFollowsTrace(t);
    } else {
      CasesFollowTrace(t);
    }
  }

  /** Every report of every run, with its error code, is decided by the calls before it. */
  lemma ReportsExactly(identityUpdate: bool, t: seq<Tool>, i: nat)
    requires i < |t|
    ensures |Reports(identityUpdate, t)| == |t|
    ensures Reports(identityUpdate, t)[i] == ReportOf(identityUpdate, t[..i], t[i])
  {
    ReportAt(Effect, Start(identityUpdate), t, i);
    ReportFollowsTrace(identityUpdate, t[..i], t[i]);
  }

  lemma IdentityCompletes(t: seq<Tool>)
    ensures Passes(Run(true, t + [LookupCustomer, VerifyIdentity, UpdateCustomer]))
  {
    var done := t + [LookupCustomer, VerifyIdentity, UpdateCustomer];
    assert done[|t|] in LOOKUP && done[|t| + 1] in VERIFY && done[|t| + 2] in UPDATE;
    ThenThenByPositions(done, LOOKUP, VERIFY, UPDATE);
    VerifiedExactly(true, done);
  }

  lemma DuplicateCompletes(t: seq<Tool>)
    requires CleanMerge(t) || !Occurs(t, CLOSE)
    ensures Passes(Run(false, (t + [MergeCases]) + [NotifyCustomer]))
  {
    CleanMergeSnoc(t, MergeCases);
    NotifySnoc(t + [MergeCases], NotifyCustomer);
    VerifiedExactly(false, (t + [MergeCases]) + [NotifyCustomer]);
  }

  lemma {:induction false} ClosedFirstStaysUnmerged(t: seq<Tool>, u: seq<Tool>)
    requires Occurs(t, CLOSE) && !CleanMerge(t)
    ensures Occurs(t + u, CLOSE) && !CleanMerge(t + u)
  {
    if u == [] {
      assert t + u == t;
    } else {
      var v, x := u[..|u| - 1], u[|u| - 1];
      ClosedFirstStaysUnmerged(t, v);
      assert t + u == (t + v) + [x];
      CleanMergeSnoc(t + v, x);
      OccursSnoc(t + v, x, CLOSE);
    }
  }

  /** A duplicate run is lost exactly when a case was closed with no merge before it;
      an identity run never is. */
  lemma RecoverableExactly(identityUpdate: bool, t: seq<Tool>)
    ensures (exists u :: Passes(Run(identityUpdate, t + u)))
       <==> (identityUpdate || CleanMerge(t) || !Occurs(t, CLOSE))
  {
    if identityUpdate {
      IdentityCompletes(t);
    } else if CleanMerge(t) || !Occurs(t, CLOSE) {
      DuplicateCompletes(t);
      assert t + [MergeCases, NotifyCustomer] == (t + [MergeCases]) + [NotifyCustomer];
    } else {
      forall u ensures !Passes(Run(false, t + u)) {
        ClosedFirstStaysUnmerged(t, u);
        CasesFollowTrace(t + u);
      }
    }
  }

  class SupportRuntime {
    const identityUpdate: bool
    var tables: Tables
    var lookedUp: bool
    var verified: bool
    var notified: bool
    ghost var trace: seq<Tool>

    ghost predicate Valid()
      reads this
    {
      && State(tables, lookedUp, verified, notified) == Run(identityUpdate, trace)
      && tables.CustomerTable? == identityUpdate
    }

    constructor (mode: string)
      ensures Valid() && trace == [] && identityUpdate == (mode == "identity_update")
    {
      identityUpdate := mode == "identity_update";
      tables := if mode == "identity_update" then CustomerTable(Customer(false, false))
                else CaseTable(Case(Open, None), Case(Open, None));
      lookedUp, verified, notified := false, false, false;
      trace := [];
    }

    method Verify() returns (passed: bool)
      requires Valid()
      ensures passed <==> Goal(identityUpdate, trace)
      ensures passed == Passes(State(tables, lookedUp, verified, notified))
    {
      VerifiedExactly(identityUpdate, trace);
      if identityUpdate {
        passed := tables.customer.newEmail && tables.customer.verified;
      } else {
        passed := tables.case2.status == Merged && tables.case2.mergedInto == Some(1) && notified;
      }
    }

    /** The tools that touch the customer row; where there is none, the statement raises. */
    method CallCustomer(tool: Tool) returns (r: Execution)
      requires Valid() && tool in {LookupCustomer, VerifyIdentity, UpdateCustomer}
      modifies this
      ensures (State(tables, lookedUp, verified, notified), r)
           == Effect(old(State(tables, lookedUp, verified, notified)), tool)
      ensures trace == old(trace)
    {
      r := SUCCEEDED;
      match tool {
        case LookupCustomer =>
          lookedUp := true;
        case VerifyIdentity =>
          if !lookedUp {
            r := Failed(IdentityLookupMissing);
          } else {
            verified := true;  // set before the statement that may raise
            if tables.CustomerTable? {
              tables := CustomerTable(tables.customer.(verified := true));
            } else {
              r := Failed(ToolException);
            }
          }
        case UpdateCustomer =>
          if !verified {
            r := Failed(IdentityNotVerified);
          } else if tables.CustomerTable? {
            tables := CustomerTable(tables.customer.(newEmail := true));
          } else {
            r := Failed(ToolException);
          }
      }
    }

    /** The tools that touch the case rows; likewise. */
    method CallCases(tool: Tool) returns (r: Execution)
      requires Valid() && tool in {CloseCase, SearchDuplicates, MergeCases, NotifyCustomer}
      modifies this
      ensures (State(tables, lookedUp, verified, notified), r)
           == Effect(old(State(tables, lookedUp, verified, notified)), tool)
      ensures trace == old(trace)
    {
      if tables.CustomerTable? {
        return Failed(ToolException);
      }
      r := SUCCEEDED;
      match tool {
        case CloseCase =>
          tables := tables.(case1 := tables.case1.(status := Closed));
        case SearchDuplicates =>
        case MergeCases =>
          if tables.case1.status != Open || tables.case2.status != Open {
            r := Failed(CaseClosedBeforeMerge);
          } else {
            tables := tables.(case2 := Case(Merged, Some(1)));
          }
        case NotifyCustomer =>
          if tables.case2.mergedInto != Some(1) {
            r := Failed(MergeNotCompleted);
          } else {
            notified := true;
          }
      }
    }

    method Call(tool: Tool) returns (r: Execution)
      requires Valid()
      modifies this
      ensures Valid() && trace == old(trace) + [tool]
      ensures Reports(identityUpdate, trace) == Reports(identityUpdate, old(trace)) + [r]
    {
      hide Run;
      hide Reports;
      RunOneMore(identityUpdate, trace, tool);
      hide Goal;
      hide Passes;
      TableOfMode(identityUpdate, trace + [tool]);
      hide Occurs;
      hide InitialTables;
      match tool {
        case LookupCustomer | VerifyIdentity | UpdateCustomer =>
          r := CallCustomer(tool);
        case ConfirmUpdate =>
          var passed := Verify();
          r := Checked(passed, UpdateMissing);
        case CloseCase | SearchDuplicates | MergeCases | NotifyCustomer =>
          r := CallCases(tool);
        case _ =>
          r := Failed(ToolException);
      }
      trace := trace + [tool];
    }
  }
}
