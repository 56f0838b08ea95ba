/** Tool names, tool results, and the trace vocabulary in which the task runtimes are judged. */
module Tools {
  import opened Wrappers

  /** Every name a runtime knows; any other name raises KeyError and is `Unknown`. */
  datatype Tool =
    | InspectConfig | InspectSchema | OverwriteConfig | UpdateConfig | RunConfigTests
    | ReplaceSchema | MigrateSchema | RunSchemaTests
    | LookupCustomer | VerifyIdentity | UpdateCustomer | ConfirmUpdate
    | CloseCase | SearchDuplicates | MergeCases | NotifyCustomer
    | InspectPolicy | InspectStatus | CollectApproval | ExecuteRequest | AuditRequest
    | ApplyUnchecked | ApplyOnce | ReconcileLedger
    | Unknown(name: string)

  datatype ErrorCode =
    | ToolException
    | ConfigNotInspected | ConfigKeysLost | SchemaNotInspected | SchemaFieldLost
    | IdentityLookupMissing | IdentityNotVerified | UpdateMissing
    | CaseClosedBeforeMerge | MergeNotCompleted
    | PolicyNotInspected | ApprovalMissing | ExecutionMissing
    | LedgerNotInspected | DuplicateOperation | DuplicateLedgerEntry

  /** What the caller of a tool sees; payload and duration are not modelled. */
  datatype Execution = Execution(success: bool, error: Option<ErrorCode>)

  const SUCCEEDED := Execution(true, None)

  function Failed(code: ErrorCode): Execution {
    Execution(false, Some(code))
  }

  /** The result of the tools that only report whether a check passed. */
  function Checked(passed: bool, code: ErrorCode): Execution {
    if passed then SUCCEEDED else Failed(code)
  }

  /** Some tool of `a` was called. */
  ghost predicate Occurs(t: seq<Tool>, a: set<Tool>) {
    exists i :: 0 <= i < |t| && t[i] in a
  }

  /** A tool of `a` was called and, strictly later, a tool of `b`. */
  ghost predicate Then(t: seq<Tool>, a: set<Tool>, b: set<Tool>) {
    exists j :: 0 <= j < |t| && t[j] in b && Occurs(t[..j], a)
  }

  /** Tools of `a`, `b` and `c` were called in this order, with anything in between. */
  ghost predicate ThenThen(t: seq<Tool>, a: set<Tool>, b: set<Tool>, c: set<Tool>) {
    exists k :: 0 <= k < |t| && t[k] in c && Then(t[..k], a, b)
  }

  /** The prefix form of `ThenThen` says what three increasing positions say. */
  lemma ThenThenByPositions(t: seq<Tool>, a: set<Tool>, b: set<Tool>, c: set<Tool>)
    ensures ThenThen(t, a, b, c)
       <==> exists i, j, k :: 0 <= i < j < k < |t| && t[i] in a && t[j] in b && t[k] in c
  {
    if ThenThen(t, a, b, c) {
      var k :| 0 <= k < |t| && t[k] in c && Then(t[..k], a, b);
      var j :| 0 <= j < k && t[..k][j] in b && Occurs(t[..k][..j], a);
      var i :| 0 <= i < j && t[..k][..j][i] in a;
      assert t[i] in a && t[j] in b && t[k] in c;
    }
    if i, j, k :| 0 <= i < j < k < |t| && t[i] in a && t[j] in b && t[k] in c {
      assert t[..k][..j][i] in a;
      assert t[..k][j] in b;
    }
  }

  lemma OccursSnoc(t: seq<Tool>, x: Tool, a: set<Tool>)
    ensures Occurs(t + [x], a) <==> Occurs(t, a) || x in a
  {
    assert (t + [x])[|t|] == x;
    assert forall i :: 0 <= i < |t| ==> (t + [x])[i] == t[i];
  }

  lemma ThenSnoc(t: seq<Tool>, x: Tool, a: set<Tool>, b: set<Tool>)
    ensures Then(t + [x], a, b) <==> Then(t, a, b) || (x in b && Occurs(t, a))
  {
    PrefixesSnoc(t, x);
  }

  lemma ThenThenSnoc(t: seq<Tool>, x: Tool, a: set<Tool>, b: set<Tool>, c: set<Tool>)
    ensures ThenThen(t + [x], a, b, c) <==> ThenThen(t, a, b, c) || (x in c && Then(t, a, b))
  {
    PrefixesSnoc(t, x);
  }

  lemma PrefixesSnoc(t: seq<Tool>, x: Tool)
    ensures (t + [x])[|t|] == x && (t + [x])[..|t|] == t
    ensures forall j :: 0 <= j < |t| ==> (t + [x])[j] == t[j] && (t + [x])[..j] == t[..j]
  {
  }

  lemma ThenThenMore(t: seq<Tool>, u: seq<Tool>, a: set<Tool>, b: set<Tool>, c: set<Tool>)
    requires ThenThen(t, a, b, c)
    ensures ThenThen(t + u, a, b, c)
  {
    var k :| 0 <= k < |t| && t[k] in c && Then(t[..k], a, b);
    assert (t + u)[k] in c && (t + u)[..k] == t[..k];
  }

  /** The tools called before the last one, and the last one. */
  lemma SplitLast(t: seq<Tool>)
    requires t != []
    ensures t == t[..|t| - 1] + [t[|t| - 1]]
  {
  }

  // ----- Runs of a runtime, given what one call does

  /** What one call does: the state after it, and what the caller sees. */
  type Step<!S> = (S, Tool) -> (S, Execution)

  /** State after any sequence of calls on a new runtime. */
  function After<S>(step: Step<S>, start: S, t: seq<Tool>): S {
    if t == [] then start else step(After(step, start, t[..|t| - 1]), t[|t| - 1]).0
  }

  /** What the caller saw, call by call. */
  function ReportsOf<S>(step: Step<S>, start: S, t: seq<Tool>): (r: seq<Execution>)
    ensures |r| == |t|
  {
    if t == [] then []
    else
      var u := t[..|t| - 1];
      ReportsOf(step, start, u) + [step(After(step, start, u), t[|t| - 1]).1]
  }

  lemma OneMoreCall<S>(step: Step<S>, start: S, t: seq<Tool>, tool: Tool)
    ensures var (s, r) := step(After(step, start, t), tool);
            && After(step, start, t + [tool]) == s
            && ReportsOf(step, start, t + [tool]) == ReportsOf(step, start, t) + [r]
  {
    assert (t + [tool])[..|t|] == t;
  }

  /** Each report is that of its own call, in the state the calls before it left. */
  lemma {:induction false} ReportAt<S>(step: Step<S>, start: S, t: seq<Tool>, i: nat)
    requires i < |t|
    ensures ReportsOf(step, start, t)[i] == step(After(step, start, t[..i]), t[i]).1
  {
    var n := |t| - 1;
    if i < n {
      ReportAt(step, start, t[..n], i);
      assert t[..n][..i] == t[..i];
    }
  }
}
