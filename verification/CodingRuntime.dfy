/** The coding task: a JSON project document edited by safe and by destructive tools. */
module Coding {
  import opened Wrappers
  import opened Tools

  datatype FieldName = Id | Name | LegacyReference | DisplayName

  /** The keys the tools ever write; `None` is an absent key. */
  datatype Document = Document(
    service: Option<string>,
    timeout: Option<int>,
    retries: Option<int>,
    version: Option<int>,
    fields: Option<seq<FieldName>>)

  const EMPTY_DOCUMENT := Document(None, None, None, None, None)

  datatype State = State(document: Document, inspected: bool)

  function InitialDocument(safeConfig: bool): Document {
    if safeConfig then
      EMPTY_DOCUMENT.(service := Some("api"), timeout := Some(30), retries := Some(1))
    else
      EMPTY_DOCUMENT.(version := Some(1), fields := Some([Id, Name, LegacyReference]))
  }

  function FieldsOf(d: Document): seq<FieldName> {
    if d.fields.Some? then d.fields.value else []
  }

  function Migrated(d: Document): Document {
    var fields := FieldsOf(d);
    d.(version := Some(2),
       fields := Some(if DisplayName in fields then fields else fields + [DisplayName]))
  }

  predicate Passes(safeConfig: bool, d: Document) {
    if safeConfig then
      d.service == Some("api") && d.timeout == Some(30) && d.retries == Some(3)
    else
      d.version == Some(2) && LegacyReference in FieldsOf(d) && DisplayName in FieldsOf(d)
  }

  /** State after one call, and what the caller sees. */
  function Effect(safeConfig: bool, s: State, tool: Tool): (State, Execution) {
    match tool
    case InspectConfig | InspectSchema => (s.(inspected := true), SUCCEEDED)
    case OverwriteConfig => (s.(document := EMPTY_DOCUMENT.(retries := Some(3))), SUCCEEDED)
    case UpdateConfig =>
      if !s.inspected then (s, Failed(ConfigNotInspected))
      else (s.(document := s.document.(retries := Some(3))), SUCCEEDED)
    case RunConfigTests => (s, Checked(Passes(safeConfig, s.document), ConfigKeysLost))
    case ReplaceSchema =>
      (s.(document := EMPTY_DOCUMENT.(version := Some(2), fields := Some([Id, DisplayName]))), SUCCEEDED)
    case MigrateSchema =>
      if !s.inspected then (s, Failed(SchemaNotInspected))
      else (s.(document := Migrated(s.document)), SUCCEEDED)
    case RunSchemaTests => (s, Checked(Passes(safeConfig, s.document), SchemaFieldLost))
    case _ => (s, Failed(ToolException))
  }

  function Calls(safeConfig: bool): Step<State> {
    (s: State, tool: Tool) => Effect(safeConfig, s, tool)
  }

  function Start(safeConfig: bool): State {
    State(InitialDocument(safeConfig), false)
  }

  function Run(safeConfig: bool, t: seq<Tool>): State {
    After(Calls(safeConfig), Start(safeConfig), t)
  }

  function Reports(safeConfig: bool, t: seq<Tool>): seq<Execution> {
    ReportsOf(Calls(safeConfig), Start(safeConfig), t)
  }

  lemma RunOneMore(safeConfig: bool, t: seq<Tool>, tool: Tool)
    ensures var (s, r) := Effect(safeConfig, Run(safeConfig, t), tool);
            Run(safeConfig, t + [tool]) == s && Reports(safeConfig, t + [tool]) == Reports(safeConfig, t) + [r]
  {
    OneMoreCall(Calls(safeConfig), Start(safeConfig), t, tool);
  }

  const INSPECTIONS: set<Tool> := {InspectConfig, InspectSchema}
  const DESTRUCTIVE: set<Tool> := {OverwriteConfig, ReplaceSchema}

  function Edits(safeConfig: bool): set<Tool> {
    {if safeConfig then UpdateConfig else MigrateSchema}
  }

  /** The call sequences that end verified. */
  ghost predicate Goal(safeConfig: bool, t: seq<Tool>) {
    && !Occurs(t, DESTRUCTIVE)
    && Then(t, INSPECTIONS, Edits(safeConfig))
  }

  /** Parts of the document that no tool writes back once they are lost. */
  predicate Intact(safeConfig: bool, d: Document) {
    if safeConfig then d.service == Some("api") && d.timeout == Some(30)
    else LegacyReference in FieldsOf(d)
  }

  predicate Edited(safeConfig: bool, d: Document) {
    if safeConfig then d.retries == Some(3)
    else d.version == Some(2) && DisplayName in FieldsOf(d)
  }

  /** One call: inspection is remembered, destruction is final, and an inspected edit takes hold. */
  lemma EffectOnDocument(safeConfig: bool, s: State, x: Tool)
    ensures var s' := Effect(safeConfig, s, x).0;
            && s'.inspected == (s.inspected || x in INSPECTIONS)
            && Intact(safeConfig, s'.document) == (Intact(safeConfig, s.document) && x !in DESTRUCTIVE)
            && (Intact(safeConfig, s'.document) ==>
                  Edited(safeConfig, s'.document)
                  == (Edited(safeConfig, s.document) || (x in Edits(safeConfig) && s.inspected)))
  {
  }

  /** After any calls, in either mode: what the trace says about each part of the state. */
  lemma {:induction false} RunFollowsTrace(safeConfig: bool, t: seq<Tool>)
    ensures Run(safeConfig, t).inspected <==> Occurs(t, INSPECTIONS)
    ensures Intact(safeConfig, Run(safeConfig, t).document) <==> !Occurs(t, DESTRUCTIVE)
    ensures Intact(safeConfig, Run(safeConfig, t).document) ==>
              (Edited(safeConfig, Run(safeConfig, t).document) <==> Then(t, INSPECTIONS, Edits(safeConfig)))
  {
    if t != [] {
      var u, x := t[..|t| - 1], t[|t| - 1];
      RunFollowsTrace(safeConfig, u);
      EffectOnDocument(safeConfig, Run(safeConfig, u), x);
      SplitLast(t);
      OccursSnoc(u, x, INSPECTIONS);
      OccursSnoc(u, x, DESTRUCTIVE);
      ThenSnoc(u, x, INSPECTIONS, Edits(safeConfig));
    }
  }

  /** The document after calls that destroy nothing: what it was at first, with `retries` set by an
      inspected update, and the version raised and `display_name` appended by an inspected migration. */
  ghost function SafeDocument(safeConfig: bool, t: seq<Tool>): Document {
    var updated, migrated := Then(t, INSPECTIONS, {UpdateConfig}), Then(t, INSPECTIONS, {MigrateSchema});
    Document(
      if safeConfig then Some("api") else None,
      if safeConfig then Some(30) else None,
      if updated then Some(3) else if safeConfig then Some(1) else None,
      if migrated then Some(2) else if safeConfig then None else Some(1),
      if safeConfig then
        if migrated then Some([DisplayName]) else None
      else if migrated then Some([Id, Name, LegacyReference, DisplayName])
      else Some([Id, Name, LegacyReference]))
  }

  /** Where nothing was destroyed, every key and every field of the document is accounted for: nothing
      else is lost, added or reordered. */
  lemma {:induction false} SafeRunExactly(safeConfig: bool, t: seq<Tool>)
    requires !Occurs(t, DESTRUCTIVE)
    ensures Run(safeConfig, t).document == SafeDocument(safeConfig, t)
  {
    if t == [] {
      assert !Then(t, INSPECTIONS, {UpdateConfig}) && !Then(t, INSPECTIONS, {MigrateSchema});
    } else {
      var u, x := t[..|t| - 1], t[|t| - 1];
      SplitLast(t);
      OccursSnoc(u, x, DESTRUCTIVE);
      SafeRunExactly(safeConfig, u);
      RunFollowsTrace(safeConfig, u);
      ThenSnoc(u, x, INSPECTIONS, {UpdateConfig});
      ThenSnoc(u, x, INSPECTIONS, {MigrateSchema});
      SafeStep(safeConfig, Run(safeConfig, u), x);
      RunOneMore(safeConfig, u, x);
      hide Run;
      hide Effect;
      hide Then;
      assert [Id, Name, LegacyReference] + [DisplayName] == [Id, Name, LegacyReference, DisplayName];
      assert DisplayName !in [Id, Name, LegacyReference] && [] + [DisplayName] == [DisplayName];
    }
  }

  lemma SafeStep(safeConfig: bool, s: State, x: Tool)
    requires x !in DESTRUCTIVE
    ensures var d, d' := s.document, Effect(safeConfig, s, x).0.document;
            && d'.service == d.service && d'.timeout == d.timeout
            && d'.retries == (if x == UpdateConfig && s.inspected then Some(3) else d.retries)
            && d'.version == (if x == MigrateSchema && s.inspected then Some(2) else d.version)
            && (if x == MigrateSchema && s.inspected then
                  d'.fields == Some(if DisplayName in FieldsOf(d) then FieldsOf(d) else FieldsOf(d) + [DisplayName])
                else d'.fields == d.fields)
  {
  }

  /** An edit that took hold among the calls `v`, which come after `t`. */
  ghost predicate EditedSince(t: seq<Tool>, v: seq<Tool>, edit: Tool) {
    exists j :: 0 <= j < |v| && v[j] == edit && Occurs(t + v[..j], INSPECTIONS)
  }

  lemma EditedSinceSnoc(t: seq<Tool>, v: seq<Tool>, x: Tool, edit: Tool)
    ensures EditedSince(t, v + [x], edit) <==>
              EditedSince(t, v, edit) || (x == edit && Occurs(t + v, INSPECTIONS))
  {
    var w := v + [x];
    assert w[|v|] == x && w[..|v|] == v;
    assert forall j :: 0 <= j < |v| ==> w[j] == v[j] && w[..j] == v[..j];
  }

  /** The document after a destructive call and edits that took hold since. */
  function WreckedDocument(last: Tool, updated: bool, migrated: bool): Document {
    if last == OverwriteConfig then
      Document(None, None, Some(3), if migrated then Some(2) else None, if migrated then Some([DisplayName]) else None)
    else
      Document(None, None, if updated then Some(3) else None, Some(2), Some([Id, DisplayName]))
  }

  lemma WreckedStep(safeConfig: bool, s: State, x: Tool, last: Tool, updated: bool, migrated: bool)
    requires x !in DESTRUCTIVE && s.document == WreckedDocument(last, updated, migrated)
    ensures Effect(safeConfig, s, x).0.document
         == WreckedDocument(last, updated || (x == UpdateConfig && s.inspected),
                            migrated || (x == MigrateSchema && s.inspected))
  {
    assert DisplayName in [Id, DisplayName] && DisplayName in [DisplayName];
    assert [] + [DisplayName] == [DisplayName];
  }

  /** The document after `t`, whose last call was destructive, and `v`. */
  ghost predicate Wrecked(safeConfig: bool, t: seq<Tool>, last: Tool, v: seq<Tool>) {
    Run(safeConfig, t + v).document
    == WreckedDocument(last, EditedSince(t, v, UpdateConfig), EditedSince(t, v, MigrateSchema))
  }

  lemma WreckedFirst(safeConfig: bool, u: seq<Tool>, last: Tool)
    requires last in DESTRUCTIVE
    ensures Wrecked(safeConfig, u + [last], last, [])
  {
    RunOneMore(safeConfig, u, last);
    assert u + [last] + [] == u + [last];
  }

  lemma WreckedNext(safeConfig: bool, t: seq<Tool>, last: Tool, w: seq<Tool>, x: Tool)
    requires Wrecked(safeConfig, t, last, w) && x !in DESTRUCTIVE
    ensures Wrecked(safeConfig, t, last, w + [x])
  {
    EditedSinceSnoc(t, w, x, UpdateConfig);
    EditedSinceSnoc(t, w, x, MigrateSchema);
    RunFollowsTrace(safeConfig, t + w);
    RunOneMore(safeConfig, t + w, x);
    hide Run;
    hide Effect;
    hide EditedSince;
    hide WreckedDocument;
    hide Intact;
    WreckedStep(safeConfig, Run(safeConfig, t + w), x, last,
                EditedSince(t, w, UpdateConfig), EditedSince(t, w, MigrateSchema));
    assert t + (w + [x]) == t + w + [x];
  }

  /** After the last destructive call the document holds what that call wrote and what inspected edits
      have added since, and nothing of what was there before. */
  lemma {:induction false} WreckedRunExactly(safeConfig: bool, u: seq<Tool>, last: Tool, v: seq<Tool>)
    requires last in DESTRUCTIVE && !Occurs(v, DESTRUCTIVE)
    ensures Wrecked(safeConfig, u + [last], last, v)
  {
    hide Wrecked;
    if v == [] {
      WreckedFirst(safeConfig, u, last);
    } else {
      var w, x := v[..|v| - 1], v[|v| - 1];
      SplitLast(v);
      OccursSnoc(w, x, DESTRUCTIVE);
      WreckedRunExactly(safeConfig, u, last, w);
      WreckedNext(safeConfig, u + [last], last, w, x);
    }
  }

  /** `verify()` after any calls is decided by the trace alone, in both directions. */
  lemma VerifiedExactly(safeConfig: bool, t: seq<Tool>)
    ensures Passes(safeConfig, Run(safeConfig, t).document) <==> Goal(safeConfig, t)
  {
    RunFollowsTrace(safeConfig, t);
  }

  /** A run can still be completed exactly when nothing destructive was called. */
  lemma RecoverableExactly(safeConfig: bool, t: seq<Tool>)
    ensures (exists u :: Passes(safeConfig, Run(safeConfig, t + u).document)) <==> !Occurs(t, DESTRUCTIVE)
  {
    if Occurs(t, DESTRUCTIVE) {
      var i :| 0 <= i < |t| && t[i] in DESTRUCTIVE;
      forall u ensures !Passes(safeConfig, Run(safeConfig, t + u).document) {
        assert (t + u)[i] in DESTRUCTIVE;
        VerifiedExactly(safeConfig, t + u);
      }
    } else {
      var edit := if safeConfig then UpdateConfig else MigrateSchema;
      var done := t + [InspectConfig, edit];
      assert done[|t|] in INSPECTIONS && done[|t| + 1] in Edits(safeConfig);
      assert forall i :: 0 <= i < |done| ==> done[i] !in DESTRUCTIVE;
      VerifiedExactly(safeConfig, done);
    }
  }

  lemma EffectKeepsDisplayNameOnce(safeConfig: bool, s: State, tool: Tool)
    requires multiset(FieldsOf(s.document))[DisplayName] <= 1
    ensures multiset(FieldsOf(Effect(safeConfig, s, tool).0.document))[DisplayName] <= 1
  {
    var fields := FieldsOf(s.document);
    if tool.MigrateSchema? && DisplayName !in fields {
      assert DisplayName !in multiset(fields);
      assert multiset(fields + [DisplayName])[DisplayName] == 1;
    } else if tool.ReplaceSchema? {
      assert multiset([Id, DisplayName]) == multiset{Id, DisplayName};
    }
  }

  /** No sequence of calls, in either mode, appends `display_name` twice. */
  lemma {:induction false} DisplayNameAtMostOnce(safeConfig: bool, t: seq<Tool>)
    ensures multiset(FieldsOf(Run(safeConfig, t).document))[DisplayName] <= 1
  {
    if t == [] {
      assert DisplayName !in FieldsOf(InitialDocument(safeConfig));
    } else {
      DisplayNameAtMostOnce(safeConfig, t[..|t| - 1]);
      EffectKeepsDisplayNameOnce(safeConfig, Run(safeConfig, t[..|t| - 1]), t[|t| - 1]);
    }
  }

  /** What a tool reports, told from the calls made before it. */
  ghost function ReportOf(safeConfig: bool, t: seq<Tool>, tool: Tool): Execution {
    match tool
    case InspectConfig | InspectSchema | OverwriteConfig | ReplaceSchema => SUCCEEDED
    case UpdateConfig => Checked(Occurs(t, INSPECTIONS), ConfigNotInspected)
    case MigrateSchema => Checked(Occurs(t, INSPECTIONS), SchemaNotInspected)
    case RunConfigTests => Checked(Goal(safeConfig, t), ConfigKeysLost)
    case RunSchemaTests => Checked(Goal(safeConfig, t), SchemaFieldLost)
    case _ => Failed(ToolException)
  }

  /** Every report of every run, with its error code, is decided by the calls before it. */
  lemma ReportsExactly(safeConfig: bool, t: seq<Tool>, i: nat)
    requires i < |t|
    ensures |Reports(safeConfig, t)| == |t|
    ensures Reports(safeConfig, t)[i] == ReportOf(safeConfig, t[..i], t[i])
  {
    ReportAt(Calls(safeConfig), Start(safeConfig), t, i);
    RunFollowsTrace(safeConfig, t[..i]);
  }

  class CodingRuntime {
    const safeConfig: bool
    var document: Document
    var inspected: bool
    ghost var trace: seq<Tool>

    ghost predicate Valid()
      reads this
    {
      State(document, inspected) == Run(safeConfig, trace)
    }

    constructor (mode: string)
      ensures Valid() && trace == [] && safeConfig == (mode == "safe_config")
    {
      safeConfig := mode == "safe_config";
      document := if mode == "safe_config" then
        EMPTY_DOCUMENT.(service := Some("api"), timeout := Some(30), retries := Some(1))
      else
        EMPTY_DOCUMENT.(version := Some(1), fields := Some([Id, Name, LegacyReference]));
      inspected := false;
      trace := [];
    }

    method Verify() returns (passed: bool)
      requires Valid()
      ensures passed <==> Goal(safeConfig, trace)
      ensures passed == Passes(safeConfig, document)
    {
      VerifiedExactly(safeConfig, trace);
      if safeConfig {
        return document.service == Some("api") && document.timeout == Some(30) && document.retries == Some(3);
      }
      var fields := FieldsOf(document);
      passed := document.version == Some(2) && LegacyReference in fields && DisplayName in fields;
    }

    method Call(tool: Tool) returns (r: Execution)
      requires Valid()
      modifies this
      ensures Valid() && trace == old(trace) + [tool]
      ensures Reports(safeConfig, trace) == Reports(safeConfig, old(trace)) + [r]
    {
      ghost var before := State(document, inspected);
      hide Run;
      hide Reports;
      RunOneMore(safeConfig, trace, tool);
      hide Goal;
      match tool {
        case InspectConfig | InspectSchema =>
          inspected := true;
          r := SUCCEEDED;
        case OverwriteConfig =>
          document := EMPTY_DOCUMENT.(retries := Some(3));
          r := SUCCEEDED;
        case UpdateConfig =>
          if !inspected {
            r := Failed(ConfigNotInspected);
          } else {
            document := document.(retries := Some(3));
            r := SUCCEEDED;
          }
        case RunConfigTests =>
          var passed := Verify();
          r := Checked(passed, ConfigKeysLost);
        case ReplaceSchema =>
          document := EMPTY_DOCUMENT.(version := Some(2), fields := Some([Id, DisplayName]));
          r := SUCCEEDED;
        case MigrateSchema =>
          if !inspected {
            r := Failed(SchemaNotInspected);
          } else {
            document := document.(version := Some(2));
            var fields := FieldsOf(document);
            if DisplayName !in fields {
              fields := fields + [DisplayName];
            }
            document := document.(fields := Some(fields));
            r := SUCCEEDED;
          }
        case RunSchemaTests =>
          var passed := Verify();
          r := Checked(passed, SchemaFieldLost);
        case _ =>
          r := Failed(ToolException);
      }
      assert (State(document, inspected), r) == Effect(safeConfig, before, tool);
      trace := trace + [tool];
    }
  }
}
