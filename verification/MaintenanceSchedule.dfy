/** When the Memory OS worker runs, over any interleaving of queries from many namespaces. */
module MaintenanceSchedule {
  import opened Sequences

  const INTERVAL := 32

  /** A query with the time its retrieval took, and the time a worker run after it would take. */
  datatype Query = Query(namespace: string, retrievalMs: real, workerMs: real)

  function NamespaceOf(q: Query): string { q.namespace }

  /** How many of the first `n` queries belong to the namespace. */
  function Seen(names: seq<string>, ns: string, n: nat): nat
    requires n <= |names|
  {
    multiset(names[..n])[ns]
  }

  /** The worker runs after query `i`: its namespace has reached a multiple of the interval, or is finished. */
  predicate RunsAt(names: seq<string>, i: nat)
    requires i < |names|
  {
    var seen := Seen(names, names[i], i + 1);
    seen % INTERVAL == 0 || seen == Seen(names, names[i], |names|)
  }

  /** The schedule: after which queries the worker runs. */
  function Due(names: seq<string>): (due: seq<bool>)
    ensures |due| == |names|
  {
    seq(|names|, i requires 0 <= i < |names| => RunsAt(names, i))
  }

  /** The namespaces the worker ran for, over the first `n` queries of a schedule. */
  function RunsUpTo(names: seq<string>, due: seq<bool>, n: nat): seq<string>
    requires n <= |names| == |due|
  {
    if n == 0 then []
    else RunsUpTo(names, due, n - 1) + if due[n - 1] then [names[n - 1]] else []
  }

  /** Every worker run over the whole query list. */
  function WorkerRuns(names: seq<string>): seq<string> {
    RunsUpTo(names, Due(names), |names|)
  }

  datatype Run = Run(
    reports: seq<string>,
    retrieval: seq<real>,
    endToEnd: seq<real>,
    maintenanceTotal: real)

  lemma SeenStep(names: seq<string>, ns: string, n: nat)
    requires n < |names|
    ensures Seen(names, ns, n + 1) == Seen(names, ns, n) + if names[n] == ns then 1 else 0
  {
    TakeSnoc(names, n);
  }

  /** A Counter lookup: a missing key counts zero. */
  function Count(counter: map<string, nat>, ns: string): nat {
    if ns in counter then counter[ns] else 0
  }

  ghost predicate CountsFirst(counter: map<string, nat>, names: seq<string>, n: nat)
    requires n <= |names|
  {
    forall ns :: Count(counter, ns) == Seen(names, ns, n)
  }

  lemma CountOneMore(counter: map<string, nat>, names: seq<string>, n: nat)
    requires n < |names| && CountsFirst(counter, names, n)
    ensures CountsFirst(counter[names[n] := Count(counter, names[n]) + 1], names, n + 1)
  {
    var next := counter[names[n] := Count(counter, names[n]) + 1];
    forall ns ensures Count(next, ns) == Seen(names, ns, n + 1) {
      SeenStep(names, ns, n);
      assert Count(counter, ns) == Seen(names, ns, n);
    }
  }

  method CountNamespaces(names: seq<string>) returns (counter: map<string, nat>)
    ensures CountsFirst(counter, names, |names|)
  {
    counter := map[];
    for n := 0 to |names|
      invariant CountsFirst(counter, names, n)
    {
      CountOneMore(counter, names, n);
      counter := counter[names[n] := Count(counter, names[n]) + 1];
    }
  }

  /** Latencies and reports of the first `n` queries of a schedule. */
  ghost predicate Recorded(run: Run, queries: seq<Query>, names: seq<string>, due: seq<bool>, n: nat)
    requires n <= |queries| == |names| == |due|
  {
    && run.reports == RunsUpTo(names, due, n)
    && |run.retrieval| == |run.endToEnd| == n
    && (forall i :: 0 <= i < n ==> run.retrieval[i] == queries[i].retrievalMs)
    && (forall i :: 0 <= i < n ==>
          run.endToEnd[i] == queries[i].retrievalMs + if due[i] then queries[i].workerMs else 0.0)
    && Sum(run.endToEnd) == Sum(run.retrieval) + run.maintenanceTotal
  }

  /** What query `n` adds: its latencies, and a worker report if maintenance was due. */
  method Record(run: Run, queries: seq<Query>, ghost names: seq<string>, ghost due: seq<bool>, n: nat, maintain: bool)
    returns (r: Run)
    requires n < |queries| == |names| == |due| && Recorded(run, queries, names, due, n)
    requires maintain == due[n] && names[n] == queries[n].namespace
    ensures Recorded(r, queries, names, due, n + 1)
  {
    var q := queries[n];
    var maintenanceMs := if maintain then q.workerMs else 0.0;
    SumSnoc(run.retrieval, q.retrievalMs);
    SumSnoc(run.endToEnd, q.retrievalMs + maintenanceMs);
    r := Run(run.reports + (if maintain then [q.namespace] else []),
             run.retrieval + [q.retrievalMs],
             run.endToEnd + [q.retrievalMs + maintenanceMs],
             run.maintenanceTotal + maintenanceMs);
  }

  /** The query loop of `run_wavemind_memory_os`: every latency and every worker run is recorded, and
      end-to-end time is retrieval time plus maintenance time, in total. */
  method RunMemoryOs(queries: seq<Query>) returns (run: Run)
    ensures Recorded(run, queries, Map(NamespaceOf, queries), Due(Map(NamespaceOf, queries)), |queries|)
  {
    var names := Map(NamespaceOf, queries);
    var perNamespace := CountNamespaces(names);
    var seen: map<string, nat> := map[];
    run := Run([], [], [], 0.0);
    assert CountsFirst(seen, names, 0) && Recorded(run, queries, names, Due(names), 0);
    hide CountsFirst;
    hide Recorded;
    hide Due;
    for n := 0 to |queries|
      invariant CountsFirst(seen, names, n)
      invariant Recorded(run, queries, names, Due(names), n)
    {
      var ns := names[n];
      CountOneMore(seen, names, n);
      seen := seen[ns := Count(seen, ns) + 1];
      MaintenanceDue(seen, perNamespace, names, n);
      var finished := Count(seen, ns) == Count(perNamespace, ns);
      run := Record(run, queries, names, Due(names), n, Count(seen, ns) % INTERVAL == 0 || finished);
    }
  }

  lemma MaintenanceDue(seen: map<string, nat>, perNamespace: map<string, nat>, names: seq<string>, n: nat)
    requires n < |names| && CountsFirst(seen, names, n + 1) && CountsFirst(perNamespace, names, |names|)
    ensures Due(names)[n]
       <==> Count(seen, names[n]) % INTERVAL == 0 || Count(seen, names[n]) == Count(perNamespace, names[n])
  {
  }

  // ----- How often each namespace is maintained

  function CeilDiv(n: nat, d: nat): nat
    requires d > 0
  {
    (n + d - 1) / d
  }

  lemma NextInterval(s: nat)
    ensures (s + 1) / INTERVAL == s / INTERVAL + if (s + 1) % INTERVAL == 0 then 1 else 0
  {
  }

  /** How many of the first `n` queries were followed by a run for the namespace. */
  function RunCount(names: seq<string>, due: seq<bool>, ns: string, n: nat): nat
    requires n <= |names| == |due|
  {
    if n == 0 then 0
    else RunCount(names, due, ns, n - 1) + if due[n - 1] && names[n - 1] == ns then 1 else 0
  }

  lemma ReportsStep(names: seq<string>, due: seq<bool>, ns: string, n: nat)
    requires n < |names| == |due|
    ensures multiset(RunsUpTo(names, due, n + 1))[ns]
         == multiset(RunsUpTo(names, due, n))[ns] + if due[n] && names[n] == ns then 1 else 0
  {
    hide RunsUpTo;
    assert RunsUpTo(names, due, n + 1) == RunsUpTo(names, due, n) + (if due[n] then [names[n]] else []) by {
      RunsUpToStep(names, due, n);
    }
    assert multiset([names[n]]) == multiset{names[n]};
  }

  lemma RunsUpToStep(names: seq<string>, due: seq<bool>, n: nat)
    requires n < |names| == |due|
    ensures RunsUpTo(names, due, n + 1) == RunsUpTo(names, due, n) + if due[n] then [names[n]] else []
  {
  }

  ghost predicate ReportsCounted(names: seq<string>, due: seq<bool>, ns: string, n: nat)
    requires n <= |names| == |due|
  {
    multiset(RunsUpTo(names, due, n))[ns] == RunCount(names, due, ns, n)
  }

  lemma ReportsCountedStep(names: seq<string>, due: seq<bool>, ns: string, n: nat)
    requires n < |names| == |due| && ReportsCounted(names, due, ns, n)
    ensures ReportsCounted(names, due, ns, n + 1)
  {
    ReportsStep(names, due, ns, n);
    hide RunsUpTo;
  }

  lemma {:induction false} RunCountInReports(names: seq<string>, due: seq<bool>, ns: string, n: nat)
    requires n <= |names| == |due|
    ensures ReportsCounted(names, due, ns, n)
    decreases n
  {
    if n > 0 {
      hide ReportsCounted;
      RunCountInReports(names, due, ns, n - 1);
      ReportsCountedStep(names, due, ns, n - 1);
    }
  }

  /** Runs due to a namespace of `all` queries once `seen` of them are done. */
  function RunsFor(seen: nat, all: nat): nat {
    seen / INTERVAL + if seen == all && all % INTERVAL != 0 then 1 else 0
  }

  ghost predicate RunsAsExpected(names: seq<string>, ns: string, n: nat)
    requires n <= |names|
  {
    RunCount(names, Due(names), ns, n) == RunsFor(Seen(names, ns, n), Seen(names, ns, |names|))
  }

  lemma RunsStep(names: seq<string>, ns: string, n: nat)
    requires n < |names| && RunsAsExpected(names, ns, n)
    ensures RunsAsExpected(names, ns, n + 1)
  {
    SeenStep(names, ns, n);
    SeenGrows(names, ns, n + 1, |names|);
    NextInterval(Seen(names, ns, n));
    assert Due(names)[n] == RunsAt(names, n);
    hide Seen;
  }

  /** Runs of one namespace after `n` queries: one per full interval, and one when it is finished early. */
  lemma {:induction false} RunsSoFar(names: seq<string>, ns: string, n: nat)
    requires n <= |names|
    ensures RunCount(names, Due(names), ns, n) == RunsFor(Seen(names, ns, n), Seen(names, ns, |names|))
    decreases n
  {
    assert RunsAsExpected(names, ns, n) by {
      if n == 0 {
        assert names[..0] == [];
      } else {
        RunsSoFar(names, ns, n - 1);
        RunsStep(names, ns, n - 1);
      }
    }
  }

  lemma SeenGrows(names: seq<string>, ns: string, m: nat, n: nat)
    requires m <= n <= |names|
    ensures Seen(names, ns, n) == Seen(names, ns, m) + multiset(names[m..n])[ns]
  {
    assert names[..n] == names[..m] + names[m..n];
  }

  /** A namespace with n queries is maintained exactly ceil(n / 32) times. */
  lemma RunsPerNamespace(names: seq<string>, ns: string)
    ensures multiset(WorkerRuns(names))[ns] == CeilDiv(multiset(names)[ns], 32)
  {
    RunsSoFar(names, ns, |names|);
    RunCountInReports(names, Due(names), ns, |names|);
    TakeAll(names);
  }

  function SumCounts(keys: seq<string>, m: multiset<string>): nat {
    if keys == [] then 0 else m[keys[0]] + SumCounts(keys[1..], m)
  }

  lemma {:induction false} SumCountsWithout(keys: seq<string>, k: string, m: multiset<string>)
    requires k !in keys
    ensures SumCounts(keys, m[k := 0]) == SumCounts(keys, m)
  {
    if keys != [] {
      SumCountsWithout(keys[1..], k, m);
    }
  }

  lemma {:induction false} CountsMakeUpAll(keys: seq<string>, m: multiset<string>)
    requires forall i, j :: 0 <= i < j < |keys| ==> keys[i] != keys[j]
    requires forall x :: x in m ==> x in keys
    ensures SumCounts(keys, m) == |m|
  {
    if keys == [] {
      assert m == multiset{};
    } else {
      var rest := m[keys[0] := 0];
      assert |m| == m[keys[0]] + |rest|;
      forall x | x in rest ensures x in keys[1..] {
        InTail(keys, x);
      }
      CountsMakeUpAll(keys[1..], rest);
      SumCountsWithout(keys[1..], keys[0], m);
    }
  }

  /** Sum, over the listed namespaces, of ceil(queries / 32). */
  function SumOfCeilings(keys: seq<string>, names: seq<string>): nat {
    if keys == [] then 0 else CeilDiv(multiset(names)[keys[0]], 32) + SumOfCeilings(keys[1..], names)
  }

  lemma {:induction false} RunsAreCeilings(keys: seq<string>, names: seq<string>)
    ensures SumCounts(keys, multiset(WorkerRuns(names))) == SumOfCeilings(keys, names)
  {
    if keys != [] {
      RunsPerNamespace(names, keys[0]);
      RunsAreCeilings(keys[1..], names);
    }
  }

  lemma {:induction false} RunsAreForQueries(names: seq<string>, due: seq<bool>, n: nat)
    requires n <= |names| == |due|
    ensures forall x :: x in RunsUpTo(names, due, n) ==> x in names
    decreases n
  {
    if n > 0 {
      RunsAreForQueries(names, due, n - 1);
    }
  }

  /** However queries interleave, the worker runs as often as the namespaces' own needs add up to. */
  lemma WorkerRunsTotal(names: seq<string>, keys: seq<string>)
    requires forall i, j :: 0 <= i < j < |keys| ==> keys[i] != keys[j]
    requires forall x :: x in names ==> x in keys
    ensures |WorkerRuns(names)| == SumOfCeilings(keys, names)
  {
    RunsAreForQueries(names, Due(names), |names|);
    CountsMakeUpAll(keys, multiset(WorkerRuns(names)));
    RunsAreCeilings(keys, names);
  }

  /** Another order of the same queries causes the same number of runs. */
  lemma InterleavingIrrelevant(names: seq<string>, reordered: seq<string>)
    requires multiset(names) == multiset(reordered)
    ensures multiset(WorkerRuns(names)) == multiset(WorkerRuns(reordered))
  {
    forall ns
      ensures multiset(WorkerRuns(names))[ns] == multiset(WorkerRuns(reordered))[ns]
    {
      RunsPerNamespace(names, ns);
      RunsPerNamespace(reordered, ns);
    }
  }

  lemma {:induction false} RunBetween(names: seq<string>, due: seq<bool>, ns: string, m: nat, n: nat) returns (i: nat)
    requires m <= n <= |names| == |due|
    requires RunCount(names, due, ns, m) < RunCount(names, due, ns, n)
    ensures m <= i < n && names[i] == ns && due[i]
    decreases n
  {
    if due[n - 1] && names[n - 1] == ns {
      i := n - 1;
    } else {
      i := RunBetween(names, due, ns, m, n - 1);
    }
  }

  /** No stretch holds 32 queries of a namespace without a run for it. */
  lemma NoLongGap(names: seq<string>, ns: string, m: nat, n: nat) returns (i: nat)
    requires m <= n <= |names|
    requires multiset(names[m..n])[ns] >= 32
    ensures m <= i < n && names[i] == ns && RunsAt(names, i)
  {
    RunsSoFar(names, ns, m);
    RunsSoFar(names, ns, n);
    SeenGrows(names, ns, m, n);
    SeenGrows(names, ns, n, |names|);
    assert Seen(names, ns, n) / INTERVAL >= Seen(names, ns, m) / INTERVAL + 1;
    i := RunBetween(names, Due(names), ns, m, n);
  }

  /** The last query of every namespace is followed by a run. */
  lemma LastQueryIsMaintained(names: seq<string>, i: nat)
    requires i < |names| && names[i] !in names[i + 1..]
    ensures RunsAt(names, i)
  {
    SeenGrows(names, names[i], i + 1, |names|);
    assert names[i] !in multiset(names[i + 1..]);
  }
}
