/** The scrub run of datascrubber/cli.py: `main` turns the command line's
    selectors into one worker per source, and `worker` resolves the source,
    builds the workspace, runs the viable scrub tasks fail-fast, deletes the
    workspace keeping a final snapshot only when every task succeeded, and
    shares that snapshot only then. */
module Cli {
  import opened Wrappers
  import opened Cloud
  import opened WorkspaceIds
  import opened DbNames
  import opened Finder
  import opened Workspace
  import MysqlTasks
  import PostgresqlTasks

  // ---------------------------------------------------------------------
  // The selector -> worker mapping of main()

  /** The parsed command line; an option not given is None. */
  datatype Args = Args(
    mysqlHosts: Option<seq<string>>, mysqlInstances: Option<seq<string>>, mysqlSnapshots: Option<seq<string>>,
    postgresqlHosts: Option<seq<string>>, postgresqlInstances: Option<seq<string>>,
    postgresqlSnapshots: Option<seq<string>>, shareWith: Option<seq<string>>)

  /** The keyword arguments of one worker thread. */
  datatype WorkerConfig = WorkerConfig(
    dbms: string, hostname: Option<string>, instance: Option<string>, snapshot: Option<string>,
    targetAccounts: Option<seq<string>>)

  /** How one engine's sources are named on the command line. */
  datatype Selector = BySnapshots(ids: seq<string>) | ByInstances(ids: seq<string>) | ByHosts(ids: seq<string>) | NoSelector

  /** The if/elif chain of one engine: snapshots, then instances, then
      hosts. */
  function EngineSelector(hosts: Option<seq<string>>, instances: Option<seq<string>>,
                          snapshots: Option<seq<string>>): (s: Selector)
    ensures snapshots.Some? ==> s == BySnapshots(snapshots.value)
    ensures snapshots.None? && instances.Some? ==> s == ByInstances(instances.value)
    ensures snapshots.None? && instances.None? && hosts.Some? ==> s == ByHosts(hosts.value)
    ensures s.NoSelector? <==> snapshots.None? && instances.None? && hosts.None?
  {
    if snapshots.Some? then BySnapshots(snapshots.value)
    else if instances.Some? then ByInstances(instances.value)
    else if hosts.Some? then ByHosts(hosts.value)
    else NoSelector
  }

  function ConfigFor(dbms: string, s: Selector, id: string, share: Option<seq<string>>): WorkerConfig {
    match s
    case BySnapshots(_) => WorkerConfig(dbms, None, None, Some(id), share)
    case ByInstances(_) => WorkerConfig(dbms, None, Some(id), None, share)
    case ByHosts(_) => WorkerConfig(dbms, Some(id), None, None, share)
    case NoSelector => WorkerConfig(dbms, None, None, None, share)
  }

  function Ids(s: Selector): seq<string> {
    if s.NoSelector? then [] else s.ids
  }

  /** One worker per element of the selected list, in list order. */
  function EngineConfigs(dbms: string, s: Selector, share: Option<seq<string>>): seq<WorkerConfig> {
    seq(|Ids(s)|, i requires 0 <= i < |Ids(s)| => ConfigFor(dbms, s, Ids(s)[i], share))
  }

  /** The workers main() starts: MySQL's, then Postgres'. */
  function PlannedWorkers(args: Args): seq<WorkerConfig> {
    EngineConfigs("mysql", EngineSelector(args.mysqlHosts, args.mysqlInstances, args.mysqlSnapshots), args.shareWith) +
    EngineConfigs("postgresql", EngineSelector(args.postgresqlHosts, args.postgresqlInstances,
                                                args.postgresqlSnapshots), args.shareWith)
  }

  /** One of main()'s `for` loops: a worker per listed source. */
  method AddWorkers(threads: seq<WorkerConfig>, dbms: string, s: Selector, share: Option<seq<string>>)
    returns (r: seq<WorkerConfig>)
    ensures r == threads + EngineConfigs(dbms, s, share)
  {
    r := threads;
    var ids := Ids(s);
    for i := 0 to |ids|
      invariant r == threads + EngineConfigs(dbms, s, share)[..i]
    {
      r := r + [ConfigFor(dbms, s, ids[i], share)];
    }
  }

  /** One engine's if/elif chain in main(). */
  method AddEngineWorkers(threads: seq<WorkerConfig>, dbms: string, hosts: Option<seq<string>>,
                          instances: Option<seq<string>>, snapshots: Option<seq<string>>,
                          share: Option<seq<string>>)
    returns (r: seq<WorkerConfig>)
    ensures r == threads + EngineConfigs(dbms, EngineSelector(hosts, instances, snapshots), share)
  {
    if snapshots.Some? {
      r := AddWorkers(threads, dbms, BySnapshots(snapshots.value), share);
    } else if instances.Some? {
      r := AddWorkers(threads, dbms, ByInstances(instances.value), share);
    } else if hosts.Some? {
      r := AddWorkers(threads, dbms, ByHosts(hosts.value), share);
    } else {
      r := threads;
    }
  }

  /** main() up to starting the threads. */
  method WorkerConfigs(args: Args) returns (threads: seq<WorkerConfig>)
    ensures threads == PlannedWorkers(args)
  {
    threads := AddEngineWorkers([], "mysql", args.mysqlHosts, args.mysqlInstances, args.mysqlSnapshots,
                                args.shareWith);
    threads := AddEngineWorkers(threads, "postgresql", args.postgresqlHosts, args.postgresqlInstances,
                                args.postgresqlSnapshots, args.shareWith);
  }

  /** Every planned worker names its source in exactly one way, is for a
      supported engine, and shares with the --share-with accounts. */
  lemma PlannedWorkersShape(args: Args, i: nat)
    requires i < |PlannedWorkers(args)|
    ensures PlannedWorkers(args)[i].dbms in {"mysql", "postgresql"}
    ensures PlannedWorkers(args)[i].targetAccounts == args.shareWith
    ensures (if PlannedWorkers(args)[i].hostname.Some? then 1 else 0) +
            (if PlannedWorkers(args)[i].instance.Some? then 1 else 0) +
            (if PlannedWorkers(args)[i].snapshot.Some? then 1 else 0) == 1
  {
  }

  /** There is one worker per element of each engine's selected list. */
  lemma PlannedWorkersCount(args: Args)
    ensures |PlannedWorkers(args)| ==
      |Ids(EngineSelector(args.mysqlHosts, args.mysqlInstances, args.mysqlSnapshots))| +
      |Ids(EngineSelector(args.postgresqlHosts, args.postgresqlInstances, args.postgresqlSnapshots))|
  {
  }

  /** Given snapshots, an engine's instances and hosts are ignored; given
      instances, its hosts are. */
  lemma SnapshotsSupersede(args: Args, instances: Option<seq<string>>, hosts: Option<seq<string>>)
    requires args.mysqlSnapshots.Some? && args.postgresqlSnapshots.Some?
    ensures PlannedWorkers(args.(mysqlInstances := instances, mysqlHosts := hosts,
                                 postgresqlInstances := instances, postgresqlHosts := hosts)) == PlannedWorkers(args)
  {
  }

  lemma InstancesSupersedeHosts(args: Args, hosts: Option<seq<string>>)
    requires args.mysqlInstances.Some? && args.postgresqlInstances.Some?
    ensures PlannedWorkers(args.(mysqlHosts := hosts, postgresqlHosts := hosts)) == PlannedWorkers(args)
  {
  }

  // ---------------------------------------------------------------------
  // The task managers behind one interface

  /** `task_manager` in worker(): a Mysql or a Postgresql. */
  datatype TaskManager = MysqlManager(mysql: MysqlTasks.Mysql) | PostgresqlManager(postgresql: PostgresqlTasks.Postgresql) {
    function Workspace(): ScrubWorkspaceInstance {
      if MysqlManager? then mysql.workspace else postgresql.workspace
    }

    function EnvOf(): Env {
      if MysqlManager? then mysql.env else postgresql.env
    }

    function Manager(): object {
      if MysqlManager? then mysql else postgresql
    }

    ghost predicate Valid()
      reads Manager(), Workspace()
    {
      if MysqlManager? then mysql.Valid() else postgresql.Valid()
    }

    /** The tasks get_viable_tasks answers. */
    ghost function Viable(): seq<string>
      reads Manager()
    {
      if MysqlManager? then ViableTasks(MysqlTasks.Catalogue, mysql.realnames)
      else ViableTasks(PostgresqlTasks.Catalogue, postgresql.realnames)
    }
  }

  method GetViableTasks(tm: TaskManager) returns (tasks: seq<string>)
    requires tm.Valid()
    modifies tm.Manager()
    ensures tm.Valid() && tasks == tm.Viable() && tm.Viable() == old(tm.Viable())
  {
    match tm
    case MysqlManager(m) => tasks := m.GetViableTasks();
    case PostgresqlManager(p) => tasks := p.GetViableTasks();
  }

  /** run_task, reduced to the first component of its answer: whether the
      task ran and its body returned. */
  method RunTask(tm: TaskManager, task: string) returns (success: bool)
    requires tm.Valid()
    modifies tm.Manager(), tm.Workspace(), tm.Workspace().finder, tm.EnvOf()
    ensures tm.Valid() && tm.Viable() == old(tm.Viable())
    ensures tm.Workspace().instance == old(tm.Workspace().instance)
    ensures task !in tm.Viable() ==> !success && tm.EnvOf().log == old(tm.EnvOf().log)
    ensures task in tm.Viable() ==>
      success == !tm.EnvOf().bodyRaises(old(tm.EnvOf().bodyCount)) &&
      tm.EnvOf().bodyCount == old(tm.EnvOf().bodyCount) + 1
    ensures Extends(old(tm.EnvOf().log), tm.EnvOf().log)
    ensures AllHarmless(Added(old(tm.EnvOf().log), tm.EnvOf().log))
    ensures TasksRun(Added(old(tm.EnvOf().log), tm.EnvOf().log)) == if task in tm.Viable() then [task] else []
  {
    match tm
    case MysqlManager(m) =>
      var error;
      success, error := m.RunTask(task);
      if task in tm.Viable() {
        var db := m.realnames[task];
        var last := if success then Commit else Rollback;
        assert Added(old(m.env.log), m.env.log) == [Connect(db, false), RunBody(task)] + [last, CloseCursor, CloseConnection];
        BodyThenOthers(Connect(db, false), task, [last, CloseCursor, CloseConnection]);
      }
    case PostgresqlManager(p) =>
      var error;
      success, error := p.RunTask(task);
      if task in tm.Viable() {
        var db := p.realnames[task];
        assert Added(old(p.env.log), p.env.log) == [Connect(db, true), RunBody(task)] + [];
        BodyThenOthers(Connect(db, true), task, []);
      }
  }

  /** A connection, one task body, then only bookkeeping: one task ran. */
  lemma BodyThenOthers(connect: Event, task: string, rest: seq<Event>)
    requires connect.Connect? && forall e :: e in rest ==> !e.RunBody?
    ensures TasksRun([connect, RunBody(task)] + rest) == [task]
  {
    TasksRunNone([connect]);
    TasksRunNone(rest);
    assert [connect, RunBody(task)][..1] == [connect];
    TasksRunAppend([connect, RunBody(task)], rest);
  }

  /** All viable tasks ran and none failed. */
  predicate AllSucceeded(viable: seq<string>, results: seq<bool>) {
    |results| == |viable| && false !in results
  }

  /** The state of the task loop after `results`, for a log `log` and a
      body counter `count`: the first |results| viable tasks ran, in order,
      each with the outcome its body had. */
  ghost predicate Progress(log: seq<Event>, count: nat, raises: nat -> bool, start: seq<Event>, base: nat,
                           viable: seq<string>, results: seq<bool>)
  {
    |results| <= |viable| && count == base + |results| &&
    (forall j :: 0 <= j < |results| ==> results[j] == !raises(base + j)) &&
    Extends(start, log) && AllHarmless(Added(start, log)) &&
    TasksRun(Added(start, log)) == viable[..|results|]
  }

  /** Running the next viable task keeps the loop's state. */
  lemma ProgressStep(before: seq<Event>, log: seq<Event>, count: nat, raises: nat -> bool, start: seq<Event>,
                     base: nat, viable: seq<string>, results: seq<bool>, success: bool)
    requires |results| < |viable| && Progress(before, count, raises, start, base, viable, results)
    requires Extends(before, log) && AllHarmless(Added(before, log))
    requires TasksRun(Added(before, log)) == [viable[|results|]] && success == !raises(count)
    ensures Progress(log, count + 1, raises, start, base, viable, results + [success])
  {
    AddedConcat(start, before, log);
    TasksRunAppend(Added(start, before), Added(before, log));
    assert viable[..|results| + 1] == viable[..|results|] + [viable[|results|]];
    var next := results + [success];
    forall j | 0 <= j < |next|
      ensures next[j] == !raises(base + j)
    {
      if j < |results| {
        assert next[j] == results[j];
      }
    }
  }

  /** One pass of the task loop: the next viable task runs. */
  method RunNext(tm: TaskManager, viable: seq<string>, results: seq<bool>, ghost start: seq<Event>, ghost base: nat)
    returns (success: bool)
    requires tm.Valid() && tm.Viable() == viable && |results| < |viable|
    requires Progress(tm.EnvOf().log, tm.EnvOf().bodyCount, tm.EnvOf().bodyRaises, start, base, viable, results)
    modifies tm.Manager(), tm.Workspace(), tm.Workspace().finder, tm.EnvOf()
    ensures tm.Valid() && tm.Viable() == viable
    ensures tm.Workspace().instance == old(tm.Workspace().instance)
    ensures success == !tm.EnvOf().bodyRaises(base + |results|)
    ensures Progress(tm.EnvOf().log, tm.EnvOf().bodyCount, tm.EnvOf().bodyRaises, start, base, viable,
                     results + [success])
  {
    var env := tm.EnvOf();
    ghost var before := env.log;
    var task := viable[|results|];
    assert task in tm.Viable();
    success := RunTask(tm, task);
    ProgressStep(before, env.log, old(env.bodyCount), env.bodyRaises, start, base, viable, results, success);
  }

  /** The outcome of a fail-fast task loop over `viable` whose bodies
      raise as `raises` says from call `base` on: the tasks ran in order,
      each result is whether its body returned, every result but the last
      is a success, and the loop stopped early only at a failure. */
  ghost predicate FailFast(viable: seq<string>, results: seq<bool>, raises: nat -> bool, base: nat) {
    |results| <= |viable| &&
    (forall j :: 0 <= j < |results| ==> results[j] == !raises(base + j)) &&
    (forall j :: 0 <= j < |results| - 1 ==> results[j]) &&
    (|results| < |viable| ==> |results| > 0 && !results[|results| - 1])
  }

  /** The task loop of worker() (cli.py:260-269): tasks run in order,
      and the loop stops at the first one that fails. */
  method RunTasks(tm: TaskManager) returns (viable: seq<string>, results: seq<bool>, success: bool)
    requires tm.Valid()
    modifies tm.Manager(), tm.Workspace(), tm.Workspace().finder, tm.EnvOf()
    ensures tm.Valid() && tm.Workspace().instance == old(tm.Workspace().instance)
    ensures viable == old(tm.Viable())
    ensures FailFast(viable, results, tm.EnvOf().bodyRaises, old(tm.EnvOf().bodyCount))
    ensures success <==> AllSucceeded(viable, results)
    ensures Extends(old(tm.EnvOf().log), tm.EnvOf().log)
    ensures AllHarmless(Added(old(tm.EnvOf().log), tm.EnvOf().log))
    ensures TasksRun(Added(old(tm.EnvOf().log), tm.EnvOf().log)) == viable[..|results|]
  {
    var env := tm.EnvOf();
    viable := GetViableTasks(tm);
    results, success := [], true;
    while |results| < |viable| && success
      invariant tm.Valid() && tm.Viable() == viable && tm.Workspace().instance == old(tm.Workspace().instance)
      invariant Progress(env.log, env.bodyCount, env.bodyRaises, old(env.log), old(env.bodyCount), viable, results)
      invariant success <==> false !in results
      invariant forall j :: 0 <= j < |results| - 1 ==> results[j]
      decreases |viable| - |results|
    {
      success := RunNext(tm, viable, results, old(env.log), old(env.bodyCount));
      results := results + [success];
    }
  }

  // ---------------------------------------------------------------------
  // worker()

  /** The workspace's default `timeout`, in minutes. */
  const DefaultTimeout := 90

  /** What one worker did: the viable tasks (empty if it never got that
      far), the outcome of each task it ran, the exception that ended its
      `try` block, whether the workspace object was built, and the
      `create_final_snapshot` flag of each cleanup call. */
  datatype WorkerReport = WorkerReport(
    viable: seq<string>, results: seq<bool>, raised: Option<Error>, workspaceBuilt: bool, cleanups: seq<bool>)

  /** The final snapshot is shared: the scrub succeeded and some account
      was named. */
  predicate Sharing(success: bool, accounts: Option<seq<string>>) {
    success && accounts.Some? && |accounts.value| >= 1
  }

  /** The events the tail of worker() sends: the delete, the share when
      there is one, and the handler's second delete when the share fails. */
  function FinishEvents(id: string, final: string, success: bool, accounts: Option<seq<string>>,
                        shareFails: bool): seq<Event>
  {
    [DeleteInstance(id, if success then Some(final) else None)] +
    (if Sharing(success, accounts) then [ModifySnapshotAttribute(final, "restore", accounts.value)] else []) +
    (if Sharing(success, accounts) && shareFails then [DeleteInstance(id, None)] else [])
  }

  /** The control-plane effects a worker may have: deleting its workspace,
      with or without the final snapshot, and sharing that snapshot. */
  predicate PermittedAction(e: Event, id: string, final: string, accounts: Option<seq<string>>) {
    e == DeleteInstance(id, None) || e == DeleteInstance(id, Some(final)) ||
    (accounts.Some? && e == ModifySnapshotAttribute(final, "restore", accounts.value))
  }

  /** The safety discipline of a worker's events: only permitted actions
      reach the control plane, the workspace is deleted with a final
      snapshot exactly when `kept`, and a snapshot is shared only when it
      was kept and accounts were named. */
  ghost predicate Disciplined(es: seq<Event>, id: string, final: string, accounts: Option<seq<string>>, kept: bool) {
    (forall e :: e in es && !IsHarmless(e) ==> PermittedAction(e, id, final, accounts)) &&
    (DeleteInstance(id, Some(final)) in es <==> kept) &&
    (forall e :: e in es && e.ModifySnapshotAttribute? ==> kept && Sharing(kept, accounts))
  }

  /** Events that delete and share nothing keep no snapshot. */
  lemma HarmlessDisciplined(es: seq<Event>, id: string, final: string, accounts: Option<seq<string>>)
    requires AllHarmless(es)
    ensures Disciplined(es, id, final, accounts, false)
  {
  }

  /** Harmless events followed by the tail of worker() keep the
      discipline, with the final snapshot kept exactly on success. */
  lemma {:induction false} FinishDisciplined(pre: seq<Event>, id: string, final: string, success: bool,
                                             accounts: Option<seq<string>>, shareFails: bool)
    requires AllHarmless(pre)
    ensures Disciplined(pre + FinishEvents(id, final, success, accounts, shareFails), id, final, accounts, success)
    ensures Sharing(success, accounts) ==>
      ModifySnapshotAttribute(final, "restore", accounts.value) in pre + FinishEvents(id, final, success, accounts, shareFails)
    ensures TasksRun(pre + FinishEvents(id, final, success, accounts, shareFails)) == TasksRun(pre)
  {
    var tail := FinishEvents(id, final, success, accounts, shareFails);
    HarmlessDisciplined(pre, id, final, accounts);
    HarmlessPrefix(pre, tail);
    TasksRunNone(tail);
    TasksRunAppend(pre, tail);
    assert tail[0] in pre + tail;
  }

  /** Harmless events followed by `tail`. */
  lemma HarmlessThenAppend(pre: seq<Event>, tail: seq<Event>)
    requires AllHarmless(pre)
    ensures HarmlessThen(pre + tail, tail)
  {
    assert (pre + tail)[..|pre|] == pre && (pre + tail)[|pre|..] == tail;
  }

  /** The handler's cleanup after harmless events keeps no snapshot. */
  lemma SetupFailureDisciplined(pre: seq<Event>, tail: seq<Event>, id: string, final: string,
                                accounts: Option<seq<string>>)
    requires AllHarmless(pre) && (tail == [] || tail == [DeleteInstance(id, None)])
    ensures Disciplined(pre + tail, id, final, accounts, false)
  {
    if tail == [] {
      assert pre + tail == pre;
      HarmlessDisciplined(pre, id, final, accounts);
    } else {
      FinishDisciplined(pre, id, final, false, accounts, false);
    }
  }

  /** Harmless events before a disciplined run change nothing. */
  lemma DisciplinedAfterHarmless(pre: seq<Event>, es: seq<Event>, id: string, final: string,
                                 accounts: Option<seq<string>>, kept: bool)
    requires AllHarmless(pre) && Disciplined(es, id, final, accounts, kept)
    ensures Disciplined(pre + es, id, final, accounts, kept)
  {
    HarmlessDisciplined(pre, id, final, accounts);
    HarmlessPrefix(pre, es);
  }

  /** Workspace `id` is restored somewhere in `es`. */
  ghost predicate Restored(es: seq<Event>, id: string) {
    exists i :: 0 <= i < |es| && es[i].RestoreFromSnapshot? && es[i].instanceIdentifier == id
  }

  /** `e` occurs in `es` with no restore of workspace `id` after it. */
  ghost predicate AfterEveryRestore(es: seq<Event>, id: string, e: Event) {
    exists i :: 0 <= i < |es| && es[i] == e && !Restored(es[i + 1..], id)
  }

  /** `es` is harmless events followed by exactly the events `tail`. */
  ghost predicate HarmlessThen(es: seq<Event>, tail: seq<Event>) {
    |tail| <= |es| && es[|es| - |tail|..] == tail && AllHarmless(es[..|es| - |tail|])
  }

  /** The cleanups of a worker whose workspace object was built: one,
      with the success flag, when nothing was raised; otherwise the last
      one keeps no final snapshot; and none keeps one unless every viable
      task succeeded. */
  predicate CleanupsFollowOutcome(report: WorkerReport) {
    (report.raised.None? ==> report.cleanups == [AllSucceeded(report.viable, report.results)]) &&
    (report.raised.Some? ==> |report.cleanups| > 0 && !report.cleanups[|report.cleanups| - 1]) &&
    (true in report.cleanups ==> AllSucceeded(report.viable, report.results))
  }

  /** No workspace is left behind: once workspace `id` is restored, it is
      deleted after every restore, with the flag of the first cleanup, and
      without a final snapshot once an exception was raised. */
  ghost predicate NoLeak(es: seq<Event>, id: string, final: string, report: WorkerReport) {
    Restored(es, id) ==>
      AfterEveryRestore(es, id, DeleteInstance(id, if true in report.cleanups then Some(final) else None)) &&
      (report.raised.Some? ==> AfterEveryRestore(es, id, DeleteInstance(id, None)))
  }

  /** Lookups restore nothing. */
  lemma LookupsRestoreNothing(es: seq<Event>, id: string)
    requires AllLookups(es)
    ensures !Restored(es, id)
  {
  }

  /** A restore in `pre + es` that is not in `pre` is in `es`. */
  lemma RestoredInSuffix(pre: seq<Event>, es: seq<Event>, id: string)
    requires !Restored(pre, id) && Restored(pre + es, id)
    ensures Restored(es, id)
  {
    var i :| 0 <= i < |pre + es| && (pre + es)[i].RestoreFromSnapshot? && (pre + es)[i].instanceIdentifier == id;
    assert es[i - |pre|] == (pre + es)[i];
  }

  /** Events in front do not change what follows every restore. */
  lemma AfterEveryRestoreShift(pre: seq<Event>, es: seq<Event>, id: string, e: Event)
    requires AfterEveryRestore(es, id, e)
    ensures AfterEveryRestore(pre + es, id, e)
  {
    var i :| 0 <= i < |es| && es[i] == e && !Restored(es[i + 1..], id);
    assert (pre + es)[|pre| + i + 1..] == es[i + 1..];
    assert (pre + es)[|pre| + i] == e;
  }

  /** A run that ends with the tail of worker() deletes its workspace
      after every restore, with the final snapshot exactly on success, and
      once more without one when the share fails. */
  lemma {:induction false} FinishDeletesLast(es: seq<Event>, id: string, final: string, success: bool,
                                             accounts: Option<seq<string>>, shareFails: bool)
    requires |FinishEvents(id, final, success, accounts, shareFails)| <= |es|
    requires es[|es| - |FinishEvents(id, final, success, accounts, shareFails)|..] ==
      FinishEvents(id, final, success, accounts, shareFails)
    ensures AfterEveryRestore(es, id, DeleteInstance(id, if success then Some(final) else None))
    ensures Sharing(success, accounts) && shareFails ==> AfterEveryRestore(es, id, DeleteInstance(id, None))
  {
    var tail := FinishEvents(id, final, success, accounts, shareFails);
    var k := |es| - |tail|;
    assert es[k] == tail[0];
    assert es[k + 1..] == tail[1..];
    if Sharing(success, accounts) && shareFails {
      assert es[|es| - 1] == tail[|tail| - 1] == DeleteInstance(id, None);
      assert es[|es| - 1 + 1..] == [];
    }
  }

  /** The tail of worker(): cleanup with the success flag, then sharing
      the final snapshot on success; a failed share is an exception, whose
      handler cleans up once more without a final snapshot. */
  method Finish(workspace: ScrubWorkspaceInstance, success: bool, targetAccounts: Option<seq<string>>)
    returns (raised: Option<Error>, cleanups: seq<bool>)
    requires workspace.instance.Some?
    modifies workspace.env`log
    ensures workspace.env.log == old(workspace.env.log) +
      FinishEvents(workspace.instanceIdentifier, workspace.finalSnapshotIdentifier, success, targetAccounts,
                   workspace.env.shareFails)
    ensures raised == if Sharing(success, targetAccounts) && workspace.env.shareFails
      then Some(ShareFailed(workspace.finalSnapshotIdentifier)) else None
    ensures cleanups == if raised.Some? then [success, false] else [success]
  {
    var env := workspace.env;
    workspace.Cleanup(success);
    cleanups := [success];
    raised := None;
    if success && targetAccounts.Some? && |targetAccounts.value| >= 1 {
      var ok := env.ShareSnapshot(workspace.finalSnapshotIdentifier, targetAccounts.value);
      if !ok {
        raised := Some(ShareFailed(workspace.finalSnapshotIdentifier));
        workspace.Cleanup(false);
        cleanups := cleanups + [false];
      }
    }
  }

  /** The part of worker() after the task manager exists: the task loop,
      the cleanup and the share. */
  method Scrub(tm: TaskManager, targetAccounts: Option<seq<string>>) returns (report: WorkerReport)
    requires tm.Valid()
    modifies tm.Manager(), tm.Workspace(), tm.Workspace().finder, tm.EnvOf()
    ensures report.workspaceBuilt && report.viable == old(tm.Viable())
    ensures FailFast(report.viable, report.results, tm.EnvOf().bodyRaises, old(tm.EnvOf().bodyCount))
    ensures Extends(old(tm.EnvOf().log), tm.EnvOf().log)
    ensures report.raised.None? ==> report.cleanups == [AllSucceeded(report.viable, report.results)]
    ensures report.raised.Some? ==>
      report.raised == Some(ShareFailed(tm.Workspace().finalSnapshotIdentifier)) && report.cleanups == [true, false]
    ensures true in report.cleanups <==> AllSucceeded(report.viable, report.results)
    ensures report.raised.Some? <==>
      Sharing(AllSucceeded(report.viable, report.results), targetAccounts) && tm.EnvOf().shareFails
    // the task loop's harmless events, then the cleanup and the share
    ensures HarmlessThen(Added(old(tm.EnvOf().log), tm.EnvOf().log),
                         FinishEvents(tm.Workspace().instanceIdentifier, tm.Workspace().finalSnapshotIdentifier,
                                      AllSucceeded(report.viable, report.results), targetAccounts,
                                      tm.EnvOf().shareFails))
    ensures Disciplined(Added(old(tm.EnvOf().log), tm.EnvOf().log), tm.Workspace().instanceIdentifier,
                        tm.Workspace().finalSnapshotIdentifier, targetAccounts, true in report.cleanups)
    ensures Sharing(true in report.cleanups, targetAccounts) ==>
      ModifySnapshotAttribute(tm.Workspace().finalSnapshotIdentifier, "restore", targetAccounts.value)
        in Added(old(tm.EnvOf().log), tm.EnvOf().log)
  {
    var env, workspace := tm.EnvOf(), tm.Workspace();
    var viable, results, success := RunTasks(tm);
    ghost var mid := env.log;
    var raised, cleanups := Finish(workspace, success, targetAccounts);
    report := WorkerReport(viable, results, raised, true, cleanups);
    assert (true in cleanups) == success;
    AddedConcat(old(env.log), mid, env.log);
    ghost var tail := FinishEvents(workspace.instanceIdentifier, workspace.finalSnapshotIdentifier, success,
                                   targetAccounts, env.shareFails);
    assert Added(old(env.log), env.log) == Added(old(env.log), mid) + tail;
    HarmlessThenAppend(Added(old(env.log), mid), tail);
    FinishDisciplined(Added(old(env.log), mid), workspace.instanceIdentifier, workspace.finalSnapshotIdentifier,
                      success, targetAccounts, env.shareFails);
  }

  /** The tasks a manager for engine `dbms` finds viable on a server that
      lists `databases`, with the default `_production` suffix. */
  function ViableFor(dbms: string, databases: seq<string>): seq<string> {
    ViableTasks(if dbms == "mysql" then MysqlTasks.Catalogue else PostgresqlTasks.Catalogue,
                RealnamesOf(databases, DefaultSuffix))
  }

  /** The task manager for the engine (cli.py:253-258); building it
      connects to the workspace, creating it if need be. */
  method StartManager(workspace: ScrubWorkspaceInstance, dbms: string) returns (r: Result<TaskManager>)
    requires workspace.Valid() && SupportedDbms(dbms)
    modifies workspace`instance, workspace.finder, workspace.env`log, workspace.env`now,
             workspace.env`pollCount, workspace.env`sleepCount
    ensures r.Ok? ==> r.value.Valid() && r.value.Workspace() == workspace && r.value.EnvOf() == workspace.env
    ensures r.Ok? ==> fresh(r.value.Manager()) && (r.value.MysqlManager? <==> dbms == "mysql")
    ensures r.Ok? ==> r.value.Viable() == ViableFor(dbms, workspace.env.databases)
    ensures Extends(old(workspace.env.log), workspace.env.log)
    ensures AllHarmless(Added(old(workspace.env.log), workspace.env.log))
    ensures r.Ok? ==> workspace.instance.Some?
    ensures workspace.timeout >= 0 && workspace.instance.None? ==>
      AllLookups(Added(old(workspace.env.log), workspace.env.log))
  {
    if dbms == "mysql" {
      var m := MysqlTasks.Mysql.New(workspace, DefaultSuffix);
      if m.Err? {
        return m.PropagateFailure();
      }
      r := Ok(MysqlManager(m.value));
    } else {
      // dbms == "postgresql"; any other engine raises at cli.py:257-258, which the finder already did
      var p := PostgresqlTasks.Postgresql.New(workspace, DefaultSuffix);
      if p.Err? {
        return p.PropagateFailure();
      }
      r := Ok(PostgresqlManager(p.value));
    }
  }

  /** The start of worker()'s `try` block: the finder, then the workspace
      object with its default timeout and security groups. */
  method BuildWorkspace(env: Env, config: WorkerConfig, created: Timestamp, password: string, finalSnapshot: string)
    returns (r: Result<ScrubWorkspaceInstance>)
    requires ValidTimestamp(created)
    modifies env`log
    ensures !SupportedDbms(config.dbms) ==> r == Err(UnsupportedDbms(config.dbms)) && env.log == old(env.log)
    ensures r.Ok? ==> fresh(r.value) && fresh(r.value.finder) && r.value.Valid() && r.value.env == env
    ensures r.Ok? ==> r.value.instance.None? && SupportedDbms(config.dbms)
    ensures r.Ok? ==> r.value.instanceIdentifier == WorkspaceIdentifier(created)
    ensures r.Ok? ==> r.value.finalSnapshotIdentifier == finalSnapshot && r.value.timeout == DefaultTimeout
    ensures Extends(old(env.log), env.log) && AllLookups(Added(old(env.log), env.log))
  {
    var f := RdsSnapshotFinder.New(env, config.dbms, config.hostname, config.instance, config.snapshot);
    if f.Err? {
      return f.PropagateFailure();
    }
    r := ScrubWorkspaceInstance.New(f.value, DefaultTimeout, Unset, created, password, finalSnapshot);
  }

  /** The rest of worker() once the workspace object exists: any exception
      from here on leads to a cleanup without a final snapshot. */
  method ScrubWorkspace(workspace: ScrubWorkspaceInstance, dbms: string, targetAccounts: Option<seq<string>>)
    returns (report: WorkerReport)
    requires workspace.Valid() && SupportedDbms(dbms)
    modifies workspace, workspace.finder, workspace.env
    ensures report.workspaceBuilt
    // every report but that of a failed setup lists the tasks the databases make viable
    ensures report.raised.None? || report.cleanups != [false] ==>
      report.viable == ViableFor(dbms, workspace.env.databases)
    ensures FailFast(report.viable, report.results, workspace.env.bodyRaises, old(workspace.env.bodyCount))
    ensures CleanupsFollowOutcome(report)
    ensures Extends(old(workspace.env.log), workspace.env.log)
    ensures Disciplined(Added(old(workspace.env.log), workspace.env.log), workspace.instanceIdentifier,
                        workspace.finalSnapshotIdentifier, targetAccounts, true in report.cleanups)
    ensures Sharing(true in report.cleanups, targetAccounts) ==>
      ModifySnapshotAttribute(workspace.finalSnapshotIdentifier, "restore", targetAccounts.value)
        in Added(old(workspace.env.log), workspace.env.log)
    ensures workspace.timeout >= 0 ==>
      NoLeak(Added(old(workspace.env.log), workspace.env.log), workspace.instanceIdentifier,
             workspace.finalSnapshotIdentifier, report)
  {
    var env := workspace.env;
    var t := StartManager(workspace, dbms);
    ghost var log1 := env.log;
    if t.Err? {
      report := CleanupAfterSetupFailure(workspace, t.error);
      AddedConcat(old(env.log), log1, env.log);
      SetupFailureDisciplined(Added(old(env.log), log1), Added(log1, env.log), workspace.instanceIdentifier,
                              workspace.finalSnapshotIdentifier, targetAccounts);
      SetupFailureNoLeak(workspace, Added(old(env.log), log1), Added(log1, env.log));
      return;
    }
    report := Scrub(t.value, targetAccounts);
    AddedConcat(old(env.log), log1, env.log);
    ScrubRunAfterSetup(Added(old(env.log), log1), Added(log1, env.log), workspace.instanceIdentifier,
                       workspace.finalSnapshotIdentifier, targetAccounts, env.shareFails, report);
  }

  /** Setup's harmless events, then a run of Scrub: the run's discipline,
      its share and its final deletes carry over to the whole log. */
  lemma ScrubRunAfterSetup(pre: seq<Event>, es: seq<Event>, id: string, final: string,
                           accounts: Option<seq<string>>, shareFails: bool, report: WorkerReport)
    requires AllHarmless(pre)
    requires HarmlessThen(es, FinishEvents(id, final, AllSucceeded(report.viable, report.results), accounts, shareFails))
    requires Disciplined(es, id, final, accounts, true in report.cleanups)
    requires Sharing(true in report.cleanups, accounts) ==> ModifySnapshotAttribute(final, "restore", accounts.value) in es
    requires (true in report.cleanups) == AllSucceeded(report.viable, report.results)
    requires report.raised.Some? <==> Sharing(AllSucceeded(report.viable, report.results), accounts) && shareFails
    ensures Disciplined(pre + es, id, final, accounts, true in report.cleanups)
    ensures Sharing(true in report.cleanups, accounts) ==>
      ModifySnapshotAttribute(final, "restore", accounts.value) in pre + es
    ensures NoLeak(pre + es, id, final, report)
  {
    var success := AllSucceeded(report.viable, report.results);
    DisciplinedAfterHarmless(pre, es, id, final, accounts, success);
    FinishDeletesLast(es, id, final, success, accounts, shareFails);
    AfterEveryRestoreShift(pre, es, id, DeleteInstance(id, if success then Some(final) else None));
    if report.raised.Some? {
      AfterEveryRestoreShift(pre, es, id, DeleteInstance(id, None));
    }
  }

  /** After a failed setup, the handler's cleanup deletes a held workspace
      last; with no workspace held, only lookups ran, so none was restored. */
  lemma SetupFailureNoLeak(workspace: ScrubWorkspaceInstance, pre: seq<Event>, tail: seq<Event>)
    requires workspace.timeout >= 0 && workspace.instance.None? ==> AllLookups(pre)
    requires tail == if workspace.instance.Some? then [DeleteInstance(workspace.instanceIdentifier, None)] else []
    ensures Restored(pre + tail, workspace.instanceIdentifier) && workspace.timeout >= 0 ==>
      AfterEveryRestore(pre + tail, workspace.instanceIdentifier, DeleteInstance(workspace.instanceIdentifier, None))
  {
    var id := workspace.instanceIdentifier;
    if workspace.instance.Some? {
      assert (pre + tail)[|pre|] == DeleteInstance(id, None);
      assert (pre + tail)[|pre| + 1..] == [];
    } else if workspace.timeout >= 0 {
      assert pre + tail == pre;
      LookupsRestoreNothing(pre, id);
    }
  }

  /** worker() of cli.py:229-297, with the intended reading of line 262
      (the first component of run_task's answer is the success flag). The
      workspace's timestamp, password and final snapshot name are inputs. */
  method Worker(env: Env, config: WorkerConfig, created: Timestamp, password: string, finalSnapshot: string)
    returns (report: WorkerReport)
    requires ValidTimestamp(created)
    modifies env
    ensures Extends(old(env.log), env.log)
    // the task loop
    ensures FailFast(report.viable, report.results, env.bodyRaises, old(env.bodyCount))
    // an unsupported engine fails before anything is sent
    ensures !SupportedDbms(config.dbms) ==>
      report.raised == Some(UnsupportedDbms(config.dbms)) && !report.workspaceBuilt && env.log == old(env.log)
    // which cleanups run
    ensures !report.workspaceBuilt ==>
      report.raised.Some? && report.cleanups == [] && report.viable == [] &&
      AllLookups(Added(old(env.log), env.log))
    ensures report.workspaceBuilt ==> CleanupsFollowOutcome(report)
    ensures report.workspaceBuilt && (report.raised.None? || report.cleanups != [false]) ==>
      report.viable == ViableFor(config.dbms, env.databases)
    // what reaches the control plane
    ensures Disciplined(Added(old(env.log), env.log), WorkspaceIdentifier(created), finalSnapshot,
                        config.targetAccounts, true in report.cleanups)
    ensures Sharing(true in report.cleanups, config.targetAccounts) ==>
      ModifySnapshotAttribute(finalSnapshot, "restore", config.targetAccounts.value) in Added(old(env.log), env.log)
    ensures NoLeak(Added(old(env.log), env.log), WorkspaceIdentifier(created), finalSnapshot, report)
  {
    var w := BuildWorkspace(env, config, created, password, finalSnapshot);
    if w.Err? {
      LookupsAreHarmless(Added(old(env.log), env.log));
      LookupsRestoreNothing(Added(old(env.log), env.log), WorkspaceIdentifier(created));
      HarmlessDisciplined(Added(old(env.log), env.log), WorkspaceIdentifier(created), finalSnapshot,
                          config.targetAccounts);
      return WorkerReport([], [], Some(w.error), false, []);
    }
    ghost var log1 := env.log;
    report := ScrubWorkspace(w.value, config.dbms, config.targetAccounts);
    AddedConcat(old(env.log), log1, env.log);
    WorkspaceRunAfterLookups(Added(old(env.log), log1), Added(log1, env.log), WorkspaceIdentifier(created),
                             finalSnapshot, config.targetAccounts, report);
  }

  /** What a workspace's run promises about its requests survives the
      lookups that built the workspace. */
  lemma WorkspaceRunAfterLookups(pre: seq<Event>, es: seq<Event>, id: string, final: string,
                                 accounts: Option<seq<string>>, report: WorkerReport)
    requires AllLookups(pre)
    requires Disciplined(es, id, final, accounts, true in report.cleanups)
    requires Sharing(true in report.cleanups, accounts) ==> ModifySnapshotAttribute(final, "restore", accounts.value) in es
    requires NoLeak(es, id, final, report)
    ensures Disciplined(pre + es, id, final, accounts, true in report.cleanups)
    ensures Sharing(true in report.cleanups, accounts) ==>
      ModifySnapshotAttribute(final, "restore", accounts.value) in pre + es
    ensures NoLeak(pre + es, id, final, report)
  {
    LookupsAreHarmless(pre);
    DisciplinedAfterHarmless(pre, es, id, final, accounts, true in report.cleanups);
    LookupsRestoreNothing(pre, id);
    if Restored(pre + es, id) {
      RestoredInSuffix(pre, es, id);
      AfterEveryRestoreShift(pre, es, id, DeleteInstance(id, if true in report.cleanups then Some(final) else None));
      if report.raised.Some? {
        AfterEveryRestoreShift(pre, es, id, DeleteInstance(id, None));
      }
    }
  }

  /** The `except` branch when a task manager cannot be built: the
      workspace exists, so it is cleaned up without a final snapshot. */
  method CleanupAfterSetupFailure(workspace: ScrubWorkspaceInstance, error: Error) returns (report: WorkerReport)
    modifies workspace.env`log
    ensures report == WorkerReport([], [], Some(error), true, [false])
    ensures workspace.env.log == old(workspace.env.log) +
      if workspace.instance.Some? then [DeleteInstance(workspace.instanceIdentifier, None)] else []
  {
    workspace.Cleanup(false);
    report := WorkerReport([], [], Some(error), true, [false]);
  }

  // ---------------------------------------------------------------------
  // cli.py:262 as written

  /** The Python values the task loop handles. */
  datatype PyValue = PyBool(b: bool) | PyNone | PyStr(s: string) | PyTuple(items: seq<PyValue>)

  /** Python truthiness. */
  predicate Truthy(v: PyValue) {
    match v
    case PyBool(b) => b
    case PyNone => false
    case PyStr(s) => |s| > 0
    case PyTuple(items) => |items| > 0
  }

  /** What run_task of either task manager returns: `(success, error)`. */
  function RunTaskAnswer(success: bool, error: Option<string>): PyValue {
    PyTuple([PyBool(success), if error.Some? then PyStr(error.value) else PyNone])
  }

  /** The loop of cli.py:260-269 as written: `success` is bound to the whole
      answer, and the loop stops at the first answer that is not truthy.
      Gives how many tasks ran and whether `success` ends up truthy, which
      is the flag the cleanup receives. */
  function LoopAsWritten(answers: seq<PyValue>): (r: (nat, bool))
    ensures r.0 <= |answers|
  {
    if |answers| == 0 then (0, true)
    else if !Truthy(answers[0]) then (1, false)
    else var rest := LoopAsWritten(answers[1..]); (1 + rest.0, rest.1)
  }

  /** The discrepancy: whatever the tasks answer, as written every task
      runs and the cleanup is asked to keep a final snapshot, so a scrub
      whose tasks failed still yields a shareable snapshot. */
  lemma {:induction false} TupleGateIgnoresFailure(outcomes: seq<(bool, Option<string>)>)
    ensures var answers := seq(|outcomes|, i requires 0 <= i < |outcomes| => RunTaskAnswer(outcomes[i].0, outcomes[i].1));
      LoopAsWritten(answers) == (|outcomes|, true)
    decreases |outcomes|
  {
    var answers := seq(|outcomes|, i requires 0 <= i < |outcomes| => RunTaskAnswer(outcomes[i].0, outcomes[i].1));
    if |outcomes| > 0 {
      TupleGateIgnoresFailure(outcomes[1..]);
      var tail := seq(|outcomes[1..]|, i requires 0 <= i < |outcomes[1..]| => RunTaskAnswer(outcomes[1..][i].0, outcomes[1..][i].1));
      assert answers[1..] == tail;
      assert Truthy(answers[0]);
    }
  }

  /** A single failing task: as written the final snapshot is kept; with
      the first component as the flag (as Worker reads it) it is not. */
  lemma FailedTaskKeepsSnapshotAsWritten()
    ensures LoopAsWritten([RunTaskAnswer(false, Some("whitehall failed"))]) == (1, true)
    ensures !AllSucceeded(["whitehall"], [false])
  {
    assert Truthy(RunTaskAnswer(false, Some("whitehall failed")));
  }
}
