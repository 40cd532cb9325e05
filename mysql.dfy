/** The MySQL task manager of datascrubber/task_managers/mysql.py: it
    lists the workspace's databases once, knows which scrub tasks it can
    run, and runs one task per call in a transaction that is committed when
    the body succeeds and rolled back when it raises. */
module MysqlTasks {
  import opened Wrappers
  import opened Cloud
  import opened DbNames
  import opened Workspace

  /** The tasks registered in scrub_functions. */
  const Catalogue: seq<string> := ["whitehall"]

  class Mysql {
    const env: Env
    const workspace: ScrubWorkspaceInstance
    const suffix: string
    var realnames: map<string, string>
    var viableTasks: Option<seq<string>>

    /** The workspace holds an instance with an endpoint (the constructor
        connected to it), and a memoised list of viable tasks is the one
        the database names determine. */
    ghost predicate Valid()
      reads this, workspace
    {
      workspace.Valid() && workspace.env == env &&
      workspace.instance.Some? && workspace.instance.value.endpoint.Some? &&
      (viableTasks.Some? ==> viableTasks.value == ViableTasks(Catalogue, realnames))
    }

    constructor (workspace: ScrubWorkspaceInstance, suffix: string)
      ensures this.env == workspace.env && this.workspace == workspace && this.suffix == suffix
      ensures realnames == map[] && viableTasks == None
    {
      this.env, this.workspace, this.suffix := workspace.env, workspace, suffix;
      realnames, viableTasks := map[], None;
    }

    /** __init__: the catalogue is fixed, then _discover_available_dbs
        connects to the 'information_schema' database (creating the workspace if
        need be, which may raise) and fills db_realnames. */
    static method New(workspace: ScrubWorkspaceInstance, suffix: string) returns (r: Result<Mysql>)
      requires workspace.Valid()
      modifies workspace`instance, workspace.finder, workspace.env`log, workspace.env`now,
               workspace.env`pollCount, workspace.env`sleepCount
      ensures workspace.Valid()
      ensures r.Ok? ==> fresh(r.value) && r.value.Valid() && r.value.workspace == workspace
      ensures r.Ok? ==> r.value.suffix == suffix && r.value.viableTasks == None
      ensures r.Ok? ==> r.value.realnames == RealnamesOf(workspace.env.databases, suffix)
      ensures r.Ok? ==>
        (|workspace.env.log| >= |old(workspace.env.log)| + 2 &&
         workspace.env.log[|workspace.env.log| - 2..] == [Connect("information_schema", false), ListDatabases])
      ensures Extends(old(workspace.env.log), workspace.env.log)
      ensures AllHarmless(Added(old(workspace.env.log), workspace.env.log))
      // with a deadline not already past, no workspace held means nothing was restored
      ensures workspace.timeout >= 0 && workspace.instance.None? ==>
        AllLookups(Added(old(workspace.env.log), workspace.env.log))
    {
      var p := new Mysql(workspace, suffix);
      var found := p.DiscoverAvailableDbs();
      if found.Err? {
        return found.PropagateFailure();
      }
      return Ok(p);
    }

    /** _get_connection: the workspace instance's endpoint is read (a
        record without one raises KeyError) and a connection to `dbname` is
        opened, without autocommit. */
    method GetConnection(dbname: string) returns (r: Result<()>)
      requires workspace.Valid() && workspace.env == env
      modifies workspace`instance, workspace.finder, env`log, env`now, env`pollCount, env`sleepCount
      ensures workspace.Valid()
      ensures r.Ok? ==> workspace.instance.Some? && workspace.instance.value.endpoint.Some?
      ensures r.Ok? ==> |env.log| > |old(env.log)| && env.log[|env.log| - 1] == Connect(dbname, false)
      ensures old(workspace.instance).Some? && old(workspace.instance).value.endpoint.Some? ==>
        r.Ok? && env.log == old(env.log) + [Connect(dbname, false)] && workspace.instance == old(workspace.instance)
      ensures Extends(old(env.log), env.log) && AllHarmless(Added(old(env.log), env.log))
      ensures workspace.timeout >= 0 && workspace.instance.None? ==> AllLookups(Added(old(env.log), env.log))
    {
      var i := workspace.GetInstance();
      if i.Err? {
        return i.PropagateFailure();
      }
      if i.value.endpoint.None? {
        return Err(KeyError("Endpoint"));
      }
      ghost var before := env.log;
      env.Record(Connect(dbname, false));
      AddedConcat(old(env.log), before, env.log);
      r := Ok(());
    }

    /** _discover_available_dbs. */
    method DiscoverAvailableDbs() returns (r: Result<()>)
      requires workspace.Valid() && workspace.env == env && realnames == map[] && viableTasks == None
      modifies this`realnames, workspace`instance, workspace.finder, env`log, env`now, env`pollCount, env`sleepCount
      ensures workspace.Valid()
      ensures r.Ok? ==> Valid() && realnames == RealnamesOf(env.databases, suffix)
      ensures r.Ok? ==>
        (|env.log| >= |old(env.log)| + 2 && env.log[|env.log| - 2..] == [Connect("information_schema", false), ListDatabases])
      ensures Extends(old(env.log), env.log) && AllHarmless(Added(old(env.log), env.log))
      ensures workspace.timeout >= 0 && workspace.instance.None? ==> AllLookups(Added(old(env.log), env.log))
    {
      var c := GetConnection("information_schema");
      if c.Err? {
        return c.PropagateFailure();
      }
      ghost var before := env.log;
      var dbs := env.QueryDatabases();
      AddedConcat(old(env.log), before, env.log);
      realnames := FillRealnames(dbs, suffix);
      r := Ok(());
    }

    /** get_viable_tasks: computed on the first call and memoised. */
    method GetViableTasks() returns (tasks: seq<string>)
      requires Valid()
      modifies this`viableTasks
      ensures Valid() && viableTasks == Some(tasks)
      ensures tasks == ViableTasks(Catalogue, realnames)
    {
      if viableTasks.None? {
        viableTasks := Some(ViableTasks(Catalogue, realnames));
      }
      tasks := viableTasks.value;
    }

    /** run_task: a task with no database is refused without connecting;
        otherwise its body runs on a connection to the real database name.
        A body that returns is committed, one that raises is rolled back;
        either way the cursor and then the connection are closed. */
    method RunTask(task: string) returns (success: bool, error: Option<Error>)
      requires Valid()
      modifies this`viableTasks, workspace`instance, workspace.finder, env`log, env`now,
               env`pollCount, env`sleepCount, env`bodyCount
      ensures Valid() && workspace.instance == old(workspace.instance)
      ensures task !in ViableTasks(Catalogue, realnames) ==>
        !success && error == Some(NotViable(task)) &&
        env.log == old(env.log) && env.bodyCount == old(env.bodyCount)
      ensures task in ViableTasks(Catalogue, realnames) ==>
        task in realnames &&
        env.log == old(env.log) + [Connect(realnames[task], false), RunBody(task),
                                   if success then Commit else Rollback, CloseCursor, CloseConnection] &&
        env.bodyCount == old(env.bodyCount) + 1 &&
        success == !env.bodyRaises(old(env.bodyCount)) &&
        error == if success then None else Some(TaskFailed(task))
    {
      var viable := GetViableTasks();
      if task !in viable {
        return false, Some(NotViable(task));
      }
      var c := GetConnection(realnames[task]);
      // the workspace already holds an instance with an endpoint, so this connects
      assert c.Ok?;
      var raised := env.RunTaskBody(task);
      if raised {
        env.Record(Rollback);
        env.Record(CloseCursor);
        env.Record(CloseConnection);
        return false, Some(TaskFailed(task));
      }
      env.Record(Commit);
      env.Record(CloseCursor);
      env.Record(CloseConnection);
      return true, None;
    }
  }

  /** Exactly one of commit and rollback ends a run of a viable task. */
  lemma CommitOrRollback(log: seq<Event>, db: string, task: string, success: bool)
    requires log == [Connect(db, false), RunBody(task), if success then Commit else Rollback, CloseCursor, CloseConnection]
    ensures (Commit in log) != (Rollback in log)
    ensures Commit in log <==> success
    ensures log[|log| - 1] == CloseConnection
  {
    assert log[2] == if success then Commit else Rollback;
  }
}
