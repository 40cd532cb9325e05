/** The earlier MySQL task manager of datascrubber/mysql/__init__.py: the
    same database discovery and viable tasks as the later one, but run_task
    answers None for a task it cannot run and otherwise hands back whatever
    the task body does, returning or raising. */
module LegacyMysqlTasks {
  import opened Wrappers
  import opened Cloud
  import opened DbNames
  import opened Workspace

  /** The tasks registered in scrub_functions. */
  const Catalogue: seq<string> := ["whitehall"]

  class MysqlScrubber {
    const env: Env
    const workspace: ScrubWorkspaceInstance
    const suffix: string
    var realnames: map<string, string>
    var viableTasks: Option<seq<string>>

    /** The workspace holds an instance with an endpoint (the constructor
        connected to it), and a memoised list of viable tasks is the one
        the database names determine. */
    ghost predicate Valid()
      reads this, workspace
    {
      workspace.Valid() && workspace.env == env &&
      workspace.instance.Some? && workspace.instance.value.endpoint.Some? &&
      (viableTasks.Some? ==> viableTasks.value == ViableTasks(Catalogue, realnames))
    }

    constructor (workspace: ScrubWorkspaceInstance, suffix: string)
      ensures this.env == workspace.env && this.workspace == workspace && this.suffix == suffix
      ensures realnames == map[] && viableTasks == None
    {
      this.env, this.workspace, this.suffix := workspace.env, workspace, suffix;
      realnames, viableTasks := map[], None;
    }

    /** __init__: the catalogue is fixed, then _discover_available_dbs
        connects to the 'information_schema' database (creating the workspace if
        need be, which may raise) and fills db_realnames. */
    static method New(workspace: ScrubWorkspaceInstance, suffix: string) returns (r: Result<MysqlScrubber>)
      requires workspace.Valid()
      modifies workspace`instance, workspace.finder, workspace.env`log, workspace.env`now,
               workspace.env`pollCount, workspace.env`sleepCount
      ensures workspace.Valid()
      ensures r.Ok? ==> fresh(r.value) && r.value.Valid() && r.value.workspace == workspace
      ensures r.Ok? ==> r.value.suffix == suffix && r.value.viableTasks == None
      ensures r.Ok? ==> r.value.realnames == RealnamesOf(workspace.env.databases, suffix)
      ensures r.Ok? ==>
        (|workspace.env.log| >= |old(workspace.env.log)| + 2 &&
         workspace.env.log[|workspace.env.log| - 2..] == [Connect("information_schema", false), ListDatabases])
      ensures Extends(old(workspace.env.log), workspace.env.log)
      ensures AllHarmless(Added(old(workspace.env.log), workspace.env.log))
      // with a deadline not already past, no workspace held means nothing was restored
      ensures workspace.timeout >= 0 && workspace.instance.None? ==>
        AllLookups(Added(old(workspace.env.log), workspace.env.log))
    {
      var p := new MysqlScrubber(workspace, suffix);
      var found := p.DiscoverAvailableDbs();
      if found.Err? {
        return found.PropagateFailure();
      }
      return Ok(p);
    }

    /** _get_connection: the workspace instance's endpoint is read (a
        record without one raises KeyError) and a connection to `dbname` is
        opened, without autocommit. */
    method GetConnection(dbname: string) returns (r: Result<()>)
      requires workspace.Valid() && workspace.env == env
      modifies workspace`instance, workspace.finder, env`log, env`now, env`pollCount, env`sleepCount
      ensures workspace.Valid()
      ensures r.Ok? ==> workspace.instance.Some? && workspace.instance.value.endpoint.Some?
      ensures r.Ok? ==> |env.log| > |old(env.log)| && env.log[|env.log| - 1] == Connect(dbname, false)
      ensures old(workspace.instance).Some? && old(workspace.instance).value.endpoint.Some? ==>
        r.Ok? && env.log == old(env.log) + [Connect(dbname, false)] && workspace.instance == old(workspace.instance)
      ensures Extends(old(env.log), env.log) && AllHarmless(Added(old(env.log), env.log))
      ensures workspace.timeout >= 0 && workspace.instance.None? ==> AllLookups(Added(old(env.log), env.log))
    {
      var i := workspace.GetInstance();
      if i.Err? {
        return i.PropagateFailure();
      }
      if i.value.endpoint.None? {
        return Err(KeyError("Endpoint"));
      }
      ghost var before := env.log;
      env.Record(Connect(dbname, false));
      AddedConcat(old(env.log), before, env.log);
      r := Ok(());
    }

    /** _discover_available_dbs. */
    method DiscoverAvailableDbs() returns (r: Result<()>)
      requires workspace.Valid() && workspace.env == env && realnames == map[] && viableTasks == None
      modifies this`realnames, workspace`instance, workspace.finder, env`log, env`now, env`pollCount, env`sleepCount
      ensures workspace.Valid()
      ensures r.Ok? ==> Valid() && realnames == RealnamesOf(env.databases, suffix)
      ensures r.Ok? ==>
        (|env.log| >= |old(env.log)| + 2 && env.log[|env.log| - 2..] == [Connect("information_schema", false), ListDatabases])
      ensures Extends(old(env.log), env.log) && AllHarmless(Added(old(env.log), env.log))
      ensures workspace.timeout >= 0 && workspace.instance.None? ==> AllLookups(Added(old(env.log), env.log))
    {
      var c := GetConnection("information_schema");
      if c.Err? {
        return c.PropagateFailure();
      }
      ghost var before := env.log;
      var dbs := env.QueryDatabases();
      AddedConcat(old(env.log), before, env.log);
      realnames := FillRealnames(dbs, suffix);
      r := Ok(());
    }

    /** get_viable_tasks: computed on the first call and memoised. */
    method GetViableTasks() returns (tasks: seq<string>)
      requires Valid()
      modifies this`viableTasks
      ensures Valid() && viableTasks == Some(tasks)
      ensures tasks == ViableTasks(Catalogue, realnames)
    {
      if viableTasks.None? {
        viableTasks := Some(ViableTasks(Catalogue, realnames));
      }
      tasks := viableTasks.value;
    }

    /** run_task: None for a task with no database, without connecting;
        otherwise the body runs on a connection to the real database name
        and its own outcome is the call's: a raise propagates, and nothing
        is committed, rolled back or closed. The body's return value is
        abstracted to `()`. */
    method RunTask(task: string) returns (r: Result<Option<()>>)
      requires Valid()
      modifies this`viableTasks, workspace`instance, workspace.finder, env`log, env`now,
               env`pollCount, env`sleepCount, env`bodyCount
      ensures Valid() && workspace.instance == old(workspace.instance)
      ensures task !in ViableTasks(Catalogue, realnames) ==>
        r == Ok(None) && env.log == old(env.log) && env.bodyCount == old(env.bodyCount)
      ensures task in ViableTasks(Catalogue, realnames) ==>
        task in realnames &&
        env.log == old(env.log) + [Connect(realnames[task], false), RunBody(task)] &&
        env.bodyCount == old(env.bodyCount) + 1 &&
        r == if env.bodyRaises(old(env.bodyCount)) then Err(TaskFailed(task)) else Ok(Some(()))
    {
      var viable := GetViableTasks();
      if task !in viable {
        return Ok(None);
      }
      var c := GetConnection(realnames[task]);
      // the workspace already holds an instance with an endpoint, so this connects
      assert c.Ok?;
      var raised := env.RunTaskBody(task);
      if raised {
        return Err(TaskFailed(task));
      }
      return Ok(Some(()));
    }
  }
}
