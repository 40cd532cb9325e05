/** The earlier workspace lifecycle of scrub_workspace_instance.py: the
    instance is restored lazily from the legacy resolver's snapshot, polled
    at most 120 times two seconds apart, and never configured; its cleanup
    raises on a created instance. */
module LegacyWorkspace {
  import opened Wrappers
  import opened Cloud
  import opened WorkspaceIds
  import opened LegacyFinder

  /** Describe calls the poll loop may make. */
  const MaxPolls: nat := 120

  /** Seconds slept after each unavailable answer. */
  const PollInterval: nat := 2

  class ScrubWorkspaceInstance {
    const env: Env
    const finder: RdsSnapshotFinder
    const instanceIdentifier: string
    const password: string
    const sourceInstance: DbInstance
    var instance: Option<DbInstance>

    ghost predicate Valid() {
      finder.Valid() && finder.env == env
    }

    constructor (finder: RdsSnapshotFinder, created: Timestamp, password: string, sourceInstance: DbInstance)
      requires finder.Valid() && ValidTimestamp(created)
      ensures Valid() && this.env == finder.env && this.finder == finder
      ensures instanceIdentifier == WorkspaceIdentifier(created) && this.password == password
      ensures this.sourceInstance == sourceInstance && instance == None
    {
      this.env, this.finder := finder.env, finder;
      this.instanceIdentifier := WorkspaceIdentifier(created);
      this.password, this.sourceInstance := password, sourceInstance;
      instance := None;
    }

    /** __init__: the identifier and password (from datetime.now() and
        random.getrandbits, here inputs) are set, then the source instance
        is looked up, which may raise. */
    static method New(finder: RdsSnapshotFinder, created: Timestamp, password: string)
      returns (r: Result<ScrubWorkspaceInstance>)
      requires finder.Valid() && ValidTimestamp(created)
      modifies finder, finder.env`log
      ensures finder.Valid()
      ensures r.Err? ==> old(finder.SourceOutcome()).Err? && r.error == old(finder.SourceOutcome()).error
      ensures r.Ok? ==> fresh(r.value) && r.value.Valid() && r.value.finder == finder
      ensures r.Ok? ==> r.value.env == finder.env && r.value.instance == None
      ensures r.Ok? ==> old(finder.SourceOutcome()).Ok? && r.value.sourceInstance == old(finder.SourceOutcome()).value
      ensures r.Ok? ==> r.value.instanceIdentifier == WorkspaceIdentifier(created) && r.value.password == password
      ensures Extends(old(finder.env.log), finder.env.log)
      ensures AllLookups(Added(old(finder.env.log), finder.env.log))
    {
      var source := finder.GetSourceInstance();
      if source.Err? {
        return source.PropagateFailure();
      }
      var w := new ScrubWorkspaceInstance(finder, created, password, source.value);
      return Ok(w);
    }

    /** get_endpoint: the Endpoint of the (possibly just created) instance;
        a record without one raises KeyError. */
    method GetEndpoint() returns (r: Result<Endpoint>)
      requires Valid()
      modifies this`instance, finder, env`log, env`now, env`pollCount, env`sleepCount
      ensures Valid()
      ensures r.Ok? ==> instance.Some? && instance.value.endpoint == Some(r.value)
      ensures r.Err? && instance.Some? && instance.value.status == "available" ==>
        r.error == KeyError("Endpoint") && instance.value.endpoint.None?
      ensures old(instance).Some? ==>
        env.log == old(env.log) &&
        r == (if old(instance).value.endpoint.Some? then Ok(old(instance).value.endpoint.value)
              else Err(KeyError("Endpoint")))
      ensures Extends(old(env.log), env.log)
    {
      var i := GetInstance();
      if i.Err? {
        return i.PropagateFailure();
      }
      if i.value.endpoint.None? {
        return Err(KeyError("Endpoint"));
      }
      r := Ok(i.value.endpoint.value);
    }

    /** get_instance: the instance is created only while none is held, and
        is never configured. */
    method GetInstance() returns (r: Result<DbInstance>)
      requires Valid()
      modifies this`instance, finder, env`log, env`now, env`pollCount, env`sleepCount
      ensures Valid()
      ensures old(instance).Some? ==>
        r == Ok(old(instance).value) && instance == old(instance) && env.log == old(env.log) &&
        env.pollCount == old(env.pollCount)
      ensures old(instance).None? && r.Ok? ==> r.value.status == "available"
      ensures r.Ok? ==> instance == Some(r.value)
      ensures r.Err? ==> instance.Some? ==> instance.value.status != "available"
      ensures Extends(old(env.log), env.log)
      ensures AllHarmless(Added(old(env.log), env.log))
    {
      if instance.None? {
        r := CreateInstance();
        return;
      }
      r := Ok(instance.value);
    }

    /** __create_instance: one restore request with the legacy resolver's
        snapshot and the source's subnet group, then the poll loop. */
    method CreateInstance() returns (r: Result<DbInstance>)
      requires Valid() && instance.None?
      modifies this`instance, finder, env`log, env`now, env`pollCount, env`sleepCount
      ensures Valid()
      ensures Extends(old(env.log), env.log)
      ensures r.Ok? || r.error.StillUnavailable? ==>
        finder.snapshotIdentifier.Some? &&
        exists i :: |old(env.log)| <= i < |env.log| &&
          env.log[i] == RestoreFromSnapshot(instanceIdentifier, finder.snapshotIdentifier.value,
                                            sourceInstance.subnetGroupName, []) &&
          AllLookups(env.log[|old(env.log)|..i]) && AllPolls(env.log[i + 1..], instanceIdentifier, PollInterval)
      ensures r.Err? ==> r.error.StillUnavailable? || IsLegacyResolverError(r.error)
      ensures !(r.Ok? || r.error.StillUnavailable?) ==>
        AllLookups(Added(old(env.log), env.log)) && instance.None? && env.pollCount == old(env.pollCount)
      ensures r.Ok? ==>
        instance == Some(r.value) && r.value.status == "available" &&
        old(env.pollCount) < env.pollCount <= old(env.pollCount) + MaxPolls &&
        r.value == env.polls(env.pollCount - 1)
      ensures forall k :: old(env.pollCount) <= k < env.pollCount && (r.Err? || k < env.pollCount - 1) ==>
        env.polls(k).status != "available"
      ensures r.Err? && r.error.StillUnavailable? ==>
        env.pollCount == old(env.pollCount) + MaxPolls &&
        instance == Some(env.polls(env.pollCount - 1)) &&
        r.error.lastStatus == env.polls(env.pollCount - 1).status
    {
      var snapshot := finder.GetSnapshotIdentifier();
      if snapshot.Err? {
        return snapshot.PropagateFailure();
      }
      ghost var log1 := env.log;
      env.Record(RestoreFromSnapshot(instanceIdentifier, snapshot.value, sourceInstance.subnetGroupName, []));
      ghost var log2 := env.log;
      r := PollUntilAvailable();
      assert env.log[..|log1|] == log1 && env.log[..|log2|] == log2;
      assert env.log[|log1| + 1..] == Added(log2, env.log);
      assert env.log[|old(env.log)|..|log1|] == Added(old(env.log), log1);
    }

    /** A log that grew by poll rounds, and perhaps the describe that
        ended them, grew by polls and sleeps only. */
    static lemma PollRunFacts(log0: seq<Event>, log: seq<Event>, id: string, n: nat, last: seq<Event>)
      requires last == [] || last == [DescribeInstances(Some(id))]
      requires log == log0 + PollRounds(id, PollInterval, n) + last
      ensures Extends(log0, log) && AllPolls(Added(log0, log), id, PollInterval)
    {
      PollRoundsArePolls(id, PollInterval, n, last);
      assert Added(log0, log) == PollRounds(id, PollInterval, n) + last;
    }

    /** The `for i in range(120)` loop: each answer replaces the held
        record; the first 'available' one ends the loop, every other one is
        followed by a 2-second sleep, and after 120 unavailable answers the
        last status is reported. */
    method PollUntilAvailable() returns (r: Result<DbInstance>)
      modifies this`instance, env`log, env`now, env`pollCount, env`sleepCount
      ensures Extends(old(env.log), env.log)
      ensures AllPolls(Added(old(env.log), env.log), instanceIdentifier, PollInterval)
      // the requests, one by one
      ensures r.Ok? ==>
        env.pollCount > old(env.pollCount) &&
        env.log == old(env.log) + PollRounds(instanceIdentifier, PollInterval, env.pollCount - old(env.pollCount) - 1) +
                   [DescribeInstances(Some(instanceIdentifier))]
      ensures r.Err? ==> env.log == old(env.log) + PollRounds(instanceIdentifier, PollInterval, MaxPolls)
      ensures r.Ok? ==>
        instance == Some(r.value) && r.value.status == "available" &&
        old(env.pollCount) < env.pollCount <= old(env.pollCount) + MaxPolls &&
        r.value == env.polls(env.pollCount - 1)
      ensures forall k :: old(env.pollCount) <= k < env.pollCount && (r.Err? || k < env.pollCount - 1) ==>
        env.polls(k).status != "available"
      ensures r.Err? ==>
        env.pollCount == old(env.pollCount) + MaxPolls &&
        instance == Some(env.polls(env.pollCount - 1)) &&
        r == Err(StillUnavailable(env.polls(env.pollCount - 1).status))
    {
      for n := 0 to MaxPolls
        invariant env.log == old(env.log) + PollRounds(instanceIdentifier, PollInterval, n)
        invariant env.pollCount == old(env.pollCount) + n
        invariant forall k :: old(env.pollCount) <= k < env.pollCount ==> env.polls(k).status != "available"
        invariant instance == if n > 0 then Some(env.polls(env.pollCount - 1)) else old(instance)
      {
        var polled := env.PollInstance(instanceIdentifier);
        instance := Some(polled);
        if polled.status == "available" {
          PollRunFacts(old(env.log), env.log, instanceIdentifier, n, [DescribeInstances(Some(instanceIdentifier))]);
          return Ok(polled);
        }
        env.Sleep(PollInterval);
        PollRoundsNext(instanceIdentifier, PollInterval, n);
      }
      PollRunFacts(old(env.log), env.log, instanceIdentifier, MaxPolls, []);
      return Err(StillUnavailable(instance.value.status));
    }

    /** cleanup(): nothing happens while no instance is held; with one held,
        `self.instance_identifier()` calls a string and raises TypeError
        before any delete request is sent. */
    method Cleanup() returns (r: Result<()>)
      ensures r.Err? <==> instance.Some?
      ensures r.Err? ==> r.error.TypeError?
      ensures unchanged(env)
    {
      if instance.Some? {
        return Err(TypeError("'str' object is not callable"));
      }
      return Ok(());
    }
  }
}
