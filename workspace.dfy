/** The workspace lifecycle of datascrubber/__init__.py
    (ScrubWorkspaceInstance): choose security groups, restore the workspace
    instance from the source's snapshot on first use, wait for it to become
    available, apply the security groups and a fresh master password, wait
    for the change to settle, and finally delete the instance, with or
    without a final snapshot. */
module Workspace {
  import opened Wrappers
  import opened Cloud
  import opened Finder
  import opened WorkspaceIds

  /** The `security_groups` argument: a string, a list, or anything else
      (None by default). */
  datatype SecurityGroupsArg = GroupId(id: string) | GroupIds(ids: seq<string>) | Unset

  /** The ids of the groups whose status is 'active', in source order. */
  function ActiveGroupIds(groups: seq<SecurityGroupMembership>): (ids: seq<string>)
    ensures |ids| <= |groups|
    ensures forall x :: x in ids <==> exists g :: g in groups && g.status == "active" && g.id == x
  {
    if |groups| == 0 then []
    else
      var rest := ActiveGroupIds(groups[1..]);
      assert forall g :: g in groups[1..] ==> g in groups;
      assert forall g :: g in groups ==> g == groups[0] || g in groups[1..];
      if groups[0].status == "active" then [groups[0].id] + rest else rest
  }

  /** The filter keeps source order: it distributes over concatenation. */
  lemma {:induction false} ActiveGroupIdsAppend(a: seq<SecurityGroupMembership>, b: seq<SecurityGroupMembership>)
    ensures ActiveGroupIds(a + b) == ActiveGroupIds(a) + ActiveGroupIds(b)
    decreases |a|
  {
    if |a| > 0 {
      assert (a + b)[1..] == a[1..] + b;
      ActiveGroupIdsAppend(a[1..], b);
    } else {
      assert a + b == b;
    }
  }

  /** The constructor's choice of security groups
      (datascrubber/__init__.py:22-33). */
  function SelectSecurityGroups(arg: SecurityGroupsArg, source: DbInstance): (r: seq<string>)
    ensures arg.GroupId? ==> r == [arg.id]
    ensures arg.GroupIds? ==> r == arg.ids
    ensures arg.Unset? ==> forall x :: x in r <==>
      exists g :: g in source.securityGroups && g.status == "active" && g.id == x
  {
    match arg
    case GroupId(id) => [id]
    case GroupIds(ids) => ids
    case Unset => ActiveGroupIds(source.securityGroups)
  }

  /** The state of a polling loop after `n` rounds that did not succeed,
      started with log `log0`, counters `p0` and `s0` and clock `t0`: one
      describe and one sleep per round, and the loop condition held before
      each sleep. */
  ghost predicate PollingState(id: string, maxEndTime: int, delays: nat -> nat, n: nat,
                               log0: seq<Event>, p0: nat, s0: nat, t0: int,
                               log: seq<Event>, pollCount: nat, sleepCount: nat, now: int)
  {
    sleepCount == s0 + n && pollCount == p0 + n &&
    log == log0 + PollRounds(id, PollInterval, n) &&
    (n > 0 ==> now - PollInterval - delays(sleepCount - 1) <= maxEndTime && t0 <= maxEndTime) &&
    (n == 0 ==> now == t0) &&
    now >= t0
  }

  /** A describe and a sleep taken while the loop condition held make one
      more round. */
  lemma PollingStep(id: string, maxEndTime: int, delays: nat -> nat, n: nat,
                    log0: seq<Event>, p0: nat, s0: nat, t0: int,
                    log: seq<Event>, pollCount: nat, sleepCount: nat, now: int)
    requires PollingState(id, maxEndTime, delays, n, log0, p0, s0, t0, log, pollCount, sleepCount, now)
    requires now <= maxEndTime
    ensures PollingState(id, maxEndTime, delays, n + 1, log0, p0, s0, t0,
                         log + [DescribeInstances(Some(id)), Sleep(PollInterval)], pollCount + 1, sleepCount + 1,
                         now + PollInterval + delays(sleepCount))
  {
    PollRoundsNext(id, PollInterval, n);
    assert log0 + PollRounds(id, PollInterval, n) + [DescribeInstances(Some(id)), Sleep(PollInterval)] ==
      log0 + (PollRounds(id, PollInterval, n) + [DescribeInstances(Some(id)), Sleep(PollInterval)]);
  }

  /** What a polling loop waits for: the instance reporting 'available',
      or no modifications left pending. */
  datatype Goal = Available | ModificationsApplied

  predicate Reached(goal: Goal, instance: DbInstance) {
    match goal
    case Available => instance.status == "available"
    case ModificationsApplied => |instance.pendingModifiedValues| == 0
  }

  /** The tags the restore request carries. */
  const ScrubberTags: seq<(string, string)> := [("scrubber", "scrubber")]

  /** Seconds slept between two polls. */
  const PollInterval: nat := 10

  /** cleanup() of datascrubber/__init__.py:55-62 as written, for a call
      `cleanup(create_final_snapshot=...)` as datascrubber/cli.py makes it:
      the method takes no such keyword, so the call raises TypeError before
      its body runs; called without it on a created instance, it raises
      TypeError at `self.instance_identifier()` (a string is not callable).
      Either way no delete request is sent. */
  function CleanupAsWritten(instanceCreated: bool, passesFlag: bool): (r: Result<seq<Event>>)
    ensures r.Ok? ==> r.value == []
    ensures r.Ok? <==> !passesFlag && !instanceCreated
  {
    if passesFlag then Err(TypeError("cleanup() got an unexpected keyword argument 'create_final_snapshot'"))
    else if !instanceCreated then Ok([])
    else Err(TypeError("'str' object is not callable"))
  }

  /** The discrepancy: as written, a restored workspace is never deleted,
      whatever the outcome of the scrub. */
  lemma CleanupAsWrittenLeaks(created: bool)
    ensures CleanupAsWritten(created, true).Err?
    ensures CleanupAsWritten(true, false).Err?
  {
  }

  class ScrubWorkspaceInstance {
    const env: Env
    const finder: RdsSnapshotFinder
    /** Minutes each polling loop may wait. */
    const timeout: int
    const instanceIdentifier: string
    const password: string
    /** Name of the snapshot kept on a successful scrub; its format is not
        part of the modelled source. */
    const finalSnapshotIdentifier: string
    const sourceInstance: DbInstance
    const securityGroups: seq<string>
    var instance: Option<DbInstance>

    ghost predicate Valid() {
      finder.Valid() && finder.env == env
    }

    constructor (finder: RdsSnapshotFinder, timeout: int, sgArg: SecurityGroupsArg,
                 created: Timestamp, password: string, finalSnapshotIdentifier: string,
                 sourceInstance: DbInstance)
      requires finder.Valid() && ValidTimestamp(created)
      ensures Valid() && this.env == finder.env && this.finder == finder
      ensures this.timeout == timeout && this.password == password
      ensures instanceIdentifier == WorkspaceIdentifier(created)
      ensures this.finalSnapshotIdentifier == finalSnapshotIdentifier
      ensures this.sourceInstance == sourceInstance
      ensures securityGroups == SelectSecurityGroups(sgArg, sourceInstance)
      ensures instance == None
    {
      this.env, this.finder, this.timeout := finder.env, finder, timeout;
      this.instanceIdentifier := WorkspaceIdentifier(created);
      this.password, this.finalSnapshotIdentifier := password, finalSnapshotIdentifier;
      this.sourceInstance := sourceInstance;
      this.securityGroups := SelectSecurityGroups(sgArg, sourceInstance);
      instance := None;
    }

    /** __init__: the source instance is looked up (which may raise) before
        the security groups are chosen from it. The timestamp and the
        password stand for datetime.now() and random.getrandbits. */
    static method New(finder: RdsSnapshotFinder, timeout: int, sgArg: SecurityGroupsArg,
                      created: Timestamp, password: string, finalSnapshotIdentifier: string)
      returns (r: Result<ScrubWorkspaceInstance>)
      requires finder.Valid() && ValidTimestamp(created)
      modifies finder, finder.env`log
      ensures finder.Valid()
      ensures r.Err? ==> old(finder.SourceOutcome()).Err? && r.error == old(finder.SourceOutcome()).error
      ensures r.Err? ==> IsDiscoveryError(r.error)
      ensures r.Ok? ==> fresh(r.value) && r.value.Valid() && r.value.finder == finder
      ensures r.Ok? ==> r.value.env == finder.env && r.value.instance == None
      ensures r.Ok? ==> old(finder.SourceOutcome()).Ok? && r.value.sourceInstance == old(finder.SourceOutcome()).value
      ensures r.Ok? ==> r.value.securityGroups == SelectSecurityGroups(sgArg, r.value.sourceInstance)
      ensures r.Ok? ==> r.value.instanceIdentifier == WorkspaceIdentifier(created)
      ensures r.Ok? ==> r.value.timeout == timeout && r.value.password == password
      ensures r.Ok? ==> r.value.finalSnapshotIdentifier == finalSnapshotIdentifier
      ensures Extends(old(finder.env.log), finder.env.log)
      ensures AllLookups(Added(old(finder.env.log), finder.env.log))
    {
      var source := finder.GetSourceInstance();
      if source.Err? {
        return source.PropagateFailure();
      }
      var w := new ScrubWorkspaceInstance(finder, timeout, sgArg, created, password,
                                          finalSnapshotIdentifier, source.value);
      return Ok(w);
    }

    /** get_endpoint: the endpoint of the (possibly just created) instance;
        a record without one raises KeyError. */
    method GetEndpoint() returns (r: Result<Endpoint>)
      requires Valid()
      modifies this`instance, finder, env`log, env`now, env`pollCount, env`sleepCount
      ensures Valid()
      ensures r.Ok? ==> instance.Some? && instance.value.endpoint == Some(r.value)
      ensures old(instance).Some? ==>
        env.log == old(env.log) &&
        r == (if old(instance).value.endpoint.Some? then Ok(old(instance).value.endpoint.value)
              else Err(KeyError("Endpoint")))
      ensures Extends(old(env.log), env.log) && AllHarmless(Added(old(env.log), env.log))
      ensures timeout >= 0 && instance.None? ==> AllLookups(Added(old(env.log), env.log))
    {
      var i := GetInstance();
      if i.Err? {
        return i.PropagateFailure();
      }
      if i.value.endpoint.None? {
        return Err(KeyError("Endpoint"));
      }
      r := Ok(i.value.endpoint.value);
    }

    /** get_instance: the instance is restored and configured only while
        none is held; afterwards the held record is returned and nothing is
        sent to the control plane. */
    method GetInstance() returns (r: Result<DbInstance>)
      requires Valid()
      modifies this`instance, finder, env`log, env`now, env`pollCount, env`sleepCount
      ensures Valid()
      ensures old(instance).Some? ==>
        r == Ok(old(instance).value) && instance == old(instance) && env.log == old(env.log) &&
        env.now == old(env.now) && env.pollCount == old(env.pollCount)
      ensures old(instance).None? && r.Ok? ==>
        instance == Some(r.value) && r.value.status == "available"
      ensures r.Ok? ==> instance == Some(r.value)
      ensures Extends(old(env.log), env.log) && AllHarmless(Added(old(env.log), env.log))
      // a fresh instance was restored from the chosen snapshot and modified
      ensures old(instance).None? && r.Ok? ==>
        finder.snapshotIdentifier.Some? &&
        RestoreFromSnapshot(instanceIdentifier, finder.snapshotIdentifier.value,
                            sourceInstance.subnetGroupName, ScrubberTags) in Added(old(env.log), env.log) &&
        ModifyInstance(instanceIdentifier, securityGroups, password) in Added(old(env.log), env.log)
      ensures r.Err? ==> r.error.Timeout? || IsResolverError(r.error)
      ensures r.Err? && r.error.Timeout? ==> env.now > old(env.now) + 60 * timeout
      // with a deadline not already past, no record held means nothing was restored
      ensures timeout >= 0 && instance.None? ==> AllLookups(Added(old(env.log), env.log))
    {
      if instance.None? {
        var created := CreateInstance();
        if created.Err? {
          return created.PropagateFailure();
        }
        ghost var log1 := env.log;
        var applied := ApplyModifications();
        AddedConcat(old(env.log), log1, env.log);
        HarmlessAppend(Added(old(env.log), log1), Added(log1, env.log));
        assert Added(log1, env.log)[1] == ModifyInstance(instanceIdentifier, securityGroups, password);
        if applied.Err? {
          return applied.PropagateFailure();
        }
      }
      r := Ok(instance.value);
    }

    /** __create_instance: one restore request, then the polling loop.
        A failure to name the snapshot sends nothing. */
    method CreateInstance() returns (r: Result<DbInstance>)
      requires Valid() && instance.None?
      modifies this`instance, finder, env`log, env`now, env`pollCount, env`sleepCount
      ensures Valid()
      ensures Extends(old(env.log), env.log)
      ensures r.Ok? || r.error.Timeout? ==>
        finder.snapshotIdentifier.Some? &&
        exists i :: |old(env.log)| <= i < |env.log| &&
          env.log[i] == RestoreFromSnapshot(instanceIdentifier, finder.snapshotIdentifier.value,
                                            sourceInstance.subnetGroupName, ScrubberTags) &&
          AllLookups(env.log[|old(env.log)|..i]) && AllPolls(env.log[i + 1..], instanceIdentifier, PollInterval)
      ensures !(r.Ok? || r.error.Timeout?) ==>
        AllLookups(Added(old(env.log), env.log)) && instance.None? && env.pollCount == old(env.pollCount)
      ensures r.Ok? ==>
        instance == Some(r.value) && r.value.status == "available" &&
        env.pollCount > old(env.pollCount) && r.value == env.polls(env.pollCount - 1)
      ensures forall k :: old(env.pollCount) <= k < env.pollCount && (r.Err? || k < env.pollCount - 1) ==>
        env.polls(k).status != "available"
      ensures r.Err? && r.error.Timeout? ==>
        env.now > old(env.now) + 60 * timeout &&
        instance == (if env.pollCount > old(env.pollCount) then Some(env.polls(env.pollCount - 1)) else None)
      ensures r.Err? ==> r.error.Timeout? || IsResolverError(r.error)
      // a timeout leaves no record held only when the deadline was already past
      ensures r.Err? && r.error.Timeout? ==> (instance.None? <==> timeout < 0)
      ensures AllHarmless(Added(old(env.log), env.log))
      ensures r.Ok? ==>
        RestoreFromSnapshot(instanceIdentifier, finder.snapshotIdentifier.value,
                            sourceInstance.subnetGroupName, ScrubberTags) in Added(old(env.log), env.log)
      ensures env.now >= old(env.now)
    {
      var snapshot := finder.GetSnapshotIdentifier();
      if snapshot.Err? {
        LookupsAreHarmless(Added(old(env.log), env.log));
        return snapshot.PropagateFailure();
      }
      ghost var log1 := env.log;
      r := RestoreAndAwait(snapshot.value);
      assert env.log[..|log1|] == log1;
      assert env.log[|old(env.log)|..|log1|] == Added(old(env.log), log1);
      assert Added(old(env.log), env.log) == Added(old(env.log), log1) + [env.log[|log1|]] + env.log[|log1| + 1..];
      RestoreRunHarmless(Added(old(env.log), log1), env.log[|log1|], env.log[|log1| + 1..], instanceIdentifier);
    }

    /** The restore request of __create_instance, then its polling loop
        with the deadline start + 60 * timeout. */
    method RestoreAndAwait(snapshotIdentifier: string) returns (r: Result<DbInstance>)
      requires instance.None?
      modifies this`instance, env`log, env`now, env`pollCount, env`sleepCount
      ensures Extends(old(env.log), env.log) && |env.log| > |old(env.log)|
      ensures env.log[|old(env.log)|] ==
        RestoreFromSnapshot(instanceIdentifier, snapshotIdentifier, sourceInstance.subnetGroupName, ScrubberTags)
      ensures AllPolls(env.log[|old(env.log)| + 1..], instanceIdentifier, PollInterval)
      ensures r.Ok? ==>
        instance == Some(r.value) && r.value.status == "available" &&
        env.pollCount > old(env.pollCount) && r.value == env.polls(env.pollCount - 1)
      ensures forall k :: old(env.pollCount) <= k < env.pollCount && (r.Err? || k < env.pollCount - 1) ==>
        env.polls(k).status != "available"
      ensures r.Err? ==>
        r.error == Timeout(instanceIdentifier) && env.now > old(env.now) + 60 * timeout &&
        instance == (if env.pollCount > old(env.pollCount) then Some(env.polls(env.pollCount - 1)) else None)
      ensures r.Err? ==> (instance.None? <==> timeout < 0)
      ensures env.now >= old(env.now)
    {
      env.Record(RestoreFromSnapshot(instanceIdentifier, snapshotIdentifier, sourceInstance.subnetGroupName, ScrubberTags));
      ghost var log1, sleeps := env.log, env.sleepCount;
      r := AwaitAvailable(env.now + 60 * timeout);
      ghost var last := if r.Ok? then [DescribeInstances(Some(instanceIdentifier))] else [];
      ghost var tail := PollRounds(instanceIdentifier, PollInterval, env.sleepCount - sleeps) + last;
      PollRoundsArePolls(instanceIdentifier, PollInterval, env.sleepCount - sleeps, last);
      assert env.log == log1 + tail;
      assert env.log[|old(env.log)| + 1..] == tail;
    }

    /** Lookups, one restore, then polls: nothing destructive. */
    static lemma RestoreRunHarmless(lookups: seq<Event>, restore: Event, polls: seq<Event>, id: string)
      requires AllLookups(lookups) && restore.RestoreFromSnapshot? && AllPolls(polls, id, PollInterval)
      ensures AllHarmless(lookups + [restore] + polls)
    {
      LookupsAreHarmless(lookups);
      AllPollsAreLookups(polls, id, PollInterval);
      LookupsAreHarmless(polls);
      HarmlessAppend(lookups, [restore]);
      HarmlessAppend(lookups + [restore], polls);
    }

    /** The polling loop of __create_instance: each polled record replaces
        the held one, so after a timeout the last, unavailable, record
        stays held. */
    method AwaitAvailable(maxEndTime: int) returns (r: Result<DbInstance>)
      modifies this`instance, env`log, env`now, env`pollCount, env`sleepCount
      ensures env.sleepCount >= old(env.sleepCount)
      // describe, sleep, describe, sleep, ... and a final describe on success
      ensures env.log == old(env.log) + PollRounds(instanceIdentifier, PollInterval, env.sleepCount - old(env.sleepCount)) +
        (if r.Ok? then [DescribeInstances(Some(instanceIdentifier))] else [])
      ensures env.pollCount == old(env.pollCount) + (env.sleepCount - old(env.sleepCount)) + (if r.Ok? then 1 else 0)
      ensures r.Ok? ==> instance == Some(r.value) && r.value.status == "available"
      ensures r.Ok? ==> env.pollCount > old(env.pollCount) && r.value == env.polls(env.pollCount - 1)
      ensures forall k :: old(env.pollCount) <= k < env.pollCount && (r.Err? || k < env.pollCount - 1) ==>
        env.polls(k).status != "available"
      ensures r.Err? ==> r.error == Timeout(instanceIdentifier) && env.now > maxEndTime
      ensures r.Err? && env.pollCount > old(env.pollCount) ==> instance == Some(env.polls(env.pollCount - 1))
      ensures env.pollCount == old(env.pollCount) ==> instance == old(instance)
      // it gives up only at the first check past the deadline
      ensures r.Err? ==> (env.pollCount == old(env.pollCount) <==> old(env.now) > maxEndTime)
      ensures r.Err? && env.sleepCount > old(env.sleepCount) ==>
        env.now - PollInterval - env.delays(env.sleepCount - 1) <= maxEndTime
      ensures env.now >= old(env.now)
    {
      var last;
      r, last := PollUntil(maxEndTime, Available);
      if last.Some? {
        instance := last;
      }
    }

    /** The polling loop shared by __create_instance and
        __apply_instance_modifications: describe the instance, and sleep
        ten seconds after each record that has not reached `goal`, for as
        long as the clock has not passed `maxEndTime` when the loop
        condition is checked. `last` is the last record polled. */
    method PollUntil(maxEndTime: int, goal: Goal) returns (r: Result<DbInstance>, last: Option<DbInstance>)
      modifies env`log, env`now, env`pollCount, env`sleepCount
      ensures env.sleepCount >= old(env.sleepCount)
      ensures env.log == old(env.log) + PollRounds(instanceIdentifier, PollInterval, env.sleepCount - old(env.sleepCount)) +
        (if r.Ok? then [DescribeInstances(Some(instanceIdentifier))] else [])
      ensures env.pollCount == old(env.pollCount) + (env.sleepCount - old(env.sleepCount)) + (if r.Ok? then 1 else 0)
      ensures last == if env.pollCount > old(env.pollCount) then Some(env.polls(env.pollCount - 1)) else None
      ensures r.Ok? ==> last == Some(r.value) && Reached(goal, r.value)
      ensures forall k :: old(env.pollCount) <= k < env.pollCount && (r.Err? || k < env.pollCount - 1) ==>
        !Reached(goal, env.polls(k))
      ensures r.Err? ==> r.error == Timeout(instanceIdentifier) && env.now > maxEndTime
      ensures r.Err? ==> (env.pollCount == old(env.pollCount) <==> old(env.now) > maxEndTime)
      ensures r.Err? && env.sleepCount > old(env.sleepCount) ==>
        env.now - PollInterval - env.delays(env.sleepCount - 1) <= maxEndTime
      ensures env.now >= old(env.now)
    {
      ghost var n: nat := 0;
      last := None;
      while env.now <= maxEndTime
        invariant PollingState(instanceIdentifier, maxEndTime, env.delays, n,
                               old(env.log), old(env.pollCount), old(env.sleepCount), old(env.now),
                               env.log, env.pollCount, env.sleepCount, env.now)
        invariant forall k :: old(env.pollCount) <= k < env.pollCount ==> !Reached(goal, env.polls(k))
        invariant last == if n > 0 then Some(env.polls(env.pollCount - 1)) else None
        decreases maxEndTime - env.now
      {
        ghost var log, polls, sleeps, now := env.log, env.pollCount, env.sleepCount, env.now;
        var polled := PollRound(goal);
        last := Some(polled);
        if Reached(goal, polled) {
          return Ok(polled), last;
        }
        PollingStep(instanceIdentifier, maxEndTime, env.delays, n, old(env.log), old(env.pollCount),
                    old(env.sleepCount), old(env.now), log, polls, sleeps, now);
        n := n + 1;
      }
      assert PollRounds(instanceIdentifier, PollInterval, n) + [] == PollRounds(instanceIdentifier, PollInterval, n);
      return Err(Timeout(instanceIdentifier)), last;
    }

    /** One pass through a polling loop's body: describe the instance, and
        sleep ten seconds when the record has not reached `goal`. */
    method PollRound(goal: Goal) returns (polled: DbInstance)
      modifies env`log, env`now, env`pollCount, env`sleepCount
      ensures polled == env.polls(old(env.pollCount)) && env.pollCount == old(env.pollCount) + 1
      ensures Reached(goal, polled) ==>
        env.log == old(env.log) + [DescribeInstances(Some(instanceIdentifier))] &&
        env.sleepCount == old(env.sleepCount) && env.now == old(env.now)
      ensures !Reached(goal, polled) ==>
        env.log == old(env.log) + [DescribeInstances(Some(instanceIdentifier)), Sleep(PollInterval)] &&
        env.sleepCount == old(env.sleepCount) + 1 && env.now == old(env.now) + PollInterval + env.delays(old(env.sleepCount))
    {
      polled := env.PollInstance(instanceIdentifier);
      if !Reached(goal, polled) {
        env.Sleep(PollInterval);
      }
    }

    /** __apply_instance_modifications: log the change with the password
        masked, send the security groups and the password, then wait for
        the modifications to apply, with the deadline start + 60 * timeout.
        The held instance record is not refreshed. */
    method ApplyModifications() returns (r: Result<()>)
      requires Valid()
      modifies env`log, env`now, env`pollCount, env`sleepCount
      ensures env.sleepCount >= old(env.sleepCount)
      // the masked log line, the modify request, then describe, sleep, ...
      // and a final describe on success
      ensures env.log == old(env.log) +
        [LogModifications(securityGroups, "****"), ModifyInstance(instanceIdentifier, securityGroups, password)] +
        PollRounds(instanceIdentifier, PollInterval, env.sleepCount - old(env.sleepCount)) +
        (if r.Ok? then [DescribeInstances(Some(instanceIdentifier))] else [])
      ensures env.pollCount == old(env.pollCount) + (env.sleepCount - old(env.sleepCount)) + (if r.Ok? then 1 else 0)
      ensures Extends(old(env.log), env.log) && AllHarmless(Added(old(env.log), env.log))
      ensures r.Ok? ==>
        (env.pollCount > old(env.pollCount) && env.polls(env.pollCount - 1).pendingModifiedValues == [])
      ensures forall k :: old(env.pollCount) <= k < env.pollCount && (r.Err? || k < env.pollCount - 1) ==>
        env.polls(k).pendingModifiedValues != []
      ensures r.Err? ==> r.error == Timeout(instanceIdentifier) && env.now > old(env.now) + 60 * timeout
      // it gives up only at the first check past the deadline
      ensures r.Err? ==> (env.pollCount == old(env.pollCount) <==> timeout < 0)
      ensures r.Err? && env.sleepCount > old(env.sleepCount) ==>
        env.now - PollInterval - env.delays(env.sleepCount - 1) <= old(env.now) + 60 * timeout
      ensures env.now >= old(env.now)
    {
      env.Record(LogModifications(securityGroups, "****"));
      env.Record(ModifyInstance(instanceIdentifier, securityGroups, password));
      ghost var requests := [LogModifications(securityGroups, "****"), ModifyInstance(instanceIdentifier, securityGroups, password)];
      assert env.log == old(env.log) + requests;
      var polled, _ := PollUntil(env.now + 60 * timeout, ModificationsApplied);
      r := if polled.Ok? then Ok(()) else Err(polled.error);
      ghost var last := if r.Ok? then [DescribeInstances(Some(instanceIdentifier))] else [];
      ghost var n := env.sleepCount - old(env.sleepCount);
      assert env.log == old(env.log) + requests + PollRounds(instanceIdentifier, PollInterval, n) + last;
      ModifyRunFacts(old(env.log), requests, instanceIdentifier, n, last);
    }

    /** The log ApplyModifications leaves: the two requests at the head,
        then polls only, and nothing destructive. */
    static lemma ModifyRunFacts(pre: seq<Event>, requests: seq<Event>, id: string, n: nat, last: seq<Event>)
      requires |requests| == 2 && requests[0].LogModifications? && requests[1].ModifyInstance?
      requires last == [] || last == [DescribeInstances(Some(id))]
      ensures var log := pre + requests + PollRounds(id, PollInterval, n) + last;
        Extends(pre, log) && AllHarmless(Added(pre, log))
    {
      var tail := PollRounds(id, PollInterval, n) + last;
      var log := pre + requests + PollRounds(id, PollInterval, n) + last;
      assert log == pre + requests + tail;
      PollRoundsArePolls(id, PollInterval, n, last);
      AllPollsAreLookups(tail, id, PollInterval);
      LookupsAreHarmless(tail);
      assert Added(pre, log) == requests + tail;
      HarmlessAppend(requests, tail);
    }

    /** cleanup(create_final_snapshot) as datascrubber/cli.py calls it: the
        instance is deleted only if one was ever held, keeping a final
        snapshot exactly when asked to. */
    method Cleanup(createFinalSnapshot: bool)
      modifies env`log
      ensures env.log == old(env.log) +
        if instance.Some? then
          [DeleteInstance(instanceIdentifier, if createFinalSnapshot then Some(finalSnapshotIdentifier) else None)]
        else []
    {
      if instance.Some? {
        env.Record(DeleteInstance(instanceIdentifier,
                                  if createFinalSnapshot then Some(finalSnapshotIdentifier) else None));
      }
    }
  }
}
