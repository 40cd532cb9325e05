/** The world outside one scrub worker: the RDS control plane, DNS, the
    database server and the wall clock. Each is an oracle: its answers are
    fixed in advance (as functions of the request, or of how many such
    requests came before), and every request is appended to a ghost log, so
    that properties of the scrubber are statements about that log. */
module Cloud {
  import opened Wrappers

  datatype Endpoint = Endpoint(address: string, port: int)

  /** One entry of an instance's VpcSecurityGroups. */
  datatype SecurityGroupMembership = SecurityGroupMembership(id: string, status: string)

  /** The fields of a describe_db_instances record that the scrubber reads. */
  datatype DbInstance = DbInstance(
    identifier: string,
    status: string,
    endpoint: Option<Endpoint>,
    subnetGroupName: string,
    securityGroups: seq<SecurityGroupMembership>,
    pendingModifiedValues: seq<string>,
    masterUsername: string)

  /** A describe_db_snapshots record; SnapshotCreateTime is absent while a
      snapshot is still being taken. */
  datatype Snapshot = Snapshot(identifier: string, createTime: Option<int>)

  /** A request the worker issued to the outside world. */
  datatype Event =
    | DescribeInstances(filter: Option<string>)
    | DescribeSnapshots(instanceIdentifier: string)
    | RestoreFromSnapshot(instanceIdentifier: string, snapshotIdentifier: string,
                          subnetGroup: string, tags: seq<(string, string)>)
    | LogModifications(securityGroups: seq<string>, shownPassword: string)
    | ModifyInstance(instanceIdentifier: string, securityGroups: seq<string>, password: string)
    | DeleteInstance(instanceIdentifier: string, finalSnapshot: Option<string>)
    | ModifySnapshotAttribute(snapshotIdentifier: string, attribute: string, values: seq<string>)
    | Resolve(hostname: string)
    | Sleep(seconds: int)
    | Connect(database: string, autocommit: bool)
    | ListDatabases
    | RunBody(task: string)
    | Commit
    | Rollback
    | CloseCursor
    | CloseConnection

  /** Requests that leave no lasting trace in the account: lookups, polls,
      sleeps, and database work. Restore, modify, delete and share are not. */
  predicate IsLookup(e: Event) {
    e.DescribeInstances? || e.DescribeSnapshots? || e.Resolve? || e.Sleep?
  }

  /** Neither a delete of an instance nor a change of a snapshot's
      permissions: nothing that can publish or destroy an artifact. */
  predicate IsHarmless(e: Event) {
    !e.DeleteInstance? && !e.ModifySnapshotAttribute?
  }

  ghost predicate AllLookups(es: seq<Event>) {
    forall i :: 0 <= i < |es| ==> IsLookup(es[i])
  }

  ghost predicate AllHarmless(es: seq<Event>) {
    forall i :: 0 <= i < |es| ==> IsHarmless(es[i])
  }

  /** `after` is `before` with some events appended. */
  ghost predicate Extends(before: seq<Event>, after: seq<Event>) {
    |before| <= |after| && after[..|before|] == before
  }

  /** The events appended to `before` to give `after`. */
  ghost function Added(before: seq<Event>, after: seq<Event>): seq<Event>
    requires Extends(before, after)
  {
    after[|before|..]
  }

  lemma AddedConcat(a: seq<Event>, b: seq<Event>, c: seq<Event>)
    requires Extends(a, b) && Extends(b, c)
    ensures Extends(a, c)
    ensures Added(a, c) == Added(a, b) + Added(b, c)
  {
    assert c[..|b|][..|a|] == c[..|a|];
  }

  /** Every event is a describe of instance `id` or a sleep of `interval`
      seconds; the order is stated by PollRounds. */
  ghost predicate AllPolls(es: seq<Event>, id: string, interval: int) {
    forall i :: 0 <= i < |es| ==> es[i] == DescribeInstances(Some(id)) || es[i] == Sleep(interval)
  }

  /** `n` rounds of a polling loop that did not succeed: a describe of
      instance `id`, then a sleep of `interval` seconds, `n` times over. */
  function PollRounds(id: string, interval: int, n: nat): (r: seq<Event>)
    ensures |r| == 2 * n
  {
    if n == 0 then [] else PollRounds(id, interval, n - 1) + [DescribeInstances(Some(id)), Sleep(interval)]
  }

  /** The rounds alternate: describes at even positions, sleeps at odd. */
  lemma {:induction false} PollRoundsAt(id: string, interval: int, n: nat, i: nat)
    requires i < 2 * n
    ensures PollRounds(id, interval, n)[i] == if i % 2 == 0 then DescribeInstances(Some(id)) else Sleep(interval)
  {
    if i < 2 * (n - 1) {
      PollRoundsAt(id, interval, n - 1, i);
      assert PollRounds(id, interval, n)[i] == PollRounds(id, interval, n - 1)[i];
    }
  }

  /** One more round appends a describe and a sleep. */
  lemma PollRoundsNext(id: string, interval: int, n: nat)
    ensures PollRounds(id, interval, n + 1) == PollRounds(id, interval, n) + [DescribeInstances(Some(id)), Sleep(interval)]
  {
  }

  /** Poll rounds, possibly followed by the describe that ended the loop,
      contain nothing but polls and sleeps. */
  lemma PollRoundsArePolls(id: string, interval: int, n: nat, last: seq<Event>)
    requires last == [] || last == [DescribeInstances(Some(id))]
    ensures AllPolls(PollRounds(id, interval, n) + last, id, interval)
  {
    var es := PollRounds(id, interval, n) + last;
    forall i | 0 <= i < |es| ensures es[i] == DescribeInstances(Some(id)) || es[i] == Sleep(interval) {
      if i < 2 * n {
        PollRoundsAt(id, interval, n, i);
        assert es[i] == PollRounds(id, interval, n)[i];
      }
    }
  }

  lemma AllPollsAreLookups(es: seq<Event>, id: string, interval: int)
    requires AllPolls(es, id, interval)
    ensures AllLookups(es)
  {
    forall i | 0 <= i < |es| ensures IsLookup(es[i]) {
    }
  }

  lemma LookupsAreHarmless(es: seq<Event>)
    requires AllLookups(es)
    ensures AllHarmless(es)
  {
    forall i | 0 <= i < |es| ensures IsHarmless(es[i]) {
      assert IsLookup(es[i]);
    }
  }

  lemma HarmlessAppend(a: seq<Event>, b: seq<Event>)
    requires AllHarmless(a) && AllHarmless(b)
    ensures AllHarmless(a + b)
  {
    forall i | 0 <= i < |a + b| ensures IsHarmless((a + b)[i]) {
      if i >= |a| {
        assert (a + b)[i] == b[i - |a|];
      }
    }
  }

  /** Only the events after a harmless prefix can publish or destroy. */
  lemma HarmlessPrefix(h: seq<Event>, f: seq<Event>)
    requires AllHarmless(h)
    ensures forall e :: e in h + f && !IsHarmless(e) ==> e in f
  {
  }

  /** The scrub tasks whose bodies ran, in order. */
  function TasksRun(es: seq<Event>): seq<string>
    decreases |es|
  {
    if |es| == 0 then []
    else if es[|es| - 1].RunBody? then TasksRun(es[..|es| - 1]) + [es[|es| - 1].task]
    else TasksRun(es[..|es| - 1])
  }

  lemma {:induction false} TasksRunAppend(a: seq<Event>, b: seq<Event>)
    ensures TasksRun(a + b) == TasksRun(a) + TasksRun(b)
    decreases |b|
  {
    if |b| > 0 {
      assert (a + b)[..|a + b| - 1] == a + b[..|b| - 1];
      TasksRunAppend(a, b[..|b| - 1]);
    } else {
      assert a + b == a;
    }
  }

  /** No event other than RunBody names a task. */
  lemma {:induction false} TasksRunNone(es: seq<Event>)
    requires forall e :: e in es ==> !e.RunBody?
    ensures TasksRun(es) == []
    decreases |es|
  {
    if |es| > 0 {
      assert es[|es| - 1] in es;
      TasksRunNone(es[..|es| - 1]);
    }
  }

  class Env {
    /** describe_db_instances(DBInstanceIdentifier=id) for a source instance. */
    const instancesById: string -> seq<DbInstance>
    /** describe_db_instances() with no filter. */
    const allInstances: seq<DbInstance>
    /** describe_db_snapshots(DBInstanceIdentifier=id). */
    const snapshotsOf: string -> seq<Snapshot>
    /** The canonical name (its labels, the last one empty) a hostname
        resolves to, or None for NXDOMAIN. */
    const canonicalNames: string -> Option<seq<string>>
    /** The k-th describe of the workspace instance answers polls(k). */
    const polls: nat -> DbInstance
    /** The k-th sleep overruns its request by delays(k) seconds. */
    const delays: nat -> nat
    /** The database names the server lists. */
    const databases: seq<string>
    /** Whether the k-th scrub task body raises. */
    const bodyRaises: nat -> bool
    /** Whether modify_db_snapshot_attribute raises. */
    const shareFails: bool

    var now: int
    var pollCount: nat
    var sleepCount: nat
    var bodyCount: nat
    ghost var log: seq<Event>

    constructor (instancesById: string -> seq<DbInstance>, allInstances: seq<DbInstance>,
                 snapshotsOf: string -> seq<Snapshot>, canonicalNames: string -> Option<seq<string>>,
                 polls: nat -> DbInstance, delays: nat -> nat, databases: seq<string>,
                 bodyRaises: nat -> bool, shareFails: bool, start: int)
      ensures this.instancesById == instancesById && this.allInstances == allInstances
      ensures this.snapshotsOf == snapshotsOf && this.canonicalNames == canonicalNames
      ensures this.polls == polls && this.delays == delays && this.databases == databases
      ensures this.bodyRaises == bodyRaises && this.shareFails == shareFails
      ensures now == start && pollCount == 0 && sleepCount == 0 && bodyCount == 0 && log == []
    {
      this.instancesById, this.allInstances := instancesById, allInstances;
      this.snapshotsOf, this.canonicalNames := snapshotsOf, canonicalNames;
      this.polls, this.delays, this.databases := polls, delays, databases;
      this.bodyRaises, this.shareFails := bodyRaises, shareFails;
      now, pollCount, sleepCount, bodyCount, log := start, 0, 0, 0, [];
    }

    /** The single request-and-record step every call below makes. */
    method Record(e: Event)
      modifies this`log
      ensures log == old(log) + [e]
    {
      log := log + [e];
    }

    method DescribeInstance(id: string) returns (r: seq<DbInstance>)
      modifies this`log
      ensures r == instancesById(id) && log == old(log) + [DescribeInstances(Some(id))]
    {
      Record(DescribeInstances(Some(id)));
      r := instancesById(id);
    }

    method DescribeAllInstances() returns (r: seq<DbInstance>)
      modifies this`log
      ensures r == allInstances && log == old(log) + [DescribeInstances(None)]
    {
      Record(DescribeInstances(None));
      r := allInstances;
    }

    /** describe_db_instances on the workspace, whose answer changes as
        the control plane makes progress. */
    method PollInstance(id: string) returns (r: DbInstance)
      modifies this`log, this`pollCount
      ensures r == polls(old(pollCount)) && pollCount == old(pollCount) + 1
      ensures log == old(log) + [DescribeInstances(Some(id))]
    {
      Record(DescribeInstances(Some(id)));
      r := polls(pollCount);
      pollCount := pollCount + 1;
    }

    method DescribeSnapshotsOf(id: string) returns (r: seq<Snapshot>)
      modifies this`log
      ensures r == snapshotsOf(id) && log == old(log) + [DescribeSnapshots(id)]
    {
      Record(DescribeSnapshots(id));
      r := snapshotsOf(id);
    }

    method ResolveName(hostname: string) returns (r: Option<seq<string>>)
      modifies this`log
      ensures r == canonicalNames(hostname) && log == old(log) + [Resolve(hostname)]
    {
      Record(Resolve(hostname));
      r := canonicalNames(hostname);
    }

    /** time.sleep: the clock moves on by at least the requested amount. */
    method Sleep(seconds: nat)
      modifies this`log, this`now, this`sleepCount
      ensures now == old(now) + seconds + delays(old(sleepCount))
      ensures sleepCount == old(sleepCount) + 1
      ensures log == old(log) + [Event.Sleep(seconds)]
    {
      Record(Event.Sleep(seconds));
      now := now + seconds + delays(sleepCount);
      sleepCount := sleepCount + 1;
    }

    /** The catalogue query of _discover_available_dbs on an open cursor. */
    method QueryDatabases() returns (r: seq<string>)
      modifies this`log
      ensures r == databases && log == old(log) + [ListDatabases]
    {
      Record(ListDatabases);
      r := databases;
    }

    /** Runs the next scrub task body on an open cursor; true if it raised. */
    method RunTaskBody(task: string) returns (raised: bool)
      modifies this`log, this`bodyCount
      ensures raised == bodyRaises(old(bodyCount)) && bodyCount == old(bodyCount) + 1
      ensures log == old(log) + [RunBody(task)]
    {
      Record(RunBody(task));
      raised := bodyRaises(bodyCount);
      bodyCount := bodyCount + 1;
    }

    /** modify_db_snapshot_attribute; false if the call raised. */
    method ShareSnapshot(id: string, accounts: seq<string>) returns (ok: bool)
      modifies this`log
      ensures ok == !shareFails
      ensures log == old(log) + [ModifySnapshotAttribute(id, "restore", accounts)]
    {
      Record(ModifySnapshotAttribute(id, "restore", accounts));
      ok := !shareFails;
    }
  }
}
