/** The earlier source resolver of snapshot_finder.py. It differs from the
    later one in two places: an instance record without an Endpoint makes
    the search raise KeyError (it is not skipped), and a snapshot without a
    SnapshotCreateTime makes the choice raise KeyError. Hostname defaults,
    the DNS domain check and the memoisation are those of Finder. */
module LegacyFinder {
  import opened Wrappers
  import opened Cloud
  import opened DnsNames
  import opened SnapshotChoice
  import opened Finder

  /** The for/break search of snapshot_finder.py:55-59:
      `instance['Endpoint']['Address']` is read before the address is
      asked for, so a record without an endpoint raises first. */
  function DiscoverLegacy(instances: seq<DbInstance>, address: Result<string>): (r: Result<DbInstance>)
    ensures r.Ok? ==> address.Ok? && r.value in instances && AtAddress(r.value, address.value)
    decreases |instances|
  {
    if |instances| == 0 then Err(InstanceNotFound)
    else if !HasEndpoint(instances[0]) then Err(KeyError("Endpoint"))
    else if address.Err? then Err(address.error)
    else if AtAddress(instances[0], address.value) then Ok(instances[0])
    else DiscoverLegacy(instances[1..], address)
  }

  /** Where every instance has an endpoint, the earlier search agrees with
      the later one; a record without an endpoint before any match makes
      only the earlier one fail. */
  lemma {:induction false} DiscoverLegacyAgrees(instances: seq<DbInstance>, address: Result<string>)
    requires forall i :: 0 <= i < |instances| ==> HasEndpoint(instances[i])
    ensures DiscoverLegacy(instances, address) == Discover(instances, address)
    decreases |instances|
  {
    if |instances| > 0 {
      DiscoverLegacyAgrees(instances[1..], address);
    }
  }

  /** The errors of the earlier resolver: those of the later one, and the
      KeyError of a record without an Endpoint or a snapshot without a
      creation time. */
  predicate IsLegacyResolverError(e: Error) {
    IsResolverError(e) || e.KeyError?
  }

  lemma {:induction false} DiscoverLegacyErrors(instances: seq<DbInstance>, address: Result<string>)
    ensures DiscoverLegacy(instances, address).Err? ==>
      DiscoverLegacy(instances, address).error in {InstanceNotFound, KeyError("Endpoint")} ||
      (address.Err? && DiscoverLegacy(instances, address).error == address.error)
    decreases |instances|
  {
    if |instances| > 0 {
      DiscoverLegacyErrors(instances[1..], address);
    }
  }

  class RdsSnapshotFinder {
    const env: Env
    const dbms: string
    var hostname: Option<string>
    var rdsEndpointAddress: Option<string>
    var sourceInstance: Option<DbInstance>
    var sourceInstanceIdentifier: Option<string>
    var snapshotIdentifier: Option<string>

    ghost predicate Valid() {
      SupportedDbms(dbms)
    }

    constructor (env: Env, dbms: string, hostname: Option<string>,
                 sourceInstanceIdentifier: Option<string>, snapshotIdentifier: Option<string>)
      requires SupportedDbms(dbms)
      ensures Valid() && this.env == env && this.dbms == dbms && this.hostname == hostname
      ensures rdsEndpointAddress == None && sourceInstance == None
      ensures this.sourceInstanceIdentifier == sourceInstanceIdentifier
      ensures this.snapshotIdentifier == snapshotIdentifier
    {
      this.env, this.dbms, this.hostname := env, dbms, hostname;
      this.sourceInstanceIdentifier, this.snapshotIdentifier := sourceInstanceIdentifier, snapshotIdentifier;
      rdsEndpointAddress, sourceInstance := None, None;
    }

    /** __init__: dbms must be a key of hostname_defaults. */
    static method New(env: Env, dbms: string, hostname: Option<string>,
                      sourceInstanceIdentifier: Option<string>, snapshotIdentifier: Option<string>)
      returns (r: Result<RdsSnapshotFinder>)
      ensures r.Err? <==> !SupportedDbms(dbms)
      ensures r.Err? ==> r.error == UnsupportedDbms(dbms)
      ensures r.Ok? ==> fresh(r.value) && r.value.Valid() && r.value.env == env && r.value.dbms == dbms
      ensures r.Ok? ==> r.value.hostname == hostname && r.value.rdsEndpointAddress == None
      ensures r.Ok? ==> r.value.sourceInstance == None
      ensures r.Ok? ==> r.value.sourceInstanceIdentifier == sourceInstanceIdentifier
      ensures r.Ok? ==> r.value.snapshotIdentifier == snapshotIdentifier
    {
      if !SupportedDbms(dbms) {
        return Err(UnsupportedDbms(dbms));
      }
      var f := new RdsSnapshotFinder(env, dbms, hostname, sourceInstanceIdentifier, snapshotIdentifier);
      return Ok(f);
    }

    ghost function AddressOutcome(): Result<string>
      reads this
      requires Valid()
    {
      if rdsEndpointAddress.Some? then Ok(rdsEndpointAddress.value)
      else EndpointAddressFor(env.canonicalNames, HostnameFor(hostname, dbms))
    }

    method GetHostname() returns (h: string)
      requires Valid()
      modifies this`hostname
      ensures h == HostnameFor(old(hostname), dbms) && hostname == Some(h)
    {
      if hostname.None? {
        hostname := Some(DefaultHostname(dbms));
      }
      h := hostname.value;
    }

    method GetRdsEndpointAddress() returns (r: Result<string>)
      requires Valid()
      modifies this`hostname, this`rdsEndpointAddress, env`log
      ensures r == old(AddressOutcome())
      ensures old(rdsEndpointAddress).Some? ==> env.log == old(env.log) && hostname == old(hostname)
      ensures old(rdsEndpointAddress).None? ==>
        hostname == Some(HostnameFor(old(hostname), dbms)) &&
        env.log == old(env.log) + [Resolve(hostname.value)]
      ensures rdsEndpointAddress == if r.Ok? then Some(r.value) else old(rdsEndpointAddress)
    {
      if rdsEndpointAddress.Some? {
        return Ok(rdsEndpointAddress.value);
      }
      var host := GetHostname();
      var resolution := env.ResolveName(host);
      if resolution.None? {
        return Err(NameNotFound(host));
      }
      var name := resolution.value;
      if !IsSubdomain(name, RdsDomain) {
        return Err(OutsideRdsDomain(ToText(name)));
      }
      rdsEndpointAddress := Some(AddressOf(name));
      r := Ok(rdsEndpointAddress.value);
    }

    ghost function SourceOutcome(): Result<DbInstance>
      reads this
      requires Valid()
    {
      if sourceInstance.Some? then Ok(sourceInstance.value)
      else if sourceInstanceIdentifier.Some? then
        (var found := env.instancesById(sourceInstanceIdentifier.value);
         if |found| == 0 then Err(InstanceNotFound) else Ok(found[0]))
      else DiscoverLegacy(env.allInstances, AddressOutcome())
    }

    method GetSourceInstance() returns (r: Result<DbInstance>)
      requires Valid()
      modifies this`hostname, this`rdsEndpointAddress, this`sourceInstance,
               this`sourceInstanceIdentifier, env`log
      ensures r == old(SourceOutcome())
      ensures r.Err? ==> IsLegacyResolverError(r.error)
      ensures sourceInstance == if r.Ok? then Some(r.value) else old(sourceInstance)
      ensures sourceInstanceIdentifier ==
        if old(sourceInstance).None? && old(sourceInstanceIdentifier).None? && r.Ok?
        then Some(r.value.identifier) else old(sourceInstanceIdentifier)
      ensures old(sourceInstance).Some? ==> env.log == old(env.log)
      ensures Extends(old(env.log), env.log) && AllLookups(Added(old(env.log), env.log))
    {
      if sourceInstance.Some? {
        return Ok(sourceInstance.value);
      }
      if sourceInstanceIdentifier.Some? {
        var found := env.DescribeInstance(sourceInstanceIdentifier.value);
        if |found| == 0 {
          return Err(InstanceNotFound);
        }
        sourceInstance := Some(found[0]);
        return Ok(found[0]);
      }
      r := SearchByEndpoint();
      DiscoverLegacyErrors(env.allInstances, old(AddressOutcome()));
      if r.Ok? {
        sourceInstance := Some(r.value);
        sourceInstanceIdentifier := Some(r.value.identifier);
      }
    }

    /** The for/break loop of snapshot_finder.py:53-59. */
    method SearchByEndpoint() returns (r: Result<DbInstance>)
      requires Valid()
      modifies this`hostname, this`rdsEndpointAddress, env`log
      ensures r == DiscoverLegacy(env.allInstances, old(AddressOutcome()))
      ensures Extends(old(env.log), env.log) && AllLookups(Added(old(env.log), env.log))
    {
      ghost var address := AddressOutcome();
      var instances := env.DescribeAllInstances();
      var i := 0;
      while i < |instances|
        invariant 0 <= i <= |instances|
        invariant DiscoverLegacy(instances[i..], address) == DiscoverLegacy(instances, address)
        invariant address == AddressOutcome()
        invariant Extends(old(env.log), env.log) && AllLookups(Added(old(env.log), env.log))
      {
        assert instances[i..][1..] == instances[i + 1..];
        if !HasEndpoint(instances[i]) {
          return Err(KeyError("Endpoint"));
        }
        ghost var before := env.log;
        var a := GetRdsEndpointAddress();
        AddedConcat(old(env.log), before, env.log);
        if a.Err? {
          return a.PropagateFailure();
        }
        if instances[i].endpoint.value.address == a.value {
          return Ok(instances[i]);
        }
        i := i + 1;
      }
      return Err(InstanceNotFound);
    }

    /** The identifier get_source_instance_identifier answers in the
        current state. */
    ghost function SourceIdOutcome(): Result<string>
      reads this
      requires Valid()
    {
      if sourceInstanceIdentifier.Some? then Ok(sourceInstanceIdentifier.value)
      else match SourceOutcome()
        case Ok(i) => Ok(i.identifier)
        case Err(e) => Err(e)
    }

    method GetSourceInstanceIdentifier() returns (r: Result<string>)
      requires Valid()
      modifies this`hostname, this`rdsEndpointAddress, this`sourceInstance,
               this`sourceInstanceIdentifier, env`log
      ensures old(sourceInstanceIdentifier).Some? ==>
        r == Ok(old(sourceInstanceIdentifier).value) && env.log == old(env.log)
      ensures r == old(SourceIdOutcome())
      ensures r.Ok? ==> sourceInstanceIdentifier == Some(r.value)
      ensures r.Err? ==> IsLegacyResolverError(r.error)
      ensures Extends(old(env.log), env.log) && AllLookups(Added(old(env.log), env.log))
    {
      if sourceInstanceIdentifier.Some? {
        return Ok(sourceInstanceIdentifier.value);
      }
      var i := GetSourceInstance();
      if i.Err? {
        return i.PropagateFailure();
      }
      sourceInstanceIdentifier := Some(i.value.identifier);
      r := Ok(i.value.identifier);
    }

    method GetSnapshotIdentifier() returns (r: Result<string>)
      requires Valid()
      modifies this`hostname, this`rdsEndpointAddress, this`sourceInstance,
               this`sourceInstanceIdentifier, this`snapshotIdentifier, env`log
      ensures old(snapshotIdentifier).Some? ==>
        r == Ok(old(snapshotIdentifier).value) && env.log == old(env.log)
      ensures old(snapshotIdentifier).None? && r.Ok? ==>
        sourceInstanceIdentifier.Some? &&
        var snaps := env.snapshotsOf(sourceInstanceIdentifier.value);
        (forall i :: 0 <= i < |snaps| ==> snaps[i].createTime.Some?) &&
        exists k: nat :: IsNewest(Keys(snaps), k) && r.value == snaps[k].identifier
      // a failure to name the source instance is passed on unchanged
      ensures old(snapshotIdentifier).None? && old(SourceIdOutcome()).Err? ==>
        r == Err(old(SourceIdOutcome()).error)
      // once the source is named: no snapshots, or any untimed one, is an error
      ensures old(snapshotIdentifier).None? && old(SourceIdOutcome()).Ok? ==>
        var snaps := env.snapshotsOf(old(SourceIdOutcome()).value);
        sourceInstanceIdentifier == Some(old(SourceIdOutcome()).value) &&
        (r.Ok? <==> snaps != [] && forall i :: 0 <= i < |snaps| ==> snaps[i].createTime.Some?) &&
        (snaps == [] ==> r == Err(NoSnapshotsFound)) &&
        (snaps != [] && r.Err? ==> r == Err(KeyError("SnapshotCreateTime")))
      ensures snapshotIdentifier == if r.Ok? then Some(r.value) else old(snapshotIdentifier)
      ensures r.Err? ==> IsLegacyResolverError(r.error)
      ensures Extends(old(env.log), env.log) && AllLookups(Added(old(env.log), env.log))
    {
      if snapshotIdentifier.Some? {
        return Ok(snapshotIdentifier.value);
      }
      ghost var log0 := env.log;
      var id := GetSourceInstanceIdentifier();
      if id.Err? {
        return id.PropagateFailure();
      }
      ghost var log1 := env.log;
      var snaps := env.DescribeSnapshotsOf(id.value);
      AddedConcat(log0, log1, env.log);
      if |snaps| == 0 {
        return Err(NoSnapshotsFound);
      }
      var k := ChooseLegacy(snaps);
      if k.Err? {
        return k.PropagateFailure();
      }
      snapshotIdentifier := Some(snaps[k.value].identifier);
      r := Ok(snaps[k.value].identifier);
    }
  }
}
