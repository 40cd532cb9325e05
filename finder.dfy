/** The source resolver of datascrubber/__init__.py (RdsSnapshotFinder):
    hostname -> canonical name under rds.amazonaws.com. -> instance whose
    endpoint address matches -> newest snapshot of it. An explicit instance
    identifier or snapshot identifier short-circuits the chain, and every
    value found is kept for later calls. */
module Finder {
  import opened Wrappers
  import opened Cloud
  import opened DnsNames
  import opened SnapshotChoice

  /** The errors of the discovery chain: no such name, a name outside the
      RDS domain, no matching instance. */
  predicate IsDiscoveryError(e: Error) {
    e.NameNotFound? || e.OutsideRdsDomain? || e.InstanceNotFound?
  }

  /** Any error of the resolver: a discovery error or no snapshot. */
  predicate IsResolverError(e: Error) {
    IsDiscoveryError(e) || e.NoSnapshotsFound?
  }

  predicate SupportedDbms(dbms: string) {
    dbms == "mysql" || dbms == "postgresql"
  }

  /** hostname_defaults (snapshot_finder.py:7-10). */
  function DefaultHostname(dbms: string): (h: string)
    requires SupportedDbms(dbms)
    ensures h == dbms + "-primary"
  {
    if dbms == "mysql" then "mysql-primary" else "postgresql-primary"
  }

  /** The hostname get_hostname settles on. */
  function HostnameFor(hostname: Option<string>, dbms: string): (h: string)
    requires SupportedDbms(dbms)
    ensures hostname.Some? ==> h == hostname.value
    ensures hostname.None? ==> h == dbms + "-primary"
  {
    if hostname.Some? then hostname.value else DefaultHostname(dbms)
  }

  /** get_hostname of datascrubber/__init__.py as written: the class there
      has no `hostname_defaults` attribute, so a finder built without a
      hostname raises AttributeError instead of using the default. */
  function HostnameAsWritten(hostname: Option<string>): (r: Result<string>)
    ensures r.Ok? <==> hostname.Some?
    ensures hostname.Some? ==> r.value == hostname.value
  {
    if hostname.Some? then Ok(hostname.value) else Err(AttributeError("hostname_defaults"))
  }

  /** The discrepancy: without an explicit hostname, discovery as written
      always fails, where the default hostname was intended. */
  lemma {:induction false} MissingDefaultsBreakDiscovery(dbms: string)
    requires SupportedDbms(dbms)
    ensures HostnameAsWritten(None) == Err(AttributeError("hostname_defaults"))
    ensures HostnameFor(None, dbms) == dbms + "-primary"
  {
  }

  /** What get_rds_endpoint_address computes when nothing is memoised: the
      canonical name of the hostname, rejected unless it lies in
      rds.amazonaws.com., with its trailing dots removed. */
  function EndpointAddressFor(canonicalNames: string -> Option<seq<string>>, host: string): (r: Result<string>)
    ensures r.Err? ==> IsDiscoveryError(r.error)
  {
    match canonicalNames(host)
    case None => Err(NameNotFound(host))
    case Some(name) =>
      if IsSubdomain(name, RdsDomain) then Ok(AddressOf(name))
      else Err(OutsideRdsDomain(ToText(name)))
  }

  /** The resolver never yields an address outside rds.amazonaws.com. */
  lemma {:induction false} EndpointAddressInRdsDomain(canonicalNames: string -> Option<seq<string>>, host: string)
    requires canonicalNames(host).Some?
    ensures EndpointAddressFor(canonicalNames, host).Ok? <==> IsSubdomain(canonicalNames(host).value, RdsDomain)
    ensures EndpointAddressFor(canonicalNames, host).Ok? ==>
      EndpointAddressFor(canonicalNames, host).value + "." == ToText(canonicalNames(host).value)
    // below the apex the address ends in .rds.amazonaws.com
    ensures EndpointAddressFor(canonicalNames, host).Ok? && |canonicalNames(host).value| > |RdsDomain| ==>
      var name := canonicalNames(host).value;
      Lower(EndpointAddressFor(canonicalNames, host).value) ==
        Lower(ToText(name[..|name| - 4])) + ".rds.amazonaws.com"
    // the apex itself is accepted as rds.amazonaws.com
    ensures EndpointAddressFor(canonicalNames, host).Ok? && |canonicalNames(host).value| == |RdsDomain| ==>
      Lower(EndpointAddressFor(canonicalNames, host).value) == "rds.amazonaws.com"
  {
    var name := canonicalNames(host).value;
    if IsSubdomain(name, RdsDomain) {
      if |name| > |RdsDomain| {
        AcceptedAddress(name);
      } else {
        AcceptedApex(name);
      }
    }
  }

  /** A hostname whose canonical name is
      evil.attacker.net. is refused. */
  lemma {:induction false} ForeignDomainRejected(canonicalNames: string -> Option<seq<string>>, host: string)
    requires canonicalNames(host) == Some(["evil", "attacker", "net", ""])
    ensures EndpointAddressFor(canonicalNames, host).Err?
  {
    var name := ["evil", "attacker", "net", ""];
    assert Lower(name[2])[0] == 'n' && Lower(RdsDomain[2])[0] == 'c';
    assert !IsSubdomain(name, RdsDomain);
  }

  /** True when `inst` has an endpoint at `address`. */
  predicate AtAddress(inst: DbInstance, address: string) {
    inst.endpoint.Some? && inst.endpoint.value.address == address
  }

  predicate HasEndpoint(inst: DbInstance) {
    inst.endpoint.Some?
  }

  /** The for/break search of get_source_instance over an unfiltered
      describe_db_instances answer. The address is asked for only when an
      instance with an endpoint is met, so `address`, the outcome of that
      (memoised) lookup, matters only then. */
  function Discover(instances: seq<DbInstance>, address: Result<string>): (r: Result<DbInstance>)
    ensures r.Ok? ==> address.Ok? && r.value in instances && AtAddress(r.value, address.value)
    decreases |instances|
  {
    if |instances| == 0 then Err(InstanceNotFound)
    else if !HasEndpoint(instances[0]) then Discover(instances[1..], address)
    else if address.Err? then Err(address.error)
    else if AtAddress(instances[0], address.value) then Ok(instances[0])
    else Discover(instances[1..], address)
  }

  /** The search fails only for want of a match or because the address
      could not be resolved. */
  lemma {:induction false} DiscoverErrors(instances: seq<DbInstance>, address: Result<string>)
    ensures Discover(instances, address).Err? ==>
      Discover(instances, address).error == InstanceNotFound ||
      (address.Err? && Discover(instances, address).error == address.error)
    decreases |instances|
  {
    if |instances| > 0 {
      DiscoverErrors(instances[1..], address);
    }
  }

  /** The search finds the FIRST instance at the resolved address, and fails
      exactly when there is none (or the address could not be resolved). */
  lemma {:induction false} DiscoverFindsFirst(instances: seq<DbInstance>, address: string)
    ensures Discover(instances, Ok(address)).Ok? <==>
      exists i :: 0 <= i < |instances| && AtAddress(instances[i], address)
    ensures Discover(instances, Ok(address)).Ok? ==>
      exists i :: 0 <= i < |instances| && instances[i] == Discover(instances, Ok(address)).value &&
        AtAddress(instances[i], address) &&
        forall j :: 0 <= j < i ==> !AtAddress(instances[j], address)
    decreases |instances|
  {
    if |instances| > 0 {
      DiscoverFindsFirst(instances[1..], address);
      var r := Discover(instances, Ok(address));
      if !AtAddress(instances[0], address) {
        if r.Ok? {
          var i :| 0 <= i < |instances[1..]| && instances[1..][i] == r.value &&
            AtAddress(instances[1..][i], address) &&
            forall j :: 0 <= j < i ==> !AtAddress(instances[1..][j], address);
          assert instances[i + 1] == r.value;
          assert forall j :: 0 <= j < i + 1 ==> !AtAddress(instances[j], address) by {
            forall j | 0 <= j < i + 1 ensures !AtAddress(instances[j], address) {
              if j > 0 { assert instances[j] == instances[1..][j - 1]; }
            }
          }
        } else {
          forall i | 0 <= i < |instances| ensures !AtAddress(instances[i], address) {
            if i > 0 { assert instances[i] == instances[1..][i - 1]; }
          }
        }
      } else {
        assert instances[0] == r.value;
      }
    }
  }

  class RdsSnapshotFinder {
    const env: Env
    const dbms: string
    var hostname: Option<string>
    var rdsEndpointAddress: Option<string>
    var sourceInstance: Option<DbInstance>
    var sourceInstanceIdentifier: Option<string>
    var snapshotIdentifier: Option<string>

    ghost predicate Valid() {
      SupportedDbms(dbms)
    }

    constructor (env: Env, dbms: string, hostname: Option<string>,
                 sourceInstanceIdentifier: Option<string>, snapshotIdentifier: Option<string>)
      requires SupportedDbms(dbms)
      ensures Valid() && this.env == env && this.dbms == dbms && this.hostname == hostname
      ensures rdsEndpointAddress == None && sourceInstance == None
      ensures this.sourceInstanceIdentifier == sourceInstanceIdentifier
      ensures this.snapshotIdentifier == snapshotIdentifier
    {
      this.env, this.dbms, this.hostname := env, dbms, hostname;
      this.sourceInstanceIdentifier, this.snapshotIdentifier := sourceInstanceIdentifier, snapshotIdentifier;
      rdsEndpointAddress, sourceInstance := None, None;
    }

    /** __init__: only mysql and postgresql are accepted. */
    static method New(env: Env, dbms: string, hostname: Option<string>,
                      sourceInstanceIdentifier: Option<string>, snapshotIdentifier: Option<string>)
      returns (r: Result<RdsSnapshotFinder>)
      ensures r.Err? <==> !SupportedDbms(dbms)
      ensures r.Err? ==> r.error == UnsupportedDbms(dbms)
      ensures r.Ok? ==> fresh(r.value) && r.value.Valid() && r.value.env == env && r.value.dbms == dbms
      ensures r.Ok? ==> r.value.hostname == hostname && r.value.rdsEndpointAddress == None
      ensures r.Ok? ==> r.value.sourceInstance == None
      ensures r.Ok? ==> r.value.sourceInstanceIdentifier == sourceInstanceIdentifier
      ensures r.Ok? ==> r.value.snapshotIdentifier == snapshotIdentifier
    {
      if !SupportedDbms(dbms) {
        return Err(UnsupportedDbms(dbms));
      }
      var f := new RdsSnapshotFinder(env, dbms, hostname, sourceInstanceIdentifier, snapshotIdentifier);
      return Ok(f);
    }

    /** The address get_rds_endpoint_address answers in the current state. */
    ghost function AddressOutcome(): Result<string>
      reads this
      requires Valid()
    {
      if rdsEndpointAddress.Some? then Ok(rdsEndpointAddress.value)
      else EndpointAddressFor(env.canonicalNames, HostnameFor(hostname, dbms))
    }

    method GetHostname() returns (h: string)
      requires Valid()
      modifies this`hostname
      ensures h == HostnameFor(old(hostname), dbms) && hostname == Some(h)
    {
      if hostname.None? {
        hostname := Some(DefaultHostname(dbms));
      }
      h := hostname.value;
    }

    method GetRdsEndpointAddress() returns (r: Result<string>)
      requires Valid()
      modifies this`hostname, this`rdsEndpointAddress, env`log
      ensures r == old(AddressOutcome())
      ensures old(rdsEndpointAddress).Some? ==> env.log == old(env.log) && hostname == old(hostname)
      ensures old(rdsEndpointAddress).None? ==>
        hostname == Some(HostnameFor(old(hostname), dbms)) &&
        env.log == old(env.log) + [Resolve(hostname.value)]
      ensures rdsEndpointAddress == if r.Ok? then Some(r.value) else old(rdsEndpointAddress)
    {
      if rdsEndpointAddress.Some? {
        return Ok(rdsEndpointAddress.value);
      }
      var host := GetHostname();
      var resolution := env.ResolveName(host);
      if resolution.None? {
        return Err(NameNotFound(host));
      }
      var name := resolution.value;
      if !IsSubdomain(name, RdsDomain) {
        return Err(OutsideRdsDomain(ToText(name)));
      }
      rdsEndpointAddress := Some(AddressOf(name));
      r := Ok(rdsEndpointAddress.value);
    }

    /** The instance get_source_instance answers in the current state. */
    ghost function SourceOutcome(): Result<DbInstance>
      reads this
      requires Valid()
    {
      if sourceInstance.Some? then Ok(sourceInstance.value)
      else if sourceInstanceIdentifier.Some? then
        (var found := env.instancesById(sourceInstanceIdentifier.value);
         if |found| == 0 then Err(InstanceNotFound) else Ok(found[0]))
      else Discover(env.allInstances, AddressOutcome())
    }

    method GetSourceInstance() returns (r: Result<DbInstance>)
      requires Valid()
      modifies this`hostname, this`rdsEndpointAddress, this`sourceInstance,
               this`sourceInstanceIdentifier, env`log
      ensures r == old(SourceOutcome())
      ensures r.Err? ==> IsDiscoveryError(r.error)
      ensures sourceInstance == if r.Ok? then Some(r.value) else old(sourceInstance)
      ensures sourceInstanceIdentifier ==
        if old(sourceInstance).None? && old(sourceInstanceIdentifier).None? && r.Ok?
        then Some(r.value.identifier) else old(sourceInstanceIdentifier)
      ensures old(sourceInstance).Some? ==> env.log == old(env.log)
      ensures old(sourceInstance).None? && old(sourceInstanceIdentifier).Some? ==>
        env.log == old(env.log) + [DescribeInstances(old(sourceInstanceIdentifier))]
      ensures Extends(old(env.log), env.log) && AllLookups(Added(old(env.log), env.log))
    {
      if sourceInstance.Some? {
        return Ok(sourceInstance.value);
      }
      if sourceInstanceIdentifier.Some? {
        var found := env.DescribeInstance(sourceInstanceIdentifier.value);
        if |found| == 0 {
          return Err(InstanceNotFound);
        }
        sourceInstance := Some(found[0]);
        return Ok(found[0]);
      }
      r := SearchByEndpoint();
      DiscoverErrors(env.allInstances, old(AddressOutcome()));
      if r.Ok? {
        sourceInstance := Some(r.value);
        sourceInstanceIdentifier := Some(r.value.identifier);
      }
    }

    /** The for/break loop of get_source_instance: the first instance of an
        unfiltered describe_db_instances whose endpoint address is the
        resolved one. */
    method SearchByEndpoint() returns (r: Result<DbInstance>)
      requires Valid()
      modifies this`hostname, this`rdsEndpointAddress, env`log
      ensures r == Discover(env.allInstances, old(AddressOutcome()))
      ensures Extends(old(env.log), env.log) && AllLookups(Added(old(env.log), env.log))
    {
      ghost var address := AddressOutcome();
      var instances := env.DescribeAllInstances();
      var i := 0;
      while i < |instances|
        invariant 0 <= i <= |instances|
        invariant Discover(instances[i..], address) == Discover(instances, address)
        invariant address == AddressOutcome()
        invariant Extends(old(env.log), env.log) && AllLookups(Added(old(env.log), env.log))
      {
        assert instances[i..][1..] == instances[i + 1..];
        if !HasEndpoint(instances[i]) {
          i := i + 1;
          continue;
        }
        ghost var before := env.log;
        var a := GetRdsEndpointAddress();
        AddedConcat(old(env.log), before, env.log);
        if a.Err? {
          return a.PropagateFailure();
        }
        if instances[i].endpoint.value.address == a.value {
          return Ok(instances[i]);
        }
        i := i + 1;
      }
      return Err(InstanceNotFound);
    }

    /** The identifier get_source_instance_identifier answers in the
        current state. */
    ghost function SourceIdOutcome(): Result<string>
      reads this
      requires Valid()
    {
      if sourceInstanceIdentifier.Some? then Ok(sourceInstanceIdentifier.value)
      else match SourceOutcome()
        case Ok(i) => Ok(i.identifier)
        case Err(e) => Err(e)
    }

    method GetSourceInstanceIdentifier() returns (r: Result<string>)
      requires Valid()
      modifies this`hostname, this`rdsEndpointAddress, this`sourceInstance,
               this`sourceInstanceIdentifier, env`log
      ensures old(sourceInstanceIdentifier).Some? ==>
        r == Ok(old(sourceInstanceIdentifier).value) && env.log == old(env.log) &&
        sourceInstance == old(sourceInstance)
      ensures r == old(SourceIdOutcome())
      ensures r.Ok? ==> sourceInstanceIdentifier == Some(r.value)
      ensures r.Err? ==> IsDiscoveryError(r.error)
      ensures Extends(old(env.log), env.log) && AllLookups(Added(old(env.log), env.log))
    {
      if sourceInstanceIdentifier.Some? {
        return Ok(sourceInstanceIdentifier.value);
      }
      var i := GetSourceInstance();
      if i.Err? {
        return i.PropagateFailure();
      }
      sourceInstanceIdentifier := Some(i.value.identifier);
      r := Ok(i.value.identifier);
    }

    method GetSnapshotIdentifier() returns (r: Result<string>)
      requires Valid()
      modifies this`hostname, this`rdsEndpointAddress, this`sourceInstance,
               this`sourceInstanceIdentifier, this`snapshotIdentifier, env`log
      ensures old(snapshotIdentifier).Some? ==>
        r == Ok(old(snapshotIdentifier).value) && env.log == old(env.log)
      ensures old(snapshotIdentifier).None? && r.Ok? ==>
        sourceInstanceIdentifier.Some? &&
        var snaps := env.snapshotsOf(sourceInstanceIdentifier.value);
        exists k: nat :: IsNewest(Keys(snaps), k) && r.value == snaps[k].identifier
      // a failure to name the source instance is passed on unchanged
      ensures old(snapshotIdentifier).None? && old(SourceIdOutcome()).Err? ==>
        r == Err(old(SourceIdOutcome()).error)
      // once the source is named, it fails exactly when it has no snapshots
      ensures old(snapshotIdentifier).None? && old(SourceIdOutcome()).Ok? ==>
        sourceInstanceIdentifier == Some(old(SourceIdOutcome()).value) &&
        (r.Ok? <==> env.snapshotsOf(old(SourceIdOutcome()).value) != []) &&
        (r.Err? ==> r.error == NoSnapshotsFound)
      ensures snapshotIdentifier == if r.Ok? then Some(r.value) else old(snapshotIdentifier)
      ensures r.Err? ==> IsResolverError(r.error)
      ensures Extends(old(env.log), env.log) && AllLookups(Added(old(env.log), env.log))
    {
      if snapshotIdentifier.Some? {
        return Ok(snapshotIdentifier.value);
      }
      ghost var log0 := env.log;
      var id := GetSourceInstanceIdentifier();
      if id.Err? {
        return id.PropagateFailure();
      }
      ghost var log1 := env.log;
      var snaps := env.DescribeSnapshotsOf(id.value);
      AddedConcat(log0, log1, env.log);
      if |snaps| == 0 {
        return Err(NoSnapshotsFound);
      }
      var k := NewestIndex(Keys(snaps));
      snapshotIdentifier := Some(snaps[k].identifier);
      r := Ok(snaps[k].identifier);
    }
  }
}
