# govuk-datascrubber: a verified model of one scrub run

The data scrubber turns the newest snapshot of a production RDS database into
a scrubbed copy. It works in four steps:

1. It finds the source instance and its newest snapshot (`RdsSnapshotFinder`).
2. It restores that snapshot into a temporary "workspace" instance and locks
   it down with fresh security groups and a new master password
   (`ScrubWorkspaceInstance`).
3. It runs the scrub tasks that apply to the databases found there (the
   `Mysql`, `Postgresql` and older `MysqlScrubber` task managers).
4. It deletes the workspace. A final snapshot is kept only when every task
   succeeded, and that snapshot is then shared with the named AWS accounts
   (`worker` in `datascrubber/cli.py`).

This project models that core in Dafny. It covers both the current
revision (`datascrubber/`) and the earlier one (`snapshot_finder.py`,
`scrub_workspace_instance.py`, `datascrubber/mysql/__init__.py`).

## The outside world

Everything outside the scrubber is one oracle object, `Cloud.Env`:

- the RDS control plane, DNS resolution, the database servers, the clock
  and the task bodies;
- whose answers are fixed functions given when it is built;
- and which keeps a ghost log of every request issued.

Each class of the source is a Dafny class with the same memo fields. Each
method states how it changes those fields and which requests it adds to the
log. For the polling loops, the task runs and the tail of `worker` it gives
the requests one by one. Elsewhere it gives a property of them, such as
"only lookups" or "nothing destructive". The safety rules are then
statements about the log:

- a workspace is deleted with a final snapshot only if every viable task ran
  and succeeded;
- a snapshot is shared only in that case, and only when accounts were named;
- no other destructive request is ever sent;
- with a timeout of at least zero, a restored workspace is always deleted
  after its restore.

## How the modules map to the source

| module | source |
|---|---|
| `Cloud` | the oracle and the request log |
| `DnsNames` | dnspython's `Name`: `is_subdomain`, `to_text` and `rstrip('.')` |
| `SnapshotChoice` | the sort that picks the newest snapshot |
| `Finder` | the current `RdsSnapshotFinder` |
| `LegacyFinder` | the older `RdsSnapshotFinder` |
| `WorkspaceIds` | the workspace identifier |
| `Workspace` | the current `ScrubWorkspaceInstance` |
| `LegacyWorkspace` | the older `ScrubWorkspaceInstance` |
| `DbNames` | suffix stripping, `db_realnames` and the viable tasks |
| `PostgresqlTasks` | the task manager in `datascrubber/task_managers/postgresql.py` |
| `MysqlTasks` | the task manager in `datascrubber/task_managers/mysql.py` |
| `LegacyMysqlTasks` | the task manager in `datascrubber/mysql/__init__.py` |
| `Cli` | the selector to worker mapping of `main`, and `worker` |

## Where the model departs from the code as written

- **The call from `cli.py` to `ScrubWorkspaceInstance`.**
  `datascrubber/cli.py:248-251` passes the boto3 session where the
  constructor expects `timeout`. It also passes `boto3_session` to a finder
  that takes no such parameter. The model uses the signatures as declared:
  the default timeout of 90 minutes, and security groups taken from the
  source instance.
- **The `else` branch of `datascrubber/cli.py:257-258`.** It cannot be
  reached, because the finder has already rejected every other engine.
- **A timeout in `__create_instance`.** The model keeps the code's
  behaviour: the last polled record stays held. Because of this, the
  exception handler's cleanup still deletes the instance. The held record
  is not 'available', and a later `get_instance` returns it as it is,
  without polling again (`datascrubber/__init__.py:45`, `:53` and `:96`).

## Model

| member | source | states |
|---|---|---|
| Cli.EngineSelector | datascrubber/cli.py:22-92 | for each engine, snapshots take precedence over instances, and instances over hosts; no selector only when none of the three is given |
| Cli.AddWorkers | datascrubber/cli.py:23-32 | one worker config is appended per listed id, in list order, with everything before it kept |
| Cli.AddEngineWorkers | datascrubber/cli.py:22-56 | one engine's if/elif chain appends exactly the configs of the selector that wins |
| Cli.WorkerConfigs | datascrubber/cli.py:20-92 | the threads main builds are the MySQL configs followed by the Postgres configs, chosen independently |
| Cli.PlannedWorkersShape | datascrubber/cli.py:22-92 | every planned worker is for mysql or postgresql, carries target_accounts = share_with, and names its source in exactly one way |
| Cli.PlannedWorkersCount | datascrubber/cli.py:22-92 | there is one worker per element of each engine's selected list |
| Cli.SnapshotsSupersede | datascrubber/cli.py:22-92 | when snapshots are given, changing the instances or hosts changes no worker |
| Cli.InstancesSupersedeHosts | datascrubber/cli.py:34-92 | when instances are given, changing the hosts changes no worker |
| Cli.GetViableTasks | datascrubber/cli.py:261 | the loop iterates over exactly the manager's viable tasks, and they do not change |
| Cli.RunTask | datascrubber/cli.py:262 | a non-viable task fails with nothing sent; a viable task runs its body once, and the success flag is true iff the body did not raise; only harmless requests are added |
| Cli.RunNext | datascrubber/cli.py:261-263 | one pass of the loop runs the next viable task and keeps the loop's record of which tasks ran, in order, with which outcome |
| Cli.RunTasks | datascrubber/cli.py:260-269 | tasks run in order, and exactly the first len(results) viable tasks ran; each result is whether its body returned; the loop stops at the first failure and nowhere else; success holds iff every viable task ran and succeeded (vacuously so with none) |
| Cli.Finish | datascrubber/cli.py:271-297 | cleanup receives the success flag; the share (AttributeName 'restore', on the final snapshot) is sent iff success holds and at least one account is named; a failed share raises and triggers cleanup(False) |
| Cli.FinishDisciplined | datascrubber/cli.py:271-282 | after harmless requests, the tail of worker keeps the final snapshot exactly on success and shares it only then |
| Cli.FinishDeletesLast | datascrubber/cli.py:271-282 | a run ending with the tail of worker deletes the workspace after every restore, keeping the final snapshot exactly on success, and deletes it again without one when the share fails |
| Cli.SetupFailureNoLeak | datascrubber/cli.py:284-297 | after a failed setup the handler's cleanup deletes a held workspace last, and with a non-negative timeout no workspace held means none was restored |
| Cli.SetupFailureDisciplined | datascrubber/cli.py:284-297 | when the handler's cleanup(False) follows harmless requests, no snapshot is kept or shared |
| Cli.Scrub | datascrubber/cli.py:260-282 | the added requests are harmless ones followed by exactly the tail of worker: the delete, keeping the final snapshot iff all viable tasks succeeded, then the share when accounts are named, then a second delete when the share fails; an exception is raised exactly when that share fails |
| Cli.StartManager | datascrubber/cli.py:253-258 | for a supported engine (any other raises at line 258, which the finder already did), a Mysql manager for mysql and a Postgresql manager for postgresql, built on the same workspace; its viable tasks are those of the engine's catalogue whose database the server lists, under its own name or with the `_production` suffix; building it sends only harmless requests; a built manager holds the workspace instance, and with a non-negative timeout no instance held means only lookups were sent |
| Cli.BuildWorkspace | datascrubber/cli.py:240-251 | an unsupported dbms fails before any request; otherwise a fresh workspace holding no instance, with the timestamp's identifier and the default timeout of 90 minutes; only lookups are sent |
| Cli.ScrubWorkspace | datascrubber/cli.py:253-297 | unless the manager could not be built, the report's viable tasks are those of the engine's catalogue whose database the server lists, under its own name or with the `_production` suffix; once the workspace exists, any exception ends with cleanup(False); cleanup(True) only when every task succeeded; with a non-negative timeout, a restored workspace is deleted after every restore, with the flag of the first cleanup, and without a final snapshot once something raised |
| Cli.Worker | datascrubber/cli.py:229-297 | fail-fast task order; unless the workspace or the manager could not be built, the report's viable tasks are those of the engine's catalogue whose database the server lists, under its own name or with the `_production` suffix; an unsupported dbms raises with nothing sent; no cleanup when the workspace was never built; otherwise the last cleanup is False whenever something raised; a final snapshot is kept only if all tasks succeeded; only permitted deletes and shares reach the control plane; a share happens only with a kept snapshot and named accounts; a restored workspace is deleted after every restore, with the flag of the first cleanup, and without a final snapshot once something raised |
| Cli.CleanupAfterSetupFailure | datascrubber/cli.py:284-297 | the except branch with a built workspace calls cleanup(False), which deletes without a final snapshot iff an instance is held |
| Cli.LoopAsWritten | datascrubber/cli.py:260-269 | the loop as written, over Python values, runs at most one task per answer |
| Cli.TupleGateIgnoresFailure | datascrubber/cli.py:260-271 | as written, whatever the tasks answer, every task runs and cleanup receives a truthy flag |
| Cli.FailedTaskKeepsSnapshotAsWritten | datascrubber/cli.py:260-271 | one failing task: as written the snapshot flag is truthy, while the intended flag is false |
| Workspace.ActiveGroupIds | datascrubber/__init__.py:28-33 | the ids of exactly the source groups whose Status is 'active' |
| Workspace.ActiveGroupIdsAppend | datascrubber/__init__.py:28-33 | the filter keeps source order: it distributes over concatenation |
| Workspace.SelectSecurityGroups | datascrubber/__init__.py:22-33 | a str becomes a one-element list; a list is used unchanged; otherwise the result is the active source groups |
| Workspace.CleanupAsWritten | datascrubber/__init__.py:55-62 | as written, cleanup succeeds only when called without the flag and with no instance, and it never sends a delete |
| Workspace.CleanupAsWrittenLeaks | datascrubber/__init__.py:55-62 | as written, cleanup(create_final_snapshot=...) always raises, and so does a plain cleanup() on a created instance |
| Workspace.ScrubWorkspaceInstance.constructor | datascrubber/__init__.py:13-33 | identifier from the timestamp, the given timeout and password, no instance, and the selected security groups |
| Workspace.ScrubWorkspaceInstance.New | datascrubber/__init__.py:13-38 | the source instance is looked up first, and its error is the constructor's; on success the fields are as set by __init__; only lookups are sent |
| Workspace.ScrubWorkspaceInstance.GetEndpoint | datascrubber/__init__.py:40-42 | the Endpoint of the held or newly created instance; KeyError when the record has none |
| Workspace.ScrubWorkspaceInstance.GetInstance | datascrubber/__init__.py:44-53 | with an instance held it is returned with nothing logged, no poll and no clock change; otherwise, on success, the restore from the finder's snapshot and the modify request were both sent and the instance is 'available'; errors are the finder's or a timeout, the latter only after start + 60*timeout; with a non-negative timeout, no instance held means only lookups were sent |
| Workspace.ScrubWorkspaceInstance.CreateInstance | datascrubber/__init__.py:64-113 | exactly one restore (workspace id, snapshot id, source subnet group, scrubber tag), then polls only; returns only on an 'available' status; a timeout only once the clock passes start + 60*timeout, with the last record held, and no record held only when the timeout is negative |
| Workspace.ScrubWorkspaceInstance.RestoreAndAwait | datascrubber/__init__.py:77-113 | the restore request (workspace id, snapshot id, source subnet group, scrubber tag) is the first event and only polls follow it; a timeout only after start + 60*timeout, with no record held iff the timeout is negative |
| Workspace.ScrubWorkspaceInstance.AwaitAvailable | datascrubber/__init__.py:90-113 | the requests are describe, sleep 10 s, describe, sleep 10 s, ..., with one more describe on success, so polls equal sleeps (plus one on success); returns at the first 'available' status; every earlier poll was not available; on a timeout no poll ran iff the deadline had already passed, and the clock before the last sleep was within the deadline; each polled record replaces the held one, so after a timeout the last record polled stays held |
| Workspace.ScrubWorkspaceInstance.ApplyModifications | datascrubber/__init__.py:115-156 | logs the change with the password masked as '****', sends the groups and the real password, then describe, sleep 10 s, ... with one more describe on success; returns only when PendingModifiedValues is empty; a timeout only after start + 60*timeout, with no poll iff the timeout is negative |
| Workspace.ScrubWorkspaceInstance.PollUntil | datascrubber/__init__.py:134-156 | the loop both waits share: the requests are describe, sleep 10 s, ..., with one more describe on success; it returns at the first record that reached the goal ('available', or no modifications pending) and hands back the last record polled; every earlier poll had not reached it; on a timeout no poll ran iff the deadline had already passed, and the clock before the last sleep was within the deadline |
| Workspace.ScrubWorkspaceInstance.PollRound | datascrubber/__init__.py:135-150 | one pass of the loop body: the next record is described, and a 10 s sleep follows exactly when the record has not reached the goal |
| Workspace.ScrubWorkspaceInstance.Cleanup | datascrubber/__init__.py:55-62 | deletes only when an instance was ever held, keeping the final snapshot exactly when create_final_snapshot is set |
| Finder.DefaultHostname | snapshot_finder.py:7-10 | the default hostname is dbms + "-primary" |
| Finder.HostnameFor | snapshot_finder.py:74-78 | an explicit hostname is kept; otherwise the engine's default |
| Finder.HostnameAsWritten | datascrubber/__init__.py:257-266 | as written, get_hostname succeeds only with an explicit hostname |
| Finder.MissingDefaultsBreakDiscovery | datascrubber/__init__.py:257-266 | without a hostname, as written it raises AttributeError, where the default was intended |
| Finder.EndpointAddressFor | datascrubber/__init__.py:268-289 | resolving the address fails only with a discovery error |
| Finder.EndpointAddressInRdsDomain | datascrubber/__init__.py:279-282 | an address is found iff the canonical name is rds.amazonaws.com. or a subdomain of it; it is then the name's text without the root dot, which is rds.amazonaws.com for the apex and ends in .rds.amazonaws.com below it |
| Finder.ForeignDomainRejected | datascrubber/__init__.py:279-280 | a canonical name of evil.attacker.net. is refused |
| Finder.Discover | datascrubber/__init__.py:222-244 | a found instance is one of those listed, and has an Endpoint at the resolved address |
| Finder.DiscoverErrors | datascrubber/__init__.py:230-244 | the search fails only for want of a match, or with the address lookup's own error |
| Finder.DiscoverFindsFirst | datascrubber/__init__.py:230-241 | the search succeeds iff some instance is at the address, and it returns the first such one |
| Finder.RdsSnapshotFinder.constructor | datascrubber/__init__.py:162-172 | the given dbms, hostname and identifiers; nothing memoised |
| Finder.RdsSnapshotFinder.New | datascrubber/__init__.py:162-172 | fails iff the dbms is not mysql or postgresql |
| Finder.RdsSnapshotFinder.GetHostname | datascrubber/__init__.py:257-266 | an explicit hostname, else the engine's default, memoised |
| Finder.RdsSnapshotFinder.GetRdsEndpointAddress | datascrubber/__init__.py:268-289 | a memoised address is returned with no lookup; otherwise exactly one DNS query for the hostname, and the checked address is memoised |
| Finder.RdsSnapshotFinder.GetSourceInstance | datascrubber/__init__.py:217-255 | memoised; an explicit id gives the first describe result or raises on empty; otherwise the first instance at the resolved endpoint; on discovery the identifier is memoised too; only lookups are sent |
| Finder.RdsSnapshotFinder.SearchByEndpoint | datascrubber/__init__.py:222-244 | the for/break loop returns what the first-match search specifies |
| Finder.RdsSnapshotFinder.GetSourceInstanceIdentifier | datascrubber/__init__.py:206-215 | the explicit id with no request, else the discovered instance's DBInstanceIdentifier, memoised; a discovery error is passed on unchanged |
| Finder.RdsSnapshotFinder.GetSnapshotIdentifier | datascrubber/__init__.py:176-204 | an explicit id with no request; otherwise it succeeds iff the source instance is named and has snapshots; a failure to name it is passed on unchanged, and no snapshots is NoSnapshotsFound; on success the newest snapshot, untimed ones ranking lowest and ties going to the first listed; memoised |
| DnsNames.StripTrailingDots | datascrubber/__init__.py:282 | rstrip('.'): a prefix of the text, followed only by dots, and not itself ending in a dot |
| DnsNames.SubdomainText | datascrubber/__init__.py:279-282 | the text of a name under rds.amazonaws.com. ends, case aside, in ".rds.amazonaws.com." |
| DnsNames.AcceptedAddress | datascrubber/__init__.py:279-282 | the kept address is the name's text without the root dot, and lies in rds.amazonaws.com |
| DnsNames.AcceptedApex | datascrubber/__init__.py:279-282 | the apex rds.amazonaws.com. (in any case) is accepted, and its kept address is its text without the root dot, rds.amazonaws.com once folded |
| SnapshotChoice.NewestIndex | datascrubber/__init__.py:195-200 | the head after a stable descending sort: no key is newer, and every earlier key is strictly older |
| SnapshotChoice.NewestIsUnique | datascrubber/__init__.py:195-199 | only one index is the head of the sorted list |
| SnapshotChoice.NewestOfThree | datascrubber/__init__.py:195-199 | of snapshots taken at T-3, T-1 and T-2, the one taken at T-1 is chosen |
| SnapshotChoice.ChooseAsWritten | datascrubber/__init__.py:195-198 | as written, the sort raises TypeError iff timed and untimed snapshots are mixed; otherwise it picks the newest |
| SnapshotChoice.UntimedSnapshotBreaksChoice | datascrubber/__init__.py:195-198 | a snapshot still being created, listed next to a finished one, makes the choice raise where the finished one was intended |
| SnapshotChoice.ChooseLegacy | snapshot_finder.py:34-38 | raises KeyError iff some snapshot has no SnapshotCreateTime; otherwise picks the newest, first listed on ties |
| WorkspaceIds.Padded | scrub_workspace_instance.py:11 | strftime's zero padding gives exactly w digits |
| WorkspaceIds.PaddedValue | scrub_workspace_instance.py:11 | the padded digits spell the number back |
| WorkspaceIds.Stamp | scrub_workspace_instance.py:11 | %Y%m%d%H%M%S gives 14 characters |
| WorkspaceIds.WorkspaceIdentifier | scrub_workspace_instance.py:11 | "scrubber-workspace-" followed by 14 digits |
| WorkspaceIds.IdentifierRoundTrip | scrub_workspace_instance.py:11 | the timestamp can be read back from the identifier |
| WorkspaceIds.IdentifiersDistinct | scrub_workspace_instance.py:11 | workspaces made in different seconds get different identifiers |
| DbNames.NormaliseStrips | datascrubber/task_managers/postgresql.py:68-70 | a trailing db_suffix is removed |
| DbNames.NormaliseKeepsOthers | datascrubber/task_managers/postgresql.py:68-70 | a name not ending in the suffix is left unchanged |
| DbNames.NormaliseOnce | datascrubber/task_managers/postgresql.py:68-70 | the suffix is stripped once, not repeatedly |
| DbNames.RealnamesKeys | datascrubber/task_managers/postgresql.py:69-71 | the keys are exactly the normalised names, and each maps to a listed name with that normal form |
| DbNames.RealnamesLaterWins | datascrubber/task_managers/postgresql.py:69-71 | when two names normalise alike, the later one in the list wins |
| DbNames.FillRealnames | datascrubber/task_managers/postgresql.py:68-71 | the loop builds exactly that map |
| DbNames.ViableTasks | datascrubber/task_managers/postgresql.py:73-81 | a task is viable iff it is in scrub_functions and in db_realnames |
| DbNames.ViableTasksDistinct | datascrubber/task_managers/postgresql.py:75-78 | like the set it comes from, the list has no repeats |
| PostgresqlTasks.Postgresql.constructor | datascrubber/task_managers/postgresql.py:15-24 | empty db_realnames, viable_tasks None, the given workspace and suffix |
| PostgresqlTasks.Postgresql.New | datascrubber/task_managers/postgresql.py:15-26 | on success db_realnames is built from the databases listed through the 'postgres' database; only harmless requests are sent |
| PostgresqlTasks.Postgresql.GetConnection | datascrubber/task_managers/postgresql.py:28-48 | an autocommit connection to the named database, through the (lazily created) workspace instance's endpoint |
| PostgresqlTasks.Postgresql.DiscoverAvailableDbs | datascrubber/task_managers/postgresql.py:50-71 | connects to 'postgres', lists the databases, and fills the later-wins map |
| PostgresqlTasks.Postgresql.GetViableTasks | datascrubber/task_managers/postgresql.py:73-81 | the intersection of the catalogue with the db_realnames keys, memoised |
| PostgresqlTasks.Postgresql.RunTask | datascrubber/task_managers/postgresql.py:83-101 | a non-viable task gives (False, message) with no connection; a viable one connects autocommit to db_realnames[task] and gives (True, None) iff its body did not raise; no commit or rollback |
| MysqlTasks.Mysql.constructor | datascrubber/task_managers/mysql.py:12-21 | empty db_realnames, viable_tasks None, the given workspace and suffix |
| MysqlTasks.Mysql.New | datascrubber/task_managers/mysql.py:12-23 | on success db_realnames is built from the databases listed through information_schema |
| MysqlTasks.Mysql.GetConnection | datascrubber/task_managers/mysql.py:25-44 | a (non-autocommit) connection to the named database, through the workspace instance's endpoint |
| MysqlTasks.Mysql.DiscoverAvailableDbs | datascrubber/task_managers/mysql.py:46-70 | connects to information_schema, lists the databases, and fills the later-wins map |
| MysqlTasks.Mysql.GetViableTasks | datascrubber/task_managers/mysql.py:72-80 | the intersection of {'whitehall'} with the db_realnames keys, memoised |
| MysqlTasks.Mysql.RunTask | datascrubber/task_managers/mysql.py:82-106 | a non-viable task gives (False, message) with no connection; otherwise: connect, body, then commit on success or rollback on failure, then close the cursor and then the connection; (True, None) iff the body returned |
| MysqlTasks.CommitOrRollback | datascrubber/task_managers/mysql.py:93-106 | exactly one of commit and rollback happens per run, commit iff success, and the connection is closed last |
| LegacyMysqlTasks.MysqlScrubber.constructor | datascrubber/mysql/__init__.py:11-19 | empty db_realnames, viable_tasks None, the given workspace and suffix |
| LegacyMysqlTasks.MysqlScrubber.New | datascrubber/mysql/__init__.py:11-21 | on success db_realnames is built from the databases listed through information_schema |
| LegacyMysqlTasks.MysqlScrubber.GetConnection | datascrubber/mysql/__init__.py:23-42 | a connection to the named database, through the workspace instance's endpoint |
| LegacyMysqlTasks.MysqlScrubber.DiscoverAvailableDbs | datascrubber/mysql/__init__.py:44-68 | connects to information_schema, lists the databases, and fills the later-wins map |
| LegacyMysqlTasks.MysqlScrubber.GetViableTasks | datascrubber/mysql/__init__.py:70-78 | the intersection of {'whitehall'} with the db_realnames keys, memoised |
| LegacyMysqlTasks.MysqlScrubber.RunTask | datascrubber/mysql/__init__.py:80-91 | a non-viable task returns None with no connection; a viable one returns the body's own result or its exception, with no commit, rollback or close |
| LegacyFinder.DiscoverLegacy | snapshot_finder.py:53-62 | a found instance is listed, and has an Endpoint at the resolved address |
| LegacyFinder.DiscoverLegacyAgrees | snapshot_finder.py:55-59 | where every record has an Endpoint, the earlier search gives what the later one does |
| LegacyFinder.DiscoverLegacyErrors | snapshot_finder.py:53-62 | the earlier search fails only for want of a match, on a record without an Endpoint, or with the address lookup's error |
| LegacyFinder.RdsSnapshotFinder.constructor | snapshot_finder.py:13-22 | the given dbms, hostname and identifiers; nothing memoised |
| LegacyFinder.RdsSnapshotFinder.New | snapshot_finder.py:13-23 | fails iff the dbms is not a key of hostname_defaults |
| LegacyFinder.RdsSnapshotFinder.GetHostname | snapshot_finder.py:74-78 | an explicit hostname, else mysql-primary or postgresql-primary, memoised |
| LegacyFinder.RdsSnapshotFinder.GetRdsEndpointAddress | snapshot_finder.py:80-94 | a memoised address is returned with no lookup; otherwise one DNS query, the rds.amazonaws.com. check, and the address memoised |
| LegacyFinder.RdsSnapshotFinder.GetSourceInstance | snapshot_finder.py:50-72 | memoised; an explicit id gives the first describe result or raises; otherwise the earlier first-match search |
| LegacyFinder.RdsSnapshotFinder.SearchByEndpoint | snapshot_finder.py:53-62 | the for/break loop returns what the earlier search specifies |
| LegacyFinder.RdsSnapshotFinder.GetSourceInstanceIdentifier | snapshot_finder.py:43-48 | the explicit id if given, else the found instance's DBInstanceIdentifier, memoised; a discovery error is passed on unchanged |
| LegacyFinder.RdsSnapshotFinder.GetSnapshotIdentifier | snapshot_finder.py:25-41 | an explicit id unchanged; otherwise it succeeds iff the source instance is named and has snapshots, all of them timed; a failure to name it is passed on unchanged, no snapshots is NoSnapshotsFound, and an untimed one is KeyError('SnapshotCreateTime'); on success a snapshot with maximal SnapshotCreateTime, first listed on ties; memoised |
| LegacyWorkspace.ScrubWorkspaceInstance.constructor | scrub_workspace_instance.py:8-14 | identifier from the timestamp, the given password, no instance |
| LegacyWorkspace.ScrubWorkspaceInstance.New | scrub_workspace_instance.py:8-14 | the source instance is looked up, and its error is the constructor's; only lookups are sent |
| LegacyWorkspace.ScrubWorkspaceInstance.GetEndpoint | scrub_workspace_instance.py:16-18 | the Endpoint of the held or newly created instance; KeyError when the record has none |
| LegacyWorkspace.ScrubWorkspaceInstance.GetInstance | scrub_workspace_instance.py:20-24 | creates only while no instance is held; otherwise returns the held one with no request |
| LegacyWorkspace.ScrubWorkspaceInstance.CreateInstance | scrub_workspace_instance.py:38-60 | one restore with the finder's snapshot id and the source's subnet group, then at most 120 polls; raises with the last status observed |
| LegacyWorkspace.ScrubWorkspaceInstance.PollUntilAvailable | scrub_workspace_instance.py:48-60 | the exact requests: describe, 2 s sleep, describe, 2 s sleep, …; returns at the first 'available' describe, with no sleep after it; otherwise fails after exactly 120 describes and 120 sleeps, reporting the last status |
| LegacyWorkspace.ScrubWorkspaceInstance.Cleanup | scrub_workspace_instance.py:26-32 | does nothing with no instance; with one it raises TypeError, as written, and sends nothing |

## Left out

- Threads (`datascrubber/cli.py:94-98`) and the per-thread boto3 session: each worker is modelled as an independent sequential run.
- `parse_arguments`, `configure_logging`, `main.py` and all logging: this is command-line and logging plumbing with no gating logic; the parsed arguments are the `Cli.Args` value.
- The SQL task bodies (`datascrubber/tasks.py` and the per-application task files): each is an opaque procedure that may raise. The oracle's `bodyRaises` says whether it does. Its return value is abstracted to `()`.
- `export_to_s3` (`datascrubber/task_managers/postgresql.py:103-153`): shell, subprocess, environment and S3 I/O.
- Wire protocols of boto3, dnspython, `mysql.connector` and `psycopg2`: each call is one logged event and one oracle answer. A failing RDS call, a failing connection and a malformed answer are not modelled. The only control-plane failure modelled is the share request.
- The SQL that lists databases, including its exclusion lists: the oracle's `databases` is the answer after exclusion.
- `random.getrandbits` and `datetime.now`: the password and the creation timestamp are inputs. `time.time` and `time.sleep` are the oracle's clock, which advances only by sleeping.
- `final_snapshot_identifier` is read by `datascrubber/cli.py:276,279` but set nowhere in the modelled code; it is an input of the workspace.
- The order of `list(set(...) & set(...))` is unspecified in Python: the model lists viable tasks in catalogue order. It promises only the set and the absence of repeats.
- The in-place `sort` of the snapshot list: the model computes the head of the sorted list without rearranging the answer.
- `re.sub('{suffix}$', ...)` treats the suffix as a regular expression: the model reads it literally. It keeps `$`'s match before a final newline.
- Domain-name case folding is ASCII only, and timestamps cover the years 1000-9999, where `%Y` gives exactly four digits.
- The `icinga_host` parameter of `Mysql` and the `get_dsn` stub of the earlier workspace: neither is used.
- Cli.Worker: states which tasks ran through the body counter (`FailFast`), not through the request log; Cli.RunTasks states it on the log.
- Cli.LoopAsWritten: its own contract only bounds the number of tasks run; what it computes for the task managers' answers is stated by Cli.TupleGateIgnoresFailure.
- Cli.ScrubWorkspace: its no-leak clauses hold only for a timeout of at least zero. With a negative timeout the restore is sent, no poll runs, no record is held, and the handler's `cleanup` deletes nothing; `worker` always uses 90 minutes, so Cli.Worker states them outright.
- Finder.EndpointAddressFor: its own contract only classifies the errors; the domain check and the address text are stated by Finder.EndpointAddressInRdsDomain and DnsNames.AcceptedAddress.

## Findings

| source | as written | input that shows it | evidently intended | confidence | as-written member | corrected member |
|---|---|---|---|---|---|---|
| datascrubber/cli.py:262 | `success` is bound to the `(success, error)` tuple `run_task` returns, and a non-empty tuple is always truthy | one viable task whose body raises: `run_task` returns `(False, e)` and the loop does not stop. Once the two TypeErrors on the way are fixed (the `create_final_snapshot` keyword of `cleanup`, `datascrubber/__init__.py:55`, and the `boto3_session` arguments of `datascrubber/cli.py:240-246`), `cleanup(create_final_snapshot=(False, e))` keeps and shares the snapshot | the first component is the success flag, so no final snapshot is kept after a failed task | high, not executed | Cli.TupleGateIgnoresFailure | Cli.Worker |
| datascrubber/__init__.py:55-62 | `cleanup` takes no `create_final_snapshot` argument, calls the string `self.instance_identifier()` and the missing `self.final_snapshot_identifier()` | `cleanup(create_final_snapshot=True)` from `datascrubber/cli.py:271` on a created workspace raises TypeError, so the workspace instance is never deleted | delete the instance if one exists, with a final snapshot exactly when asked | high, not executed | Workspace.CleanupAsWrittenLeaks | Workspace.ScrubWorkspaceInstance.Cleanup |
| datascrubber/__init__.py:257-266 | `self.hostname_defaults` is read, but this class defines no such attribute | `worker('mysql', snapshot='snap-1')`, with no hostname and no instance: building the workspace calls get_source_instance, which reaches get_hostname and raises AttributeError | fall back to `mysql-primary` or `postgresql-primary`, as `snapshot_finder.py:7-10` does | high, not executed | Finder.MissingDefaultsBreakDiscovery | Finder.RdsSnapshotFinder.GetHostname |
| datascrubber/__init__.py:195-198 | the sort key is `x.get('SnapshotCreateTime', 0)`, which compares a datetime with the int 0 | two snapshots, one still being created (no SnapshotCreateTime) and one finished: the sort raises TypeError | untimed snapshots rank below every timed one, and the newest finished snapshot is chosen | medium, not executed | SnapshotChoice.UntimedSnapshotBreaksChoice | Finder.RdsSnapshotFinder.GetSnapshotIdentifier |
