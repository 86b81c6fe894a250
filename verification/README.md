# aws-power-toggle, modelled in Dafny

aws-power-toggle is a small web service. It starts and stops whole "environments" of AWS machines. An environment is the set of EC2 instances and auto-scaling groups (ASGs) that share an environment tag. The server:

- keeps an in-memory cache of environments that a poller rebuilds from the provider;
- aggregates each environment's counts, vCPU, memory and composite state;
- accrues what running machines cost and what the machines it stopped itself saved;
- powers an environment or a single instance on and off behind a safety ceiling.

A mock mode does the same operations on the cache alone, starting from a built-in fixture. An earlier single-region server (main.go) and the web client's Vuex store are modelled next to it.

The model is functional:

- The cache is a `seq<Environment>`.
- The set of ids the server stopped itself is a `set<string>`.
- Bills are `map<string, real>`.
- Every operation is a pure function from the server state to a `Step`: its error, the AWS requests it issued, and the state after it.
- AWS is never called. A request is a `Call` value, and whether it succeeds is a parameter (`aws: Call -> bool`).
- Describe-call results are parameters too, region by region.
- The clock (`now`), the mock's random delay (`delayOk`), the SHA-1 digest (`sha1`, any function returning 40 lower-case hex characters), the instance-type catalogue and the fixture are parameters.

| file | module | what |
|---|---|---|
| wrappers.dfy | Wrappers | `Option`, `Result`, `Outcome` and the error kinds |
| types.dfy | Types | rows (`VM`), `Environment`, `Config`, state constants |
| identity.dfy | Identity | `ComputeID`: join, digest, 12-character prefix |
| instancedetails.dfy | InstanceDetails | first-match catalogue lookup |
| filter.dfy | Filter | admission predicates, tag scans, normalisation of provider records, region polling |
| aggregate.dfy | Aggregate | `updateEnvDetails`: counts, totals, state precedence, ids, bills |
| cache.dfy | Cache | `addInstance` grouping and the rebuild loop |
| billing.dfy | Billing | toggled-off set, `calculateEnvBills` |
| lookup.dfy | Lookup | `getInstanceIDs`, `getASGs`, `getEnvironmentByID`, `getAWSInstanceID`, client regions |
| serverstate.dfy | ServerState | server state, recorded calls, `Step` |
| mock.dfy | Mock | mock power operations and both mock refreshes |
| controller.dfy | Controller | `toggleInstances`, `toggleASGs`, `shutdownEnv`, `startupEnv`, `toggleInstance` |
| refresh.dfy | Refresh | `refreshTable` |
| fixture.dfy | Fixture | mockenv6 and mockenv7 of the fixture, and the handler test vectors |
| legacy.dfy | Legacy | the single-region server of main.go |
| store.dfy | Store | getters and mutations of the Vuex store |

## Model

| member | source | states |
|---|---|---|
| Identity.ComputeID | backend/common.go:10-14 | the id is 12 lower-case hex characters and a prefix of the digest of the parts joined with no separator; the legacy copy in common.go:10-14 is the same, so one definition serves both |
| Identity.SplitArgument | backend/common.go:11 | splitting or merging arguments never changes the id |
| Identity.NoSeparatorCollision | backend/common.go:11-13 | ("aws", region, name) and ("aws", region+name, "") get the same id |
| Identity.TestVectors | backend/common_test.go:8-26 | given the digest's values on the test strings, the ids are the expected ones and the case-differing inputs get different ids |
| InstanceDetails.GetInstanceTypeDetails | backend/instancedetails.go:18-27 | found iff some entry has exactly that type; when found, the details are the first match; otherwise zero details |
| InstanceDetails.LookupIsFirstMatch | backend/instancedetails.go:19-24 | whatever follows the first match, the lookup returns it |
| Filter.CheckInstanceType | backend/aws.go:230-239 | true exactly when the type is not on the ignore list; the legacy copy in main.go:96-105 is the same predicate |
| Filter.ValidateEnvName | backend/aws.go:244-257 | true exactly when the name is non-empty and not on the ignore list; the legacy copy in main.go:110-123 is the same predicate |
| Filter.ScanASGTags | backend/aws.go:313-341 | valid iff a power-toggle-enabled=true tag is present; environment is the last non-empty environment tag; state is "" without that tag, else running with members and positive desired capacity, else stopped; the fields fixed before the loop are untouched |
| Filter.ScanASGVCPU | backend/aws.go:315-324 | with capacity, the vCPU is the members' catalogue vCPU once per power-toggle-enabled=true tag; without capacity, zero |
| Filter.ScanASGMemory | backend/aws.go:315-323 | with capacity, the memory is the members' catalogue memory once per power-toggle-enabled=true tag; without capacity, zero |
| Filter.ScanASGPrice | backend/aws.go:318-331 | with capacity and the enabling tag, the price is that of the last member priced in the region (zero if none is); otherwise zero |
| Filter.NormalizeASG | backend/aws.go:298-345 | a group is kept iff tagged power-toggle-enabled=true with a valid environment name; a kept group is exactly the row the tag scan builds: an ASG row of that region, running iff it has members and positive desired capacity |
| Filter.NormalizeEC2 | backend/aws.go:376-415 | an instance carrying the auto-scaling group tag is skipped; otherwise it is kept iff its environment name is valid, with id, state and region copied; a catalogued type gives the catalogue's vCPU, memory and the price for the region (zero when the region is unpriced), an unknown type gives zeros |
| Filter.Collect | backend/aws.go:298-345 | the loop over one region's records keeps exactly the values the normalisation admits |
| Filter.PollRegions | backend/aws.go:287-297 | the region loop succeeds iff every region answered, a failure is a provider error, and a success holds exactly what is admitted from every region |
| Filter.PollForASG | backend/aws.go:287-351 | the poll succeeds iff every region answered; a success holds exactly the admitted groups of every region |
| Filter.PollForEC2 | backend/aws.go:354-422 | the poll succeeds iff every region answered; a success holds exactly the admitted instances of every region |
| Filter.NormalizeASGSize | backend/aws.go:313-341 | a kept group's vCPU, memory and price are the ones the tag scan computes from its members, capacity and region |
| Filter.CollectAppend | backend/aws.go:298-345 | collecting two runs of records one after the other gives the first run's values followed by the second's |
| Filter.CollectInOrder | backend/aws.go:298-345 | the loop keeps the admitted values in the order of the records, each once per record: it equals the front-to-back reference |
| Filter.PollRegionsInOrder | backend/aws.go:287-297 | when every region answered, the result is each region's admitted values in region order, then record order |
| Filter.PollForASGInOrder | backend/aws.go:287-351 | when every region answered, the groups come region by region in the order the provider listed them, with nothing merged or repeated |
| Filter.PollForEC2InOrder | backend/aws.go:354-422 | when every region answered, the instances come region by region in the order the provider listed them, with nothing merged or repeated |
| Aggregate.TallyRows | backend/aws.go:148-177 | the single counting pass yields the running and stopped counts and the vCPU and memory sums of the rows |
| Aggregate.UpdateEnv | backend/aws.go:126-191 | every aggregate of the environment is the one its rows call for, the ids are recomputed, and the bills are attached only with billing on |
| Aggregate.UpdateEnvDetails | backend/aws.go:126-191 | every environment of the table ends aggregated and relabelled, with the table's length kept |
| Aggregate.ClassifyMatchesRows | backend/aws.go:179-189 | the precedence running, stopped, mixed, changing gives exactly the state the rows call for, row by row |
| Aggregate.CountBoth | backend/aws.go:179-189 | running plus stopped covers every row iff no row is in another state |
| Cache.AddInstance | backend/aws.go:260-283 | a row that fails the filter changes nothing; an admitted row is appended under its name or opens a new environment with its region; names stay unique and the grouping shape is kept |
| Cache.Build | backend/aws.go:461-466 | the rebuild loop keeps names unique and the grouping shape |
| Cache.BuildHasEnv | backend/aws.go:461-466 | after the rebuild an environment named n exists iff one did before or an admitted row carries n |
| Cache.BuildRowsNamed | backend/aws.go:268-282 | every admitted row is filed once, in discovery order, after the rows already held under its name: none lost, none duplicated |
| Cache.BuildUnbilled | backend/aws.go:268-282 | the grouping loop opens environments with no bills and never attaches any |
| Cache.GroupingFromEmpty | backend/aws.go:461-466 | rebuilt from empty, each environment holds exactly the admitted rows of its name |
| Cache.AdmittedMembers | backend/aws.go:261-267 | the filter keeps exactly the rows it admits: ASG rows always, plain rows unless their type is ignored or they are terminated |
| Billing.PutToggledOff | backend/aws.go:603-609 | the set after insertion holds exactly the old ids and the given ones |
| Billing.DeleteToggledOff | backend/aws.go:611-617 | the set after removal holds exactly the old ids that were not given |
| Billing.DeleteUndoesPut | backend/aws.go:603-617 | removing ids after inserting them gives the same result as removing them alone, and restores the set when none were in it |
| Billing.EnvBillsMatchesReference | backend/aws.go:206-219 | the single pass charges price times hours for exactly the running rows and credits it for exactly the stopped rows the server stopped |
| Billing.AccruedMatchesRunning | backend/aws.go:208-211 | the accrued part of the single pass is price times hours summed over exactly the running rows |
| Billing.SavedMatchesSavedRows | backend/aws.go:208-216 | the saved part is price times hours summed over exactly the stopped rows the server stopped |
| Billing.OtherStatesFree | backend/aws.go:206-219 | rows in any other state contribute nothing |
| Billing.StoppedByOthersSavesNothing | backend/aws.go:212-216 | a stopped row the server did not stop adds no saving |
| Billing.AccrueAll | backend/aws.go:203-224 | each environment id's accrued and saved entries grow by its rows' bill, and the totals grow by the whole table's bill |
| Billing.CalculateEnvBills | backend/aws.go:195-226 | the bills grow by the hours since the previous refresh, the saved ledger gains a key for every environment id of the table and loses none, and the refresh time moves to now |
| Billing.UniqueIdCharge | backend/aws.go:203-224 | with unique environment ids, an environment is charged its own rows' bill |
| Billing.AbsentIdUntouched | backend/aws.go:203-224 | an id the table does not carry is charged nothing |
| Lookup.GetInstanceIDs | backend/aws.go:475-486 | exactly the plain instance ids in that state of the environments with that id |
| Lookup.GetASGs | backend/aws.go:490-502 | exactly the ASG names in that state, with their summed member counts |
| Lookup.PlainAndASGPartition | backend/aws.go:475-502 | every row of a state lands in exactly one of the plain ids and the ASG names |
| Lookup.GetEnvironmentByID | backend/aws.go:797-804 | none iff no environment has the id; otherwise an environment with that id |
| Lookup.GetAWSInstanceID | backend/aws.go:851-865 | no row with the id gives ""; otherwise the answer is the group name or the instance id of some row carrying the id (which may itself be "") |
| Lookup.LastHolderWins | backend/aws.go:852-862 | with a row carrying the id, the answer comes from the first such row of the last environment that holds one, and no later environment holds one |
| Lookup.UniqueRowId | backend/aws.go:851-865 | when one row alone carries the id, the lookup returns that row's group name or instance id |
| Lookup.InstanceRegion | backend/aws.go:827-836 | none iff no row has the id; otherwise the region of the first matching row, scanning environments and their rows in order |
| Lookup.ASGRegion | backend/aws.go:839-848 | none iff no ASG row has the name; otherwise the region of the first matching group, scanning environments and their rows in order |
| Controller.ToggleInstances | backend/aws.go:505-549 | an empty list or an unsupported state fails with no request; otherwise one start or stop request for all ids; a success marks the ids on stop and unmarks them on start when billing is on |
| Controller.StopThenStartInstances | backend/aws.go:505-549 | stopping then starting the same ids, both accepted, leaves none of them marked |
| Controller.ToggleASGs | backend/aws.go:552-601 | an empty list or an unsupported state fails with no request; otherwise one capacity update per group, the last answer decides the error, and any success marks every name when billing is on |
| Controller.StartingGroupsMarksThem | backend/aws.go:573-576 | starting groups marks them toggled off, exactly as stopping does |
| Controller.ShutdownEnv | backend/aws.go:620-686 | an unknown id passes with no request; more running instances (plain ids plus group members) than the ceiling refuses with no request; otherwise the running plain ids and groups are stopped |
| Controller.ShutdownWithinCeiling | backend/aws.go:633-643 | any shutdown that sends a request counted no more instances than the ceiling |
| Controller.ShutdownOnlyStops | backend/aws.go:645-659 | every request a real shutdown sends is a stop or a scale to zero |
| Controller.StartupEnv | backend/aws.go:689-748 | an unknown id passes with no request; otherwise the stopped plain ids and groups are started, with no ceiling |
| Controller.ToggleInstance | backend/aws.go:751-794 | an unsupported state is refused before any lookup; otherwise the outcome is that of the provider id the internal id resolves to |
| Controller.ToggleAwsId | backend/aws.go:762-793 | at most one request and only the toggled-off set may change; an "i-" id is exactly the single-instance toggle in the region of the first row carrying the internal id, another non-empty id is exactly the group toggle in the region of the first group of that name, and "" is the no-mapping error with no request |
| Controller.ToggleOneInstance | backend/aws.go:763-776 | no region, or a region without a client, is an error with no request; otherwise exactly one start or stop request naming that one instance in its region, it passes iff the provider accepts it, and only an accepted toggle with experimental features on changes the toggled-off set: a stop adds the id, a start removes it |
| Controller.ToggleOneASG | backend/aws.go:777-788 | no region, or a region without a client, is an error with no request; otherwise exactly one capacity update of that group in its region, it passes iff the provider accepts it, and only an accepted update with experimental features on adds the group to the toggled-off set, whether starting or stopping |
| Controller.ToggleUniqueInstance | backend/aws.go:751-794 | stopping the one plain instance with the id sends one stop for it, and an accepted stop marks it when billing is on |
| Refresh.RefreshTable | backend/aws.go:425-471 | billing runs first; a failed poll keeps the cache, a failed instance poll being reported as such; a successful one replaces it with the grouped, aggregated rows of both polls, each environment carrying the bills of the just-billed ledger under its id when experimental features are on and none otherwise; the mock mode delegates |
| Refresh.PollAndRebuild | backend/aws.go:425-471 | no request is sent and the toggled-off set is kept; billing runs first; it passes iff no enabled poll failed, a failed group poll and a failed instance poll are each reported as such, a failure keeps the table, and a success installs the regrouped rows |
| Refresh.Regroup | backend/aws.go:461-466 | the installed table is grouped, one environment per environment of the rebuild, each aggregated and relabelled, with the ledger's bills for its id attached exactly when experimental features are on |
| Refresh.RefreshGrouping | backend/aws.go:445-466 | after a successful refresh each environment holds its admitted groups, then its admitted instances, in discovery order |
| Mock.PowerFirstEnv | backend/mock.go:64-71 | only the first environment with the id changes, and every row of it takes the new state |
| Mock.MockShutdownEnv | backend/mock.go:57-83 | more running plain ids than the ceiling is the safety error; none is an error; otherwise every row of the environment is stopped and the ids are marked with billing on; a failure changes nothing |
| Mock.MockStartupEnv | backend/mock.go:86-109 | no ceiling; with no stopped plain id it fails and changes nothing; otherwise every row is started and the ids are unmarked with billing on |
| Mock.MockShutdownThenStartup | backend/mock.go:57-109 | a successful mock shutdown followed by a startup succeeds, leaves every row running and no plain id marked |
| Mock.MockToggleInstance | backend/mock.go:112-148 | an unsupported state is refused first; for start or stop it passes iff the internal id resolves to a provider id; then the first matching row of every environment takes the new state and its instance id moves in or out of the set |
| Mock.MockToggleUnique | backend/mock.go:112-148 | with the id unique, exactly that row changes state and only its instance id moves |
| Mock.KeepValidNames | backend/mock.go:29-49 | the rebuild keeps exactly the rows whose environment name is valid |
| Mock.Rebuild | backend/mock.go:29-49 | the rebuilt table is grouped |
| Mock.RebuildKeepsOnlyValid | backend/mockdata.go:29-47 | every row of the rebuilt table is an enriched row with a valid name that the filter admits |
| Mock.RebuildLosesNothing | backend/mockdata.go:29-47 | every enriched, admitted row with a valid name lands in the environment of its name |
| Mock.MockRefreshTable | backend/mockdata.go:9-53 | a failed delay changes nothing; the fixture is loaded only into an empty cache; with experimental features on, the ledger is billed and the table is the rebuilt rows (valid names only, regrouped) aggregated and relabelled one environment each, carrying the new ledger's bills; with them off, the loaded table itself is aggregated and relabelled, its bills kept |
| Mock.MockRefreshTableFile | backend/mock.go:12-54 | loads the fixture into an empty cache, bills with experimental features on, and always installs the rebuild of the loaded rows, priced in ca-central-1, aggregated and relabelled one environment each, with the new ledger's bills attached exactly when experimental features are on |
| Fixture.FixtureIsAggregated | backend/mockdata.go:2669-2872 | mockenv6 (10 rows, 30 vCPU, 94 GB) and mockenv7 (6 rows, 12 vCPU, 24 GB) carry the counts, totals and "stopped" state their rows call for |
| Fixture.StartThenStopPasses | backend/mock.go:57-109 | starting an environment with its own id and a stopped plain row succeeds, and stopping it afterwards succeeds within the ceiling |
| Fixture.ToggleTwicePasses | backend/mock.go:112-148 | an instance whose internal id is on one row with a provider id can be started and then stopped |
| Fixture.StartStopEnvVector | backend/handlers_test.go:42-43 | start then stop of environment 4f9f1afb29f1 both succeed |
| Fixture.UnknownEnvVector | backend/handlers_test.go:44-45 | start and stop of an unknown environment fail |
| Fixture.StartStopInstanceVector | backend/handlers_test.go:46-47 | start then stop of instance 906d663b6ecd both succeed |
| Fixture.UnknownInstanceVector | backend/handlers_test.go:48-49 | start and stop of an unknown instance fail |
| Legacy.UpdateEnv | main.go:76-92 | changing iff some row is neither running nor stopped; else stopped iff some row is stopped; else running; the totals grow, without reset, by the rows up to and including the first transitional row |
| Legacy.UpdateEnvDetails | main.go:76-92 | every environment is updated as above |
| Legacy.AllVisitedWhenSettled | main.go:79-89 | without a transitional row, the totals cover every row |
| Legacy.AddInstance | main.go:126-145 | only an ignored type is dropped; the row is appended to every environment with its name or opens a new one; names stay unique |
| Legacy.Normalize | main.go:175-190 | a row takes the instance's id, state and type, the last non-empty environment tag, the last Name tag, and the catalogue's vCPU and memory for a catalogued type (zero when unknown) |
| Legacy.Rebuild | main.go:172-195 | the rebuilt table has unique environment names, and every environment starts with zero totals, as addInstance opens each one (main.go:138-143) |
| Legacy.RebuildHasEnv | main.go:174-195 | after the rebuild an environment named n exists iff some instance with a valid name and a kept type carries n |
| Legacy.RefreshTable | main.go:148-199 | a describe error is returned before the cache is cleared; otherwise the table is rebuilt from empty and updated |
| Legacy.CacheAfterRefresh | main.go:165-172 | a failed describe call leaves the cached table as it was |
| Legacy.RefreshTotalsCoverSettledRows | main.go:172-196 | after a refresh, an environment without transitional rows has vCPU and memory totals equal to the sums over all of its rows |
| Legacy.GetInstanceIds | main.go:202-211 | exactly the ids of every row of the environments with the name, in any state, one entry per row: the length is the rows those environments hold together |
| Legacy.ShutdownEnv | main.go:214-244 | more ids than the ceiling is the safety error with no request; no ids is an error; otherwise one stop request for all ids, which decides the error |
| Legacy.StartupEnv | main.go:247-274 | no ceiling; no ids is an error; otherwise one start request for all ids, which decides the error |
| Legacy.ShutdownWithinCeiling | main.go:221-233 | a legacy shutdown never sends a request naming more ids than the ceiling |
| Legacy.CountRunningAll | main.go:280-284 | the running count equals the row count iff every row is running |
| Legacy.GetEnvSummary | main.go:277-295 | one summary per environment, in order, with the running count, the row count, and the totals and state copied |
| Legacy.SummaryAgreesWithState | main.go:76-92 | after the update, a summary shows every instance running iff the state is running |
| Store.FindEnv | frontend/src/store/getters.js:6 | none iff no environment has the id; otherwise the first position that has it |
| Store.IsEnvironmentStateStatus | frontend/src/store/getters.js:5-11 | true iff the first environment with the id has exactly that state; false when there is none |
| Store.AtMostOneStatus | frontend/src/store/getters.js:13-16 | at most one of the running, stopped, mixed and changing getters holds for an id |
| Store.UnknownEnvHasNoStatus | frontend/src/store/getters.js:7-9 | with no environment of that id every state getter is false |
| Store.SetVersion | frontend/src/store/mutations.js:1-3 | the version is the new one and nothing else changes |
| Store.SetEnvironments | frontend/src/store/mutations.js:5-9 | the list and both bill totals come from the payload and nothing else changes |
| Store.SetEnvironment | frontend/src/store/mutations.js:11-13 | the length is kept, every entry with the id becomes the new data, the others stay, and nothing else changes |
| Store.SetEnvironmentUpdatesStatus | frontend/src/store/mutations.js:11-13 | replacing an environment by data with the same id moves the state getters to the data's state |
| Store.SetEnvironmentLoading | frontend/src/store/mutations.js:15-20 | the loading getter answers the flag for that id and is unchanged for every other id |
| Store.SetError | frontend/src/store/mutations.js:22-24 | the error is the new one and nothing else changes |
| Store.SetIsLoading | frontend/src/store/mutations.js:26-28 | the loading getter answers the flag and nothing else changes |
| Store.InstanceLoadingNeverSet | frontend/src/store/mutations.js:1-28 | no sequence of commits changes what the instance-loading getter answers |
| Store.StartInstanceShowsNothing | frontend/src/store/actions.js:67-68 | as written, the loading flag startInstance commits never shows |
| Store.StartInstanceShowsLoading | frontend/src/store/actions.js:67-68 | with setInstanceLoading registered, startInstance's first commit marks the instance loading |

## Left out

- AWS requests, client construction and credentials: each request is a `Call`, and its success is the parameter `aws`. A client exists for a region iff the region is in `cfg.regions`.
- The mock's random delay and error: the parameter `delayOk`. The clock: the parameter `now`.
- SHA-1: the parameter `sha1`, any function whose results are 40 lower-case hex characters. The test vectors become preconditions.
- Locks, the poller's ticker, and concurrent requests: every operation runs alone.
- Float arithmetic: money and memory are `real`. float64 and float32 rounding, `strconv.ParseFloat` of price strings and `%.02f` formatting are not modelled.
- Billing.CalculateEnvBills: hours are nanoseconds divided by 3.6e12 exactly, not float64 division of a Duration.
- Legacy.UpdateEnv: memory totals are `real`, not float32 sums.
- Filter.ScanASGTags: an ASG's price is the last priced member's, as the code overwrites it. The order of members is the provider's, and it is a parameter.
- The instance-type catalogue and prices: a parameter (`catalogue`). The table's data is not included.
- The bulk of the mock fixture: only mockenv6 and mockenv7 are written out. Both mock refreshes take the fixture as a parameter.
- Loading the fixture from JSON, and the fatal exit when that fails: the fixture is already a table.
- Slice aliasing in the mock rebuild (`cachedTable[:0]` while ranging over the old slice): the rebuild builds a fresh list.
- Calls through a nil regional client: these panic in Go. Only toggleInstance checks for a missing client (backend/aws.go:766-770, 779-783); the model sends no request there and reports the error. shutdownEnv and startupEnv pass the environment's client on unchecked (backend/aws.go:807-824). Controller.PowerBoth therefore assumes that the environment's region has a client. Every polled table meets that assumption, because a row carries the region of the client that found it.
- HTTP handlers, router, server, Slack notifier, configuration, logging, version: I/O and wiring. The handler test's expected codes appear as the Fixture vectors instead.
- backend/backend.go: it references names the package does not define.
- backend/mock.go and backend/mockdata.go each declare mockRefreshTable (backend/mock.go:12, backend/mockdata.go:9) in the same package, so the two cannot build together. Both are modelled, as Mock.MockRefreshTableFile and Mock.MockRefreshTable.
- backend/mock.go reads `ExperimentalEnabled` (backend/mock.go:26, 73, 99, 129, 135), a name the package never declares; only `experimentalEnabled` exists (backend/aws.go:72). Mock.MockShutdownEnv, Mock.MockStartupEnv, Mock.MockToggleInstance and Mock.MockRefreshTableFile read it as `cfg.experimentalEnabled`, the billing switch it evidently means.
- The root mock.go: it calls functions main.go does not define. The legacy `MOCK_ENABLED` is the constant false, so the legacy mock path is not modelled.
- Legacy.RefreshTable: the describe call's server-side tag filter is the provider's concern. The model receives the filtered instances.
- Legacy.Normalize: the legacy server's own catalogue file is not part of this model. The same first-match lookup is used.
- setInstanceStateStatus: the instance actions commit it too, and mutations.js does not define it either. The environment view carries no instances, so what it would change is not modelled; the store as written ignores it like any unregistered name.
- The web client's actions (promise and HTTP plumbing), DOM code and components: only the commit sequence that startInstance opens with is modelled, for the finding below.
- Store.IsAppLoading, Store.IsEnvironmentLoading, Store.IsInstanceLoading: the store never registers its getters (frontend/src/store/index.js:9-17). Its initial state lacks the loading maps. The model treats a missing map as empty instead of reading from undefined.

## Findings

| source | as written | input that shows it | evidently intended | confidence | as-written member | corrected member |
|---|---|---|---|---|---|---|
| frontend/src/store/mutations.js:1-28 | defines no setInstanceLoading mutation. The startInstance and stopInstance actions commit it (actions.js:68, 76, 81, 89), so Vuex ignores the commit, and isInstanceLoading (getters.js:3) can never become true | startInstance for any instance id | the instance shows as loading while its request runs, as environments do through setEnvironmentLoading | high; not executed | Store.StartInstanceShowsNothing | Store.StartInstanceShowsLoading |
