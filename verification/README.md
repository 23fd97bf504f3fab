# Verification model of go-docker-testsuite

A Dafny 4.11 model of the parts of the library that decide things in process, with proofs about whole runs of
them. Everything outside the process is an input: whether a daemon call, a hook, a ping or a kernel request
succeeds is decided by an oracle or a parameter, so the results hold for every pattern of failures. Nothing of
the library was executed.

`dafny verify dfyconfig.toml` checks the project.

| file | what it models |
|---|---|
| GoStrings.dfy | the parts of Go's `strings` and `strconv` that carry the proofs |
| Patterns.dfy | the meaning of a `go test` package pattern |
| Splitter.dfy, SplitterProofs.dfy, SplitterOrder.dfy | the CI matrix splitter, which group runs which package, and what is listed in which order |
| Daemon.dfy, Lifecycle.dfy, Objects.dfy | an abstract Docker daemon, what containers and groups do to it, and the objects that do it |
| LifecycleProofs.dfy, ConservationProofs.dfy, GroupTheorems.dfy, GroupHistories.dfy, GroupUse.dfy | order of calls, live prefixes, conservation, groups run again and again |
| StartGuard.dfy, K3s.dfy | the constructors of the service wrappers, and the k3s wrapper's file |
| Ports.dfy, HostConfigs.dfy, Kafka.dfy | the port table, its readers, the daemon configuration, Kafka's own addresses |
| Environments.dfy | the environment builder |
| Kubeconfig.dfy | the two-pass rewrite of the kubeconfig |
| Quoting.dfy | identifier validation, quoting and statements in three dialects |
| LogReaders.dfy | waiting on a log and collecting from it |

## How the model reads the code

- A `char` stands for one byte of a Go string. An identifier of a network or container is a number; 0 is the
  empty string. The daemon never gives an identifier twice.
- Methods follow the loops and the in-place updates of the Go code (bucket objects shared between a map and a list,
  the port table, the environment, containers, groups). Each is tied to a function on values, and the results are
  stated about those functions. Map iteration picks keys in an arbitrary order.
- The group's functions are generic in what identifies a container object, so two applications may share one.
- Evaluating a container's environment may panic. The panic leaves `Run` and its callers as an error would, and the
  deferred clean-up of a constructor runs on it too, so it is one more call that can fail.
- A failed daemon call changes nothing. A network to which an existing container is attached is not removed.

## What the proofs found

- Splitter: every package is run by exactly one group for the layout the program is written for. In general a package
  outside the core is lost exactly when its bucket is rewritten and its directory is neither the parent, nor at or below
  `parent/versions`, nor `internal` itself, which the core's pattern names as well. This happens to `tools/cmd/x`,
  `tools/cmd/y` and `tools/cmd/z` when they are the only packages. A test package in `internal` itself (not below it) is
  run exactly once when the misc bucket is rewritten, and twice otherwise.
- Group: one run and one close restore the daemon, wherever the run fails, if and only if the applications hold
  distinct container objects none of which holds a live container.
- Kubeconfig: with the daemon on `127.0.0.1` or `localhost` and a host port that begins like 6443 (64430 to 64439,
  for example), or that 6443 begins like, some rewritten text still contains an old address; with `localhost` the
  second pass can even rewrite the output of the first.
- Kafka: the test obtains a broker address exactly when the kernel gave two different ports.
- k3s: closing gives up before the container when the kubeconfig file cannot be removed, and the recorded path is
  never cleared. So if the close that removed the file failed to remove the container, no later close can. The file's
  temporary directory stays for good, and a failed start can leave a partial file in it.
- PostgreSQL: a started constructor has connected, unless all thirty tries fail and nobody cancels; exactly then it
  starts without any connection.
- Group, run again: a history of runs and closes always restores the daemon if and only if every run is followed at
  once by a close. A second run overwrites the group's network, and the first one stays for good.
- Hooks: the repository's architecture document (its list of hooks) puts BeforeRun hooks after the container's creation.
  The code calls them before the image is pulled (group.go:104-112), and the model follows the code: the documented
  order holds exactly for an application without hooks. That they come before the start always holds.

## Model

| member | source | states |
|---|---|---|
| Patterns.MatchesPlain | tools/cmd/split_test_groups/main.go:140-146 | a directory without wildcards, used as a pattern, names exactly itself |
| Patterns.MatchesBelow | tools/cmd/split_test_groups/main.go:169-174 | `x/...` names `x` and everything below it, derived from the general meaning of `...` |
| Splitter.CommonParent | tools/cmd/split_test_groups/main.go:208-233 | the result is non-empty iff at least two directories are deep and all deep ones share their first two segments, which it then names |
| Splitter.Collapse | tools/cmd/split_test_groups/main.go:175-202 | the loops compute exactly the collapsed list |
| Splitter.GroupByApp | tools/cmd/split_test_groups/main.go:76-87 | list and map hold the same bucket objects, one per name in first-appearance order, each with exactly that name's directories |
| Splitter.BuildMatrix | tools/cmd/split_test_groups/main.go:36-117 | the program, with its shared buckets updated in place, computes the simple group-by about which the rows below speak |
| GoStrings.LessIsBefore | tools/cmd/split_test_groups/main.go:56-58 | the order sorted by: at the first difference the smaller byte decides, and a proper prefix comes first |
| SplitterOrder.GroupsAre | tools/cmd/split_test_groups/main.go:60-111 | the core group as it is, and one group for each application that has directories outside the core |
| SplitterOrder.GroupsInOrder | tools/cmd/split_test_groups/main.go:56-87 | the groups come in the order of their smallest directories |
| SplitterOrder.KafkaBeforeMysql | tools/cmd/split_test_groups/main.go:56-87 | an instance: Kafka's group comes before MySQL's |
| SplitterOrder.GroupHolds | tools/cmd/split_test_groups/main.go:76-111 | a group that is not rewritten lists exactly the directories of its application |
| SplitterOrder.GroupsUpwards | tools/cmd/split_test_groups/main.go:56-111 | every group, split again at spaces, lists its patterns upwards |
| SplitterOrder.GroupsStrict | tools/cmd/split_test_groups/main.go:56-111 | with distinct directories strictly upwards, so nothing twice |
| SplitterOrder.RewrittenExactly | tools/cmd/split_test_groups/main.go:175-233 | a glob is emitted iff there are three directories or more, two of them deep, and all deep ones agree on two segments |
| SplitterProofs.RelPathEmbedsOrder | tools/cmd/split_test_groups/main.go:147-152 | `relPath` embeds in-module paths strictly into byte-lexicographic order, and can be undone |
| SplitterProofs.SortKeepsDiscoverOrder | tools/cmd/split_test_groups/main.go:51-58 | any sorted permutation of the entries is the entries themselves, so the sort changes nothing |
| SplitterProofs.AppNameSegments | tools/cmd/split_test_groups/main.go:160-167 | the bounded split decides the application as the full split would |
| SplitterProofs.NamesInFirstAppearanceOrder | tools/cmd/split_test_groups/main.go:76-87 | bucket order is the order of first appearance |
| SplitterProofs.BucketsArePermutation | tools/cmd/split_test_groups/main.go:76-87 | the buckets together are a permutation of the entries |
| SplitterProofs.CollapsedMatches | tools/cmd/split_test_groups/main.go:175-202 | for every directory, whether the collapsed patterns match it |
| SplitterProofs.CollapseExact | tools/cmd/split_test_groups/main.go:175-202 | which of its own directories a collapse loses: both directions |
| SplitterProofs.OneApplicationRewritten | tools/cmd/split_test_groups/main.go:175-233 | for one application's distinct directories rewriting happens iff there are at least three, and the parent is the application's directory |
| SplitterProofs.AppRunsOwn | tools/cmd/split_test_groups/main.go:89-111 | no application's group runs a directory of another or of the core |
| SplitterProofs.CoverageExact | tools/cmd/split_test_groups/main.go:36-117 | for every package list and every package: exactly one group runs it iff its entry is safe |
| SplitterProofs.Coverage | tools/cmd/split_test_groups/main.go:36-117 | in the intended layout every package is run by exactly one group, after splitting each group's space-joined string again |
| SplitterProofs.LostExactly | tools/cmd/split_test_groups/main.go:36-117 | which packages no group runs: both directions |
| SplitterProofs.InternalRunTwice | tools/cmd/split_test_groups/main.go:66-74 | a package in `internal` itself: run exactly once iff the misc bucket is rewritten, otherwise by the core and another group |
| SplitterProofs.SidePackagesLost | tools/cmd/split_test_groups/main.go:175-233 | a family of packages run by no group at all |
| SplitterProofs.InternalAlone | tools/cmd/split_test_groups/main.go:66-74 | the list of one package `internal`, run by two groups |
| SplitterProofs.ToolsLost | tools/cmd/split_test_groups/main.go:175-233 | the list `tools/cmd/x`, `tools/cmd/y`, `tools/cmd/z`, of which no group runs any |
| SplitterProofs.MatrixNamesExactly | tools/cmd/split_test_groups/main.go:96-111 | group names differ pairwise iff no application is called `core`; only the first group checks coverage |
| LifecycleProofs.HooksFollow | group.go:128-138 | hooks of a stage run in order up to the first failure, which is the error |
| LifecycleProofs.ContainerRunFollows | container.go:210-262 | pull, configure, create, connect if there is a network, and start, with the identifiers at hand, up to the first failure; without one the container runs, on its network if it has one |
| LifecycleProofs.RunTrace | group.go:83-126 | `Run` makes the calls of one fixed plan, identifiers included, up to the first failure, and returns nil iff the plan is complete |
| LifecycleProofs.HookOrderExactly | group.go:97-123 | BeforeRun hooks come before the container's start and AfterRun hooks after it, always; BeforeRun hooks come after its creation, as documented, iff there are none |
| LifecycleProofs.HookBeforeCreation | group.go:104-112 | an application with one hook, which is called before anything is created |
| LifecycleProofs.CloseTrace | group.go:46-81 | whatever fails: for every application, in reverse, all BeforeClose hooks, stop and remove, all AfterClose hooks, each stage up to its own first failure; network removal last; exactly the failing calls returned in order |
| LifecycleProofs.StagesDetermined | group.go:46-81 | no other sequence of calls fits that description, for given successes and failures |
| ConservationProofs.ContainerRunEffect | container.go:210-262 | a container run adds one container whose identifier the object keeps, also when connect or start fails, or changes nothing |
| ConservationProofs.ContainerCloseEffect | container.go:265-301 | closing removes the container, or one of its two calls failed; no other container is touched |
| GroupTheorems.SuccessfulRun | group.go:83-126 | a `Run` that returns nil leaves exactly one more network and one more container per application, each running, linked to that network and held by its object |
| GroupTheorems.RunLivePrefix | group.go:103-123 | at every moment of `Run` the group's containers are exactly those of a prefix of its applications |
| GroupTheorems.CloseLivePrefix | group.go:46-75 | the same during `Close`; when the network is to be removed none is left, so the daemon does not refuse |
| GroupTheorems.Conservation | group.go:46-126 | one `Run`, failing anywhere or nowhere, and one `Close` restore containers, networks and attachments exactly |
| GroupTheorems.Survivors | group.go:46-126 | for every oracle: what remains is exactly what was there before plus the containers whose stop or removal failed |
| GroupTheorems.ConservationExactly | group.go:46-126 | conservation for every failure pattern iff container objects are distinct and none holds a live container |
| GroupTheorems.SecondClose | container.go:265-301 | identifiers are never cleared: a second `Close` changes nothing and reports every container and the network |
| GroupHistories.ForgottenNetworkStays | group.go:91-96 | a network the group no longer refers to is never removed, whatever it does and whatever fails |
| GroupHistories.PairedRestores | group.go:46-126 | runs each followed by a close, and closes anywhere, restore the daemon |
| GroupHistories.RestoredExactly | group.go:46-126 | a history of runs and closes restores the daemon for every failure pattern iff every run is followed at once by a close |
| GroupHistories.RunTwiceCloseOnce | group.go:91-96 | two runs and one close, which leave the first network |
| Objects.Container.NetworkAttach | container.go:198-201 | only the network is set |
| Objects.Container.Run | container.go:210-262 | fields, daemon and error after any outcome |
| Objects.Container.Close | container.go:265-301 | daemon and error after any outcome; the object keeps its identifier |
| Objects.Group.RunHooks | group.go:128-138 | the loop over hooks |
| Objects.Group.Run | group.go:83-126 | network, containers, daemon and error after any outcome |
| Objects.Group.Close | group.go:46-81 | daemon and collected errors after any outcome; container objects unchanged |
| GroupUse.RunAndClose | group_test.go:62-68 | a test that runs a fresh group and closes it leaves the daemon as it found it |
| StartGuard.NewMemcache | applications/memcache/memcache.go:29-80 | started iff the container ran, its address was found and a ping among thirty succeeds before a cancellation; otherwise closed exactly once, which leaves the daemon as it was |
| StartGuard.NewPostgres | applications/postgres/postgres.go:67-130 | the same guard; when it starts, when it has connected, and that it starts unconnected iff nothing ever answered |
| StartGuard.StartsConnectedOrUnanswered | applications/postgres/postgres.go:110-129 | the retry loop's only two ways to succeed, which exclude each other |
| StartGuard.StartedMeansConnectedExactly | applications/postgres/postgres.go:110-129 | a start means a connection iff some try connects or some cancellation is seen |
| StartGuard.NeverConnectedStillStarts | applications/postgres/postgres.go:110-129 | the inputs at which it does not |
| StartGuard.NewKafka | applications/kafka/kafka.go:94-121 | the same guard around running and awaiting |
| K3sWrapper.NewK3s | applications/k3s/k3s.go:60-133 | the same guard, and no container without a client; what is on the disk after any outcome, and the recorded path of a started wrapper |
| K3sWrapper.K3s.RewriteKubeconfig | applications/k3s/k3s.go:176-203 | the path is recorded iff every step succeeded, and then names the rewritten text; what a failed step leaves on the disk |
| K3sWrapper.K3s.Close | applications/k3s/k3s.go:136-149 | succeeds iff the file, if any was recorded, could be removed and so could the container; without the first the container is not closed |
| K3sWrapper.ClosesInVain | applications/k3s/k3s.go:136-149 | once the file is gone every further close fails and changes nothing |
| K3sWrapper.ClosesKeepTheRest | applications/k3s/k3s.go:136-149 | no number of closes removes a directory, or a file other than the recorded one |
| K3sWrapper.FailedStopIsFinal | applications/k3s/k3s.go:136-149 | if the close that removed the file left the container, it stays however often one closes |
| K3sWrapper.ClosedExactly | applications/k3s/k3s.go:136-149 | any number of closes removes the container iff some close may remove the file and the daemon then honours one stop and one removal |
| K3sWrapper.StopRefusedOnce | applications/k3s/k3s.go:136-149 | a daemon that refuses one stop only, and a container that survives four closes |
| StartGuard.FailedStartLeavesNothing | applications/memcache/memcache.go:42-49 | a failed start and its one close leave the daemon as it was, wherever it failed |
| StartGuard.RunsExactly | applications/memcache/memcache.go:51-53 | the container of a wrapper comes up iff pull, configuration, creation and start succeed, in this order |
| StartGuard.StartedRuns | applications/memcache/memcache.go:51-53 | a successful start makes these four calls and leaves exactly one more container, running |
| GoStrings.ParseFormat | container.go:377-385 | printing and parsing numbers are inverse |
| GoStrings.FormatIsCanonical | container.go:353 | a number is printed in the one way without leading zeros |
| GoStrings.FormatIntIsCanonical | environment.go:36-38 | a signed number is printed in the one way without leading zeros or plus sign |
| Ports.PortBindings.PortDNAT | ports.go:74-109 | each call appends one declaration to the table's history, and a panic leaves the table as it was |
| Ports.TableShape | ports.go:89-106 | every reachable table: bindings under a key are those declared, in order, never empty; an alias leads where it was last sent |
| Ports.KeyParts | container.go:353-353 | port and protocol can be read back from a key, so keys are injective |
| Ports.ReadersAgree | container_info.go:37-60 | for any allocator: when each reader succeeds, that neither panics, and that they agree |
| Ports.RandomLookup | node.go:76-76 | ports declared with the default allocator: what both readers answer for every port, from the requests alone |
| Ports.RandomKeys | node.go:76-76 | exactly the declared ports are exposed, under their own names |
| Ports.OneToOneLookup | node.go:79-88 | without any assumption on the kernel: what each reader finds for every port, declared or not |
| Ports.OneToOneDistinct | node.go:79-88 | with different given ports every declared port leads to its latest given port |
| Ports.OneToOneKeys | node.go:79-88 | every exposed key carries its own number as host port |
| HostConfigs.NewHostConfig | ports.go:25-45 | for every iteration order the port map copies the bindings, and each option kind keeps its last value |
| HostConfigs.PortSet | ports.go:111-122 | for every iteration order the exposed ports are the table's keys |
| HostConfigs.BoundIsExposed | ports.go:25-45 | for every reachable table exactly the exposed ports are bound |
| Environments.Environment.Var | environment.go:20-23 | one assignment, later ones winning |
| Environments.Environment.Int64Var | environment.go:36-38 | the assignment prints the number |
| Environments.Environment.Eval | environment.go:90-95 | for every iteration order one entry per variable; panics iff some function does |
| Environments.EvalRoundTrip | environment.go:90-95 | read back at the first '=': every name exactly once, with its last value, and nothing else |
| Environments.SignedRoundTrip | environment.go:36-38 | a signed integer is printed canonically and reads back for every value of its type |
| Environments.UnsignedRoundTrip | environment.go:61-63 | an unsigned integer is printed canonically and reads back for every value of its type |
| Kafka.NewEnvironment | applications/kafka/kafka.go:36-89 | the eight variables, in order |
| Kafka.NewPorts | applications/kafka/kafka.go:90-92 | the two declarations |
| Kafka.BrokerURLExactly | applications/kafka/kafka.go:123-139 | the addresses exist iff the two given ports differ |
| Kafka.AddressAgreement | applications/kafka/kafka.go:40-92 | advertised, listening, voting, exposed and bound addresses, read back from the listener lists, are the ones the test gets |
| Kafka.EnvironmentAgreement | applications/kafka/kafka.go:40-89 | the evaluated environment, read back: advertised listeners, listeners and voters are those of the test's addresses |
| Kafka.OneNode | applications/kafka/kafka.go:36-89 | the environment read back describes one node: its number is the voter's, the replication factor the number of voters, and the controller's listener the one at the test's controller address |
| Kafka.DeclaredNames | applications/kafka/kafka.go:13-14 | the two declared ports |
| Kafka.EvalPanicsExactly | applications/kafka/kafka.go:40-89 | evaluating it panics iff there is no daemon address |
| Kubeconfig.TwoPasses | applications/k3s/k3s.go:188-189 | when the texts do not overlap, two passes are one simultaneous replacement |
| Kubeconfig.NoneLeft | applications/k3s/k3s.go:188-189 | a simultaneous replacement by a harmless text leaves no old address, not even across its edges |
| Kubeconfig.RewriteIsSimultaneousExactly | applications/k3s/k3s.go:182-189 | for which addresses the rewrite is a simultaneous replacement of every text: both directions |
| Kubeconfig.RewriteIsCleanExactly | applications/k3s/k3s.go:182-189 | for which addresses no rewritten text contains an old address: both directions |
| Kubeconfig.LoopbackRemains | applications/k3s/k3s.go:188-189 | the rewritten text on `127.0.0.1` and port 64430 contains an old address |
| Kubeconfig.LocalhostRewrittenTwice | applications/k3s/k3s.go:188-189 | on `localhost` and port 64430 the two passes give another text than one |
| Quoting.ValidateName | applications/postgres/postgres.go:24-44 | which names are valid, and where the first offending character starts otherwise, for all three dialects |
| Quoting.QuoteRoundTrip | applications/scylladb/scylladb.go:47-49 | a lexer reads a name back from exactly its quoted form, for every name: both directions |
| Quoting.QuoteInjective | applications/mysql/mysql.go:47-49 | different names are quoted differently |
| Quoting.ValidatedNamesAreWrapped | applications/postgres/postgres.go:47-49 | on validated names nothing is doubled |
| Quoting.NamesExactly | applications/scylladb/scylladb.go:24-44 | the valid names of each dialect, by ASCII codes and lengths |
| Quoting.DatabaseStatementsAre | applications/postgres/postgres.go:151-174 | `CREATE DATABASE` and `DROP DATABASE`, token by token, for every name |
| Quoting.KeyspaceStatementsAre | applications/scylladb/scylladb.go:160-181 | `CREATE KEYSPACE` with its replication clause and `DROP KEYSPACE`, token by token, for every name |
| Quoting.CreateIsNotDrop | applications/mysql/mysql.go:152-176 | no statement that creates is one that drops |
| Quoting.StatementsHaveOneIdentifier | applications/scylladb/scylladb.go:160-181 | each statement has the given name as its one delimited identifier, whatever the name |
| LogReaders.AwaitOutput | container.go:125-155 | each of its five outcomes, iff |
| LogReaders.GetOutput | container.go:157-185 | the output comes from the log in order, each line once per accepting matcher, and has each text as often as there are lines and accepting matchers for it, also when reading fails |
| LogReaders.TracesDetermine | container.go:157-185 | that description fits one output only |
| LogReaders.CollectedCounts | container.go:157-185 | how often each text is returned |
| LogReaders.AwaitedIsFirstCollected | container.go:125-185 | the line that ended a wait is the first one collected from any snapshot at least that long |

## Left out

- The Docker client, `stdcopy` and `docker exec`; network calls to databases, brokers and Kubernetes.
- `go list`, JSON output, exit codes; `discover` is the list of import paths given.
- A daemon call that fails on the client although the daemon carried it out, and other clients of the same daemon.
- Several clients: a container and its group are assumed to talk to one daemon; except in the k3s constructor, creating
  the client cannot fail.
- Time: deadlines, stop timeouts, sleeps. The replacement of an expired context in `Close` is not modelled.
- Hooks as code: a hook only succeeds or fails; it does not act on the container itself.
- `DockerIP`: the resolved host is a parameter, without ':' and '/' in the kubeconfig results and without ',' in Kafka's.
- Regular expressions: a matcher is any predicate on lines.
- Logging, wording of errors, random names, labels, image prefixes.
- The mysql, scylladb, rabbitmq, redis, minio and vault constructors repeat the start guard around other checks;
  the boolean and narrow integer builders and the log level of the environment only widen or print their argument.
- Objects.Container.Run: listing, pulling and draining an image are one step that succeeds or fails.
- Objects.Container.Close: the stop timeout is not represented, nor that an expired context is replaced by a fresh one.
- Objects.Group.RunHooks: the container handed to a hook is not represented.
- StartGuard.NewPostgres: which branch a `select` takes when both are ready is the `cancelled` parameter.
- Quoting.StatementsHaveOneIdentifier: string literals of the statement are read as words between spaces.
