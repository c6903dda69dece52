# dnsconfd in Dafny

dnsconfd keeps a local Unbound in step with the DNS servers it is told about. This project
models its core and proves what holds of it for every input and in every run:

- the event-driven state machine with its actions, any of which may fail (`Daemon`,
  `DaemonRuns`, `Fsm`), what each input comes to (`Answers`), what is in force while it runs
  (`InForce`), and what a stop can leave behind (`LostLists`, `StopRuns`);
- the table of forward zones, written whole into Unbound's configuration file or sent as a
  difference against a ledger of what was sent before (`Unbound`, `Restart`, `StaleZone`);
- the index from domains to servers and the choice of the servers in use (`DomainIndex`,
  `StableSort`, `Records`);
- the choice of the CA bundle, and whether a start settles (`CertificateAuthority`,
  `ReloadLoop`);
- resolv.conf and the resolution modes (`ResolvConf`), names of reverse zones (`ReverseDns`),
  the intake of Update calls (`Intake`), the worklist of included configuration files
  (`IncludeWorklist`), and who owns which server record (`Ownership`).

There are two levels. The specification level is pure: `Transition` is one event's worth of
the state machine, `Run` is any sequence of D-Bus calls, status-file changes and signals, and
the theorems are about these. The program level has the source's own form: a class
`FsmContext` whose methods update its fields in place, with the source's loops, over heap
records. Each of its methods is proved to do to the abstract state what the specification
says, and to account for every record. `FsmContext.Serve` ties the two together: a main loop
that handles a history is `Run`, so every theorem about runs is one about the program.

What the environment decides (which action fails and how, which files are readable, the order
in which a hash table is walked) is an `Env` given with each event. Every theorem is for all
environments.

Inductive proofs are written out: lemmas for which Dafny would choose an induction hypothesis
of its own carry `{:induction false}`. In Dafny 4.11 part of such a hypothesis is not guarded
by the type of its variable, so a lemma with a quantified precondition could be accepted for
the wrong reason. Keep the attribute on new lemmas.

Some properties one would expect are false of the code. The code is kept as it is, with
lemmas for the condition and for the failing case:

| expected | fails when | lemmas |
|---|---|---|
| servers are ordered by priority | a priority difference overflows a C int | `ComparatorCorrectIffSpanFits`, `OverflowBreaksSelection` |
| file and commands describe the same zones | the same overflow | `FileAndCommandAgree`, `OverflowSplitsFileFromCommand` |
| a reverse zone is the network | the prefix ends inside an octet or nibble | `ZoneIsNetworkIffAligned`, `CoveredOutsider` |
| after a restart the live table is right | an update came while the start was awaited | `RestartReachesTargetIff`, `WithdrawnServerStaysLive` |
| a start settles | all servers and used servers lead to different CAs | `SettlesIff`, `TwoCasNeverRun` |
| a stop restores resolv.conf | it comes during a restart | `StopRestoresIff`, `StopDuringRestartLosesOriginal` |
| all records are freed | two updates arrive while the daemon is stopping | `LosesIffTwoLateUpdates`, `UpdatesDuringStopAreLost` |

The source's comment on the serial (src/fsm/fsm.c:134) says it stays above 1. The code keeps
it above 0, and so does the model.

## Model

| member | source | states |
|---|---|---|
| Daemon.LoopTerminates | src/fsm/fsm.c:285-492 | whatever the actions do, the loop ends within six passes in a state of rest; it refuses only the event it was called with, and then changes nothing |
| Daemon.StepFollows | src/fsm/fsm.c:291-486 | every event a pass produces is accepted by the state it lands in, finds there all it relies on (index, CA, backup), and that state is closer to the end |
| DaemonRuns.RunKeeps | src/fsm/fsm.c:285-492 | the invariant of lists, serials, ledger, backup, awaited status and commands sent survives every history |
| InForce.RunningIsConsistent | src/fsm/fsm.c:409-430 | at rest in RUNNING after any run: all servers are the static ones then those of the last accepted call, whose mode is in force; index and ledger are theirs, nothing is pending, serials agree and are not 0; resolv.conf names the listen address and the configured options and searches exactly what the used servers search; the backup is the original |
| InForce.LastCallIsInForce | src/dbus_server.c:370-373 | in every run, until the daemon stops, dynamic servers and mode are those of the last accepted call (0 backup, 1 prefer, 2 exclusive), or none and backup, whatever starts, reloads and refused calls came after it |
| InForce.RunFile | src/dns_managers/unbound_manager.c:613-649 | in every run the file written before RUNNING is the generated one for the listen address, options and search domains in force |
| Answers.TransitionAnswers | src/fsm/fsm.c:285-492 | for every state of rest and accepted event, the whole loop comes to one stated outcome in terms of which actions succeed: final state, commands sent, exit code, serial, whether it quits |
| Answers.EveryInputIsAnswered | src/service_management.c:60-91 | after any run each D-Bus call, status content and signal has its stated outcome; "ready", "stopped" and "fail" count only where a job is awaited or the service should be up, and a refused event ends the process with 17, a lost name with 9 |
| Answers.StopIsSubmitted | src/fsm/fsm.c:422-442 | a stop in RUNNING or during a start sends Unbound exactly one stop if the status file can be written, and waits for it exactly if the command went through |
| Answers.EffectAnswer | src/fsm/fsm.c:372-408 | putting servers into effect ends running with their serial, or restarts for another CA, or sends the stop with exit code 10 (resolv.conf) or 16 (update), the first failure deciding the code |
| Answers.UpdateSucceedsIff | src/dns_managers/unbound_manager.c:527-581 | an update succeeds exactly if its CA is the one in effect and every command of its plan succeeds, and asks for a reload exactly if it wants another CA |
| Answers.KickoffSucceedsIff | src/fsm/fsm.c:153-171 | a start is configured exactly if the status file is watched, the file could be written and some CA was found |
| Answers.SetResolvConfSucceedsIff | src/dns_managers/unbound_manager.c:597-611 | resolv.conf is set exactly if it can be written and the original is in hand or could be read |
| Answers.ReplyIsTheNewSerial | src/dbus_server.c:381 | the reply to an accepted call is the next serial, or the one after it if Unbound is restarted for it, and is the serial in effect if the daemon then runs |
| DaemonRuns.EveryRunIsSane | src/fsm/fsm.c:242-255 | in every run serials stay non-zero 32-bit numbers, the backup is the original file, the awaited status fits the state, commands are restarts with at most one final stop, after which the daemon is ending, and who waits for the stop has sent it |
| DaemonRuns.NextSerialIsSerial | src/fsm/fsm.c:134-135 | the serial counts up by one and goes from 4294967295 to 1, never to 0 |
| DaemonRuns.SerialsRepeatLate | src/fsm/fsm.c:134-135 | no serial comes back within 4294967295 refreshes |
| DaemonRuns.ReplyTellsAcceptance | src/dbus_server.c:367-382 | the reply serial is 0 exactly for refused calls, and these leave the whole system as it was |
| DaemonRuns.ConfigIsFixed | src/fsm/fsm.c:116-138 | no run changes the configuration |
| DaemonRuns.StopIsIrrevocable | src/fsm/fsm.c:443-485 | once a stop is under way nothing brings the daemon back: no run reaches RUNNING, sends a command or touches resolv.conf, backup or ledger |
| DaemonRuns.ExitCodeOnlyOnTheWayOut | src/fsm/fsm.c:278-282 | the state machine changes the exit code only from 0, and only in a transition that ends stopping |
| DaemonRuns.StopRestoresIff | src/fsm/fsm.c:422-442 | a stop whose revert can write leaves the original resolv.conf exactly when it comes in RUNNING or the file was the original anyway |
| DaemonRuns.RevertingRestores | src/fsm/fsm.c:257-276 | a transition that passes through REVERTING at any point, by a stop or by a failed update, ends stopping with the original file in place if the file can be written |
| DaemonRuns.UpdateRevertsIffItFails | src/fsm/fsm.c:388-408 | an update leads through REVERTING exactly when it fails, not when it asks for a reload |
| DaemonRuns.RestoredForGood | src/fsm/fsm.c:394-398 | in every run, a file given back on the way through REVERTING, whatever input led there, is the original and stays it to the end |
| StopRuns.StopDuringRestartLosesOriginal | src/fsm/fsm.c:363-366 | with every action successful, a start, a reload and a stop before Unbound is back leave the generated file in the place of the original in all that follows |
| LostLists.LosesIffTwoLateUpdates | src/dbus_server.c:370-372 | a run loses server records if and only if an update hands over servers while the daemon stops and another one is accepted after it |
| StopRuns.UpdatesDuringStopAreLost | src/fsm/fsm.c:465-469 | stopped while Unbound starts, any two accepted updates, the first with servers, are such a case before the daemon has quit |
| Restart.UpdateReachesTarget | src/dns_managers/unbound_manager.c:505-581 | a successful update from the ledger's or the target's table leaves exactly the target's table live |
| Restart.RepeatedUpdateChangesNothing | src/dns_managers/unbound_manager.c:544-574 | repeated with index, mode and CA unchanged, an update succeeds and changes nothing even if every command would fail |
| Restart.RunTables | src/fsm/fsm.c:343-371 | in every run in which no update arrives during a start with a file that differs from the ledger, and no domain is named by servers whose priorities overflow, file, live table and ledger stay in step |
| Restart.LiveTableIsRight | src/fsm/fsm.c:214-240 | in every such run, at rest in RUNNING the live table is the one that the static servers, the last accepted call and its mode call for |
| Restart.ForwardsToTheServing | src/dns_managers/unbound_manager.c:412-424 | from the calls to the wire: at rest in RUNNING after such a run, Unbound forwards a domain to exactly the configured or last announced servers that name it, are unbeaten among those that do and are allowed by the mode, each with its address, port and TLS name; without any it does not forward it, and sends the root to 127.0.0.1 |
| Restart.RestartReachesTargetIff | src/dns_managers/unbound_manager.c:544-574 | when "ready" leads to RUNNING, the live table is the target's if and only if the loaded file is right wherever ledger and target agree |
| StaleZone.WithdrawnServerStaysLive | src/fsm/fsm.c:355-358 | any ordinary server announced before the first start and withdrawn during it is still served in RUNNING, with an empty ledger and every action successful |
| ReloadLoop.SettlesIff | src/dns_managers/unbound_manager.c:527-542 | "ready" can lead to no further reload, whatever happens, if and only if the update cannot want a CA other than the one in effect |
| ReloadLoop.StartSettles | src/fsm/fsm.c:399-403 | a start and its "ready" never lead to another start when the CA choice over all servers and over the used ones can only come out the same |
| ReloadLoop.NeverRuns | src/fsm/fsm.c:399-403 | if no CA a start can write is one an update can want, no history without an update ever reaches RUNNING |
| ReloadLoop.TwoCasNeverRun | src/dns_managers/unbound_manager.c:160-193 | two TLS servers of different priority with their own CAs for one domain are such a case |
| Unbound.IncrementalRefinesRebuild | src/dns_managers/unbound_manager.c:544-574 | the difference sent to the ledger's table, or to the target's, gives the table a rebuild would |
| Unbound.PlanReachesTargetIff | src/dns_managers/unbound_manager.c:544-574 | from any live table the difference reaches the target exactly when the table was right wherever ledger and view agree |
| Unbound.EveryMomentOldOrNew | src/dns_managers/unbound_manager.c:332-357 | after any number of commands every domain, the root included, has its old or its new value |
| Unbound.FailureLeavesOldOrNew | src/dns_managers/unbound_manager.c:559-562 | the same whichever command fails, before or after taking effect |
| Unbound.StopsAtFirstFailure | src/dns_managers/unbound_manager.c:559-571 | the first failing command is the last one sent |
| Unbound.PlanIsPaired | src/dns_managers/unbound_manager.c:332-424 | every change sent is followed by the flush of its zone, has the flags and forwarders of its used servers, and comes before all removals |
| Unbound.TablesDescribeServers | src/dns_managers/unbound_manager.c:44-75 | zone by zone and server by server, file and command give the address, the port or 853 for TLS without one, and the TLS name; the root always has a zone, 127.0.0.1 if unserved |
| Unbound.SameForwarderIff | src/dns_managers/unbound_manager.c:391-402 | two TLS servers give the same forwarder exactly if address, name and effective port agree |
| Unbound.SameServerIff | src/dns_managers/unbound_manager.c:454-498 | what is compared is everything but routing domains, search domains and networks |
| Unbound.SkippingIsSound | src/dns_managers/unbound_manager.c:359-410 | lists that compare equal give identical forward_add commands for any domain |
| Unbound.CompareServers | src/dns_managers/unbound_manager.c:454-498 | the loop reports equality exactly when the lists agree in length and, server by server, in everything compared |
| Unbound.UpdateIsIdempotent | src/dns_managers/unbound_manager.c:544-574 | against its own view the difference is empty, in whatever order the tables are walked |
| Unbound.FileAndCommandAgree | src/dns_managers/unbound_manager.c:77-120 | unless priorities of servers naming one domain overflow, "any server is TLS" in the file and "the first is TLS" in the command describe the same tables |
| Unbound.OverflowSplitsFileFromCommand | src/dns_managers/unbound_manager.c:359-410 | for three such servers file and command agree exactly when their priority difference fits an int |
| DomainIndex.ComparatorCorrectIffSpanFits | src/types/server_uri.c:443-464 | the comparator is the order by priority, protocol and DNSSEC on a list exactly when no priority difference in it overflows |
| DomainIndex.IndexConservation | src/types/server_uri.c:466-512 | a domain is indexed exactly if some server names it, and a server stands there as often as configured times the occurrences of the domain among its routing domains and reverse zones |
| DomainIndex.RoutedServerIsIndexed | src/types/server_uri.c:498-502 | every server is found under each of its routing domains |
| DomainIndex.IndexIsStableSort | src/types/server_uri.c:514-521 | unless the priorities of those naming the domain overflow, its list is ordered by rank, a permutation of them, and keeps configuration order within a rank, whatever other domains hold |
| DomainIndex.NamingKeepsOrder | src/types/server_uri.c:494-512 | the servers naming a domain are collected in configuration order |
| DomainIndex.GetUsedServers | src/dns_managers/unbound_manager.c:18-42 | the early-breaking, prepending loop computes the selection that `SelectionIsBestOfNaming` and `UsedExactly` characterise, on every list |
| DomainIndex.SelectionOnOrderedList | src/dns_managers/unbound_manager.c:18-42 | on a sorted list that selection is the reverse of the eligible servers of the best rank |
| DomainIndex.SelectionIsBestOfNaming | src/types/server_uri.c:484-524 | from the configured list: the used servers of a domain are, reversed, the eligible ones of the best rank naming it |
| DomainIndex.OverflowBreaksSelection | src/types/server_uri.c:443-464 | of two servers differing in priority the better one alone is used, in both configuration orders, exactly when the difference fits an int |
| StableSort.SortIsOrdered | src/types/server_uri.c:514-521 | the list sort orders by any key whose total order the comparator reflects |
| StableSort.SortIsStable | src/types/server_uri.c:514-521 | elements with equal keys keep their order |
| StableSort.SortKeepsElements | src/types/server_uri.c:514-521 | sorting is a permutation for any comparator, a broken one too |
| CertificateAuthority.GetEffectiveCa | src/dns_managers/unbound_manager.c:160-228 | the nested loops and the fallback compute the specified choice for every walking order |
| CertificateAuthority.EffectiveCaIsAnOutcome | src/dns_managers/unbound_manager.c:160-193 | whatever the order, the choice is among the CAs of domains with the lowest priority value, or the fallback |
| CertificateAuthority.OutcomeIsRealised | src/dns_managers/unbound_manager.c:160-193 | each of these is chosen under some order |
| CertificateAuthority.AgreeForAllOrdersIff | src/dns_managers/unbound_manager.c:215-228 | two tables give the same CA under all pairs of orders if and only if each has one outcome and it is the same |
| CertificateAuthority.SharedCaIsOnlyOutcome | src/dns_managers/unbound_manager.c:172-189 | a CA shared by all eligible TLS servers that carry one is the only outcome |
| CertificateAuthority.ChosenCa | src/dns_managers/unbound_manager.c:160-213 | if any TLS server that the mode allows for its domain brings a CA, the chosen one is that of such a server with the lowest priority value of all; else it is the first readable configured file, or none |
| ResolvConf.BuildSearchLine | src/dns_managers/unbound_manager.c:613-639 | the three nested loops compute the specified search line |
| ResolvConf.SearchLineIsExact | src/dns_managers/unbound_manager.c:617-639 | in any order the line holds exactly the search domains of the used servers, each once |
| ResolvConf.SearchLineInOrder | src/dns_managers/unbound_manager.c:623-633 | the search domains stand in the order in which the used servers first give them |
| ResolvConf.ViewFollowsMode | src/dns_managers/unbound_manager.c:31-37 | in exclusive mode no used server has an interface; in prefer mode none used for the root has |
| ResolvConf.ZonesFollowMode | src/dns_managers/unbound_manager.c:89-115 | every forwarder in file or command gives address, port and TLS name of a server of the zone that the mode allows there, or is 127.0.0.1 for an unserved root |
| ResolvConf.ServedIffBestIsEligible | src/dns_managers/unbound_manager.c:18-42 | a domain is served exactly when some server of the best rank naming it is eligible |
| ResolvConf.UsedExactly | src/dns_managers/unbound_manager.c:25-39 | a server is used for a domain if and only if it is configured, names it, is unbeaten by priority, protocol and DNSSEC, and has no interface, or the mode is backup, or it is prefer and the domain not the root |
| ResolvConf.OnlyTheModeLeavesUnserved | src/dns_managers/unbound_manager.c:31-37 | in backup mode every named domain is served, in prefer mode every one but the root, whatever the priorities |
| ReverseDns.ZoneSuffixIsContainment | src/types/network_address.c:50-118 | an address's reverse name ends, at a label, in a network's zone name exactly when they share family and the spelled octets or nibbles |
| ReverseDns.ZoneNameSpells | src/types/network_address.c:50-103 | read back, a zone name is the covered octets in decimal without leading zeros, or nibbles in hexadecimal, last first, under in-addr.arpa or ip6.arpa |
| ReverseDns.LabelSuffixIsListSuffix | src/types/network_address.c:50-118 | a suffix at a dot is a suffix of the list of labels, and conversely |
| ReverseDns.ZoneNamesEqualIff | src/types/network_address.c:50-118 | zone names are equal exactly for the same family, rounded prefix and leading bits |
| ReverseDns.ZoneIsNetworkIffAligned | src/types/network_address.c:50-118 | the zone always covers the network, and covers nothing else exactly when the prefix is a multiple of 8 or 4 |
| ReverseDns.BufferIsTight | src/types/network_address.c:105-118 | name and terminator always fit 73 bytes, and a full IPv6 name fills them |
| ReverseDns.ReverseDnsIpv4 | src/types/network_address.c:50-71 | the descending loop of appends leaves the zone name in the buffer, within its bounds |
| ReverseDns.ReverseDnsIpv6 | src/types/network_address.c:73-103 | the same for nibbles |
| ReverseDns.ToReverseDns | src/types/network_address.c:105-118 | for either family the caller's buffer holds the zone name, terminated |
| Intake.GreedyFilterIsFirstInterface | src/dbus_server.c:334-357 | the greedy filter keeps, in order, exactly the servers on the interface of the first server with their address |
| Intake.FirstErrorRefuses | src/dbus_server.c:283-318 | one bad entry anywhere refuses the call with the first bad entry's error |
| Intake.AcceptedAreWellFormed | src/dbus_server.c:320-349 | accepted servers have a port and a routing domain, and no address is accepted on two interfaces |
| Intake.AcceptedExactly | src/dbus_server.c:320-363 | a server is accepted if and only if the call holds one on the first interface of its address that becomes it by the defaults: port 53 or 853, the root, ten points less on wireless down to the lowest int |
| Intake.RefusedExactly | src/dbus_server.c:278-318 | a call is refused for a mode above 2 or a broken entry, and for nothing else |
| Intake.FindConflict | src/dbus_server.c:334-349 | the inner loop finds a conflict exactly when an accepted server has the address on another interface |
| IncludeWorklist.ParseConfigFile | src/configuration_parsing/config_file.c:673-727 | the queue loop terminates on every include graph and computes the specified outcome |
| IncludeWorklist.SucceedsIffUnfoldingFits | src/configuration_parsing/config_file.c:671-727 | reading succeeds exactly when the unfolded include graph is finite, readable and of at most 1000 files, which are then read breadth first |
| IncludeWorklist.SuccessMeansAcyclic | src/configuration_parsing/config_file.c:671-727 | after success no chain of includes from the main file meets a file twice |
| Records.ServerListToHashTable | src/types/server_uri.c:484-524 | the loops over records build exactly the specified index, out of the very records of the list |
| Ownership.Allocator.FreeTable | src/dns_managers/unbound_manager.c:500-502 | destroying a ledger frees exactly its records, each once |
| Ownership.Allocator.CopyList | src/types/server_uri.c:599-664 | the copies are equal to the servers, distinct, and share no record with anything allocated before |
| Ownership.Allocator.CopyUsedServers | src/dns_managers/unbound_manager.c:513-523 | the new view is the used view of the index, held in fresh records of its own |
| Fsm.FsmContext.NothingDangles | src/fsm/fsm.c:106-132 | nothing reachable from a valid context has been freed, and the ledger shares no record with lists or index |
| Fsm.FsmContext.SetDynamicServers | src/fsm/fsm.c:106-114 | frees the old dynamic servers once and moves the pending ones |
| Fsm.FsmContext.UpdateContext | src/fsm/fsm.c:116-138 | rebuilds list and index over owned records without looking at the stale ones |
| Fsm.FsmContext.WriteConfiguration | src/dns_managers/unbound_manager.c:230-299 | file, CA and result are as specified for each way of failing |
| Fsm.GenerateForwardZones | src/dns_managers/unbound_manager.c:77-120 | the loop over any walking order writes the table that `TablesDescribeServers` reads back: the zones of the used view, with the root blackholed when unserved |
| Fsm.FsmContext.StartingKickoff | src/fsm/fsm.c:153-171 | refines the specified kickoff and restores validity from ownership alone |
| Fsm.FsmContext.SetResolvConf | src/dns_managers/unbound_manager.c:583-660 | takes the backup at most once, before the first write, and writes the file that `RunningIsConsistent` describes |
| Fsm.FsmContext.SendDifference | src/dns_managers/unbound_manager.c:544-574 | the two loops run the plan up to its first failing command |
| Fsm.FsmContext.Update | src/dns_managers/unbound_manager.c:505-581 | on success the caller owns the copies of the new view; on reload or error they are freed and nothing else is |
| Fsm.FsmContext.UpdateDnsManager | src/fsm/fsm.c:214-240 | replaces ledger and serial on success only, and frees the old ledger |
| Fsm.FsmContext.StateTransition | src/fsm/fsm.c:285-492 | the loop refines the transition that `TransitionAnswers` gives the outcome of, keeps every record accounted for and loses none |
| Fsm.FsmContext.ParseServers | src/dbus_server.c:278-369 | gives the specified verdict; a refused call leaves no record behind |
| Fsm.FsmContext.HandleUpdateCall | src/dbus_server.c:235-386 | refines the handling that `UpdateAnswers` and `LastCallIsInForce` characterise; exactly a pending list that was never taken is lost |
| Fsm.FsmContext.DeliverEvent | src/dbus_server.c:616-626 | an event the state machine refuses ends the process with its own exit code |
| Fsm.FsmContext.OnFileChanged | src/service_management.c:60-91 | status contents become job events as specified, and others are ignored |
| Fsm.FsmContext.Serve | src/dbus_server.c:628-653 | handling a history is the specified run; exactly as many records are lost as the run loses servers, and none before the daemon is stopping |
| Fsm.FsmContext.CleanContext | src/dbus_server.c:582-614 | exactly the records the context owns are freed, none twice |
| Fsm.Live | src/dbus_server.c:628-653 | from start to exit of any life exactly static and lost records remain; as many are lost as the run loses servers, none if and only if no two updates came while stopping |

## Left out

- D-Bus, the GLib main loop, sd_notify, signals emitted to clients, logging: only the order of
  handled inputs matters to the model.
- Running `unbound-control`, opening and writing files: outcomes chosen by the environment,
  with an abstract effect. A failed command may or may not have taken effect.
- Text of addresses, forwarders and resolv.conf: kept as structured values, not as the printed
  strings; text of reverse zone names is modelled down to the buffer.
- Parsing of D-Bus fields, URIs, JSON, YAML and internationalised names, `glob`, `access` and the
  wireless query: oracles, or entries that parse or fail with an error.
- The `+i` flag of live zones: the configuration file never writes it, so tables compare
  forwarders and TLS; it is part of the commands that `PlanIsPaired` and `SkippingIsSound`
  speak of.
- Failing allocations, and the address family that is neither IPv4 nor IPv6.
- Command line, status printing, merging of configuration options, response policy zones and
  the other lines of Unbound's configuration.
- The end of input: a history may go on after the main loop was told to quit, so the theorems
  hold for more than what can happen.
- Equivalent spellings of a domain name (case, trailing dot): domains are compared as strings.
- Resubscription of the file monitor: status changes are arbitrary and may repeat.
- The order of a hash table is chosen anew for each walk, although an unchanged table is walked
  in the same order; the theorems therefore hold for more than what can happen.
- Fsm.FsmContext.ParseServers: a record is created complete, although the source fills it field
  by field and lowers the priority of wireless servers in place before anyone else sees it.
- Fsm.FsmContext.StateTransition: the state field is set after the action in every branch,
  although the source sets it before the action in some; no action reads it.
- Records.ServerListToHashTable: lists and tables are values in fields, so only server records,
  not list cells and keys, are accounted for.
- StableSort.SortIsStable: `g_list_sort` is not part of the repository; the model is a merge sort
  that splits in the middle and lets the left half win ties.
