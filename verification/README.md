# edgecommander: a verified model

edgecommander turns one JSON config into the state of a host: the firewall, the
containers, the network document and the files it manages. It does so by sequences of calls
to firewalld, Podman, nmstatectl and the file system, any of which can fail, on machines
that lose power. This project models that behaviour in Dafny and proves what the
program is for: where a run ends, what holds at every moment on the way, and that
running again changes nothing.

The modules follow the program's files.

| files | what they model |
|---|---|
| `FirewallRules`, `FirewallState`, `Firewall`, `FirewallMeaning` | firewall.go: declarations, keys and rich rules; what each step of a run may do; the class standing for firewalld and the loops that drive it; a reader of the rich-rule language and what a converged firewall lets through |
| `FileSystem`, `FileWriter` | fileio.go and the commit of network.go: a directory with a volatile and a durable half, and the writers call by call |
| `Convergence`, `ConvergenceInvariant`, `ConvergenceSteps`, `ConvergenceRuns`, `ConvergenceTraces`, `ConvergenceProgress` | server.go and orchestration.go: the service as a state machine of threads, applyMu, restarts and power losses; its invariant; every step keeps it; what follows for every run; which step of a run put what in place; that each job can do its work and that everything may fail |
| `ContainerConfig`, `Json`, `Sorting`, `PodmanState`, `Podman` | podman.go: spec and config hash, the outcome of a reconcile as a function, the class standing for Podman and the container phase |
| `PodmanLogs` | podman.go: the log demultiplexer with its reused buffer, and an encoder |
| `InterfaceRules`, `NMState`, `NetworkMeaning`, `Net` | network.go: what makes a declaration valid and what becomes of it, the compiler as it runs, both spelled out field by field, and addresses as bit strings |
| `ConfigRules`, `ConfigMeaning`, `MountPoint`, `Orchestration`, `Text`, `Wrappers` | config.go's checks and what they accept in literal terms, hoststats.go's unescaping, applyConfig, and shared helpers |

What the program writes and accepts is also stated in literal terms, by readers and predicates
that share no definition with the functions they are about: rich rules are read back, numbers
are read digit by digit, and specs, mounts, log lines, states of containers, routes and network
stacks are given field by field (`FirewallMeaning`, `ConfigMeaning`, `NetworkMeaning` and the
lemmas ending in `InFull`).

Calls that can fail do so at any time, before or after taking effect where the real call
may. The classes keep a ghost `history` with the state after each call that may change
something, so "issues no add or remove" is `history == old(history)`, and a claim about every
moment of a run is a claim about consecutive entries of it. They also count the calls that
failed, so that success can be said to come exactly when none did.

## Assumptions

- firewalld keeps ports and rules as given and answers queries by exact match; its default
  zone stays the same during a run, and no one else changes it meanwhile. The same holds for Podman
  during a container phase.
- Lower-casing is that of ASCII letters. Strings are valid Unicode.
- Podman's listing gives every container its one name; a name is never another container's
  id. A container just created is in state `created`, an inspection reports whether it is
  running and gives its labels, and a successful start or stop leaves it `running` or
  `exited`.
- SHA-256 has no collisions and its text is not empty (`CollisionFree`, a premise of the
  lemmas that need it).
- Parsing and printing of addresses is that of some sound parser and, where a lemma says
  so, an injective printer; every result holds for all of them.
- Temporary names and inode numbers are fresh. The destination's directory exists durably.
  A rename takes effect or fails without effect. The config file, the network document and the
  uploaded images are different files.
- Whether validation accepts a config does not change while the program runs; in particular
  looking up the owners of folders and files in the operating system is stable.
- Container environments have distinct keys, as JSON objects decoded into a map do.
- `int` is 64 bits wide and holds every number a config can carry.

## Model

| member | source | states |
|---|---|---|
| Firewall.ConfigureFirewallPorts | firewall.go:43-86 | a successful run leaves the firewall converged; every run, cut short anywhere, only opens declared items and then only removes undeclared ones with everything declared open; a converged firewall is left alone; it fails exactly when a call failed or a source cannot be read; without firewalld nothing changes |
| FirewallState.ConvergedView | firewall.go:71-83 | in every zone of both configurations a converged firewall shows exactly the declared port keys, exactly the declared rich rules and no service |
| FirewallState.ReloadChangesNothing | firewall.go:88-102 | after convergence a reload shows no difference and stays converged |
| FirewallState.OutcomeDependsOnPlanOnly | firewall.go:43-86 | whatever runs led there, two converged firewalls show the same zones the same way: a later success repairs any earlier failure |
| FirewallState.DeclaredNeverLost | firewall.go:253-417 | along any run a declared item that is present is never removed, in either configuration |
| FirewallState.RemovalOnlyWhenAllOpen | firewall.go:71-83 | the first removal of anything, services included, comes after every declaration is open in both configurations, and they stay open |
| FirewallMeaning.EveryDeclarationMet | firewall.go:43-102 | in a converged firewall every accepted declaration is met in its zone in both configurations: by its trimmed port and lower-cased protocol, tcp if blank, or by a rule that reads back as accepting from its source, as an address or a network with the host bits cleared, with family ipv4 exactly for 32-bit sources |
| FirewallMeaning.NothingElseLeft | firewall.go:253-273 | and every item left, but for port entries that are no pair, is wanted by a declaration of its zone in that sense |
| FirewallMeaning.OpenedRuleAsks | firewall.go:157-199 | the rule opened for a declaration reads back as what it asks for, the action being accept |
| FirewallMeaning.OpenedPortAsks | firewall.go:88-102 | a declaration without a source opens its trimmed port with its lower-cased protocol, tcp if blank |
| FirewallMeaning.RuleReads | firewall.go:170-176 | a rule's text reads back, field by field, as family, source, port, protocol and accept |
| FirewallRules.OpeningAgreesWithComparing | firewall.go:104-177 | what a declaration opens has the key, or is the rule, under which it is looked for when pruning: trimming, case, the tcp default and the masked source coincide |
| FirewallRules.OpenedIsAllowed | firewall.go:216-243 | what a declaration opens is never among what pruning removes |
| FirewallRules.RuleTextInjective | firewall.go:157-177 | a rich rule's text determines its family, source, port and protocol when the source has no quote |
| FirewallRules.SameRuleIffSameReach | firewall.go:157-199 | two declarations by source give the same rule exactly when they admit the same addresses, are both written as hosts of one zone or both as networks, and agree in port and protocol |
| FirewallRules.SameReachTwoTexts | firewall.go:179-199 | admitting the same addresses is not enough for one rule: a host and the one-address network around it, or hosts differing in their zone, stay two |
| Firewall.OpenRuntime | firewall.go:104-143 | an item reported open is in the runtime configuration; one that is there already is not added again |
| Firewall.EnsurePermanent | firewall.go:446-506 | the same for the permanent configuration |
| Firewall.OpenDeclaredPorts | firewall.go:71-75 | success means every declaration is open in both configurations, by additions only |
| Firewall.DeclaredPorts | firewall.go:216-243 | the maps filled in the loop hold for each zone exactly the keys and rules declared for it |
| Firewall.PruneZoneKind | firewall.go:285-338 | walking a listing taken once while the zone changes removes the undeclared items of one kind and no others, and fails only with a call |
| Firewall.RemoveUnmanagedRules | firewall.go:253-273 | success leaves both configurations without undeclared items, by removals only |
| Firewall.OpenedRulesBuild | firewall.go:77-80 | grouping the declarations cannot fail after all of them were opened |
| ConfigRules.FirstOffender | config.go:339-358 | the check reports the first invalid declaration, and none exactly when all are valid |
| ConfigRules.AcceptedNeverFails | config.go:463-523 | an accepted list never fails when it is opened or grouped |
| ConfigRules.AcceptedPortText | config.go:463-488 | an accepted port text has only digits, plus and minus signs and white space, so neither slash nor quote |
| ConfigRules.AcceptedKeysUnambiguous | firewall.go:204-210 | equal keys of accepted declarations mean equal port and protocol |
| ConfigRules.AcceptedRulesUnambiguous | firewall.go:157-177 | accepted declarations give the same rule exactly when reach, form of the source, port and protocol agree, for sources that print without quotes |
| ConfigRules.AcceptedSourceUsable | config.go:511-523 | an accepted source can be read, so that printing without a quote is all that is left to assume of it |
| ConfigRules.AcceptedPortConverts | config.go:455-461 | an accepted container port converts to 16 bits unchanged |
| ConfigMeaning.AcceptedPortInFull | config.go:463-500 | a port is accepted exactly when it is one decimal number from 1 to 65535 or two around the first dash, the first not above the second |
| ConfigMeaning.AcceptedDeclarationInFull | config.go:463-523 | a declaration is accepted exactly when its port is, its protocol is blank, tcp, udp, sctp or dccp, and its source is blank or readable |
| ConfigMeaning.AcceptedContainerInFull | config.go:369-461 | a container is accepted exactly when its ports are from 1 to 65535 and its relabel options, network mode and capabilities are known ones |
| ConfigMeaning.AtoiReads | config.go:490-500 | a port text is read as decimal digits with an optional sign, within 64 bits |
| Text.CharactersInFull | config.go:502-509 | among ASCII characters white space is space, tab, newline, carriage return, vertical tab and form feed, and lower-casing turns A to Z into a to z and leaves the others |
| Text.TrimSpaceCutsEnds | config.go:463-488 | trimming cuts white space, all of it, off both ends and nothing else |
| Net.MaskedKeepsCover | firewall.go:187-199 | masking is idempotent and keeps the set of addresses covered |
| Net.MaskedEqualIffSameCover | firewall.go:187-199 | two prefixes mask to the same one exactly when they cover the same addresses (section 3.1 of RFC 4632) |
| Net.MaskedIsNetwork | firewall.go:187-199 | masking keeps the length and the bits up to it and clears the others |
| FileSystem.CrashKeepsDocument | fileio.go:9-15 | whatever a power loss makes of unsynced files and unwritten entries, a path that held one of the documents on both sides still holds one |
| FileSystem.RenameReplaces | fileio.go:61-63 | renaming a synced file onto a path leaves the old or the new document after a power loss, the new one for readers |
| FileSystem.SyncDirSettles | fileio.go:16-29 | syncing the directory makes what readers see what a power loss leaves |
| FileSystem.RemovalSettlesIffNotOnDisk | network.go:125-130 | after a removal, however entries are written back, no power loss brings the file back if and only if it was not on disk before |
| FileWriter.WriteAtomically | fileio.go:35-114 | at every moment the destination holds an earlier document or the whole body; success makes the body durable; a failure before the rename changes nothing there; it fails exactly when the source broke off or a call failed; what is left over is at most its own temporary file, and only when removing that failed |
| FileWriter.Stage | fileio.go:46-59 | a staged file that is reported good holds all the chunks, synced, out of the destination's reach |
| FileWriter.Install | fileio.go:61-69 | rename, then the directory's sync: without the rename nothing has changed, with both the body is durable |
| FileWriter.CommitDocument | network.go:154-200 | the canonical path changes only to the whole document, and only when nmstatectl has accepted it |
| FileWriter.ConfigureHostInterfaces | network.go:132-205 | the same with nothing declared: the document is gone for readers, and gone for good whenever power is lost since, if and only if it was not on disk before the call; a document that cannot be built changes nothing; it fails exactly when building or a call failed |
| FileWriter.KeptSurvivesPowerLoss | fileio.go:9-15 | at whatever moment of such a call power is lost, and whatever becomes of unsynced files, the destination then holds one of the documents |
| ConvergenceSteps.StepKeeps | orchestration.go:55-87 | every step of every thread, of the kernel, a restart and a power loss keep the invariant |
| ConvergenceRuns.RunKeeps | server.go:199-251 | so every run keeps it |
| ConvergenceRuns.ConfigAlwaysWhole | server.go:218-237 | at every point of every run the config path holds its first document or a whole one that validateConfig accepts, before and after a power loss |
| ConvergenceRuns.ReturnedNilIsDurable | fileio.go:77-114 | once writeConfigFile has returned nil, the config path holds its body across all later power losses until another upload is renamed into place |
| ConvergenceRuns.PromiseKept | fileio.go:109-113 | the versions up to the last durable one never change, and no power loss goes back behind it |
| ConvergenceRuns.OneConvergence | orchestration.go:14-19 | two convergences never overlap, and none overlaps another thread's config write |
| ConvergenceRuns.LastAppliedIsOnDisk | server.go:227-246 | when the last holder of applyMu reached the apply, what it applied is the parse of what is on disk |
| ConvergenceRuns.StartupAppliesTheFile | orchestration.go:61-87 | what the startup reconcile, or any other holder of applyMu, is about to apply is the parse of what is on disk |
| ConvergenceProgress.LoadInFull | orchestration.go:80-87 | loading leaves the startup reconcile holding a config exactly when the file is there and decodes to it, and otherwise gives up |
| ConvergenceProgress.StartupCanFinish | orchestration.go:61-87 | from every reachable state with applyMu free and a file that decodes, the startup reconcile can load it, apply it as the latest version and give the lock back |
| ConvergenceTraces.StartupIsNotOlder | orchestration.go:61-87 | after an upload has been written, the startup reconcile applies that config or one renamed into place later, never an older one |
| ConvergenceTraces.UnappliedUploadChangesPathIffRenamed | server.go:232-246 | an upload that took applyMu and returns without having been applied has changed the config file if and only if it took its rename, and then the directory's sync did not succeed |
| ConvergenceTraces.RenamedButNotApplied | fileio.go:109-113 | such runs exist from every reachable state in which applyMu is free: the directory's sync fails after the rename, readers see the new config, applyMu is free again and nothing has been applied |
| ConvergenceRuns.NeverBackToAnOlderConfig | orchestration.go:61-87 | the configs one process applies are versions of the file in the order in which they were written |
| ConvergenceRuns.PathAlwaysWhole | server.go:266-285 | at every point of every run, and after a power loss, a path holds its first document, a whole one cleared for it, or for the network document none after a withdrawal |
| ConvergenceTraces.EveryDocumentHasAnOrigin | server.go:266-285 | such a document is the body of a request that uploaded it to that path earlier in the run, or a network document that nmstatectl accepted at an earlier step of the run |
| ConvergenceRuns.ClearedHow | network.go:188-191 | a network document counts as accepted only when nmstatectl accepts the temporary file holding all of it, synced; other documents are bodies of uploads |
| ConvergenceRuns.OnlyRenameChanges | fileio.go:40-66 | what readers see at a path changes only by the rename of a call writing there, by the withdrawal or by a power loss |
| ConvergenceRuns.TempsAreTended | fileio.go:45-46 | every temporary file has a running owner that has yet to remove it, or is left over |
| ConvergenceRuns.LeftoverHow | fileio.go:45-46 | one is left over only when its removal failed or its process went down |
| ConvergenceRuns.UploadCanFinish | server.go:227-248 | an accepted upload can go through to the end whenever the lock is free, durable and applied |
| ConvergenceProgress.WriteCanSucceed | server.go:199-285 | a write may be asked for exactly when it is a valid config for the config path, an image elsewhere or a network document for its path, and each such write can get its body in place for good, network documents alone by way of being accepted |
| ConvergenceProgress.WithdrawCanHappen | network.go:125-130 | the network document can be withdrawn at any time, after which readers find none |
| ConvergenceProgress.AnyCallMayFail | fileio.go:40-69 | at every point of a write the next call may fail; then the temporary file, if there is one, is to be removed, which may fail too |
| ConvergenceProgress.ProcessMayStop | orchestration.go:55-87 | at any time the process may restart, the files staying, or power be lost; no thread, lock or record of applied configs survives |
| ConvergenceProgress.EntriesMayReachDisk | fileio.go:9-15 | at any time the kernel may write any one directory entry back, with nothing else changing |
| ConvergenceProgress.UnsyncedMayHoldAnything | fileio.go:9-15 | after a power loss a synced file is as written, an unsynced one may hold anything, and readers see what was on disk |
| ContainerConfig.TextIsMeaning | podman.go:127-133 | two configs have the same hashed text exactly when they mean the same, whatever the order in which their environments were filled |
| ContainerConfig.TextInFull | podman.go:127-133 | the hashed text is an object with the fields under their names, in their order |
| ContainerConfig.TailInFull | podman.go:127-133 | network mode, read-only root and capability lists are in it only when set |
| ContainerConfig.PartsInFull | podman.go:127-133 | the text of a port mapping, a volume and an environment entry, field by field |
| Json.EscapedInFull | podman.go:127-133 | which characters of a string are escaped, and how |
| ConfigMeaning.WrittenNumberReads | podman.go:127-133 | a number in the text reads back, digit by digit, as itself |
| ContainerConfig.SameTextSameSpec | podman.go:223-295 | configs with equal texts produce equal specs |
| ContainerConfig.CreateSpec | podman.go:223-295 | the spec filled in by the loops is the one the config describes, each field, port mapping and mount being what was asked for |
| ContainerConfig.SpecIsAsked | podman.go:223-295 | that spec, field by field from the config: name, image, user, command, restart policy, environment, read-only root, capabilities, network mode, ports with tcp for an empty protocol, and mounts |
| ContainerConfig.MountIsAsked | podman.go:266-282 | a mount binds the host path to the container path, read-only exactly when the volume is, relabelled exactly when a relabel option is set |
| ContainerConfig.SpecKeepsPorts | podman.go:249-264 | the port mappings of a valid container carry its port numbers unchanged |
| Orchestration.AcceptedPortsArrive | config.go:369-381 | so do those of every container of an accepted config |
| Sorting.SortForgetsOrder | podman.go:127-133 | sorting by key forgets the order in which a map was filled |
| Json.StrUnique | podman.go:127-133 | an encoded string tells where it ends and what it encodes, whatever follows |
| Json.SliceUnique | podman.go:127-133 | so does an encoded list, nil and empty apart |
| PodmanState.ReconciledIndependently | orchestration.go:139-145 | reconciling a list one by one leaves each declared container as reconciling it alone would, the others untouched |
| PodmanState.OrderDoesNotMatter | orchestration.go:139-145 | two lists of the same containers, distinctly named, lead to the same outcome |
| PodmanState.CurrentHasDesiredSpec | podman.go:213-221 | a container left alone for its hash has the spec its config asks for, when labels were written by this program |
| PodmanState.DeclaredRunAsDeclared | podman.go:140-193 | after a successful phase from honest labels each declared container exists, runs, and has its config's spec and hash, provided declarations sharing a name share their hash |
| PodmanState.ReconciledInFull | podman.go:140-193 | after a reconcile a container of that name is in state running with the config's hash as its label; if there was one already nothing changes, and otherwise it has the very spec the config asks for and its image is there |
| PodmanState.RestingInFull | podman.go:647-654 | the states at rest are created, configured, dead, exited, removing and stopped, in any case of letters, and no other |
| PodmanState.PhaseInFull | orchestration.go:135-153 | after the phase every undeclared container is in one of these states, and every declared one in state running with its config's hash where declarations sharing a name share it |
| Podman.RunStaysHonest | podman.go:140-193 | at every point of every run, whatever failed in it, honest labels are still honest: each names the config its container was made from |
| Podman.LeftAloneIsAsDeclared | podman.go:157-164 | hence at any point of such a run a container left alone for its hash has the very spec its config asks for |
| PodmanState.LastDeclarationWins | orchestration.go:139-145 | of declarations sharing a name the last decides |
| PodmanState.AllCurrentIffNamesAgree | podman.go:140-193 | a successful phase leaves every declaration up to date if and only if declarations sharing a name agree in their hash |
| Podman.ReconcileContainer | podman.go:140-193 | success, which is no call failing, gives the reconciled outcome: a container in state running with the config's hash, made from the spec asked for unless it ran so before; every call made on the way, in failing runs too, touches only the container of that name: it keeps its id and settings while it stays, a new one has the settings asked for, images only come, and one that is up to date is left alone |
| Podman.ReconcilingSparesOthers | podman.go:140-193 | hence while one container is reconciled every other one is unchanged at every point, however the reconcile ends |
| Podman.CurrentKeepsIdentity | podman.go:157-164 | along any run a declared container that is up to date keeps its id and everything else, where declarations sharing a name share their hash |
| Podman.DisagreementCostsIdentity | podman.go:174-178 | and not otherwise: where they differ, the next step of a run may remove a container that is up to date for one of them |
| Podman.RemovedOnlyWithImage | podman.go:166-179 | a container, told by its id, goes only for the one declared under its name, not up to date, whose image is present |
| Podman.UnmanagedAreOnlyStopped | podman.go:366-394 | along any run an undeclared container keeps its id and settings, and no image goes |
| Podman.StopUnmanagedContainers | podman.go:366-394 | success leaves every undeclared container exited unless its lower-cased state was created, configured, dead, exited, removing or stopped, and nothing else changed; every call made, in failing runs too, changes the run state of one undeclared container and nothing else; if all are at rest already, no call is made |
| Podman.StoppingSparesDeclared | podman.go:377-391 | hence while unmanaged containers are stopped every declared one, and the images, are unchanged at every point, however the stopping ends |
| Podman.ReconcileContainers | orchestration.go:139-149 | one container's failure keeps no other from converging; the failures reported are distinct declarations, as many as calls failed; every call made belongs to the reconcile of a declared container |
| Podman.ReconcilingSparesUndeclared | orchestration.go:139-149 | hence while the declared containers are reconciled every undeclared one is unchanged at every point |
| Podman.ContainerPhase | orchestration.go:135-153 | success gives the outcome of stopping and then reconciling all: undeclared containers in one of the six states of rest, declared ones running with their hashes where names agree; calls that stop come first, calls that reconcile after; an idle Podman is left alone |
| Podman.SuccessIsIdleIffNamesAgree | podman.go:157-164 | after success the phase has nothing left to do if and only if declarations sharing a name share their hash |
| Orchestration.ApplyConfig | orchestration.go:94-153 | the firewall is not touched before the network is as declared, nor Podman before the firewall; success means all three, and comes exactly when the config is valid and no step and no call failed; a rejected config changes nothing; a firewall already converged and an idle Podman are left alone |
| Orchestration.ValidateConfig | config.go:260-283 | given the remaining checks pass, accepts exactly the configs whose network and firewall entries and containers are all valid |
| PodmanLogs.ContainerLogLines | podman.go:513-562 | the loop over the reused buffer yields exactly the lines and the error of the stream's frame-by-frame reading |
| PodmanLogs.DecodeEncoded | podman.go:513-617 | decoding any frames of channels 0 to 2 gives no error and the suffix of all their prefixed lines whose length is the tail or, if smaller, their number |
| PodmanLogs.DecodedWasEncoded | podman.go:534-609 | success means the stream was a whole sequence of such frames |
| PodmanLogs.TruncationIsAnError | podman.go:585-609 | a stream cut inside a header or a payload is an error, which one depending on where it is cut and how it ended |
| PodmanLogs.SplitLogFrameKeepsText | podman.go:611-617 | joining a frame's lines gives back its text without one final newline |
| PodmanLogs.FrameLinesInFull | podman.go:567-617 | the lines of a frame are those of its payload, each with stderr in front for channel 2 and stdout for channels 0 and 1 |
| PodmanLogs.OtherChannels | podman.go:567-599 | a whole frame of channel 3 ends the reading with its text as error, an unknown channel as soon as its header is read |
| PodmanLogs.LastNInFull | podman.go:557-559 | what is returned is the suffix of all lines, as long as the tail allows |
| PodmanLogs.BigEndianInFull | podman.go:585-599 | a frame's length is its four header bytes in big-endian order |
| PodmanLogs.Reader.ReadFull | podman.go:585-609 | fills the buffer and advances, or says whether the stream ended before or inside |
| MountPoint.UnescapeInvertsEscape | hoststats.go:132-137 | unescaping is a left inverse of escaping, for every path |
| MountPoint.EscapeInvertsUnescape | hoststats.go:132-137 | and a right inverse exactly on the texts escaping can write |
| MountPoint.ShortcutAgrees | hoststats.go:133-135 | the early return without a backslash agrees with the full scan |
| MountPoint.UnescapedInFull | hoststats.go:132-137 | the sequences 040, 011, 012 and 134 behind a backslash become space, tab, newline and backslash, and every other character stays |
| NMState.BuildNMState | network.go:234-277 | fails exactly when some entry is invalid by itself; otherwise the interfaces are in order, the gateways' routes come before the explicit ones, and the servers are as first seen |
| NMState.FirstSeenInOrder | network.go:748-763 | first-seen order: each server once, ordered by first occurrence |
| NMState.BuildNMInterface | network.go:324-377 | the checks in order accept exactly the valid interfaces, and the updates give the described one |
| NMState.BuildBond | network.go:575-615 | accepts exactly known modes with non-empty, distinct members other than the bond, and a primary that is a member under a supporting mode |
| NMState.BondPorts | network.go:588-603 | the loop with its set accepts exactly the member lists without blanks, repetitions or the bond itself |
| NMState.Draft.ApplyIPv6Settings | network.go:474-500 | a method excludes a static address, a generation mode needs an enabled stack |
| NMState.State.AppendInterfaceDNS | network.go:748-763 | appends the servers not seen before |
| NMState.BuildNMRoute | network.go:690-732 | accepts exactly the valid routes and normalises the destination |
| InterfaceRules.StaticAddressWellFormed | network.go:382-402 | an accepted static address is in its subnet, on its own family alone, and excludes a method there |
| InterfaceRules.StacksWellFormed | network.go:407-500 | a stack with an address is plain manual; a generation mode comes only with an enabled IPv6 stack |
| InterfaceRules.BlocksWellFormed | network.go:505-645 | VLAN and bond blocks are there exactly for their types, complete and consistent |
| NetworkMeaning.AcceptedInterfaceInFull | network.go:324-500 | an interface is accepted exactly under its conditions, each written out with its words and bounds |
| NetworkMeaning.BuiltInterfaceInFull | network.go:324-645 | what an accepted interface becomes, field by field: type, MTU, addresses, methods of both stacks, VLAN and bond blocks |
| NetworkMeaning.GatewayInFull | network.go:649-669 | a gateway becomes one route to 0.0.0.0/0 or ::/0 by its family, through its interface |
| NetworkMeaning.ServersInFull | network.go:748-763 | each name server of an interface is shown as its address, in 4 bytes if it has such a form |
| NetworkMeaning.RouteInFull | network.go:690-732 | a route is accepted exactly under its conditions and becomes one to its network, with its gateway, metric and table |
| InterfaceRules.PrefixFitsIffSubnetOfFamily | network.go:390 | the prefix length fits the address family if and only if not an IPv4 address in a subnet written as 16 bytes |
| InterfaceRules.MappedSubnetOverflows | network.go:382-402 | such a declaration is accepted, by any parser that reads 10.0.0.1 and ::ffff:a00:0/104 as they are meant, and gives the IPv4 address a prefix length of 104 |
| InterfaceRules.RouteDestinationIffSameCover | network.go:690-708 | two routes have the same destination text exactly when they cover the same addresses |
| Net.ContainsIffInSubnet | network.go:776-778 | the byte-wise containment test is membership in the addresses the subnet covers |
| Net.To4InFull | network.go:382-402 | an address has a 4-byte form exactly when it has 32 bits, or 128 with 80 clear and 16 set in front |

## Where the code and its words differ

- A subnet written as an IPv4-mapped IPv6 prefix is accepted for an IPv4 address, and its
  16-byte prefix length ends up on the IPv4 stack (`InterfaceRules.MappedSubnetOverflows`); the exact
  condition is `InterfaceRules.PrefixFitsIffSubnetOfFamily`.
- Two sources that admit the same addresses need not give one rule: a host and the
  one-address network around it stay two (`FirewallRules.SameReachTwoTexts`); the exact condition is
  `FirewallRules.SameRuleIffSameReach`.
- Container names need not be distinct. Declarations of one name with different settings are
  recreated over each other on every run; the exact conditions are
  `PodmanState.AllCurrentIffNamesAgree` and `Podman.SuccessIsIdleIffNamesAgree`, a witness
  `Podman.DisagreementCostsIdentity`.
- If firewalld cannot be started, an empty list of ports counts as success although nothing
  was pruned; convergence is claimed for running firewalld only.
- If syncing the directory fails after the rename, an upload is reported as failed and is not
  applied although readers already see it (`ConvergenceTraces.RenamedButNotApplied`); the
  exact condition is `ConvergenceTraces.UnappliedUploadChangesPathIffRenamed`.
- The network document is withdrawn so that no stale one is applied at the next boot, but its
  directory is not synced, so a power loss may bring it back. A withdrawal is final exactly
  when the document was not on disk before (`FileSystem.RemovalSettlesIffNotOnDisk`, and over the
  whole call `FileWriter.ConfigureHostInterfaces`).

## Left out

- Convergence.Do: a thread's directory sync writes back its own destination's entry; other entries of that directory are written back by the kernel steps that may come at any time.
- Convergence.Enabled: network commits run as threads of their own and not only under the lock, which allows more runs than the program has; the firewall and container calls inside a convergence are not interleaved with the file protocol.
- Orchestration.ApplyConfig: setting up the hostname, folders and files, starting firewalld, and starting and reaching the Podman socket are each an outcome given from outside, since they are system calls with no state modelled here.
- Orchestration.ValidateConfig: the checks of the Podman mode, the hostname, folders and files are one outcome given from outside; each is a short check of one field.
- Podman.StopUnmanagedContainers: a listed container without an id makes it give up without a call; that failures are failed calls is stated for containers with ids.
- Error texts and log lines: an error is modelled as the place it stops the run.
- The fixed `state: up` of every interface, and the JSON rendering of the network document, which is a parameter.
- The containers field that validation forbids (interfaces).
- provision.go, the folders and files it writes and their modes and owners; it enters `ApplyConfig` as one step that may fail.
- MkdirAll, file modes and the transmit queue length: each only adds a call that may fail.
- HTTP, sockets, D-Bus, netlink, systemd and the other transports; timeouts, cancellation and the reboot scheduler.
- networkstatus.go, status.go, hardware.go, log.go and the rest of hoststats.go: field copying and short arithmetic.
