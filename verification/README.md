# dicker, modelled in Dafny

dicker is a small container runtime written in Go. This project models its core and proves properties of that model:

- **IPv4 address manager.** It keeps a persisted table from a subnet's canonical CIDR text to a bitmap of used addresses. It allocates addresses first-fit and releases them.
- **Bridge network driver.** It builds networks over the kernel's table of links: it creates the bridge, gives it the gateway address, brings it up, installs a masquerading NAT rule, and connects containers through veth pairs.
- **Network registry.** It holds the drivers and networks by name. Creating a network chains the driver lookup, the gateway allocation, the driver, the record's dump and the registration. `Init` reloads the records from disk.
- **Container workspace.** An overlay root is made from a read-only image layer, a write layer and a work directory, plus an optional bind-mounted volume. Teardown undoes it.
- **Container init process.** It reads the command from the parent's pipe, switches root with `pivot_root`, mounts `/proc` and `/dev`, and replaces itself with the command.
- **cgroup v1 helpers and subsystems.** They find a hierarchy's mount point in `/proc/self/mountinfo`, resolve or create a cgroup directory, and write the cpu, cpuset and memory limits, and write the process pid to `tasks`.

The disk and the kernel are replaced by abstract state:

- **Host world** (`HostOs.World`) has directories, files, mounts, root, working directory, and a trace of every state-changing call attempted.
- **Kernel** (`Bridge.KernelState`) holds links by name, NAT rules, and a trace of calls.
- **Failures** come from outside reasons. An environment fixed in advance says which calls fail, which `Stat`s fail and which reads fail. The failures the kernel always reports are modelled directly: creating what exists, removing what is absent, writing below a regular file, a plain unmount while another mount lies below the target (EBUSY), and `mkdir` where the parent is not a directory (ENOENT). `os.MkdirAll` creates the missing directories above its target too.

Code that changes state step by step is modelled as methods:

- on the `Host`, `Kernel`, `IpAddrManager`, `Registry` and `Endpoint` classes;
- or as module-level methods that take a `Host` or a `Kernel`.

Each method's `ensures` ties its result and the new state to a pure specification function. The properties are proved as lemmas about those functions.

Files:

| file | module | models |
|---|---|---|
| wrappers.dfy | Wrappers | `Option`, `Result`, and `Exit` (a normal return or a Go panic) |
| strings.dfy | Strings | `strings.Split`/`Join`/`TrimSpace` |
| decimal.dfy | Decimal | `strconv.Itoa` and reading it back |
| ipv4.dfy | IPv4 | addresses, masks, per-byte offset arithmetic, canonical CIDR text |
| hosts.dfy | HostAddresses | the host range of a subnet and worked examples |
| documents.dfy | Documents | the persisted documents and the size of a table's JSON text |
| host.dfy | HostOs | the host world, the runs of calls, the shared dump |
| ipam.dfy | Ipam | `IpAddrManager` with `load`, `Alloc`, `Release` |
| ipam_facts.dfy | IpamFacts | what allocation and release promise |
| volume.dfy | Workspace | container/volume.go |
| init.dfy | ContainerInit | container/init.go |
| util.dfy | CgroupUtil | util/util.go |
| subsystem.dfy | Cgroups | cgroups/subsystem.go |
| bridge.dfy | Bridge | network/bridge.go |
| bridge_facts.dfy | BridgeFacts | the NAT rule against the allocated gateway |
| network.dfy | Networks | network/network.go |

## Model

| member | source | states |
|---|---|---|
| Decimal.IntToStringRoundTrip | cgroups/subsystem.go:74-77 | the decimal text of any integer (the pid written to "tasks") reads back as that integer |
| Decimal.IntToStringInjective | cgroups/subsystem.go:74-77 | different integers have different decimal texts |
| Strings.JoinSplit | container/init.go:50 | joining the parts of a split with the separator gives back the text |
| Strings.SplitJoin | command/run.go:80 | splitting a join of separator-free parts gives back the parts |
| Strings.SplitAtFirst | container/volume.go:41 | a split stops the first part at the first separator |
| Strings.TrimSpaceEmpty | container/volume.go:38 | the trimmed text is empty iff every character is white space |
| IPv4.NetworkOfIsNetwork | network/ip.go:31 | masking an address with a /p mask gives an address with zero host bits |
| IPv4.OffsetAddrAt | network/ip.go:63-66 | the per-byte difference taken by `Release` recovers the offset `Alloc` added per byte |
| IPv4.AddrAtOffset | network/ip.go:105-108 | adding an address's computed offset back to the network address gives the address again |
| IPv4.InSubnetIffOffset | network/ip.go:105-111 | an address lies in the subnet iff its computed offset is below the subnet size |
| IPv4.CidrStringInjective | network/ip.go:46 | different (network, prefix) pairs get different table keys |
| IPv4.CidrStringParts | network/bridge.go:46 | the canonical text is the dotted quad and the prefix length around one '/' |
| IPv4.SubnetSize | network/ip.go:54 | a subnet holds at least one address (2^(32-p)) |
| HostAddresses.NonHostOffsets | network/ip.go:60 | offsets 0 and beyond the last host are exactly the network address, the broadcast address and the addresses outside the subnet |
| HostAddresses.OffsetIffAddrAt | network/ip.go:63-66 | an address has offset i iff it is the address at offset i |
| HostAddresses.ExampleFirstHost | network/ip_test.go:37-39 | the first host of 192.168.1.0/24 is 192.168.1.1 |
| HostAddresses.Slash16Hosts | network/ip.go:63-66 | the first two hosts of 172.18.0.0/16 are 172.18.0.1 and 172.18.0.2 |
| Documents.JsonSizeLower | network/ip.go:163 | a table's JSON text is more than five characters per flag of any one non-empty bitmap |
| HostOs.StatOf | network/ip.go:153-161 | `os.Stat` reports found only for what exists, absent only for what does not |
| HostOs.ReadFile | util/util.go:50-54 | a read succeeds iff the file exists and is readable, and returns its content |
| HostOs.RunTrace | container/volume.go:173-189 | a short-circuit run of calls attempts a prefix of them in order, all of them iff none failed, ending with the failing one |
| HostOs.RunAppend | container/volume.go:14-23 | running two plans back to back is running their concatenation |
| HostOs.DumpSpec | network/ip.go:151-179 | the files change only at the dump's path, and a successful dump leaves the content there |
| HostOs.DumpThenRead | network/network.go:57-86 | what a successful dump wrote is what a later read returns |
| HostOs.ParentOfChild | container/init.go:90-92 | the directory holding a name joined below a directory is that directory |
| HostOs.PivotStep | container/init.go:96 | a successful `pivot_root` makes the new root the root and leaves the old root mounted where it is now found |
| HostOs.DumpSucceeds | network/ip.go:151-179 | with nothing failing, a dump to a path that is not a directory, not below a file and not ending in '/' succeeds and writes the content there |
| HostOs.DumpLeavesFile | network/ip.go:168-176 | after a successful dump the file holds what was written and its directory can be examined |
| HostOs.DumpAgain | network/ip.go:151-179 | once a dump succeeded, the next dump to that path fails only if the write itself is refused |
| HostOs.Host.RunPlan | container/volume.go:173-189 | attempts the calls in order and stops at the first failure, as `Run` says |
| HostOs.Host.Stat | network/network.go:59 | answers as `StatOf` and changes nothing |
| HostOs.Host.Read | util/util.go:50 | answers as `ReadFile` and changes nothing |
| HostOs.Host.Dump | network/ip.go:151-179 | performs `DumpSpec` |
| Ipam.FirstFree | network/ip.go:57-60 | the lowest clear offset strictly between the first and the last, if any |
| Ipam.FirstFreeUnique | network/ip.go:57-60 | a clear usable offset with every lower usable offset set is the first free one |
| Ipam.LoadTable | network/ip.go:122-149 | corrected (whole-file read, see ## Findings): a successful load returns exactly the table the file holds |
| Ipam.LoadTableAsWritten | network/ip.go:138-146 | `load` with its single 2048-byte read: a table whose JSON text is longer is never loaded |
| Ipam.Prepared | network/ip.go:46-55 | a subnet the table does not know gets an all-clear bitmap of 2^(32-p) flags under its key; a known one is untouched |
| Ipam.AllocSpec | network/ip.go:30-83 | over the corrected `LoadTable`: a non-IPv4 or unparsable subnet is refused before anything is read; files change only at the table's path |
| Ipam.ReleaseSpec | network/ip.go:85-120 | over the corrected `LoadTable`: an unparsable or non-IPv4 subnet or address is refused before the file is read; files change only at the table's path |
| Ipam.IpAddrManager.Load | network/ip.go:122-149 | corrected load: empties the table, then fills it from the file as `LoadTable` says |
| Ipam.IpAddrManager.Alloc | network/ip.go:30-83 | over the corrected load: the first-fit scan and the per-byte address loop compute `AllocSpec` |
| Ipam.IpAddrManager.Release | network/ip.go:85-120 | over the corrected load: the per-byte offset loop and the bound check compute `ReleaseSpec` |
| Ipam.AddOffset | network/ip.go:63-66 | adding offset `i` byte by byte with Go's 8-bit wrap-around yields exactly `AddrAt(net, i)`, the subnet address plus `i` |
| Ipam.OffsetBetween | network/ip.go:105-108 | the per-byte shifted sum of wrapped byte differences yields exactly `OffsetOf(net, x)`, the inverse of `AddrAt` inside the subnet |
| Ipam.IpAddrManager.constructor | network/ip.go:26-28 | the manager starts at its file path with no subnet loaded |
| IpamFacts.LoadAfterDump | network/ip.go:122-179 | a table written by a successful dump is what the next load finds |
| IpamFacts.AllocFirstFit | network/ip.go:57-73 | the returned address is in the subnet, is the network address plus the lowest clear usable offset, and only that flag is set |
| IpamFacts.AllocExhausted | network/ip.go:57-82 | exhaustion is reported iff every usable flag is set, and then nothing is written |
| IpamFacts.SmallSubnetsExhausted | network/ip.go:60 | a /31 or /32 subnet has no address to hand out |
| IpamFacts.FreshSubnetFirstAddress | network/ip.go:46-73 | the first allocation in an unknown subnet returns the address after the network address |
| IpamFacts.ReliableAllocSucceeds | network/ip.go:30-83 | with nothing failing, an IPv4 allocation succeeds or reports exhaustion |
| IpamFacts.FirstAllocExample | network/ip_test.go:32-39 | with no table yet, the first address in 192.168.1.0/24 is 192.168.1.1 |
| IpamFacts.LoadMissing | network/ip.go:125-128 | an absent file that can be examined holds no table |
| IpamFacts.ReleaseAcceptsExactlyHosts | network/ip.go:105-113 | release refuses exactly the network address, the broadcast address and addresses outside the subnet, and a refusal writes nothing |
| IpamFacts.ReleaseUnknownSubnet | network/ip.go:109 | an address of a subnet the table does not know is never released |
| IpamFacts.ReleaseWithoutStore | network/ip.go:101-103 | without a persisted table release fails and writes nothing |
| IpamFacts.ReleaseIdempotent | network/ip.go:113-117 | releasing the same address twice leaves what the first release left |
| IpamFacts.AllocReleaseRoundTrip | network/ip_test.go:100-106 | releasing the address just allocated restores the bitmap, in memory and on disk |
| IpamFacts.NoDoubleAllocation | network/ip.go:57-76 | two allocations in a row in one subnet return different addresses |
| IpamFacts.EmptyTableFirstAddress | network/ip.go:46-78 | from an empty table the first host of any subnet with two or more hosts is handed out and recorded |
| IpamFacts.AsWrittenAllocatesTwice | network/ip.go:138-146 | as written, in a /23 or larger subnet the second allocation hands out the first host again |
| IpamFacts.AsWrittenReleaseFails | network/ip.go:101-103 | as written, releasing the first host handed out in a /23 or larger subnet fails with the load error and writes nothing |
| IpamFacts.AsWrittenReleaseRefusesLargeTable | network/ip.go:101-103 | as written, a stored table holding a subnet of 512 or more addresses makes every release a load error; the corrected `ReleaseSpec` never reports a load error for it |
| IpamFacts.CorrectedAllocatesNext | network/ip.go:57-76 | reading the whole file, the second allocation hands out the next host |
| Workspace.ParseVolumeMapping | container/volume.go:37-46 | a blank mapping means no volume; otherwise exactly two non-empty colon-free parts around one ':', or an error |
| Workspace.ParseVolumeRoundTrip | container/volume.go:37-46 | "a:b" with non-empty colon-free parts parses back to (a, b) |
| Workspace.CreateReadOnlyLayerSpec | container/volume.go:49-73 | a missing image archive is an error with nothing done; an already extracted image is left alone |
| Workspace.CreateReadOnlyLayerIdempotent | container/volume.go:54-72 | once the layer exists a second call changes nothing |
| Workspace.ExtractGrows | container/volume.go:59-65 | a successful extraction keeps every file and directory and adds the extraction directory |
| Workspace.NewWorkspaceSpec | container/volume.go:14-35 | a missing image fails first; the only errors returned are the three layers'; volume errors are only logged |
| Workspace.NewWorkspaceIsOneRun | container/volume.go:14-35 | the layers' calls are one short-circuit run, followed by the volume's calls only when every layer succeeded and a volume is named |
| Workspace.DeleteVolumeRun | container/volume.go:163-171 | `deleteVolume` attempts exactly its one unmount, which succeeds iff the call is allowed, the volume is mounted and nothing else is mounted below it; success takes away that mount and no other |
| Workspace.PlainUnmount | container/volume.go:166 | a plain unmount fails unless it is allowed, its target is mounted and no other mount lies below it; on success only the target's mount goes |
| Workspace.VolumeRefused | container/volume.go:163-168 | a volume unmount that does not go through fails at once and changes nothing but the trace |
| Workspace.DeleteVolumeIfAnyRun | container/volume.go:136-146 | the volume's unmount is attempted only when the mapping names a volume; it fails iff that unmount is refused, and leaves mounted all but the volume when it succeeds |
| Workspace.VolumeBelowMountPoint | container/volume.go:164-165 | the volume's mount target lies strictly below the mount point |
| Workspace.VolumeKeepsMountPointBusy | container/volume.go:160-162 | while the volume is mounted, the mount point is busy |
| Workspace.MountPointNotWriteLayer | container/container_proc.go:21-22 | the mount point and the write layer are different directories |
| Workspace.DeleteMountPointRun | container/volume.go:173-189 | unmount (refused while another mount lies below the mount point), remove the mount point, remove the work directory, stopping at the first failure |
| Workspace.MountPointRefused | container/volume.go:173-177 | a refused unmount of the mount point ends `deleteMountPoint` at once, changing nothing but the trace |
| Workspace.WriteLayerRun | container/volume.go:191-198 | removing the write layer fails exactly when the environment refuses it |
| Workspace.DeleteWorkspaceTrace | container/volume.go:134-158 | teardown attempts the volume unmount, the mount point steps up to the first failure (the unmount judged against the mounts the volume step left), and always the write layer's removal |
| Workspace.DeleteWorkspaceLastError | container/volume.go:134-158 | the error returned is the last failing step's, and none iff every step succeeded; a volume still mounted makes the mount point's step fail |
| Workspace.VolumeStillMountedKeepsMountPoint | container/volume.go:139-140 | a volume whose unmount fails keeps the mount point busy: teardown attempts only the two unmounts and the write layer's removal, never removes the mount point, leaves both mounted, and reports the mount point's error unless the write layer's removal fails |
| Workspace.BusyTeardown | container/volume.go:134-158 | the exact result of a teardown whose volume stays mounted |
| Workspace.CreateReadOnlyLayer | container/volume.go:49-73 | performs `CreateReadOnlyLayerSpec` |
| Workspace.NewWorkspace | container/volume.go:14-35 | performs `NewWorkspaceSpec` |
| Workspace.DeleteWorkspace | container/volume.go:134-158 | performs `DeleteWorkspaceSpec` |
| ContainerInit.ReadUserCommand | container/init.go:39-51 | nothing iff the pipe cannot be read; otherwise space-free words whose join is the pipe's content |
| ContainerInit.CommandRoundTrip | command/run.go:80 | the words the parent joins with spaces are read back as the same words |
| ContainerInit.EmptyPayload | container/init.go:20-22 | an empty pipe gives one empty word |
| ContainerInit.PutOldPaths | container/init.go:90-102 | the holding directory is root + "/.pivot_put_old" before the switch and "/.pivot_put_old" after it |
| ContainerInit.PutOldParent | container/init.go:90-92 | the holding directory is created directly in the new root |
| ContainerInit.MountSpec | container/init.go:53-78 | a failed `Getwd` is an error with nothing done; what the other branches do is stated by `ContainerInit.MountIsOneRun` |
| ContainerInit.MountIsOneRun | container/init.go:53-78 | `mount` is one short-circuit run of the root switch, then `/proc`, then `/dev` |
| ContainerInit.ReliableSwitch | container/init.go:86-96 | for a new root that is an existing directory, bind mount, holding directory and `pivot_root` succeed and leave the old root mounted in the holding directory |
| ContainerInit.ReliableCleanup | container/init.go:99-110 | chdir, detach of the old root and removal of its directory succeed |
| ContainerInit.ReliablePivot | container/init.go:81-113 | with nothing failing and the new root an existing directory, the root becomes the new root, the working directory "/", and the old root is gone |
| ContainerInit.ReliableMountSucceeds | container/init.go:53-78 | with nothing failing and the working directory an existing directory, `mount` switches root and mounts `/proc` and `/dev` |
| ContainerInit.RunContainerInitSpec | container/init.go:17-37 | no command is an error; a command `LookPath` cannot find is an error and nothing is executed; a found command replaces the process at its looked-up path with the read arguments, and an exec failure there is only logged, exactly when exec fails; the mount setup runs whenever there is a command |
| ContainerInit.InitIgnoresMount | container/init.go:24 | how the init process ends does not depend on the host state |
| ContainerInit.PivotRootCalls | container/init.go:81-113 | performs `PivotRootSpec` |
| ContainerInit.MountProcAndDev | container/init.go:53-78 | performs `MountSpec` |
| ContainerInit.RunContainerInitProcess | container/init.go:17-37 | performs `RunContainerInitSpec` |
| CgroupUtil.MountPointOf | util/util.go:81 | a matching line yields a mount point iff it has at least five space-separated fields, and panics otherwise |
| CgroupUtil.ScanMountInfo | util/util.go:73-90 | the first matching line decides the answer; "" when none matches |
| CgroupUtil.FindCgroupMountPoint | util/util.go:60-91 | an unreadable mountinfo gives "", otherwise the scan's answer; what the scan answers is stated by `CgroupUtil.ScanMountInfo` and the lemmas after it |
| CgroupUtil.FirstMatchWins | util/util.go:73-84 | lines after the first match never change the answer |
| CgroupUtil.NoMatchAppend | util/util.go:73-84 | lines before any match that do not match change nothing |
| CgroupUtil.WellFormedNeverPanics | util/util.go:81 | if every matching line has five fields the scan never panics |
| CgroupUtil.FirstMatching | util/util.go:73-84 | the first line that matches exists when any does |
| CgroupUtil.MatchingLine | util/util.go:75-81 | a line whose super options name the subsystem yields its mount-point field |
| CgroupUtil.GetCgroupPathSpec | util/util.go:93-107 | an existing directory is returned; a missing one is created only when asked, and the creation succeeds iff it is allowed and its parent is a directory; otherwise an error; any other `Stat` error is an error |
| CgroupUtil.GetCgroupPath | util/util.go:93-107 | performs `GetCgroupPathSpec` |
| CgroupUtil.GenRandStrBytes | util/util.go:22-29 | n characters, each the digit chosen by the matching draw; a negative n panics |
| CgroupUtil.DigitLetter | util/util.go:23-26 | every letter the generator picks from is a digit |
| CgroupUtil.GetEnvsByPid | util/util.go:48-57 | nothing iff the file cannot be read; otherwise NUL-free entries whose NUL-join is the content |
| CgroupUtil.EnvsRoundTrip | util/util.go:48-57 | a NUL-separated environment is read back entry by entry |
| Cgroups.ByName | cgroups/subsystem.go:94-116 | a name found belongs to the subsystem returned |
| Cgroups.RegistryComplete | cgroups/subsystem.go:19-23 | every subsystem is registered once and found again by its name |
| Cgroups.LimitFileOfSubsystem | cgroups/subsystem.go:94-116 | each limit file is named after its own subsystem |
| Cgroups.LimitValueFrame | cgroups/subsystem.go:13-17 | each subsystem writes only its own field of the configuration |
| Cgroups.AsWrittenPanics | cgroups/subsystem.go:46-92 | as written, every non-empty `set`, every `Apply` and every `Remove` panics |
| Cgroups.WriteInto | cgroups/subsystem.go:55-63 | with the subsystem's own name (corrected, see ## Findings): a panic or error resolving the directory is passed on; otherwise one file below it is written |
| Cgroups.SetSpec | cgroups/subsystem.go:50-66 | with the subsystem's own name (corrected, see ## Findings): an empty value does nothing |
| Cgroups.SetWritesLimit | cgroups/subsystem.go:50-66 | with the subsystem's own name (corrected, see ## Findings): a successful set leaves exactly the value in the subsystem's limit file and changes no other file |
| Cgroups.MissingCgroup | cgroups/subsystem.go:68-92 | with the subsystem's own name (corrected, see ## Findings): `Apply` and `Remove` on a missing cgroup fail, naming it, and change nothing |
| Cgroups.RemoveDeletesCgroup | cgroups/subsystem.go:82-92 | with the subsystem's own name (corrected, see ## Findings): `Remove` of an existing cgroup removes its directory tree and nothing else, and fails, changing nothing, exactly when the removal is refused |
| Cgroups.ApplyWritesPid | cgroups/subsystem.go:68-80 | with the subsystem's own name (corrected, see ## Findings): what `Apply` writes reads back as the pid |
| Cgroups.CgroupDirOf | util/util.go:93-107 | with the subsystem's own name (corrected, see ## Findings): performs `CgroupDir` |
| Cgroups.Set | cgroups/subsystem.go:50-66 | with the subsystem's own name (corrected, see ## Findings): performs `SetLimit` |
| Cgroups.Apply | cgroups/subsystem.go:68-80 | with the subsystem's own name (corrected, see ## Findings): performs `ApplySpec` |
| Cgroups.Remove | cgroups/subsystem.go:82-92 | with the subsystem's own name (corrected, see ## Findings): performs `RemoveSpec` |
| Bridge.CallSpec | network/bridge.go:120 | a call is always recorded; it fails iff the kernel refuses it, and then changes nothing else |
| Bridge.FindInterfaceRetries | network/bridge.go:185-200 | at most two lookups; the first success is returned; fails only after both failed; nothing else changes |
| Bridge.CreateBridgeSpec | network/bridge.go:101-125 | an existing name is refused with no change; on success exactly one new bridge link is added |
| Bridge.NatRuleMatches | network/bridge.go:160-176 | the rule's words are `iptables -t nat -A POSTROUTING -s <subnet> ! -o <bridge> -j MASQUERADE`, and the `-s` text splits at '/' into the network's dotted quad and the prefix length |
| BridgeFacts.NatRuleCoversGateway | network/network.go:161-168 | for the gateway `Alloc` hands out, the NAT rule's `-s` text is the gateway's own network and prefix, and it names an address's network exactly when that address shares the gateway's network |
| Bridge.CreateNetworkSpec | network/bridge.go:21-50 | a created network carries the given name, the subnet's canonical text, the gateway and driver "bridge" |
| Bridge.BuildSpec | network/bridge.go:27-49 | the record returned on success is the name, subnet text, gateway and "bridge" |
| Bridge.CreateNetworkCalls | network/bridge.go:21-41 | the calls made are a prefix of bridge, address, up, NAT rule (all four on success), and no link is removed on failure |
| Bridge.ReliableCreateNetwork | network/bridge.go:21-50 | with nothing failing, a new name becomes an up bridge holding the gateway with the subnet's prefix, and the NAT rule is installed |
| Bridge.ReliableBuild | network/bridge.go:27-49 | the four steps succeed and leave exactly that bridge and rule |
| Bridge.ReliableSetIp | network/bridge.go:129-145 | the address is added to the link found by name |
| Bridge.ReliableSetUp | network/bridge.go:147-158 | the link found by name is brought up |
| Bridge.VethNames | network/bridge.go:74-82 | the veth is the id's first eight characters, the peer "cif-" plus those, both under 16 characters and different |
| Bridge.ConnectSpec | network/bridge.go:67-93 | a panic happens only for an id shorter than eight; the recorded device is named after the id |
| Bridge.ConnectAttaches | network/bridge.go:67-93 | a connected endpoint's veth is up, enslaved to the bridge's index, and its peer exists |
| Bridge.DeleteNetworkSpec | network/bridge.go:52-64 | on success the network's link is gone and no other link changed |
| Bridge.DisconnectSpec | network/bridge.go:96-98 | always panics |
| Bridge.Kernel.Call | network/bridge.go:115-122 | one netlink or iptables call, as `CallSpec` says |
| Bridge.Kernel.LinkByName | network/bridge.go:189 | one lookup by name, as `LookupSpec` says |
| Bridge.Endpoint.constructor | network/network.go:33-40 | an endpoint starts with its id and no device |
| Bridge.Kernel.FindInterface | network/bridge.go:185-200 | the two-try loop computes `FindSpec` |
| Bridge.CreateBridgeInterface | network/bridge.go:101-125 | performs `CreateBridgeSpec` |
| Bridge.SetInterfaceIp | network/bridge.go:129-145 | performs `SetInterfaceIpSpec` |
| Bridge.SetUpInterface | network/bridge.go:147-158 | performs `SetUpInterfaceSpec` |
| Bridge.CreateNetwork | network/bridge.go:21-50 | performs `CreateNetworkSpec` |
| Bridge.ConnectToNetwork | network/bridge.go:67-93 | performs `ConnectSpec`, recording the device before adding it |
| Bridge.DeleteNetwork | network/bridge.go:52-64 | performs `DeleteNetworkSpec` |
| Networks.GetNetworkDriver | network/network.go:25-27 | nothing iff the name is not registered, else the registered driver |
| Networks.GetNetwork | network/network.go:29-31 | nothing iff the name is not registered, else the registered network |
| Networks.CreateSpec | network/network.go:155-179 | an unknown driver fails with nothing touched; any failure leaves the registered networks unchanged |
| Networks.CreateAfterAlloc | network/network.go:166-176 | a driver or dump failure leaves the registered networks unchanged; the drivers and the address table are never touched |
| Networks.CreateSteps | network/network.go:155-179 | an unknown driver touches nothing; a failed allocation never reaches the driver; the gateway stays allocated whatever fails next; success registers exactly the driver's network |
| Networks.CreateNetworkAsWritten | network/network.go:171 | a failure leaves the registered networks unchanged |
| Networks.CreateNetworkCorrected | network/network.go:155-179 | a failure leaves the registered networks unchanged |
| Networks.AllocLeavesStore | network/ip.go:73-78 | after a successful allocation the allocator's file exists |
| Networks.DumpBelowFileFails | network/network.go:58-66 | a dump to a path joined below a regular file fails at `Stat` and changes nothing |
| Networks.AsWrittenNeverRegisters | network/network.go:171-176 | as written, `CreateNetwork` never registers a network |
| Networks.AllocClearOfRecords | network/network.go:161-172 | the allocation writes nothing on the way to a record's file |
| Networks.RecordsApart | network/network.go:17 | a record file below the network directory is neither the allocator's file, nor on the way to it, nor its directory or a directory above that |
| Networks.CorrectedRegisters | network/network.go:155-179 | corrected, with nothing failing, the network is registered and its record reads back |
| Networks.LoadNetwork | network/network.go:104-121 | a successful load returns the record in the file |
| Networks.LoadAfterDump | network/network.go:57-121 | a dumped record is what a later load finds |
| Networks.RemoveSpec | network/network.go:88-102 | a missing file is not an error and changes nothing; success leaves no file at the path |
| Networks.RemoveIdempotent | network/network.go:88-102 | removing twice is removing once |
| Networks.Registered | network/network.go:141-147 | a file whose load fails is registered as the empty record |
| Networks.WalkRegisterKeys | network/network.go:136-149 | `Init` adds exactly one entry per name loaded from a walked file that is not a directory |
| Networks.FailedLoadRegistered | network/network.go:141-147 | a walked file that cannot be loaded registers the empty name |
| Networks.WalkLastWins | network/network.go:147 | a name ends with the record of the last walked file carrying it |
| Networks.InitSpec | network/network.go:123-152 | a `Stat` or `MkdirAll` failure returns an error with the networks unchanged; success leaves the network directory in place |
| Networks.ReliableInit | network/network.go:123-152 | with nothing failing and the directory not below a file, `Init` succeeds and registers one entry per name loaded from the walk |
| Networks.DeleteNetwork | network/network.go:195-197 | always panics |
| Networks.ConnectToNetwork | network/network.go:199-201 | always panics |
| Networks.DisconnectFromNetwork | network/network.go:203-205 | always panics |
| Networks.Registry.constructor | network/network.go:20-23 | both registries start empty |
| Networks.Registry.CreateNetwork | network/network.go:155-179 | performs `CreateNetworkCorrected` on the registry, the address manager, the host and the kernel |
| Networks.Registry.Init | network/network.go:123-152 | the walk loop computes `InitSpec` and keeps the drivers |
| Networks.LoadRecord | network/network.go:104-121 | performs `LoadNetwork` |
| Networks.RemoveRecord | network/network.go:88-102 | performs `RemoveSpec` |

## Left out

- File contents are values (`Content`), not bytes. JSON encoding, `json.Marshal` errors and partial writes are not modelled. Only the size of a subnet table's JSON text is modelled, for the 2048-byte read.
- Networks.LoadNetwork: `Network.Load` also reads at most 2048 bytes (network/network.go:110-111). A network record is far shorter than that, so the limit is not modelled.
- `HostOs.PathJoin` drops empty elements and joins with one '/'. The rest of `filepath.Clean` ("..", ".", repeated slashes inside an element) is not modelled.
- IPv6: a subnet or address that is not IPv4 is one input value that both `Alloc` and `Release` refuse.
- Bridge.CreateNetworkSpec: an IPv6 subnet is refused as `BadSubnet`, but the Go driver would go on with it. The package's `CreateNetwork` never passes one, because allocation refuses it first.
- The `bits-ones >= strconv.IntSize` check (network/ip.go:50-52) and the `To16` failure (network/ip.go:68-71) cannot happen for IPv4 on a 64-bit host and are not modelled.
- Error texts and logging are not modelled. Errors are datatype values.
- Bridge.CreateBridgeSpec: `net.InterfaceByName`'s error classification (not an `OpError`, or one wrapping a `SyscallError`) is an oracle, the set of names whose query fails.
- `time.Sleep` between the two lookups of `findInterface` is left out.
- Bridge.KernelState: the kernel keeps only links, addresses, up state, master index and NAT rules. Netlink attributes, MAC addresses and the interface-name length limit imposed by the kernel are not modelled.
- Bridge.ConnectSpec: `netlink.LinkSetUp` on the host end is modelled. The veth's IP and MAC, the endpoint's reference to its network and its port mappings are not.
- `exec.LookPath` and `syscall.Exec` in `RunContainerInitProcess` are parameters: a map from command name to resolved path, and whether exec fails.
- `GenRandStrBytes`'s calls to `rand.Intn` are a parameter: the sequence of draws.
- The file system namespace after `pivot_root` is flat. Only the old root's holding directory is re-rooted (`HostOs.OldRootPath`).
- HostOs.Succeeds: `os.Remove` of a directory that still holds entries succeeds in the model, where the kernel answers ENOTEMPTY. The runtime removes this way a network's record file (network/network.go:97), where the case arises only if a directory has taken the record's name, and the old root's holding directory after `pivot_root` (container/init.go:108), where the flat namespace cannot say what lies below it. A write whose target's parent is missing (ENOENT) is not refused either, and `Mount` is never refused at all, whatever its target is (missing, or a file where a directory is expected); the runtime creates its targets first, and the namespace after `pivot_root` is flat.
- `filepath.Walk` in `Networks.InitSpec` is given as the sequence of paths it visits, in order. Its own errors (a nil `FileInfo`) and its lexical order are not modelled.
- `ListNetwork` prints a table of the registry to standard output. Printing is not modelled; the registry it prints is.
- The drivers registry starts empty because driver registration is a TODO in `Init` (network/network.go:124). So `Networks.Registry` starts with no driver, and the source's `CreateNetwork` fails with an invalid-driver error for every driver name. The lemmas about creation take the registry as given.
- `Workspace`: IMAGE_DIR_PATH, READONLY_LAYER_DIR_PATH and OVERLAY_WORK_DIR_PATH are defined outside the modelled package files. They are kept as named constants of unknown value. The write layer's directory keeps the source's spelling, "/root/wirte_layer".
- ContainerInit.RunContainerInitSpec: `syscall.Exec` replacing the process is the `Replaced` outcome. The environment passed to it and the rest of the process's life are not modelled.
- Ipam.ReleaseSpec / Ipam.IpAddrManager.Release: both read the table with the corrected whole-file `LoadTable`. As written, the single 2048-byte read makes `Release` return its load error (network/ip.go:101-103) whenever the stored JSON is longer: a /23 or larger subnet, or two /24 subnets. `Ipam.ReleaseSpecAsWritten` keeps that behaviour, and `IpamFacts.AsWrittenReleaseFails` shows it.
- Bridge.VethOf / Bridge.ConnectSpec: strings are sequences of Unicode code points, where Go's are UTF-8 bytes. `endpoint.Id[:8]` (network/bridge.go:75) takes eight bytes and panics below eight bytes; the model takes eight characters. For an id with non-ASCII characters ("é1234567") the names and the panic condition differ. Splitting and joining on ASCII separators, which is all the rest of the model does with text, is unaffected.
- Concurrency is not modelled: two processes using the allocator's file at once.
- cgroups/cgroup_manager.go, container/container_proc.go (apart from its path constants), command/ and main.go are not part of this model. They are the command line, process creation, and a manager over the subsystems.

## Findings

| source | as written | input that shows it | evidently intended | confidence | as-written member | corrected member |
|---|---|---|---|---|---|---|
| network/ip.go:138-146 | `load` reads the table with one 2048-byte read, so a longer JSON text does not parse; `Alloc` only logs the error and starts from an empty table | two allocations in 172.18.0.0/16: the first writes a 65536-flag bitmap (far over 2048 bytes); the second load fails and 172.18.0.1 is handed out again | read the whole file | not executed | IpamFacts.AsWrittenAllocatesTwice | IpamFacts.CorrectedAllocatesNext |
| network/ip.go:101-103 | `Release` returns the load error when `load` fails, and the 2048-byte read of network/ip.go:138-146 fails for any table whose JSON is longer | allocate 172.18.0.1 in 172.18.0.0/16, then release it: the reload of the 65536-flag table fails and the address stays allocated | read the whole file | not executed | IpamFacts.AsWrittenReleaseFails | IpamFacts.AllocReleaseRoundTrip |
| cgroups/subsystem.go:46-48 | the shared `set`, `Apply` and `Remove` call `s.Name()` on the embedded base type, whose `Name` panics | `Set` of memory limit "100m" on the memory subsystem; `Apply` of any pid | use the concrete subsystem's name ("cpu", "cpuset", "memory") | not executed | Cgroups.AsWrittenPanics | Cgroups.SetWritesLimit |
| network/network.go:171 | the record's path is joined below the address manager's FILE path ("/var/run/dicker/network/ipam/subnet.json/<name>"), which exists once the gateway is allocated, so the dump's `Stat` of that directory fails (ENOTDIR) | `CreateNetwork("bridge", "192.168.1.0/24", "br0")` with the bridge driver registered: the allocation writes subnet.json, then the dump to subnet.json/br0 fails and the network is never registered | keep records below DEFAULT_NETWORK_PATH, where `Init` reads them | not executed | Networks.AsWrittenNeverRegisters | Networks.CorrectedRegisters |
