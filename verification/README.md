# A model of the Gig'MCP gateway

Gig'MCP runs third-party MCP servers in sandboxes behind an egress proxy that holds the
credentials. This project models the parts of the gateway whose correctness is spread over
several functions, goroutines or store writes, and proves what they promise.

| file | part of the gateway |
|---|---|
| `Common.dfy` | optional values, sequences without repetition |
| `Netmgr.dfy` | subnet allocator and its 32-bit address arithmetic |
| `Sandboxes.dfy` | spawn and cleanup of sandboxes: subnet, veth, process, source-IP registry |
| `ProfileHost.dfy`, `ProfileRuns.dfy` | lazy profile runtimes: cold-start coalescing, Invalidate, Close, ownership of cleanups |
| `ProfileResults.dfy` | what a request for a runtime is answered |
| `Gateway.dfy` | the two protocols together |
| `SpawnProfile.dfy` | which servers of a bundle are built, with which tools |
| `UserInstalls.dfy` | per-user installs, bundles and tool preferences under interrupted handlers |
| `Installer.dfy`, `InstallRuns.dfy` | install, upgrade, uninstall, consent and placeholders under crashes |
| `TokenRefresh.dfy`, `TokenAnswers.dfy` | OAuth refresh through singleflight, and what a request for a token is answered |
| `HostMatch.dfy` | egress allowlist matching |
| `Resolver.dfy`, `Egress.dfy` | the credential decision, the connection gate, header injection |
| `AuditQueue.dfy`, `AuditPaging.dfy` | the bounded audit queue and keyset paging of the audit table |
| `Bundle.dfy` | toolpack bundle extraction |
| `Vault.dfy` | the envelope codec |

## How the model is built

- Code that updates state step by step is a class or a method with loops, proved against a
  function on values. Lemmas are about those functions.
- Concurrent code is a labelled transition system: one event is one mutex section, channel
  operation, store call or kernel call. `Run` is any finite interleaving; liveness is stated
  over infinite interleavings.
- An operation that writes several rows is its list of writes, computed from the rows its
  guards read. A crash or an error return is a prefix of that list.
- The clock, randomness, spawn outcomes and store failures are parameters or event labels.
  Cipher, hash and signature are abstract; the cipher's laws are a predicate that is shown
  to be satisfiable.
- Integers are unbounded in the source's 64-bit places. Subnet offsets wrap at 32 bits, and
  tenants parse as 64-bit decimals, as in the code.

## Where the code meets a property only under a condition

- Distinct sandbox addresses: two indices share an address exactly when they agree modulo
  2^30 (`Netmgr.SandboxIPCollision`), so the registry theorem asks for fewer than 2^30 live
  subnets. A second call of one `Cleanup` breaks it (`Sandboxes.SecondCleanupSteals`);
  it is harmless exactly until the index is handed out again
  (`Sandboxes.SecondCleanupHarmless`); `Gateway.CalledOnce` proves the host never makes one.
- Placeholders on reinstall: a reinstall keeps them all exactly when no credential id
  repeats (`InstallRuns.ReinstallKeepsAllIffUnique`).
- Exact file set of a bundle: exact exactly when the staging directory held no other name
  before; only the entrypoint executable exactly when that held of the files before
  (`Bundle.AcceptedBundle`).
- Bundle rows belong to installed servers: broken exactly when an admin uninstall is cut
  after its install sweep, `RemoveServerFromProfiles` had failed, and a row was left
  (`UserInstalls.OwnedExactly`). Tool preferences: broken exactly between the install sweep
  and the preference sweep (`UserInstalls.PrefsExactly`). Repeating the request repairs
  the rows of both, but invalidates no runtime that the failed sweep missed
  (`UserInstalls.RetryMissesRuntimes`); `spawnProfile` relies on neither. Installs of allow-listed apps only:
  broken exactly between the manifest delete and the install sweep
  (`UserInstalls.ListedExactly`).
- At most one refresh: needs the stored token to stay fresh. A later call alone refreshes
  again exactly when it is not (`TokenRefresh.SoloCall`).
- The stored access token was issued for the stored refresh token: broken by a save exactly
  when the last callback since the leader's second read brought another refresh token
  (`TokenRefresh.SaveBelongsExactly`, `TokenRefresh.CrossedRun`), until the next write.
- A runtime stored after an Invalidate read the new bundle: not so exactly when an unfailed
  build was under way on an open host (`ProfileRuns.InvalidateIsFinalExactly`).
- Egress within the consented manifest: the resolver does not test consent, so a refused API
  upgrade already applies to running sandboxes. They stay within the consented hosts exactly
  when these subsume the new ones (`Egress.RefusedUpgradeReachesRunning`).
- Owner's credentials: if the profile cannot be read, the user whose id is the profile's id
  is credited (`Resolver.ProfileUsesItsOwnersCredentials`).
- Only enabled tools exposed: if the preferences cannot be read, all tools of the manifest
  are (`SpawnProfile.ExposeFor`).
- Own audit rows only: not for user id 0, which the query takes for no filter
  (`AuditPaging.OwnRowsOnly`).
- The comment on `handleSetAppTool` says a disabled tool persists across re-install. The
  uninstall deletes the row (internal/store/userinstalls.go:31-34), and the model follows
  the code.

## Model

| member | source | states |
|---|---|---|
| `Netmgr.OffsetBytes` | internal/netmgr/netmgr.go:65-71 | the byte form of `offset` is addition modulo 2^32 |
| `Netmgr.BytesRoundTrip` | internal/netmgr/netmgr.go:65-71 | packing four bytes and unpacking them loses nothing |
| `Netmgr.SandboxIPCollision` | internal/netmgr/netmgr.go:42-71 | two indices have the same sandbox address iff they agree modulo 2^30 |
| `Netmgr.HostIsNeverSandbox` | internal/netmgr/netmgr.go:42-71 | no host address equals a sandbox address, wrap-around included |
| `Netmgr.InsideBase` | internal/netmgr/netmgr.go:42-71 | on a /16 base the /30 of an index lies inside the base iff the index modulo 2^30 is below 16384 |
| `Netmgr.DisjointSubnets` | internal/netmgr/netmgr.go:42-71 | distinct indices below 2^30 have distinct /30 networks |
| `Netmgr.AddressesInTheirNetwork` | internal/netmgr/netmgr.go:41-56 | host and sandbox address are the network address of one /30 plus 1 and plus 2 |
| `Netmgr.AddressesInOrder` | internal/netmgr/netmgr.go:41-56 | below the wrap they are the base plus four for each earlier index, plus 1 and plus 2 |
| `Netmgr.InitialSegmentBound` | internal/netmgr/netmgr.go:42-49 | pigeonhole: an index with everything below it in use is at most the number in use |
| `Netmgr.FreshSubnet` | internal/netmgr/netmgr.go:42-56 | with fewer than 16384 live, the least free index gives a /30 inside the base and apart from every live one |
| `Netmgr.Allocator.constructor` | internal/netmgr/netmgr.go:36-39 | a new allocator has no live index |
| `Netmgr.Allocator.Allocate` | internal/netmgr/netmgr.go:42-56 | terminates with the least free index, at most the number of live subnets, and marks only it |
| `Netmgr.Allocator.Free` | internal/netmgr/netmgr.go:59-63 | frees exactly the given index |
| `Sandboxes.GiveUpShape` | internal/gateway/spawn.go:317-408 | a failure at any point, or the cleanup, is left to release exactly what is held |
| `Sandboxes.StepKeepsInv` | internal/gateway/spawn.go:149-410 | every step of every spawn or cleanup keeps indices, registry, veths and processes tied to one owner each |
| `Sandboxes.RunKeepsInv` | internal/gateway/spawn.go:149-410 | so does every interleaving |
| `Sandboxes.LookupNamesTheHolder` | internal/proxy/registry.go:23-42 | after any interleaving a lookup succeeds iff a sandbox is registered at that address, gives its identity, and that sandbox alone holds the subnet |
| `Sandboxes.HolderIsUnique` | internal/proxy/registry.go:37-42 | the same in any state satisfying the invariant |
| `Sandboxes.VethNameIsFree` | internal/gateway/spawn.go:347-358 | whenever a spawn creates its veth pair the interface name of its index is free |
| `Sandboxes.NothingLeaks` | internal/gateway/spawn.go:317-408 | with no release left to perform, no subnet, entry, veth or process is left |
| `Sandboxes.SoloSpawn` | internal/gateway/spawn.go:149-410 | from any state, an undisturbed spawn is a sequence of five steps that adds one index, process, veth and entry |
| `Sandboxes.SoloCleanup` | internal/gateway/spawn.go:399-408 | from any state, an undisturbed cleanup takes exactly these away again |
| `Sandboxes.LiveSubnetsInBase` | internal/netmgr/netmgr.go:42-71 | in every reachable state with fewer than 16384 live on a /16 base, all live /30s lie in the base and are pairwise apart |
| `Sandboxes.SecondCleanupSteals` | internal/gateway/spawn.go:399-408 | from every initial state, a given sequence of steps reuses an index; a second cleanup of its first holder then removes the running sandbox's registry entry |
| `Sandboxes.SecondCleanupHarmless` | internal/gateway/spawn.go:399-408 | a second cleanup changes no resource iff the index has not been handed out again |
| `SpawnCalls.Registry.constructor` | internal/proxy/registry.go:20 | a new registry is empty |
| `SpawnCalls.Registry.Bind` | internal/proxy/registry.go:23-27 | sets exactly one entry |
| `SpawnCalls.Registry.Unbind` | internal/proxy/registry.go:30-34 | removes exactly one entry |
| `SpawnCalls.Registry.Lookup` | internal/proxy/registry.go:37-42 | found iff present, with the bound identity |
| `SpawnCalls.Kernel.constructor` | internal/gateway/spawn.go:149-410 | no veth, no process and no session |
| `SpawnCalls.Kernel.Connect` | internal/gateway/spawn.go:380-389 | one open session more |
| `SpawnCalls.Kernel.CloseSession` | internal/gateway/spawn.go:399-401 | one open session less |
| `SpawnCalls.Kernel.Start` | internal/gateway/spawn.go:290-311 | one process more |
| `SpawnCalls.Kernel.Kill` | internal/gateway/spawn.go:317-327 | one process less |
| `SpawnCalls.Kernel.CreateVeth` | internal/netmgr/netmgr.go:74-92 | one veth pair more, named by the index |
| `SpawnCalls.Kernel.DeleteVeth` | internal/netmgr/netmgr.go:124-129 | one veth pair less |
| `SpawnCalls.SpawnEgressBackend` | internal/gateway/spawn.go:149-410 | a failure at any step restores allocator, registry, veths, processes and sessions; success adds one of each |
| `SpawnCalls.Release` | internal/gateway/spawn.go:383-389 | the veth, binding, index and process of a bound subnet, in that order |
| `SpawnCalls.FinalCleanup` | internal/gateway/spawn.go:399-408 | closes the session, then gives back veth, binding, index and process of its subnet only |
| `SpawnCalls.SpawnThenCleanup` | internal/gateway/spawn.go:149-410 | a spawn and its cleanup together change nothing |
| `ProfileHost.Host.constructor` | internal/gateway/profilehost.go:124-135 | the zero host is open, with no runtime and no build |
| `ProfileHost.Host.EnterSection` | internal/gateway/profilehost.go:124-165 | one pass of the locked loop: closed, warm, wait or claim |
| `ProfileHost.Host.CommitSection` | internal/gateway/profilehost.go:167-196 | the builder's locked section: the slot is released, and the runtime stored unless the host was closed |
| `ProfileHost.Host.InvalidateSection` | internal/gateway/profilehost.go:330-336 | removes one runtime and hands it out |
| `ProfileHost.Host.CloseSection` | internal/gateway/profilehost.go:348-353 | closes the host and hands out all runtimes |
| `ProfileRuns.StepProtocol` | internal/gateway/profilehost.go:124-196 | every step keeps channels, the building map, the closed flag and the store counts in agreement |
| `ProfileRuns.StepOwnership` | internal/gateway/profilehost.go:124-268 | every step keeps each spawned backend with exactly one owner or cleaned |
| `ProfileRuns.RunInv` | internal/gateway/profilehost.go:124-359 | so does every interleaving |
| `ProfileRuns.ExactlyOneOwner` | internal/gateway/profilehost.go:124-359 | a spawned backend is held by exactly one of a build, a stored runtime or a pending teardown, or was cleaned; no cleanup is called twice |
| `ProfileRuns.CleanedExactlyOnce` | internal/gateway/profilehost.go:330-359 | once closed with all calls and teardowns finished, every backend ever spawned was cleaned exactly once |
| `ProfileRuns.Coalescing` | internal/gateway/profilehost.go:124-196 | one build per profile at a time, no more builds than calls, no more stored runtimes than one plus the removing Invalidates |
| `ProfileRuns.NothingAfterClose` | internal/gateway/profilehost.go:124-196 | after Close nothing is stored and no call that had no runtime obtains one |
| `ProfileRuns.SpentRun` | internal/gateway/profilehost.go:124-196 | builds claimed before an Invalidate that had failed or ended by then never reach a store |
| `ProfileRuns.BuildCanBeStored` | internal/gateway/profilehost.go:167-196 | an unfailed build on an open host can go on to be stored |
| `ProfileRuns.InvalidateIsFinalExactly` | internal/gateway/profilehost.go:323-342 | after an Invalidate a runtime claimed before it can still be stored iff an unfailed build of that profile is under way on an open host |
| `ProfileRuns.CallStepProgress` | internal/gateway/profilehost.go:124-196 | every step of a call lowers a lexicographic measure of returns, claims and local work |
| `ProfileRuns.SomeCallCanMove` | internal/gateway/profilehost.go:124-196 | no deadlock while a call has not returned |
| `ProfileRuns.EveryCallReturns` | internal/gateway/profilehost.go:124-196 | in every fair interleaving with any Invalidates and Closes all calls return |
| `ProfileResults.AnswersExactly` | internal/gateway/profilehost.go:124-196 | over every run a call has a runtime iff it took one stored for its profile at that step, built by a call of that profile; it has an error iff it met a closed host or its own build failed |
| `ProfileResults.RuntimesAreWhole` | internal/gateway/profilehost.go:200-268 | a runtime holds the cleanups of exactly the backends spawned for its builder, in order, and every name of the claimed bundle was spawned or skipped |
| `ProfileResults.ErrorsHaveACause` | internal/gateway/profilehost.go:124-196 | without a Close a call fails iff its own build failed |
| `ProfileResults.EveryCallGetsARuntime` | internal/gateway/profilehost.go:124-196 | in every fair interleaving without a Close or a failing build all calls return a runtime built for their profile |
| `Gateway.CalledOnce` | internal/gateway/profilehost.go:200-359 | the closures the host calls in a step are distinct and belong to sandboxes that are up and were never cleaned |
| `Gateway.StepInv` | cmd/gateway/main.go:178-212 | every step of host and sandboxes together keeps both invariants and the link between them |
| `Gateway.HeldBackendIsResolved` | cmd/gateway/main.go:178-212 | while the host holds a backend its address resolves to its server and tenant, and no other sandbox has the address |
| `Gateway.HandoverGives` | internal/gateway/profilehost.go:248-257 | a returned sandbox's closure goes behind those its call already holds |
| `Gateway.HeldComesFrom` | internal/gateway/profilehost.go:124-359 | cleanups change hands only between parties of one profile |
| `Gateway.RunTenanted` | internal/gateway/profilehost.go:216-248 | in every run each held backend was spawned with its holder's profile as tenant |
| `Gateway.ProfileTrafficIsItsOwners` | internal/gateway/resolver.go:25-34 | in every run the address of a backend stored for a profile resolves to that profile, and the resolver turns it into the profile's owner, or into the user with the profile's id if the profile cannot be read |
| `Gateway.LookupIsNeverForeign` | internal/proxy/registry.go:37-42 | in every run an address resolves only to the one sandbox registered there |
| `Gateway.ShutdownLeavesNothing` | internal/gateway/profilehost.go:348-359 | after Close and all releases no subnet, entry, veth or process is left |
| `SpawnProfile.ExposeFor` | internal/gateway/profilehost.go:283-315 | fails, skips, or exposes exactly the manifest tools the owner has not disabled; all manifest tools if the preferences cannot be read, all tools only without a manifest |
| `SpawnProfile.ExposedExactly` | internal/gateway/profilehost.go:303-315 | a tool is exposed iff the manifest lists it and the owner's disabling row is absent or unreadable |
| `SpawnProfile.ToggleDecidesExposure` | internal/api/apps.go:259-316 | an accepted toggle decides whether a build exposes that tool to that user, and nothing else |
| `SpawnProfile.BlockedExactly` | internal/gateway/profilehost.go:225-257 | which names stop a build, by the reads and the spawn alone |
| `SpawnProfile.Build` | internal/gateway/profilehost.go:200-268 | succeeds iff both reads succeed, no name is blocked and the aggregator builds; then has exactly the existing servers the owner installed, in order; otherwise stops at the first blocked name and cleans all it started |
| `SpawnProfile.KeptExactly` | internal/gateway/profilehost.go:225-258 | the names built are exactly the bundle's names that exist and are installed by the owner |
| `SpawnProfile.KeptInOrder` | internal/gateway/profilehost.go:225-258 | names are kept one by one in bundle order |
| `SpawnProfile.SpawnsOnlyEntitled` | internal/gateway/profilehost.go:225-258 | after any history of interrupted requests, what is spawned is in the bundle, exists, is installed by the owner and has a manifest |
| `SpawnProfile.NothingElseIsSkipped` | internal/gateway/profilehost.go:225-258 | along histories with no stranded rows, only servers that are gone are skipped |
| `UserInstalls.OwnedExactly` | internal/api/servers.go:68-100 | a request cut anywhere keeps every bundle row tied to a profile whose owner installed the server, except in exactly one window |
| `UserInstalls.PrefsExactly` | internal/store/manifests.go:176-187 | a request cut anywhere keeps every disabled tool tied to an install, except in exactly one window |
| `UserInstalls.ListedExactly` | internal/api/apps.go:213-233 | a request cut anywhere keeps every install allow-listed, except exactly between the manifest delete and the install sweep |
| `UserInstalls.BackedAfter` | internal/registry/installer.go:237-250 | a request cut anywhere keeps a manifest for every server row |
| `UserInstalls.RunKeeps` | internal/store/userinstalls.go:25-38 | the three relations over every history of requests |
| `UserInstalls.CompletedRunsAreCareful` | internal/api/servers.go:68-100 | a history of completed requests with no failed sweep never enters either window |
| `UserInstalls.WindowsAreReached` | internal/api/servers.go:68-100 | from the empty store, given completed requests lead to a state in which one cut breaks each of the three relations |
| `UserInstalls.RetryRepairs` | internal/api/servers.go:80-97 | repeating the uninstall to the end restores both row relations |
| `UserInstalls.RetryMissesRuntimes` | internal/api/servers.go:80-97 | after a failed sweep neither that call nor a completed repeat invalidates any runtime |
| `UserInstalls.OtherUsersKeepTheirs` | internal/store/userinstalls.go:25-38 | one user's uninstall, cut anywhere, leaves other users' rows |
| `UserInstalls.UninstalledServer` | internal/api/servers.go:68-100 | a completed admin uninstall leaves no row that names the server and every other row |
| `UserInstalls.UninstalledForUser` | internal/store/userinstalls.go:25-38 | a completed user uninstall removes that user's rows for the server and nothing else |
| `UserInstalls.InstalledServer` | internal/registry/installer.go:193-213 | a completed install adds the server and replaces the tools of its manifest |
| `UserInstalls.SingleWrites` | internal/store/profiles.go:155-201 | what each single-statement request changes, row by row |
| `UserInstalls.Tables.constructor` | internal/store/userinstalls.go:5-11 | the tables start empty |
| `UserInstalls.Tables.SetProfileServers` | internal/store/profiles.go:174-201 | replaces the bundle of an existing profile, refuses a missing one |
| `UserInstalls.Tables.RemoveServerFromProfiles` | internal/store/profiles.go:208-241 | drops the server from every bundle and returns exactly the profiles that held it, each once |
| `UserInstalls.Tables.CascadeRemoveServer` | internal/store/manifests.go:176-187 | three sweeps in order |
| `UserInstalls.Tables.HandleInstallForUser` | internal/api/apps.go:213-233 | installs iff the manifest exists |
| `UserInstalls.Tables.HandleUninstallForUser` | internal/store/userinstalls.go:25-38 | memberships, preferences, install row, in that order |
| `UserInstalls.Tables.HandleSetAppTool` | internal/api/apps.go:259-316 | writes iff the app is installed and the manifest declares the tool |
| `UserInstalls.Tables.HandlePutProfileServers` | internal/api/profiles.go:230-264 | writes iff the profile exists and its owner installed every name, and then invalidates that profile's runtime only |
| `UserInstalls.Tables.HandleRemoveProfile` | internal/api/profiles.go:212-220 | profile and bundle rows go together, and the profile's runtime is invalidated |
| `UserInstalls.Tables.HandleUninstallServer` | internal/api/servers.go:68-100 | the completed cascade; invalidates exactly the affected profiles, none if the sweep failed |
| `Installer.BuildInjectionsLoop` | internal/registry/installer.go:332-355 | the two loops compute the injections: each credential reuses the last non-empty prior placeholder of its id, or a minted one |
| `Installer.Store.PutManifest` | internal/store/manifests.go:90-113 | upsert that keeps the consented hash |
| `Installer.Store.EnsureServer` | internal/store/sqlite.go:186-204 | upsert of binary and bundle directory |
| `Installer.Store.RecordConsent` | internal/store/manifests.go:147-160 | sets the consented hash of an existing row only |
| `Installer.Store.DeleteServer` | internal/store/manifests.go:169-172 | removes one server row |
| `Installer.Store.DeleteManifest` | internal/store/manifests.go:163-166 | removes one manifest row |
| `Installer.Store.Install` | internal/registry/installer.go:108-235 | an uninterrupted install performs its write list, whose effect `InstallRuns.InstalledRows` gives |
| `Installer.Store.Uninstall` | internal/registry/installer.go:237-250 | server row first, then manifest row |
| `InstallRuns.ExecEffect` | internal/registry/installer.go:108-250 | what an operation cut anywhere does to its own row, and that it touches no other |
| `InstallRuns.InstalledRows` | internal/registry/installer.go:108-235 | after a completed install both rows field by field: version, hash, hosts, tools, credentials, placeholders, consent; entrypoint and directory for a toolpack, staged binary otherwise |
| `InstallRuns.PriorExactly` | internal/registry/installer.go:332-355 | the reused placeholder is the last non-empty one of that id, and there is none iff none was recorded |
| `InstallRuns.UninstalledRows` | internal/registry/installer.go:237-250 | a completed uninstall leaves neither row and every row of other servers |
| `InstallRuns.SentinelExactly` | cmd/gateway/main.go:192-209 | refused iff the hash is not the consented one; otherwise the first placeholder, or the default sentinel |
| `InstallRuns.NoNewUnguarded` | internal/registry/installer.go:131-250 | at every point of every run, crashes included, no server row lacks a manifest that did not lack one at the start |
| `InstallRuns.ConsentHasAGiver` | internal/registry/installer.go:229-235 | a recorded consent goes back to a boot install, or an install that found none, with the row kept since |
| `InstallRuns.GateNeedsConsent` | cmd/gateway/main.go:192-209 | the spawn gate passes a manifest-backed server only at such a consented hash |
| `InstallRuns.InstallGate` | internal/registry/installer.go:229-235 | a completed install leaves the server spawnable iff boot, first consent, or back at the consented hash |
| `InstallRuns.RefusalSticks` | cmd/gateway/main.go:192-209 | a refused upgrade stays refused until a boot consent, a removal, or a return to the consented hash |
| `InstallRuns.PlaceholderSurvives` | internal/registry/installer.go:332-355 | a credential id kept by every manifest keeps its placeholder over any run without removal |
| `InstallRuns.SpawnSentinelStaysCurrent` | cmd/gateway/main.go:192-209 | the sentinel given at spawn stays the first placeholder while the first credential keeps its id |
| `InstallRuns.ReinstallKeepsAllIffUnique` | internal/registry/installer.go:332-355 | reinstalling over distinct placeholders keeps all of them iff no id repeats |
| `TokenRefresh.Unix` | internal/store/connaccounts.go:37-67 | seconds are the floor of the true time |
| `TokenRefresh.Accounts.constructor` | internal/store/connaccounts.go:37-50 | no account row at the start |
| `TokenRefresh.Accounts.PutConnectedAccount` | internal/store/connaccounts.go:37-50 | replaces one row |
| `TokenRefresh.Accounts.UpdateConnectedAccountTokens` | internal/store/connaccounts.go:53-67 | changes token and expiry of an existing row, nothing else |
| `TokenRefresh.Accounts.GetConnectedAccount` | internal/store/connaccounts.go:70-89 | the row or none |
| `TokenRefresh.StepInv` | internal/auth/oauthbroker.go:367-446 | one leader per flight, waiters hold its answer, stored expiries are floors |
| `TokenRefresh.WaitersShareTheAnswer` | internal/auth/oauthbroker.go:367-394 | all waiters of a flight return what its leader returned; what that is, `TokenAnswers.AnswersAreEarned` says |
| `TokenRefresh.AtMostOneGrant` | internal/auth/oauthbroker.go:367-446 | in every interleaving, if the granted token is stored and outlasts the window, at most one grant is made |
| `TokenRefresh.SoloCall` | internal/auth/oauthbroker.go:367-425 | a call that meets no other asks for a grant iff the stored row is not fresh |
| `TokenRefresh.CachedTokenHasMargin` | internal/auth/oauthbroker.go:367-425 | a token served from the row has more than 60 s of true life at its check |
| `TokenRefresh.ConsentIsTheLastCallbacks` | internal/auth/oauthbroker.go:341-446 | over any run the refresh token and scopes are the last callback's |
| `TokenRefresh.MatchedStep` | internal/store/connaccounts.go:53-67 | a step leaves the stored access token issued for the stored refresh token iff a write did so; a save does iff it finds the refresh token it spent |
| `TokenRefresh.UncrossedMatches` | internal/auth/oauthbroker.go:396-446 | over every run whose saves find the refresh token they spent, the stored access token belongs to the stored consent |
| `TokenRefresh.LastWriteDecides` | internal/auth/oauthbroker.go:396-446 | over every run the two belong together iff the last write left them so |
| `TokenRefresh.SaveBelongsExactly` | internal/auth/oauthbroker.go:396-446 | a save leaves token and consent together iff the last callback since the leader's second read, if any, brought the refresh token that read found |
| `TokenRefresh.QuietKeepsConsent` | internal/auth/oauthbroker.go:396-446 | with no callback and no disconnect since that read it does |
| `TokenRefresh.CrossedCallback` | internal/auth/oauthbroker.go:403-439 | a callback between grant and save leaves the old consent's token in the new row, and later calls serve it |
| `TokenRefresh.CrossedRun` | internal/auth/oauthbroker.go:341-446 | such a run exists from every initial state with a stale row |
| `TokenAnswers.AnswersAreEarned` | internal/auth/oauthbroker.go:367-446 | over every run a token answered was fresh in a row the call had read, at that clock reading, or granted to the call, or so for the leader it waited for |
| `TokenAnswers.ObtainedIsAnswered` | internal/auth/oauthbroker.go:396-446 | a call that came by a token and meets no error answers that token, the granted one in particular |
| `TokenAnswers.HeldRowsWereStored` | internal/auth/oauthbroker.go:367-425 | a row that a call judges was the stored row at some point of the run |
| `TokenAnswers.NoFailureWithoutCause` | internal/auth/oauthbroker.go:367-446 | without a failing call and without a disconnect no call of a connected user fails |
| `TokenAnswers.NotConnectedFails` | internal/auth/oauthbroker.go:367-390 | for a user who is not connected every call fails with no flight and no grant |
| `HostMatch.LabelsInjective` | internal/proxy/proxy.go:311-329 | a host is determined by its dot-separated labels |
| `HostMatch.EqualFoldExactly` | internal/proxy/proxy.go:311-329 | folding compares by position: equal characters or the two cases of an ASCII letter |
| `HostMatch.FoldByLabels` | internal/proxy/proxy.go:311-329 | equality up to case is equality of labels up to case |
| `HostMatch.WildcardEntry` | internal/proxy/proxy.go:311-329 | the wildcard branch accepts exactly one non-empty label before the entry's labels |
| `HostMatch.EntryMatchesIsCovers` | internal/proxy/proxy.go:311-329 | for one entry, the string tests and the label specification agree |
| `HostMatch.MoreEntriesAllowMore` | internal/proxy/proxy.go:311-329 | order is irrelevant and more entries never forbid |
| `HostMatch.CoversFolds` | internal/proxy/proxy.go:311-329 | letter case matters neither in the host nor in the entry |
| `HostMatch.WithinExactly` | internal/proxy/proxy.go:311-329 | one list admits no host that another does not iff each wildcard entry is in the other and each other entry is covered by it |
| `HostMatch.HostAllowed` | internal/proxy/proxy.go:311-329 | the loop decides exactly the label specification |
| `Tenants.ParseFormat` | internal/store/credentials.go:20 | a formatted 64-bit id parses back to itself |
| `Resolver.ManifestCaps` | internal/gateway/resolver.go:64-185 | whatever the two manifest reads return, a grant has the hosts of a manifest that was read and its first injection's metadata or none; the credential row is granted only if there is no manifest |
| `Resolver.TokenDecides` | internal/gateway/resolver.go:70-115 | with an oauth2 injection the vendor's answer for the acting user decides: token, hosts only, or refusal |
| `Resolver.StoredCredentialDecides` | internal/gateway/resolver.go:117-185 | otherwise a grant is made iff the reads listed succeed, and its secret is the decrypted key of the acting tenant's row |
| `Resolver.SecretIsTheTenants` | internal/gateway/resolver.go:64-185 | a non-empty secret is the acting user's vendor token or the decrypted key of the acting tenant's row |
| `Resolver.RowMetadataIsIgnored` | internal/gateway/resolver.go:64-185 | unless there is no manifest, credential-row metadata cannot change the outcome |
| `Resolver.ProfileUsesItsOwnersCredentials` | internal/gateway/resolver.go:25-34 | a profile's sandbox resolves with its owner's credentials, the same for all profiles of that owner; if the profile cannot be read, with those of the user who has its id |
| `Egress.TunnelStaysInManifest` | internal/proxy/proxy.go:178-208 | for a server with a manifest, whatever the two reads return, a tunnel opens iff it is a CONNECT with source, slot and grant and a manifest that was read covers the host |
| `Egress.RefusalNamesTheFirstFailure` | internal/proxy/proxy.go:178-208 | each refusal names the first check that failed, in the code's order |
| `Egress.TunnelsWithinExactly` | internal/proxy/proxy.go:178-208 | the tunnels of a sandbox stay within a host list iff that list subsumes every entry of the manifest read |
| `Egress.RefusedUpgradeReachesRunning` | internal/gateway/resolver.go:64-185 | after an API upgrade the spawn gate refuses, a running sandbox reaches exactly the new manifest's hosts, and stays within the consented ones iff they subsume the new |
| `Egress.ConnLimiter.constructor` | internal/proxy/proxy.go:38-41 | no live connection |
| `Egress.ConnLimiter.Acquire` | internal/proxy/proxy.go:44-53 | admits iff below the cap, counting only that identity |
| `Egress.ConnLimiter.Release` | internal/proxy/proxy.go:55-63 | gives one slot back, never below zero |
| `Egress.Pump` | internal/proxy/proxy.go:258-276 | every request of a connection is forwarded with the injection rule applied |
| `Egress.ContainsExactly` | internal/proxy/proxy.go:269-270 | the placeholder test is "some text, the placeholder, some text" |
| `Egress.RewrittenExactly` | internal/proxy/proxy.go:263-276 | a header is rewritten iff it is the inject header and contains the placeholder; then it is the rendered secret alone |
| `Egress.ForwardedHeaders` | internal/proxy/proxy.go:263-276 | whatever the two reads return, a rewritten header is the canonical inject header of a manifest that was read, in its format, with the acting tenant's secret; all others pass unchanged |
| `Egress.CanonicalExactly` | internal/proxy/proxy.go:269-274 | the canonical name has the same letters, upper case exactly at the start and behind hyphens |
| `Egress.HeaderCaseIsIrrelevant` | internal/proxy/proxy.go:269-274 | spellings of the inject header that differ in letter case inject alike |
| `Egress.TokenReplaced` | internal/proxy/proxy.go:271-273 | text before a token is kept, the token becomes the secret, the rest follows the same rule |
| `Egress.RenderKeepsText` | internal/proxy/proxy.go:271-273 | text around one token is kept for every secret; no format is the bare secret |
| `Egress.SentinelStillTriggers` | internal/gateway/resolver.go:64-185 | through reinstalls that keep the first credential's id, wherever the reads fall in them, the resolution looks for the sentinel given at spawn and a request carrying it is rewritten |
| `Egress.LegacySentinelTriggers` | internal/gateway/spawn.go:149-151 | without a manifest the default sentinel triggers a row with the default placeholder, in the row's format |
| `AuditQueue.StepInv` | internal/gateway/audit_resolver.go:60-144 | every step keeps the accounting, the capacity and the close discipline |
| `AuditQueue.EveryRecordIsAccounted` | internal/gateway/audit_resolver.go:60-127 | resolves = persisted + dropped + queued + held; rows are a subsequence of resolve order |
| `AuditQueue.QueueIsExact` | internal/gateway/audit_resolver.go:60-127 | over every run the rows are the records let in whose write succeeded, in order, the rest of them is in flight, and the drop count is the records that met the flag or 256 waiting plus the failed writes |
| `AuditQueue.SmoothRunsLoseNothing` | internal/gateway/audit_resolver.go:98-127 | with no Close, no failed write and never 256 waiting, nothing is dropped and rows plus in flight are all records |
| `AuditQueue.ChannelDiscipline` | internal/gateway/audit_resolver.go:98-144 | no send on a closed channel, closed at most once |
| `AuditQueue.FlushedAfterClose` | internal/gateway/audit_resolver.go:134-144 | once the first Close returned nothing is queued or held, and later resolves only count as dropped |
| `AuditQueue.AuditingResolver.constructor` | internal/gateway/audit_resolver.go:50-57 | open, empty queue |
| `AuditQueue.AuditingResolver.ResolveSection` | internal/gateway/audit_resolver.go:112-126 | the locked section is the Resolve step of the protocol |
| `AuditQueue.AuditingResolver.CloseSection` | internal/gateway/audit_resolver.go:134-144 | the flag step; only the first call goes on |
| `AuditQueue.AuditingResolver.CloseChannelOp` | internal/gateway/audit_resolver.go:134-144 | the step that closes the channel |
| `AuditQueue.AuditingResolver.Receive` | internal/gateway/audit_resolver.go:60-62 | the writer takes the oldest record |
| `AuditQueue.AuditingResolver.AppendAudit` | internal/gateway/audit_resolver.go:78-87 | the held record becomes a row or a counted drop |
| `AuditQueue.AuditingResolver.Writer` | internal/gateway/audit_resolver.go:60-88 | after the channel is closed, the loop is a sequence of the protocol's steps that leaves each queued record in the rows, in order, or in the drop count |
| `AuditQueue.Arrive` | internal/gateway/audit_resolver.go:112-126 | Resolve calls that arrive together are steps of the protocol |
| `AuditQueue.CloseNow` | internal/gateway/audit_resolver.go:134-144 | a first Close up to its wait is two steps of the protocol |
| `AuditQueue.Round` | internal/gateway/audit_resolver.go:60-88 | one turn of the loop receives and stores, ends, or waits, by the protocol's steps |
| `AuditQueue.Serve` | internal/gateway/audit_resolver.go:60-88 | the loop, with sends and a close arriving between its receives, is a run of the protocol and ends only on a closed, drained channel |
| `AuditPaging.ListAudit` | internal/store/audit.go:80-129 | the page is the newest wanted rows up to the clamped limit |
| `AuditPaging.HandleListAudit` | internal/api/audit.go:33-73 | the page and its `next_before`, 0 on a short page |
| `AuditPaging.SelectExact` | internal/store/audit.go:80-129 | the query ranges over exactly the wanted rows, strictly descending |
| `AuditPaging.SelectBelow` | internal/store/audit.go:80-129 | continuing below a returned row continues exactly after it |
| `AuditPaging.SelectStable` | internal/store/audit.go:49-129 | later appends do not show below an id already in the table |
| `AuditPaging.PagingIsASnapshot` | internal/api/audit.go:33-73 | following `next_before` under arbitrary appends ends and returns exactly the matching rows of the first request, once each, newest first |
| `AuditPaging.VisibleExactly` | internal/api/audit.go:33-73 | which rows an ordinary user, a view-as session and an admin with a filter are shown in the end |
| `AuditPaging.PageSizes` | internal/api/audit.go:33-73 | page sizes for every limit of the API and of the store |
| `AuditPaging.OwnRowsOnly` | internal/api/audit.go:33-73 | an ordinary user or a view-as session sees only that user's rows iff its id is not 0 or there are no others |
| `Bundle.Admit` | internal/oci/oci.go:170-236 | one entry is admitted iff it fits and no cap is passed; at most one byte over the cap is written |
| `Bundle.Visit` | internal/oci/oci.go:166-236 | one entry keeps the loop variables a description of what was admitted, or ends the scan |
| `Bundle.Scan` | internal/oci/oci.go:143-240 | the loop accepts exactly the scannable archives |
| `Bundle.ExtractBundle` | internal/oci/oci.go:128-261 | succeeds iff the archive is acceptable; any failure removes the directory; at most 64 MiB + 1 bytes are written |
| `Bundle.AcceptableExactly` | internal/oci/oci.go:38-47 | an archive is accepted iff it meets the contract in plain numbers |
| `Bundle.ScopeExactly` | internal/oci/oci.go:128-131 | in scope are exactly the paths below the directory, with or without its leading slash |
| `Bundle.LastEntryDecides` | internal/oci/oci.go:206-236 | the last entry of a name decides its size |
| `Bundle.AcceptedBundle` | internal/oci/oci.go:128-261 | the result has exactly the three names, none nested, iff no other name was there; only the entrypoint is executable iff that held of what was there |
| `Vault.DecodeEncoded` | internal/vault/vault.go:82-105 | the 4-byte big-endian length decodes to what was encoded |
| `Vault.EncodeDecoded` | internal/vault/vault.go:82-105 | four bytes decode to a length that encodes to them |
| `Vault.ParseSerialize` | internal/vault/vault.go:80-121 | parsing a serialised envelope gives its fields |
| `Vault.SerializeParse` | internal/vault/vault.go:94-121 | any box that passes the checks is the serialisation of its fields |
| `Vault.BoxFields` | internal/vault/vault.go:1-9 | a box is the documented layout of data key sealed under master key and plaintext sealed under data key, 117 bytes longer than the plaintext |
| `Vault.ParseBox` | internal/vault/vault.go:94-121 | the cursor stays inside every byte string and computes the parse |
| `Vault.RoundTrip` | internal/vault/vault.go:58-127 | decryption inverts encryption for every plaintext and randomness |
| `Vault.UnboxExactly` | internal/vault/vault.go:94-127 | decryption succeeds iff the box is an encryption of that plaintext under this key |
| `Vault.LawsAreConsistent` | internal/vault/vault.go:37-55 | the cipher laws used here can be met |
| `Vault.Wipe` | internal/vault/vault.go:69-73 | every byte of the key buffer becomes zero |
| `Vault.Keyring.constructor` | internal/vault/vault.go:28-35 | keeps the master key |
| `Vault.Keyring.New` | internal/vault/vault.go:28-35 | refuses a key that is not 32 bytes |
| `Vault.Keyring.Encrypt` | internal/vault/vault.go:58-91 | fails iff a random read fails; the data key is zero again on every return after it was filled |
| `Vault.Keyring.Decrypt` | internal/vault/vault.go:94-127 | total on every byte string; the unwrapped key is zero on every return |
| `Vault.StoreAndLoad` | internal/vault/vault.go:58-127 | encrypting and decrypting with one vault returns the plaintext whenever the random source delivers |

## Left out

- Kernel, namespace, netlink, bwrap, seccomp and capability calls: only "veth exists" and "process alive" are kept.
- Pipe file descriptors and the payload handshake of `SpawnEgressBackend`.
- Spawns that panic: the progress theorem is for spawns that return.
- Runtimes already built when a user uninstalls or toggles a tool: exposure is claimed at build time.
- Interleavings of installer operations and API handlers with each other: they are sequential here, with cuts between writes.
- Request decoding, name validation, authentication and authorisation of the API handlers.
- TLS, certificate minting, HTTP parsing, OIDC discovery, JSON, SQL text, signatures and image pulls.
- File system effects of installs other than whether the artifact is on disk.
- The decision and detail text of audit rows.
- Path cleaning of archive names and the sort order of the returned file list: entries carry their cleaned path.
- Letter case outside ASCII in host names.
- `signFlow`, `verifyFlow`, `StartHandler` and scope unions of the OAuth broker.
- Legacy seeding of servers without a manifest: the theorems about manifests start from no such rows, or bound them by those at the start.
- The admin-wide disabled tool table, overview counters, configuration, the web interface.
- Vault.Keyring.Encrypt: a random read that fails half-way is modelled as filling nothing.
