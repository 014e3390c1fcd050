# DockTail, modelled and proved in Dafny

DockTail reads Docker labels and keeps a Tailscale node in step with them: it serves the
declared services, opens the declared funnels, keeps the tailnet's service definitions in sync,
and reports to a cloud service. This project models that logic and proves what it promises over
every input, every order in which a Go map may be walked, every pattern of failing commands, and
whole runs of its loops. `dafny verify dfyconfig.toml` checks all of it.

## Layout

| files | what they model |
|---|---|
| `labelspec` | what labels ask for, stated from their values alone |
| `labels`, `tags`, `declarations`, `parsed`, `stopped` | what a container's labels declare, running and stopped |
| `desired`, `serve`, `status` | who claims which endpoint; how an endpoint is recorded, read back and compared |
| `daemon` | the local daemon: a Serve configuration, the advertised names, a log of commands and outcomes |
| `reconcile`, `addphase`, `guard`, `trace`, `cycle`, `client` | one reconcile cycle: plan, commands, what no cycle may do, what one cycle achieves |
| `convergence`, `onecycle`, `limits` | repeated cycles; when one is enough; why their conditions are what they are |
| `controlplane` | service definitions in the tailnet |
| `funnelstatus`, `funnelnode`, `funnels` | reading funnels back; what a node lists of its own; which of them DockTail may reset |
| `spool`, `ages`, `replay` | the bounded offline queue, how old its frames get, and its replay protocol |
| `probe` | answering control-plane probes within the API quota |
| `reconnect`, `watchdog`, `oom`, `caplines` with `utf8` | the reconnect loop, the socket watchdog, OOM correlation, log capping |
| `semver` | versions, their precedence, the newest release |
| `strings`, `decimal`, `types` | shared helpers |

## What the model assumes of its surroundings

- The daemon holds one configuration per `(service, port)`. `serve` on a port of another kind is
  refused and changes nothing; otherwise it mounts a web path next to the paths already there, or
  replaces a TCP forward, and advertises the service. `clear` forgets every port of a service,
  `drain` only stops advertising it, and taking a path off removes that mount. A TCP entry reads back as a
  bare `host:port`, a web entry as path to proxy URL under `host:port`.
- On a daemon marked `faulty` every command may fail with any other outcome, having taken effect
  completely or not at all, and every read may fail or come back empty; the cycle's context may
  expire at any moment. The results about any pattern of failures are stated for such a daemon.
- The tailnet API and the funnel node are modelled alike. The API may return the tags of a
  definition in any order and multiplicity. Somebody else may change the node's funnels between
  two cycles.
- The funnel node has a numeric port per funnel, which is a forward or a set of web mounts; it refuses
  an add that would turn one into the other. Its status is what `ParseFunnelStatus` reads: each port
  carries the one flag of its kind (HTTPS, TCP, TLS-terminated TCP), web mounts stand under `host:port`,
  and every port is allowed to funnel.
- Map iteration takes any remaining key next, so every proof covers every order. Advertisement
  repairs, which the program sorts, are covered in every order as well.
- A spooled frame carries the number it was spooled under, so that losing, duplicating or
  reordering one can be stated. Adds and replays interleave at lock and queue boundaries.
- Go's `int` has 64 bits: an index label with a larger number is not seen.
- Clock readings are parameters, in milliseconds (watchdog: any unit). Jitter and timer delays are
  arbitrary within their range.
- Where a container port can be reached is an arbitrary function that may have no answer. A
  container has one name, whether read from the container list or from its details.

## What came out

The strongest results, and the corners where the code does something else than one would expect:

- **Two cycles converge, one does not.** For an unchanging desired list and a daemon without faults, two
  cycles reach the goal from any start whose desired endpoints are legible, unless their service is
  about to be taken down anyway, and a third issues no command (`Convergence.ConvergesInTwoCycles`). A
  desired endpoint that is served as declared survives one cycle if and only if no other port of its
  service is stale and none is re-added over another kind (`Convergence.UnchangedKeptIff`); either
  clears the whole service, and `Limits.StalePortTakesSibling` and `Limits.KindClashTakesSibling` give
  such starts. One cycle serves everything desired, in whatever order it adds, if and only if no service
  that is stale has a port already as declared or moving to another path, and no other service in which an add clashes
  has a desired port whose own add does not (`OneCycle.OneCycleServesAllIff`).
- **Reading back has an exact limit.** Handlers are looked up by `Contains(":"+port)`
  (tailscale/service.go:168), so a web port is read through any web port of its service that it is a
  prefix of. With canonical entries everything reads back as it is if and only if such ports are mounted
  alike (`ServeStatus.ReadsExactlyIff`), and an endpoint just recorded may be taken for a changed one if
  and only if such a sibling has another mount (`ServeStatus.FlapsIff`); ports 80 and 8080 are a case
  (`ServeStatus.PrefixPortMayReadSibling`). That is what "legible" says, and convergence needs it: with
  everything desired in place no reading makes a cycle add anything if and only if every desired
  endpoint is legible (`Limits.QuietIffLegible`). With a second mount on a port, a cycle may stop short
  of the goal for ever (`Limits.ExtraMountsMayStay`).
- **Freezing has an exact limit.** docs/04-labels.md:99 promises that a contested endpoint is left
  exactly as it is. Whatever fails, only a `clear` right after a kind conflict on a sibling port can
  touch it (`Guard.ContestedStaysUnlessSiblingConflicts`), and no write to the control plane concerns
  its service's definition, given names that normalize like their full ones
  (`Client.Client.ContestedDefinitionStays`). Over a cycle without failures it
  is kept if and only if no sibling port is about to be re-added over another kind of endpoint and its
  full name normalizes to a frozen or ignored one (`Convergence.ContestedKeptIff`); the second holds by
  the declared name itself except for one with leading white space or its own `svc:` prefix
  (`Serve.FreezesOwnName`).
- **Definitions.** Names kept under one full name, such as "web" and "svc:web", share one definition. A
  pass brings every name in step if and only if those do not ask for different tags or descriptions
  (`ControlPlane.SyncServiceDefinitions`); otherwise every pass leaves one out of step. A whole cycle writes
  nothing with synchronization off and deletes nothing with deletion off, whatever fails; with both on and no
  API faults a successful one leaves no unused definition (`Client.Client.ReconcileServices`).
- **Success** is not reported under any failures unless every add and every repair the read state called for
  was accepted (`Client.Client.ReconcileServices`).
- **Funnels.** A reset wipes the node, and what protects foreign funnels is that every funnel listed
  must be managed. Over any run every funnel listed before a reset had been wanted by DockTail in that
  cycle or an earlier one; all that the reset could wipe had been if and only if every mount that
  proxies nothing had been (`FunnelOwnership.RunSteps`). Such a mount, a directory or a text, is skipped
  by the status parser (tailscale/funnel.go:194), and it is the only thing funneled that is not listed
  (`FunnelNode.MutesAreUnlisted`). So somebody else's is wiped without having been seen
  (`FunnelOwnership.TextFunnelIsWiped`, `FunnelOwnership.TextFunnelIsNotSeen`). Which keys are managed
  after a cycle is known under any failures (`FunnelOwnership.FunnelClient.ReconcileFunnels`): without a reset, a
  managed funnel no longer wanted is forgotten while it is still there if and only if the status read empty or
  failed, one still wanted if and only if it was not found in place and adding it failed
  (`FunnelOwnership.ListedIsForgottenIff`). A forgotten funnel counts as foreign: as long as it stays listed and
  unwanted, no cycle and no shutdown resets anything (`FunnelOwnership.RunWithout`). And a TCP funnel is
  listed without its backend, so a changed TCP backend goes unnoticed
  (`FunnelOwnership.OnlyHttpBackendsAreCompared`). A container's funnel forwards to the address of its first
  service, not to the address its own port is reached at (`ParsedLabels.FunnelGoesToResolvedPort`).
- **Replays** hand frames over in spooling order, none twice, each in exactly one place
  (`Replay.RunSteps`). A frame spooled more than an hour ago is still taken by a drain if and only if
  the last failed replay that put it back did so within the hour (`Ages.OverAgeIsTakenIffPutBack`). So
  the one-hour cap does not bound a frame's age: for every number of failing replays at most an hour
  apart there is a run that hands over a frame older than all of them (`Replay.HandedOverAtAnyAge`; two
  replays 50 minutes apart, the first refused, deliver a frame that is 100 minutes old).
- **Labels.** One container never conflicts with itself, and stopping it keeps every catalog
  identity (`Declarations.OneContainerNeverConflicts`, `StoppedServices.StoppedKeepsIdentity`). The
  comment at docker/cloud.go:48-50 says that a stopped container reports only its primary service; the
  code reports the indexed ones too. docs/04-labels.md:49 lists `https` for port 443 before `tcp`
  for a TCP backend; the code lets the TCP backend decide. No label is checked for a colon in the
  service port or a URL in place of a container port, which is all that separates a declared service
  from one the comparison is exact for (`Declarations.ParsedServicesAreValid`).
- **Versions.** Printing and parsing is the identity if and only if the last pre-release identifier does
  not end in white space, which build metadata can make it do (`Semver.PrintParseRoundTrip`). Numeric
  identifiers beyond 64 bits saturate: the comparison stays a preorder, and it is the specification's if
  and only if the versions do not differ first in two such numbers that what follows them misjudges
  (`Semver.AgreesWithSpecification`).

## Model

| member | source | states |
|---|---|---|
| Serve.KeyInjective | tailscale/client.go:485-488 | an endpoint key determines service and port when no port has a colon |
| Serve.SplitsBuiltDestination | tailscale/utils.go:178-192 | the destination built for a service splits into its backend protocol and its address and port |
| Serve.ConfigOfIsCanonical | tailscale/service.go:184-215 | the arguments built for a valid service put an endpoint of the declared kind on the port: a bare host:port, or one mount with a proxy URL |
| Serve.ChangedMeansDifferentConfig | tailscale/utils.go:160-211 | a recorded endpoint counts as changed if and only if running the service's serve command would record something else: no flapping, and no missed change of kind, destination, PROXY version or path |
| Serve.FreezesOwnName | tailscale/utils.go:146-149 | exactly which declared names normalize to the same name as the full name they are served under |
| ServeStatus.ServiceHandler | tailscale/service.go:161-179 | TCP ports answer their forward; a web port answers some proxied mount of some web key containing ":port", or nothing if there is none |
| ServeStatus.ParseManagedServices | tailscale/service.go:102-139 | exactly the listed ports of managed services come back, each as one of its readings |
| ServeStatus.ReadingsOfEndpoint | tailscale/service.go:142-179 | the readings a status allows of a managed endpoint are exactly: a TCP entry as it is, a web entry with some proxied mount of a web port of its service it is a prefix of |
| ServeStatus.ReadsExactlyIff | tailscale/service.go:142-179 | a canonical configuration reads back exactly if and only if web ports of a service of which one is a prefix of the other are mounted alike |
| ServeStatus.FlapsIff | tailscale/utils.go:160-211 | an endpoint recorded as declared may count as changed if and only if such a sibling has another mount |
| ServeStatus.ReadsBackExactly | tailscale/service.go:142-179 | a legible endpoint has one reading, the one it was recorded with |
| ServeStatus.ParsedIsReading | tailscale/service.go:102-139 | whatever is parsed from a configuration's status is a reading of exactly its managed endpoints |
| ServeStatus.LegibleReadsOneWay | tailscale/service.go:102-139 | parsing the status of a legible configuration gives one map, whatever order the maps are walked in |
| ServeStatus.PrefixPortMayReadSibling | tailscale/service.go:166-174 | the concrete case: port 80 reads back with port 8080's handler |
| Desired.BuildDesiredServiceMap | tailscale/client.go:463-483 | the map holds the endpoints with exactly one claim, the conflicts those with several and all their claimants |
| Desired.OrderNeverDecides | tailscale/client.go:455-483 | reordering the containers changes neither who is served nor which endpoints and names are in conflict |
| Desired.EveryClaimIsServedOrContested | tailscale/client.go:463-483 | every enabled declaration is served as declared or in conflict, never both and never neither |
| Daemon.Tailscaled.GetCurrentServices | tailscale/service.go:58-96 | a successful read is a parse of the daemon's configuration, or empty on a faulty daemon |
| Daemon.Tailscaled.GetAdvertisedServices | tailscale/service.go:19-44 | a successful read of the prefs is the advertised set |
| Reconcile.PlanAdds | tailscale/client.go:229-277 | the adds, path removals and missing advertisements are exactly those the read state calls for |
| Reconcile.PlanRemovals | tailscale/client.go:279-297 | the removals are exactly the endpoints neither desired, frozen nor ignored |
| AddPhase.ProcessedHasEffect | tailscale/client.go:360-397 | one iteration of the add loop puts the declared configuration on the port, or wipes the service first on a kind clash, or skips a key whose path is gone |
| AddPhase.ProgressStep | tailscale/client.go:360-397 | after any set of processed keys, in any order, every endpoint is as declared, wiped by a clash of its service, or as before |
| Guard.ContestedStaysUnlessSiblingConflicts | tailscale/client.go:259-297 | under any failures: a contested endpoint's service is not drained and not advertised as a repair (serving a sibling port advertises it), and only a clear right after a kind conflict on a sibling port touches or changes the endpoint |
| Cycle.PlanPermitted | tailscale/client.go:229-308 | whatever was read, no planned command concerns a contested endpoint, a frozen name or an ignored service |
| Cycle.CycleComposed | tailscale/client.go:229-415 | planning, removing, adding and repairing compose into the effect of one cycle |
| Client.Client.RemoveService | tailscale/service.go:375-461 | drain then clear; unmanaged and ignored services are refused; no other service is touched whatever fails; the commands issued, and success exactly if the clear went through or found nothing |
| Client.Client.AddService | tailscale/service.go:220-305 | serves the service, clearing it first and retrying once on a kind conflict, and never touches a contested key; exactly which commands are issued for which answers, and success exactly if the last serve command was accepted |
| Client.Client.ProcessAdd | tailscale/client.go:360-397 | an old path is taken off first; if that fails the key is skipped with nothing changed |
| Client.Client.RemoveAll | tailscale/client.go:312-334 | every planned service is drained and cleared, however many of its ports are planned |
| Client.Client.AddAll | tailscale/client.go:356-397 | in any order of keys the add phase reaches the state AddPhase describes and advertises what it served; under any failures it reports none exactly if every service was accepted |
| Client.Client.AdvertiseAll | tailscale/client.go:399-415 | each missing name is advertised once and nothing else happens; under any failures it reports none exactly if every advertise was accepted |
| Client.Client.SyncDefinitions | tailscale/client.go:343-353 | every definition written belongs to an enabled, uncontested declaration; without API faults all of these are in step if names sharing one do not ask for different things |
| Client.Client.ReadCurrent | tailscale/client.go:201-206 | a failed read counts as an empty state; a faithful one is the daemon's state |
| Client.Client.ContestedDefinitionStays | tailscale/client.go:342-353 | with names that normalize like their full ones, no write of a cycle concerns the definition of a contested service |
| Client.Client.ReconcileServices | tailscale/client.go:167-453 | for any faults: contested services stay guarded, only permitted definitions are written or deleted, and resets are justified; without faults: the effect of one cycle, funnels included; success is never reported with a contested endpoint or a funnel declared twice, and with nothing to add fails for no other reason; without API synchronization no definition is written, without the deletion option none is deleted, and with them and no API faults every declaration that is not frozen has its definition in step and, on success, no unused one is left; and under any failures success means that every add and advertisement the read state called for was accepted |
| Client.Client.CleanupServices | tailscale/client.go:1033-1111 | each managed service is drained and cleared once and nothing of it is left; unmanaged and ignored services keep everything whatever fails; success means that each was cleared or not found |
| Client.Client.CleanupAllServices | tailscale/client.go:982-1111 | shutdown takes down DockTail's services, and resets the funnels if all that are listed are its own; all it then wipes is its own if and only if every mount that proxies nothing is; foreign services stay whatever fails; success means that every service read is gone and a reset, if there was one, went through |
| ControlPlane.SameStringSet | tailscale/client.go:675-692 | true exactly for equal sets, whatever the order and the duplicates |
| ControlPlane.WrittenOnceIsInSync | tailscale/client.go:579-669 | after one write no second one is needed, however the tags are stored, and ports and addresses are kept |
| ControlPlane.AggregateServiceDefinitions | tailscale/client.go:512-540 | per name: the first container's tags, every port once, the first description that is not empty |
| ControlPlane.SyncServiceDefinition | tailscale/client.go:579-669 | a definition in step is not written; otherwise one PUT brings it in step; others are untouched; a new one is open on every declared port, or on 443 |
| ControlPlane.SyncServiceDefinitions | tailscale/client.go:543-567 | after one pass without API faults every definition is in step if and only if names sharing one do not ask for different things; a pass that finds everything in step writes nothing; success is only reported with that |
| ControlPlane.DeleteUnusedServiceDefinitions | tailscale/client.go:904-980 | only managed definitions no one here wants or ignores and no host is registered for are deleted; without API faults all of them are |
| ControlPlane.ContestedDefinitionIsFrozen | tailscale/client.go:342-353 | a contested service's definition may be neither written nor deleted |
| ControlPlane.DeclaredIsUsed | tailscale/client.go:904-918 | what is declared here is never unused, if its name normalizes like the one its definition is kept under |
| Convergence.FirstCycleClears | tailscale/client.go:229-415 | the first cycle from any well-posed start leaves nothing that is not part of the goal |
| Convergence.SecondCycleSettles | tailscale/client.go:229-415 | from within the goal one cycle serves everything desired exactly as declared and advertises it |
| Convergence.GoalIsUnique | tailscale/client.go:279-297 | each start has exactly one goal: everything desired plus what no cycle may remove |
| Convergence.ConvergesInTwoCycles | tailscale/client.go:229-415 | after two cycles everything desired is served and advertised, and a third cycle issues no command |
| Convergence.TwoCyclesReachGoal | tailscale/client.go:229-415 | with no contested or ignored name among the desired ones the configuration then is exactly the goal |
| Convergence.UnchangedKeptIff | tailscale/service.go:375-461 | a desired endpoint served as declared survives a cycle if and only if no port of its service is stale and none is re-added over another kind |
| Limits.StalePortTakesSibling | tailscale/service.go:375-461 | the start with one stale port: the cycle leaves the unchanged one unserved |
| Limits.KindClashTakesSibling | tailscale/service.go:246-253 | the start with one port now TCP: clearing it leaves the unchanged one unserved |
| Limits.QuietIffLegible | tailscale/client.go:229-277 | with everything desired in place, no reading makes a cycle add anything if and only if every desired endpoint is legible |
| Limits.ExtraMountsMayStay | tailscale/service.go:166-174 | a port with the declared mount and others may be left as it is by a cycle, for ever |
| OneCycle.ServedInOneCycleIff | tailscale/client.go:312-397 | a desired endpoint is served as declared after every cycle, whatever was read and whatever the order, if and only if its service is not taken down under an endpoint that is unchanged or moving, and not cleared by another add |
| OneCycle.OneCycleServesAllIff | tailscale/client.go:312-397 | exactly when one cycle is enough for everything desired |
| Convergence.SettledStays | tailscale/client.go:229-308 | a settled state is left alone: no command and no change |
| Convergence.DrainedStateIsRepaired | docs/07-reference.md:119 | services left drained but configured get one advertise each in one cycle, with no endpoint rewritten |
| Convergence.LeftoverKeptIffNoSiblingClash | tailscale/service.go:246-253 | an entry of a frozen, ignored or unmanaged service that is not desired survives a cycle if and only if no add of its service clashes |
| Convergence.ContestedKeptIff | docs/04-labels.md:99 | exactly when a contested endpoint stays as it is served over a cycle without failures |
| Convergence.RunCycles | reconciler/reconciler.go:80-131 | any number of cycles from two on ends settled, and from a settled start issues nothing |
| FunnelStatus.ExtractsAfterColon | tailscale/funnel.go:38-44 | the port of "host:port" is found, colons in the host or not |
| FunnelStatus.DetectFunnelProtocol | tailscale/funnel.go:46-64 | the answer is the protocol of some enabled flag, "" if none names one |
| FunnelStatus.FlagMeans | tailscale/funnel.go:46-64 | which protocol each flag stands for, by the words in it in either case |
| FunnelStatus.ParseFunnelStatus | tailscale/funnel.go:148-216 | for every status whose ports and mounts have no pipe: which keys are listed and every entry they may carry, in any order of the maps |
| FunnelStatus.PlainReadsOneWay | tailscale/funnel.go:148-216 | for a status without conflicting claims only one result fits that description |
| FunnelStatus.NoPhantomRoot | tailscale/funnel.go:148-216 | a root entry is listed if and only if "/" is mounted |
| FunnelNode.ReadsAsListed | tailscale/funnel.go:148-216 | parsing a node's status gives exactly its forwards, without backend, and the mounts that proxy to one, with it |
| FunnelNode.MutesAreUnlisted | tailscale/funnel.go:193-196 | what a node funnels and does not list is exactly its mounts that proxy nothing |
| FunnelOwnership.AddIsListed | tailscale/funnel.go:399-492 | an accepted add is listed under its key, and nothing else listed changes |
| FunnelOwnership.AcceptedGoesToBackend | tailscale/funnel.go:102-109 | an accepted funnel forwards to the declared address and the port its container port is reached at, and an HTTP one is listed with it |
| FunnelOwnership.MatchesIff | tailscale/funnel.go:111-133 | a listed funnel counts as in place if and only if something is known of it and whatever is known agrees with the declared kind, path, address and port |
| FunnelOwnership.OnlyHttpBackendsAreCompared | tailscale/funnel.go:102-133 | a funnel added and read back through the parser counts as unchanged if and only if it is a TCP funnel or its backend is the same |
| FunnelOwnership.IndexDesiredFunnels | tailscale/funnel.go:266-394 | one declaration per public endpoint, and duplicates are reported exactly when there are any |
| FunnelOwnership.FunnelClient.AddFunnel | tailscale/funnel.go:399-492 | one command for a supported protocol; success means the node lists the funnel as declared, whatever failed before |
| FunnelOwnership.FunnelClient.ApplyDesired | tailscale/funnel.go:266-394 | only adds are issued, none for what is in place, and without faults all desired funnels end up listed as declared with the others untouched |
| FunnelOwnership.FunnelClient.ReconcileFunnels | tailscale/funnel.go:266-394 | duplicates change nothing; a key becomes managed only by being desired; a reset comes first, needs a status all of whose funnels are managed and one of them stale, and every desired funnel is tried after it; without one only desired keys are touched; and under any failures exactly which keys are managed afterwards, all of them listed; without faults every desired HTTP funnel is listed with its declared backend |
| FunnelOwnership.ListedIsForgottenIff | tailscale/funnel.go:270-274 | exactly when a cycle forgets a managed funnel that is still listed |
| FunnelOwnership.RunWithout | tailscale/funnel.go:310-347 | over any run, a listed funnel that is neither managed nor wanted keeps every cycle and shutdown from resetting |
| FunnelOwnership.FunnelClient.CleanupFunnels | tailscale/client.go:993-1031 | on shutdown a reset happens exactly when funnels are listed and all of them are managed; all it wipes is managed if and only if every mount that proxies nothing is |
| FunnelOwnership.RunSteps | tailscale/funnel.go:266-525 | over any run with others interfering, every reset saw all that was listed and only keys wanted in its own cycle or an earlier one; all it could wipe was wanted if and only if every mount that proxies nothing was |
| FunnelOwnership.SeenIsSawOnly | tailscale/funnel.go:310-347 | that condition, for one reset: what is listed bounds what is wiped up to the mounts that proxy nothing |
| FunnelOwnership.TextFunnelIsNotSeen | tailscale/funnel.go:193-196 | with a text on one port and DockTail's last funnel on another, a reset is due and nothing is left |
| FunnelOwnership.TextFunnelIsWiped | tailscale/client.go:993-1031 | the run from a fresh start in which a cycle and a shutdown wipe foreign mounts that were never wanted |
| Spooling.KeptIsLongest | cloud/spool.go:80-89 | no longer suffix of the queue fits the caps than the one kept |
| Spooling.KeptIsIncremental | cloud/spool.go:69-89 | evicting early never changes what is kept later |
| Spooling.Spool.EnforceCaps | cloud/spool.go:80-89 | the queue becomes its longest capped suffix; bytes and the eviction count stay exact |
| Spooling.Spool.Add | cloud/spool.go:69-78 | the frame goes last, then the caps hold; an empty frame changes nothing |
| Spooling.Spool.Drain | cloud/spool.go:102-117 | hands out the frames still young, in order, and accounts for every other one |
| Spooling.Spool.Unshift | cloud/spool.go:124-140 | frames go back in front, all stamped anew, then the caps hold |
| Spooling.Spool.Discard | cloud/spool.go:145-151 | the queue is empty and the number dropped is what it held |
| Spooling.AddAll | cloud/spool.go:69-89 | a run of adds holds exactly the longest capped suffix of the whole run |
| Spooling.PutBackAgesAnew | cloud/spool.go:119-140 | frames put back by a failed replay age together from that replay on |
| Ages.OverAgeIsTakenIffPutBack | cloud/spool.go:99-140 | a drain takes a frame spooled over an hour ago if and only if the last failed replay that put it back did so within the hour |
| Replay.Collector.SpoolFrame | cloud/collector.go:1260-1271 | the account of all frames stays exact when one more is spooled and others are evicted |
| Replay.Collector.StartReplay | cloud/collector.go:1279-1299 | an unmonitored host forgets the spool, otherwise the young frames become the batch |
| Replay.Collector.ReplayNext | cloud/collector.go:1300-1307 | the next frame is handed over, or the rest goes back in front of what was spooled meanwhile |
| Replay.RunSteps | cloud/collector.go:1260-1315 | over any interleaving each frame is handed over, in flight, held or lost for one reason; everything handed over went out once and in spooling order; and every drain took exactly the frames held that age since at most an hour |
| Replay.HandedOverAtAnyAge | cloud/spool.go:119-124 | the run in which refusing replays at most an hour apart keep a frame until it is handed over at any age |
| Labels.ResolveProtocols | docker/client.go:175-269 | fails exactly for a declared protocol that is unknown; the documented defaults hold |
| Labels.DefaultsAreStable | docker/client.go:175-269 | declared values are kept and spelling the defaults out changes nothing |
| Labels.ParseProxyProtocol | docker/client.go:276-292 | 0 exactly when no version is written; otherwise the version written, 1 or 2, on TCP listeners only |
| Strings.TrimsSpace | docker/client.go:294-313 | trimming takes the white space off both ends of a label and nothing else |
| Labels.ParsedPathIsStable | docker/client.go:294-313 | a parsed path is the trimmed label or "/", and parses to itself |
| Labels.CheckedIsDeclarable | docker/client.go:271-313 | PROXY only on TCP listeners with version 1 or 2, an absolute path only and always on HTTP ones |
| Labels.IndexedServiceNumbers | docker/cloud.go:347-366 | the declared indices, ascending and each once, whatever order the labels come in |
| Labels.EnumerationIsUnique | docker/client.go:935-956 | both parsers walk the same indices in the same order |
| Labels.ParseIndexedPort | docker/client.go:969-1079 | an index yields its service unless its declaration is invalid, its endpoint was claimed before, reachable or not, or its port cannot be reached |
| Labels.ParseIndexedPorts | docker/client.go:928-1093 | the first claim to an endpoint wins, the primary service before all |
| Labels.ParseContainerServices | docker/client.go:794-923 | primary, indexed and funnel declarations of one container, or an error for an invalid primary or funnel |
| Labels.FunnelConfigIsServable | docker/client.go:679-748 | a parsed funnel has the declared or default protocol and public port, allowed together, a path other than "/" only over HTTP, and a backend where its container port can be reached; the node can be asked for it unless it is a TCP one whose port is no number |
| Tags.ParseTags | docker/client.go:757-784 | the label's tags, or the defaults when it is empty |
| Tags.TagsAreThoseDeclared | docker/client.go:750-784 | every tag declared and no other, each once, so that a set on the other side shows no drift |
| Tags.TagsRoundTrip | docker/client.go:757-784 | tags written into the label again parse to themselves |
| Declarations.EveryServiceIsDeclared | docker/client.go:821-888 | each service is what the labels under one prefix ask for: name, description, listener, backend protocol, path and PROXY version; its backend is where its container port can be reached; the primary one comes first |
| Declarations.CheckIsDeclared | docker/client.go:175-313 | a declaration passes its checks if and only if its labels are in order, and then with the values they ask for |
| ParsedLabels.ParseFailsIff | docker/client.go:794-923 | the parse fails exactly for a primary service or a funnel that is enabled and invalid or unreachable |
| ParsedLabels.EveryIndexIsServed | docker/client.go:928-1093 | every index in order, reachable and the first to ask for its endpoint yields a service |
| ParsedLabels.IndexIsWritten | docker/cloud.go:347-366 | the indices are exactly the numbers some label writes |
| ParsedLabels.FunnelIsOnFirst | docker/client.go:890-923 | the funnel is what its labels ask for and goes to the first service, or to an entry of its own without services |
| ParsedLabels.FunnelGoesToResolvedPort | docker/client.go:890-923 | an accepted funnel forwards to the port its container port is reached at, at the first service's address, or without services at the address it is reached at |
| Declarations.IndexedAreSound | docker/client.go:963-1092 | indexed services are declarable and claim endpoints different from each other and the primary one |
| Declarations.OneContainerNeverConflicts | docker/client.go:794-923 | for all labels, the services of one container are all served and none is contested |
| Declarations.ArgumentsAreAccepted | tailscale/service.go:184-215 | the serve command exists for every declared service, with PROXY only for TCP and an absolute path only for HTTP |
| Declarations.ParsedServicesAreValid | docker/client.go:821-888 | a declared service is one the comparison is exact for if and only if its port has no colon and its backend is no URL |
| Declarations.DeclaredDesiredIsValid | docker/client.go:794-1093 | when a desired list read from labels is one convergence is stated for |
| StoppedServices.StoppedCloudServices | docker/cloud.go:203-263 | what a stopped container is reported as, funnel on the first service |
| StoppedServices.StoppedIsReported | docker/cloud.go:203-324 | a stopped container is reported as what its labels ask for, as far as they can be read: target port, listener, protocols, path and funnel; every named index is reported |
| StoppedServices.ServiceKeyIs | cloud/collector.go:434-449 | the catalog identity: service and port, or container and funnel port, or the container alone |
| StoppedServices.StoppedKeepsIdentity | docker/cloud.go:203-324 | every catalog key of the running parse is also a key of the stopped parse |
| LogCaps.CapLines | cloud/logs.go:79-108 | the longest suffix within 40 lines and 8192 bytes with its exact size, or one line cut to its longest valid UTF-8 prefix |
| LogCaps.CutLine | cloud/logs.go:96-106 | the cut is the longest valid prefix under the cap |
| LogCaps.ValidLineLosesAtMostThree | cloud/logs.go:96-106 | a valid line loses at most three bytes more than the cap takes |
| Utf8.RecognizedIsEncoded | cloud/logs.go:100-102 | what validity recognizes is the encoding of a character (section 3 of RFC 3629) |
| Utf8.EncodedIsRecognized | cloud/logs.go:100-102 | every character's encoding is recognized whatever follows it (section 4 of RFC 3629) |
| Utf8.CutLosesAtMostThree | cloud/logs.go:96-106 | cutting valid text anywhere leaves a valid prefix at most three bytes shorter |
| Semver.ParseVersion | version/semver.go:18-49 | the field-by-field parser computes Parse |
| Semver.ParsedIsWellFormed | version/semver.go:18-49 | parsed versions have 64-bit numbers and plain, non-empty identifiers |
| Semver.EveryWellFormedIsParsed | version/semver.go:18-49 | every such version is the parse of some input |
| Semver.ParsesIff | version/semver.go:18-49 | exactly which texts are parsed, and as what: three numbers within 64 bits, identifiers, build metadata, a leading "v" and white space around |
| Semver.TagIsParsed | version/semver.go:18-26 | a "v" in front of a printed version changes nothing |
| Semver.PrintParseRoundTrip | version/semver.go:18-61 | printing and parsing is the identity if and only if the last identifier does not end in white space |
| Semver.Compare | version/semver.go:64-89 | the loop computes the precedence the next rows are about |
| Semver.PrecedenceIsPreorder | version/semver.go:64-116 | reflexive, sign-symmetric, transitive, saturating numbers included |
| Semver.AgreesWithSpecification | version/semver.go:64-106 | exactly which pairs of versions are ordered as item 11 of Semantic Versioning 2.0.0 says |
| Semver.IdentAgreesUnlessBothSaturate | version/semver.go:93-106 | exactly which pairs of identifiers compare differently from the specification |
| Semver.CmpStringIsOrder | version/semver.go:105 | other identifiers compare in ASCII order: a proper prefix first, and otherwise by the first character that differs |
| Semver.LatestStable | version/update.go:71-96 | the result is a newest stable version among the names seen over all pages |
| Semver.NewestIsUnique | version/update.go:71-96 | there is one, depending only on which names there are |
| Watchdog.SocketWatchdog.Check | tailscale/socketwatch.go:174-223 | done exactly when an earlier probe got through and the failing run since spans the grace period; reported at most once |
| Watchdog.SocketWatchdog.Run | tailscale/socketwatch.go:147-170 | switched off, without grace or socket, it returns at once; otherwise it ends with the first probe that finds the socket lost, having reported it once |
| OomTable.Collector.NoteOOM | cloud/collector.go:637-649 | for event times in any order the table is what the whole history leaves pending and has not outrun |
| OomTable.Collector.TakeRecentOOM | cloud/collector.go:653-663 | true exactly when the latest OOM not yet consumed is at most ten seconds old, not in the future and not forgotten |
| OomTable.PruningGoesUnnoticed | cloud/collector.go:637-663 | with no later event on record, an OOM that explains an exit is never forgotten |
| OomTable.ExplainsOneExit | cloud/collector.go:651-663 | an OOM explains at most one exit |
| Reconnect.Backoff.Next | cloud/wsclient.go:275-287 | delays double up to a minute and lie between half and all of the current step |
| Reconnect.Backoff.Around | cloud/wsclient.go:297-300 | within a fifth of the asked delay |
| Reconnect.RejectionIs | cloud/reject.go:66-125 | 401 and "invalid_key" stop, 403, "blocked" and "protocol_mismatch" are retried rarely, "enrollment_closed" and "over_cap" slowly, everything else ordinarily |
| Reconnect.Pace | cloud/collector.go:791-845 | ordinary delays in 0.5 s to 60 s, slow ones in 30 s to 60 s, rare ones in 12 to 18 minutes, each by the step the backoff is at |
| Reconnect.Run | cloud/collector.go:791-845 | every wait is as told; the loop stops at the first terminal rejection or rare one a whole window into its run, and nowhere else; ordinary waits double up to a minute and start over, between 0.5 and 1 s, after an accepted session |
| Reconnect.AtMost121Rejections | cloud/reject.go:16-51 | a run of rare rejections is stopped by the 121st at the latest |
| Reconnect.GivenUpAfterAWholeWindow | cloud/reject.go:128-132 | every rare rejection's run has a first one, and the rejection stops the loop if and only if it comes 24 hours or more after it |
| TailnetProbe.OneServiceIff | cloud/tailnet.go:193-196 | two names share a lookup if and only if they are equal up to "svc:" in front and letter case |
| TailnetProbe.DedupeProbeServices | cloud/tailnet.go:181-205 | one name per folded identity, every complete entry's key under the name of its service, none lost, none twice, at most 512 names |
| TailnetProbe.EntryAnswered | cloud/tailnet.go:65-143 | every complete entry is answered by the one lookup made for its service |
| TailnetProbe.AnswersEveryKeyOnce | cloud/tailnet.go:117-141 | the answers carry the grouped keys in order, failed lookups included |
| TailnetProbe.Collector.LookUpAll | cloud/tailnet.go:103-142 | one lookup a name; only a failing first one gives up the sweep |
| TailnetProbe.Collector.Remember | cloud/tailnet.go:148-152 | each sweep is remembered and restarts the interval |
| TailnetProbe.Collector.TailnetControlReport | cloud/tailnet.go:65-143 | nothing is read without credentials or too soon; otherwise one sweep whose report is remembered on every path |
| TailnetProbe.QuotaIsBounded | cloud/tailnet.go:75-88 | lookups within any stretch of time are at most 512 a minute plus 512 |

## Left out

- Running commands, HTTP, OAuth, JSON, sockets and Docker inspection: their results are inputs or arbitrary outcomes.
- Classifying error text (`isNotFoundError`, `isConfigConflictError`): outcomes are a datatype.
- Network selection, gateway discovery, monitor addresses, host metrics, health endpoint, log redaction: not modelled.
- `ToLower` folds ASCII letters only; Go folds all of Unicode. Strings are sequences of characters, compared in code point order.
- Container and short IDs, operator hints and logging carry no state that matters here.
- The tags of a stopped container (`cloudTags`) are a parameter.
- Goroutine scheduling and websocket internals: steps are atomic at mutex and channel boundaries.
- ParseFunnelStatus: nothing is stated for a status with a pipe in a port or mount, whose keys then run into each other.
- ReadsExactlyIff: a web entry of a managed service without exactly one proxied mount is not covered; ReadingsOfEndpoint is.
