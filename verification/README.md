# A verified model of the exporter's stateful cores

The exporter discovers Shelly and ESPHome devices, keeps a registry of them, probes them
politely and holds one connection to each ESPHome node. This project models the parts of it
that carry state and proves what they keep over every run.

| file | what it models |
|---|---|
| `Common.dfy` | options, enumerations of finite sets (the order of a Go map range), insertion sort, string order |
| `Identity.dfy` | who an observation is about: `mac:`, `shortid:` and `name:` identifiers |
| `Address.dfy` | `netip` addresses, scoring, ranking and pinning |
| `RegistryModel.dfy` | the registry actor as functions on values: resolution, promotion, add, hints, scrapes, expiry |
| `RegistryInvariants.dfy` | what every registry step keeps, what promotion conserves, the life of an identifier |
| `RegistryLease.dfy` | leases: a slot that keeps being confirmed stays published; what leaves, and when |
| `RegistryJoin.dfy` | a device heard of under two identities: exactly when it becomes one, whichever came first |
| `RegistryHistory.dfy` | what the registry holds told from its run: where endpoints come from, what silence leads to, where handles and goodbyes go |
| `RegistryMeaning.dfy` | what an add, a hint and a scrape leave for a reader to see |
| `RegistryRuns.dfy` | concrete runs from an empty registry that show where a promise ends |
| `RegistryLimits.dfy` | what the registry does not promise, with the exact condition under which it holds |
| `Snapshot.dfy` | the published copy and the coalescing loop |
| `RegistryActor.dfy` | the actor itself, as a class whose loops update its maps in place, proved to be the model |
| `Backoff.dfy` | the per-device breaker and its two jittered ladders |
| `Limiter.dfy` | the probe gates, for any interleaving of callers |
| `LimiterCache.dfy` | which outcomes callers of the limiter are given, and how old |
| `EspCache.dfy` | an ESPHome node's readings and its buffer of strangers |
| `EspDevice.dfy` | one node's goroutine: dialling, sticky transport, sessions, backoff |
| `EspManager.dfy` | Sync, teardown and the device goroutines, interleaved |
| `EspSync.dfy` | what a Sync that runs to its end leaves behind |
| `EspTimeouts.dfy` | exactly which exit timeouts can cost one connection per device |
| `CloudClient.dfy` | pacing of Shelly Cloud requests, for any interleaving of callers |
| `Ladders.dfy` | saturating doubling in closed form, shared by three loops |
| `NameStore.dfy`, `CloudPolling.dfy`, `Avahi.dfy` | the three loops that climb those ladders |
| `Naming.dfy` | metric name sanitising |

Conventions. Time is an integer (nanoseconds) where code compares stamps and a real where it
scales durations. The clock, random draws, network answers and the order of a map range are
inputs, so a statement for all inputs covers every clock, draw and order. Go code that
updates fields under a lock or in one goroutine is a class with `modifies` clauses whose
methods are tied to functions on values; code run by many goroutines is in addition a state
machine whose steps are the atomic sections, and its theorems speak of every execution. Where
a method's `ensures` equates the new state with a function, that function is the
specification the lemmas beside it are about. A loop that runs for as long as the process
does takes a finite list of inputs of any length; running out of inputs is cancellation.

Findings the proofs turned up, each a lemma below unless it says otherwise:

- An address confirmed often enough can still be dropped: a merge lets the weaker record win
  a slot, so merging in a stale record of the very same address ends the lease
  (`RegistryRuns.StaleMergeEndsLease`, from an empty registry; the exact condition is
  `MergedSlotSurvives`).
- The comment at internal/registry/device.go:42 says the epoch moves when the port changes;
  only addresses move it (`EpochCountsChanges`, `PortMovesWithoutEpoch`). The manager watches
  epoch and address, so a node that changes its port alone is not reconnected.
- A static record merged into a non-static one stops being static
  (`StaticSurvivesExactlyWhen`); expiry can leave the Unverified flag wrong
  (`FlagStaysRightExactlyWhen`); an Add can take another device's own identifier as a handle
  (`OwnHandleStaysExactlyWhen`). `RegistryRuns` holds a run from an empty registry for each.
- A Gen1 Shelly whose mDNS name keeps a domain suffix is not matched with its cloud record and
  stays two devices, unless the two share a handle (`JoinsInEitherOrder`,
  `SuffixKeepsApartExample`).
- In `resolveID`, the lookup of the derived identifier after the handles can never succeed:
  the derived identifier is itself one of the handles (noted in `Resolve`).
- The address list can hold one address twice, when it is both trusted and discovered
  (`OrderedDistinctExactlyWhen`, `TwiceListed`).
- The in-flight gauge and the tokens held differ while a caller is between the two counters
  (`LimiterSafety` says by how much), and a probe can run behind a breaker that opened after
  its caller had asked it (`ProbesBehindOpenBreaker`, and `ProbeOvertakenByFailure` for a run).
- A full orphan buffer drops an update of a key it already holds, so an entity can be listed
  with a stale reading (`FullBufferKeepsStale`).
- The read-deadline check in `pump` runs right after the time of the last message has been
  set to now, so a stream that stalled an hour ago but whose pings are answered stands
  (`AnsweredPingEndsExactlyWhen`, `StalledStreamStands`).
- If a device goroutine outlives the manager's wait for it, a second connection to the device
  can come of it, exactly when the goroutine was still queued for a dial, dialling or connected
  (`TimeoutDoublesUpExactlyWhen`, and `ConnectedTwice` for two runs from the start).
- Avahi's waits are the capped doubling they look like exactly when `reconnect_min` does not
  exceed `reconnect_max`, which configuration does not check (`WaitsInClosedForm`).

## Model

| member | source | states |
|---|---|---|
| Identity.DeriveID | internal/registry/identity.go:32-49 | an identifier is never empty, and a `mac:` one is `mac:` and twelve characters |
| Identity.DerivedForms | internal/registry/identity.go:16-49 | for every name and TXT record the identifier has one of three forms; it is a `mac:` identifier exactly when it is `mac:` and twelve lower-case hex digits |
| Identity.ShortIDSuffix | internal/registry/identity.go:72-78 | a name known by three MAC bytes keeps exactly those bytes after the last dash of its identifier |
| Identity.DerivedShareTail | internal/registry/identity.go:32-64 | a short identifier and a `mac:` identifier that end in the same three bytes are recognisable as such from their text alone |
| Identity.MACByCharacter | internal/registry/identity.go:66-70 | a MAC is read character by character: hex digits of either case are kept in lower case, anything else ASCII is dropped |
| Identity.TailIs | internal/registry/identity.go:72-86 | of an instance written stem-hex, service type and all, the tail read is exactly the twelve or six hex digits after the dash |
| Identity.EvidenceDecides | internal/registry/identity.go:21-49 | a full MAC in TXT beats the one an id entry ends in, that one the instance name's, and six digits make a short identifier of the whole name, for every way of writing them |
| Identity.NameDecides | internal/registry/identity.go:21-49 | a name without such a tail and without other evidence stands for itself |
| Address.ComputeScore | internal/registry/address.go:40-87 | the two scans of the prefix lists compute the score |
| Address.UsableExactlyWhen | internal/registry/address.go:40-90 | an address may be dialled exactly when it is valid, not loopback, multicast, unspecified or link-local, in no denied prefix, and IPv4 unless IPv6 is allowed |
| Address.BetterExactlyWhen | internal/registry/address.go:40-87 | of two usable addresses one on the allow list beats one off it, then IPv4 beats IPv6, then the lower address wins |
| Address.ComputeOrder | internal/registry/address.go:140-178 | the loop that unmaps, filters, de-duplicates and sorts, then moves the pin, computes Order |
| Address.MovePinToFront | internal/registry/address.go:166-176 | delete-and-insert at the front is PinFirst |
| Address.PinFirst | internal/registry/address.go:166-176 | loses and duplicates nothing, and the pin comes first when it is present |
| Address.OrderMeaning | internal/registry/address.go:134-178 | Order is duplicate-free, holds exactly the unmapped usable candidates, the pin first when present, the rest by descending score and then address |
| Address.OrderIgnoresInputOrder | internal/registry/address.go:134-178 | Order depends only on the set of unmapped candidates |
| Address.ComputeOrderCandidates | internal/registry/address.go:100-120 | the loop that sorts candidates into trusted, discovered and rejected computes OrderCandidates |
| Address.OrderCandidatesMeaning | internal/registry/address.go:98-120 | no candidate is lost: every one is ordered or rejected, and the rejected are exactly the untrusted unusable ones |
| Address.TrustedOutranksDiscovered | internal/registry/address.go:98-120 | with no pin among them the vouched-for addresses come first, then the discovered by rank |
| Address.OrderCandidatesIgnoresInputOrder | internal/registry/address.go:98-120 | with at most one distinct trusted address the ordering does not depend on the order candidates came in |
| Address.OrderedDistinctExactlyWhen | internal/registry/address.go:113-119 | the ordered addresses are free of duplicates exactly when no address is both trusted and, from elsewhere, usable and discovered |
| Address.TwiceListed | internal/registry/address.go:113-119 | one private address, trusted and discovered, is listed twice, whatever the pin |
| Address.ComputeDedupe | internal/registry/address.go:122-132 | the in-place filter keeps first occurrences only |
| Address.Dedupe | internal/registry/address.go:122-132 | no duplicates, same elements |
| RegistryInvariants.RecomputeFacts | internal/registry/registry.go:554-601 | recomputing makes the published addresses a ranking of the endpoints, raises the epoch by one if they changed and leaves it if they did not, and touches nothing else but the port and the rejected addresses |
| RegistryInvariants.HintDeviceFacts | internal/registry/registry.go:411-467 | a hint leaves addresses, epoch, name, port and LastSeen as they were, and one that reports no change made none |
| RegistryInvariants.ScrapedFacts | internal/registry/registry.go:469-500 | a successful scrape keeps the addresses a ranking with the new pin, LastSeen the later stamp, and raises the epoch exactly if the addresses changed |
| RegistryInvariants.PrunedFacts | internal/registry/registry.go:502-540 | expiry keeps the addresses a ranking, leaves LastSeen where it was, and raises the epoch exactly if the addresses changed |
| RegistryInvariants.ResolveFacts | internal/registry/registry.go:250-328 | promotion only ever goes from a weaker identifier to the derived `mac:` one; every other resolution is live, derived, or the event's own choice |
| RegistryInvariants.PromoteConserves | internal/registry/registry.go:333-381 | rename and merge hold the union of endpoint slots (the weaker record's wins a clash) and of sources, the earlier FirstSeen, the later stamps, every handle, and touch no other device |
| RegistryInvariants.PromoteCountsDevices | internal/registry/registry.go:333-381 | devices plus merges is conserved; the device count falls by zero or one |
| RegistryInvariants.StepKeepsInv | internal/registry/registry.go:169-601 | every step keeps identity integrity, live handles, LastSeen and current addresses; a handler that reports no change left the registry exactly as it was |
| RegistryInvariants.ReachableInv | internal/registry/registry.go:106-246 | all of that after every run from an empty registry |
| RegistryInvariants.AddKeepsInv | internal/registry/registry.go:187-246 | an Add is never dropped for want of an identity, and keeps the invariant |
| RegistryInvariants.AddrsForced | internal/registry/registry.go:554-601 | with at most one distinct trusted address the published order is the ranking of every enumeration of the endpoints |
| RegistryInvariants.AddrsComplete | internal/registry/registry.go:554-601 | an address is published exactly when some endpoint has it, trusted or usable |
| RegistryInvariants.StepEvolves | internal/registry/registry.go:554-605 | no step lowers a surviving device's epoch, changes its addresses under one epoch, or changes an announced name |
| RegistryInvariants.LifeEvolves | internal/registry/registry.go:210-246 | the same over any stretch of a run through which the identifier stays registered |
| RegistryInvariants.StepEpoch | internal/registry/registry.go:592-596 | a step of any kind raises a surviving device's epoch by exactly the number of times it changed the address list |
| RegistryInvariants.EpochCountsChanges | internal/registry/registry.go:592-596 | over any stretch of a run through which an identifier stays registered its epoch counts the changes of its address list, no more and no fewer |
| RegistryInvariants.MACLeavesOnlyByExpiry | internal/registry/registry.go:250-381 | a `mac:` identifier, once present, is removed by nothing but expiry |
| RegistryInvariants.AddIsStable | internal/registry/registry.go:187-276 | applying an Add again resolves to the same identity with no new device, promotion or merge, and every handle leads there |
| RegistryHistory.EndpointsWereAnnounced | internal/registry/registry.go:187-540 | at every moment of every run from an empty registry, each endpoint held was announced, slot, address, port, TXT, trust and source, by an Add of the run |
| RegistryHistory.PublishedWasAnnounced | internal/registry/registry.go:554-601 | each address published was announced by an Add of the run, and was vouched for there or may be dialled |
| RegistryHistory.DeniedIsNeverPublished | internal/registry/address.go:57-61 | an address in a denied prefix that no Add of the run vouches for is published for no device at no moment |
| RegistryHistory.FailedScrapeChangesNothing | internal/registry/registry.go:469-476 | a scrape that failed, or of an unknown device, changes nothing and reports no change |
| RegistryHistory.SilentDeviceStaysExactlyWhen | internal/registry/registry.go:469-552 | the dual of the lease: over any stretch of a run with no Add that resolves to or renames a device and no successful scrape of it, its LastSeen stands, and it is registered at the end exactly if it is static or no tick came more than DeviceTTL after that |
| RegistryHistory.HandlesGoWithTheirDevice | internal/registry/registry.go:502-552 | a tick drops exactly the handles of the devices it forgets |
| RegistryHistory.AddMovesOnlyItsHandles | internal/registry/registry.go:187-409 | an Add binds its own handles and the identity; every other handle stays, or follows the device renamed or merged away |
| RegistryHistory.HandlesAre | internal/registry/registry.go:390-409 | an event is known by its name, the full MAC of its TXT record, that record's id and its derived identity, and by nothing else |
| RegistryHistory.HeardAgainUnderAnyHandle | internal/registry/registry.go:250-276 | right after an Add, an event sharing any one handle with it, and with none that leads elsewhere, is of the same device, and at most gives it the full MAC identity it derives |
| RegistryHistory.GoodbyeReaches | internal/registry/registry.go:411-445 | a goodbye marks, from its own time, exactly the verified endpoints of its source and slot on the one device its derived identity, or else its name, leads to |
| RegistryHistory.GoodbyeFindsItsDevice | internal/registry/registry.go:393-419 | right after an Add, a goodbye under the same instance name is for the device the Add went to |
| RegistryLease.RunKeepsLease | internal/registry/registry.go:411-540 | over any run that respects a lease, the slot, its address and its stamps stay fresh under the device's current identifier |
| RegistryLease.LeasePublished | internal/registry/registry.go:411-540 | the lease theorem: a usable address confirmed at gaps of at most min(EndpointTTL, RemoveGrace), with DeviceTTL at least EndpointTTL, stays in Addrs at every step and its device is never forgotten, whatever hints, resets, renames and merges interleave |
| RegistryLease.AddTakesLease | internal/registry/registry.go:187-246 | an Add takes out a lease on the slot it lands in |
| RegistryLease.SlotsLeaveOnlyByExpiry | internal/registry/registry.go:333-500 | hints, resets, scrapes, renames and merges never lose an endpoint slot |
| RegistryLease.ExpiryVerdict | internal/registry/registry.go:502-552 | exactly when a tick forgets a device, and exactly when it takes a slot from one it keeps |
| RegistryLease.MergedSlotSurvives | internal/registry/registry.go:350-540 | after a merge a slot survives a tick exactly when the record merged in has not lapsed |
| RegistryRuns.StaleMergeEndsLease | internal/registry/registry.go:350-370 | from an empty registry, for any handles: an address just confirmed, every later step in time, and yet after a third observation merges in the older record of its slot the next tick takes it from a device that stays registered |
| RegistryRuns.StaleMergeExample | internal/registry/registry.go:350-370 | the same with every event spelt out |
| RegistryRuns.StaticLostInMerge | internal/registry/registry.go:350-370 | from an empty registry, for any handles: a static device is folded into one that is not, and is static no more |
| RegistryRuns.StaticExample | internal/registry/registry.go:350-370 | the same with every event spelt out |
| RegistryRuns.PortExample | internal/registry/registry.go:592-596 | a run that moves a device's port from 80 to 8080 under one epoch |
| RegistryRuns.FlagExample | internal/registry/registry.go:502-540 | a run that ends with every endpoint in doubt and the device not marked so |
| RegistryRuns.HandleExample | internal/registry/registry.go:383-388 | a run in which another device takes a registered device's own identifier as its handle |
| RegistryJoin.BothJoin | internal/registry/registry.go:187-381 | a short-id mDNS Add and an unnamed full-MAC cloud Add, whose names match or which share a handle, leave in either order one device with the `mac:` identity, the announced name and both slots |
| RegistryJoin.BothApart | internal/registry/registry.go:187-381 | otherwise they leave in either order two devices, each as its own Add made it |
| RegistryJoin.JoinsInEitherOrder | internal/registry/registry.go:187-381 | the two orders leave the same one device (same identity, name and slots and, for distinct slots not both trusted, the same endpoints and addresses; every other device untouched) exactly when the announced label itself ends in the three bytes or the two events share a handle; otherwise both leave two |
| RegistryJoin.MatchedExactlyWhen | internal/registry/registry.go:278-328 | an unheard-of event of a Shelly joins the one registered Shelly whose identifier its own could be short for, or long for, exactly if there is exactly one; otherwise, and for every other kind, it keeps to the identity it derives |
| RegistryJoin.OneDeviceNamed | internal/registry/identity.go:32-78 | the two identifiers match, by either search, exactly when the announced label itself ends in the three bytes |
| RegistryJoin.SuffixKeepsApart | internal/registry/identity.go:72-86 | any name without an underscore that carries three MAC bytes, announced with one domain suffix too many, stays apart from its cloud record |
| RegistryJoin.SuffixKeepsApartExample | internal/registry/identity.go:72-86 | the same for shelly1-b1c2d3, from an empty registry |
| RegistryJoin.SameEndpointsSameAddrs | internal/registry/registry.go:554-601 | equal endpoints with no pin and at most one trusted address publish equal addresses |
| RegistryMeaning.AddShows | internal/registry/registry.go:187-246 | after an Add the device shows the endpoint in its slot, its address published if it may be dialled, itself verified, the newest TXT, host, port and source, and a settled name |
| RegistryMeaning.AddKeepsTheRest | internal/registry/registry.go:187-246 | field by field, what an Add leaves of a record already there: a known kind, the first sighting, an announced name, the pin and other slots and TXT entries stay |
| RegistryMeaning.AddIntroduces | internal/registry/registry.go:187-246 | field by field, the record of a device not heard of before |
| RegistryMeaning.PortComesFromAnEndpoint | internal/registry/registry.go:554-571 | recomputing keeps a known port, and otherwise takes that of some endpoint that has one, if any has |
| RegistryMeaning.ScrapeShows | internal/registry/registry.go:469-500 | after a successful scrape the address, if it may be dialled, is the preferred one; exactly its endpoints are verified and renewed |
| RegistryMeaning.PinnedComesFirst | internal/registry/registry.go:554-601 | a pinned address that is published is published first |
| RegistryMeaning.HintOnlyCastsDoubt | internal/registry/registry.go:411-445 | a hint takes no address, slot or liveness away; it marks exactly the matching endpoints, and the device is unverified exactly when all are (read off the definition; that the source's loop is that definition is RegistryActor.Registry.ApplyRemoveHint) |
| RegistryMeaning.HintsAreIdempotent | internal/registry/registry.go:411-445 | repeated goodbyes change nothing: the first one's time stands (read off the definition, as above) |
| RegistryMeaning.ResetHintsEveryone | internal/registry/registry.go:447-467 | a source reset marks every endpoint of the source, and repeating it changes nothing |
| RegistryLimits.PortMovesWithoutEpoch | internal/registry/registry.go:592-596 | a device announced again with another port gets the port and keeps epoch and addresses |
| RegistryLimits.StaticSurvivesExactlyWhen | internal/registry/registry.go:350-370 | Static survives a promotion except when a static record is merged into a non-static one |
| RegistryLimits.FlagStaysRightExactlyWhen | internal/registry/registry.go:502-540 | a flag that was right before a tick is right after it unless, on a device not static, every verified endpoint lapses while an unverified one does not, or all were unverified and all lapse |
| RegistryLimits.OwnHandleStaysExactlyWhen | internal/registry/registry.go:383-388 | a device's own identifier stays its handle exactly unless another device's event carries it |
| RegistryActor.Registry.CollectCandidates | internal/registry/registry.go:554-571 | ranging over the endpoints gathers exactly the candidates of the order taken, and the first port |
| RegistryActor.Registry.RecomputeAddrs | internal/registry/registry.go:554-601 | the record it leaves is the model's, for the order the range took |
| RegistryActor.Registry.Promote | internal/registry/registry.go:333-381 | rename and merge in place leave the model's state |
| RegistryActor.Registry.MatchShortID | internal/registry/registry.go:286-328 | the two searches find a match exactly when it is the only one |
| RegistryActor.Registry.ResolveID | internal/registry/registry.go:250-276 | resolution, with the promotion it may take, is the model's |
| RegistryActor.Registry.BindAliases | internal/registry/registry.go:383-388 | every handle and the identity itself lead to it, nothing else moves |
| RegistryActor.Registry.ApplyAdd | internal/registry/registry.go:187-246 | the whole new state and whether it changed are the model's |
| RegistryActor.Registry.ApplyRemoveHint | internal/registry/registry.go:411-445 | the same for a remove hint |
| RegistryActor.Registry.MarkSourceUnverified | internal/registry/registry.go:447-467 | the same for a source reset, over every device in any order |
| RegistryActor.Registry.ApplyEvent | internal/registry/registry.go:169-185 | dispatch by event type, with the event's own time when it has one |
| RegistryActor.Registry.ApplyScrapeResult | internal/registry/registry.go:469-500 | the same for a scrape result |
| RegistryActor.Registry.Forget | internal/registry/registry.go:542-552 | the device and exactly its handles go |
| RegistryActor.Registry.Expire | internal/registry/registry.go:502-540 | an expiry pass in any order leaves the model's state, and reports a change exactly when there was one |
| RegistryActor.Registry.Publish | internal/registry/registry.go:607-618 | the snapshot it publishes is a sorted, indexed copy of every device |
| RegistryActor.Registry.Run | internal/registry/registry.go:106-167 | every turn of the actor is a turn of the modelled loop, so its runs are executions |
| Snapshots.NewSnapshot | internal/registry/snapshot.go:23-30 | sorted by unique identifier, indexed, nothing lost |
| Snapshots.GetIsSearch | internal/registry/snapshot.go:33-42 | Get finds exactly what a linear search finds |
| Snapshots.List | internal/registry/snapshot.go:45-59 | exactly the devices of the kind, in order |
| Snapshots.OfKindStaysSorted | internal/registry/snapshot.go:45-59 | a listing by kind is sorted too |
| Snapshots.CopyIsUnique | internal/registry/snapshot.go:11-30 | two copies of one state hold the same devices and index |
| Snapshots.TurnKeepsInv | internal/registry/registry.go:106-167 | every turn keeps the loop's invariant |
| Snapshots.SnapshotCoherent | internal/registry/registry.go:106-167 | in every execution, at every turn: dirty exactly when the timer is armed, and whenever not dirty the published snapshot equals a fresh copy of all devices |
| Snapshots.PublishedExactlyWhenFired | internal/registry/registry.go:106-167 | in every execution, readers see a new copy, exact and stamped then, at the turns at which the timer fires and at no other; every change and every refresh leaves the timer armed |
| Backoffs.Backoff.Allow | internal/probe/backoff.go:47-62 | refuses exactly while the next attempt lies ahead, and the remaining time is exactly what is left |
| Backoffs.Backoff.Delay | internal/probe/backoff.go:132-150 | the updated local is the capped ladder, jittered |
| Backoffs.Backoff.Record | internal/probe/backoff.go:65-90 | the whole new table after an outcome |
| Backoffs.Backoff.Open | internal/probe/backoff.go:114-125 | counts exactly the devices Allow refuses |
| Backoffs.RecordTouchesOnlyFaults | internal/probe/backoff.go:65-90 | an outcome that is not the device's fault changes no record, success closes the breaker, and no outcome touches another device |
| Backoffs.FaultsCount | internal/probe/backoff.go:65-90 | every failure but backoff and in_flight_limit adds one to the count; below the threshold the device stays open to probes, from there on until the wait from now is over |
| Backoffs.LadderBounds | internal/probe/backoff.go:132-150 | the ladder never passes its cap; it stays at or above the lesser of first rung and cap when the first rung is not negative, and at or below it when it is not positive |
| Backoffs.LadderClimbs | internal/probe/backoff.go:132-150 | the ladder never falls as failures mount when its first rung is not negative, and never climbs when it is not positive |
| Backoffs.LadderRungByRung | internal/probe/backoff.go:127-143 | authentication failures climb a ladder of their own; each starts at the lesser of its first rung and its cap and is multiplied by the factor until the cap |
| Backoffs.WaitBounds | internal/probe/backoff.go:132-150 | whatever the draw and the sign of the delays, the wait lies between (1 − jitter) and (1 + jitter) times the ladder |
| Backoffs.WaitIsSpread | internal/probe/backoff.go:145-148 | the draw spreads the wait evenly over that band |
| Backoffs.ContactsApart | internal/probe/backoff.go:47-150 | once open, contacts with an always-failing device are at least (1 − jitter)·min(initial, max) apart, and Allow admits again within (1 + jitter)·max |
| Backoffs.ContactsInWindow | internal/probe/backoff.go:47-150 | contacts in any window of length T are at most 1 + T / ((1 − jitter)·min(initial, max)) |
| Limiters.Limiter.Do | internal/probe/limiter.go:87-154 | one uncontended call: refused by the breaker, else answered by a cached outcome no older than the TTL, else too busy, else probed; tokens and in-flight count come back on every path, and only a probe that ran leaves a mark |
| Limiters.Limiter.Forget | internal/probe/limiter.go:157-162 | afterwards the device is neither backed off nor cached, and no other is touched |
| Limiters.StepKeepsStructure | internal/probe/limiter.go:87-131 | every step keeps one open flight per device, led by one caller |
| Limiters.StepKeepsCounts | internal/probe/limiter.go:107-124 | tokens held and in-flight count are exactly the callers that hold and count, within the limit |
| Limiters.ReachableInv | internal/probe/limiter.go:87-131 | both in every reachable state |
| Limiters.LimiterSafety | internal/probe/limiter.go:87-131 | in every interleaving at most MaxConcurrent probes run, at most one per device, and tokens exceed the in-flight count by exactly the callers between the two |
| Limiters.OutcomeOfOverlappingFlight | internal/probe/limiter.go:107-130 | a caller neither backed off nor served from cache returns the outcome of a flight for its device that overlapped its call |
| LimiterCaches.CacheHoldsExactly | internal/probe/limiter.go:133-162 | in every execution the cache holds an outcome for a device exactly if caching is on and it is the last stored for it and not forgotten since |
| LimiterCaches.CachedAnswersAreFresh | internal/probe/limiter.go:97-100 | in every execution a caller that looks is answered by the cache exactly if that last outcome was stored no longer ago than the TTL, with that outcome, and goes on to a probe exactly otherwise |
| LimiterCaches.CachedAnswersWereStored | internal/probe/limiter.go:97-145 | every caller ever answered by the cache was given what an earlier probe of its device reported, within the TTL of its look |
| LimiterCaches.AnswersAreReports | internal/probe/limiter.go:107-130 | in every execution a caller that came by a flight returns what the probe of the flight's leader reported, or in_flight_limit if it never ran; and what is recorded or cached is what the recording caller's own probe reported |
| LimiterCaches.FailuresAreFaults | internal/probe/backoff.go:64-90 | in every execution the failures counted for a device are exactly the faults recorded since its last success or forgetting |
| LimiterCaches.RefusesExactlyWhile | internal/probe/backoff.go:44-90 | in every execution, at every clock reading, the breaker refuses a device exactly if that count had reached the threshold with the last fault and the wait it called for is not over |
| Limiters.TooBusyLeavesNoTrace | internal/probe/limiter.go:107-124 | a flight whose probe never ran reports in_flight_limit, and failure records and cache change only through flights whose probe ran |
| Limiters.AskedFirst | internal/probe/limiter.go:92-124 | in every execution, a caller past the breaker asked it at some earlier step and was let through then |
| Limiters.RefusesExactlyWhen | internal/probe/limiter.go:92-124 | a breaker that let a caller through has come to refuse exactly if an outcome of the device recorded since opened it and nothing has touched the record after |
| Limiters.ProbesBehindOpenBreaker | internal/probe/limiter.go:92-124 | in every execution, a running probe's caller was let through before it; and newcomers are refused while it runs exactly if an outcome of the device recorded since its caller asked opened the breaker and still stands |
| Limiters.ProbeOvertakenByFailure | internal/probe/limiter.go:92-124 | a concrete execution from the start that ends with a probe running behind an open breaker |
| EspCaches.DeviceCache.Snapshot | internal/esphome/cache.go:104-134 | a copy in which every listed entity shows exactly the reading the one map holds for it |
| EspCaches.DeviceCache.SwapEntities | internal/esphome/cache.go:143-162 | states stay within entities, strangers outside and bounded; of the one map, exactly the keys leaving the entity set go |
| EspCaches.DeviceCache.PutState | internal/esphome/cache.go:164-177 | the one map is overwritten, unless the key is unknown and the buffer full |
| EspCaches.HoldsTheLastWord | internal/esphome/cache.go:143-177 | after any run the cache holds a reading exactly when it was taken in, none of the key was taken in after it, and the key has not left the entity set since |
| EspCaches.NewestShowsExactlyWhen | internal/esphome/cache.go:164-177 | the exact condition under which a new reading shows at once |
| EspCaches.FullBufferKeepsStale | internal/esphome/cache.go:174-176 | a concrete run that lists an entity with a stale reading |
| EspCaches.Enumerate | internal/esphome/device.go:367-397 | at most the limit is kept, indexed and swapped in, and truncation is reported exactly when it happened |
| EspCaches.TruncationIgnoresOrder | internal/esphome/device.go:380-389 | the entities kept do not depend on the order a node lists them in, and are those with the smallest keys |
| EspDevices.Device.Connect | internal/esphome/device.go:267-321 | the exact dials, their order and keys, the connection left open or not, the mode and the error, from the answers (case by case in ConnectByCases); every dial it makes is lawful |
| EspDevices.ConnectByCases | internal/esphome/device.go:271-321 | each case with its literal trace: the transport settled on and no other; plaintext without a key; encrypted first with one, and after a refusal plaintext with no key unless encryption is required |
| EspDevices.Device.Dial | internal/esphome/device.go:295-306 | one dial: answered exactly when accepted, its exact trace, and a connection that fails to authenticate closed before it returns |
| EspDevices.Device.Authenticate | internal/esphome/device.go:328-364 | succeeds exactly without a password or when welcomed |
| EspDevices.Device.Pump | internal/esphome/device.go:197-258 | returns at the first tick that ends the session, cleanly exactly on cancellation or a disconnect request, and otherwise with the error of that tick |
| EspDevices.Device.Session | internal/esphome/device.go:125-194 | its exact trace, the transport settled on, and how and of what it ended, from the answers; whatever fails, no connection is left open |
| EspDevices.Device.Delay | internal/esphome/device.go:400-432 | the draw spreads it evenly within a fifth of five seconds, the cap, or the capped doubling ladder |
| EspDevices.Device.Run | internal/esphome/device.go:91-122 | the whole trace is one session per script up to the first cancellation, each with its exact acts, its ending (long, clean, authentication failure) and one wait; it is lawful and ends with no connection open |
| EspDevices.SessionEndsAsScripted | internal/esphome/device.go:94-121 | a script not cut short leaves exactly one ending, of the length it was, and one wait after it; the ending is clean only of a session that was served, asked, listed and subscribed to |
| EspDevices.VerdictOf | internal/esphome/device.go:139-193 | how a session that came to be served ended, and of what, by the first thing to go wrong |
| EspDevices.OneConnectionAtATime | internal/esphome/device.go:91-139 | opened minus closed is 0 or 1 at every moment, 0 at every dial and between sessions |
| EspDevices.EveryDialCarriesTheKey | internal/esphome/device.go:267-321 | with require_encryption and a key, every dial carries the key |
| EspDevices.TransportSticks | internal/esphome/device.go:139-139 | once a transport is settled on, every later dial and settling is of it |
| EspDevices.PlaintextOnlyAfterNoise | internal/esphome/device.go:271-298 | with a key and no transport settled on, plaintext is dialled only right after a failed encrypted dial of the same connect (read off what a lawful trace is; that every trace of the source's loop is lawful is EspDevices.Device.Run) |
| EspDevices.SessionsAreSpaced | internal/esphome/device.go:107-122 | after every session that ends the goroutine waits: at least 0.8 s, less than 1.2 times the cap (five minutes or the connect budget, whichever is more), four to six seconds after a clean one, and along the doubling ladder after ordinary failures |
| EspDevices.RungCounts | internal/esphome/device.go:94-114 | the rung of the ladder is the number of waits since a session last stayed up |
| EspDevices.PasswordErrorsAreAuthFailures | internal/esphome/device.go:328-443 | every error the password handshake can return reads as an authentication failure, under every case folding |
| EspDevices.AuthFailureExactlyWhen | internal/esphome/device.go:434-443 | an error is an authentication failure exactly when it mentions a password, a handshake, a MAC failure or a preamble, anywhere and in any case |
| EspDevices.MissedPingEndsExactlyWhen | internal/esphome/device.go:217-227 | a missed ping ends the session exactly when, with those missed since one was last answered, it makes up the threshold |
| EspDevices.RefreshEndsExactlyWhen | internal/esphome/device.go:240-255 | a firmware check ends the session exactly when it was answered, reports another firmware than last reported, and the entities cannot be listed anew |
| EspDevices.OtherTicks | internal/esphome/device.go:207-215 | cancellation, a closed connection and a disconnect request always end the session, a state never does |
| EspDevices.WrongPasswordsWaitOutTheCap | internal/esphome/device.go:107-122 | on every lawful trace, a session whose connection the password handshake closed ends there, as an authentication failure, and the wait after it is within a fifth of the cap |
| EspDevices.AnsweredPingEndsExactlyWhen | internal/esphome/device.go:227-238 | after any ticks, an answered ping ends the session exactly when the clock at the check is more than a read deadline past the time just stored, be it the touch or a state that slipped in after it; the time of the last message before has no say |
| EspDevices.StalledStreamNoticedExactlyWhen | internal/esphome/device.go:227-238 | the check ends the session exactly when the last state is overdue if and only if that state is recent enough or the ping's own two readings lie a read deadline apart |
| EspDevices.StalledStreamStands | internal/esphome/device.go:227-238 | a session of any length, every ping answered, with no state after the first and a deadline long past, that does not end |
| EspManagers.Manager.TakeAll | internal/esphome/manager.go:68-74 | Run takes every entry for teardown and leaves none |
| EspManagers.Manager.Prune | internal/esphome/manager.go:106-114 | Sync takes exactly the unwanted entries and keeps the wanted ones as they are |
| EspManagers.Manager.Claim | internal/esphome/manager.go:140-149 | an entry that is up to date is left alone, any other is taken out and its goroutine returned; the machine's Ensure step takes the same decision, by the same function |
| EspManagers.StepKeepsInv | internal/esphome/manager.go:61-181 | every step keeps every live goroutine accounted for and only the last of a device able to dial |
| EspManagers.ReachableInv | internal/esphome/manager.go:61-181 | that in every reachable state |
| EspSync.SyncLeavesTheWanted | internal/esphome/manager.go:83-170 | over every run, whatever goroutines do and whichever waits time out, a Sync begun while Run serves and ended uncancelled leaves exactly the wanted devices listed, each for the wanted target; one already listed for it keeps its very goroutine, every other has a new one; and exactly the outdated goroutines are told to stop |
| EspSync.SyncAgainChangesNothing | internal/esphome/manager.go:83-145 | a Sync that wants what is there leaves the entries as they are, starts no goroutine and tells none to stop |
| EspSync.SyncComesToNothing | internal/esphome/manager.go:84-90 | before Run or after its end a Sync does nothing |
| EspManagers.OneConnectionPerDevice | internal/esphome/manager.go:61-192 | over every interleaving, harmless exit timeouts included: opened minus closed for a device is 0 or 1, a goroutine dials only once every predecessor has exited (or, told to stop, sleeps and will exit on waking), and dials never exceed the connect limit |
| EspManagers.AllQuietAfterTeardown | internal/esphome/manager.go:60-81 | after a run without exit timeouts, once Run has returned and no Sync is under way there is no connection, and no goroutine is left that could dial |
| EspTimeouts.TimeoutDoublesUpExactlyWhen | internal/esphome/manager.go:106-192 | wherever a run without harmful timeouts has the manager give up on a goroutine, in Sync, in ensure or in teardown, two connections to one device can come of it exactly if the manager's context has not ended and the goroutine was still queued for a dial, dialling or connected |
| EspTimeouts.ComesToRest | internal/esphome/manager.go:106-170 | a Sync under way can always come to its end, whatever else stands as it is |
| EspTimeouts.ConnectedTwice | internal/esphome/manager.go:106-192 | two runs from the start, for every device: it moves, or leaves the registry, while connected; the wait for its goroutine times out; and it is connected twice |
| CloudClients.Client.Acquire | internal/shellycloud/client.go:129-148 | the slot is held exactly on success, as soon as it is given and notBefore has come; a cancelled wait returns it |
| CloudClients.Client.Release | internal/shellycloud/client.go:153-156 | the slot is free and the next request held off from now |
| CloudClients.Client.Post | internal/shellycloud/client.go:110-126 | one caller alone: at most three requests, spaced, another exactly after a refusal unless a wait is cancelled, the slot returned whatever happens |
| CloudClients.StepKeepsInv | internal/shellycloud/client.go:110-156 | every step keeps the pacing, the tally and the slot |
| CloudClients.CloudPacing | internal/shellycloud/client.go:110-156 | in every interleaving no two requests overlap, each starts two seconds (ten after a refusal) after the end of every earlier one, and one call sends at most three |
| CloudClients.NobodyGivesUpEarly | internal/shellycloud/client.go:110-126 | in every interleaving a caller that is done was cancelled while it waited, or has had a request that was not refused, or has had all three |
| CloudClients.HeldOffNoLonger | internal/shellycloud/client.go:150-156 | in every interleaving the next request may start exactly two seconds after the last holding off, ten after one for a refusal |
| CloudClients.SlotAlwaysReturned | internal/shellycloud/client.go:128-156 | the slot is taken exactly while one caller is between taking and freeing it, and is there for the next once nobody is |
| Ladders.CappedClimb | internal/shellycloud/names.go:242-250 | min(loop variable, cap) after n failures is min(initial·2^n, cap) |
| Ladders.ClimbIsCappedDoubling | internal/discovery/avahi/avahi.go:162-165 | the uncapped variable is min(initial·2^n, cap) for all n exactly when initial does not exceed cap |
| Ladders.WaitAt | internal/discovery/shellycloud/shellycloud.go:74-96 | the wait after the k-th failure in a row is min(30 s·2^(k−1), interval), after a success the interval |
| Ladders.RetryWaitClimbs | internal/shellycloud/names.go:164-169 | the waits never fall while failures go on and never exceed the interval |
| Ladders.RetryWaitDoubles | internal/shellycloud/names.go:241-260 | thirty seconds after the first failure, twice as long after each further one, never longer than the interval |
| Ladders.StreakIsARun | internal/discovery/shellycloud/shellycloud.go:74-96 | the streak counted is a maximal run of failures |
| NameStores.NameStore.Refresh | internal/shellycloud/names.go:262-303 | succeeds exactly if it was not abandoned and the device list came and decodes with the rooms last fetched, and then those are the names; else names and last success stay; rooms survive their own failure; the loaded channel is closed once |
| NameStores.NameStore.Run | internal/shellycloud/names.go:241-260 | the waits follow the ladder of the outcomes |
| NameStores.LastGoodIs | internal/shellycloud/names.go:262-303 | the refresh whose names show succeeded, and none after it did |
| CloudPolling.Discoverer.Poll | internal/discovery/shellycloud/shellycloud.go:98-147 | health is up exactly after a success, counts the recoveries, and a poll cut short leaves it alone |
| CloudPolling.Discoverer.Publish | internal/discovery/shellycloud/shellycloud.go:116-133 | one event for each device to announce, in order, or the first few of them when cut short |
| CloudPolling.Discoverer.Run | internal/discovery/shellycloud/shellycloud.go:74-96 | the waits follow the ladder, and Reconnects is the number of successes that followed a failure |
| CloudPolling.ChosenIsExact | internal/discovery/shellycloud/shellycloud.go:118-127 | exactly the reachable devices are announced, each as often as it is listed |
| CloudPolling.AnnouncementsAre | internal/discovery/shellycloud/shellycloud.go:149-197 | the events are those devices', one each |
| CloudPolling.EventSays | internal/discovery/shellycloud/shellycloud.go:149-197 | field by field, what one cloud device says of itself, its generation in decimal included |
| CloudPolling.AnnouncedIsShown | internal/discovery/shellycloud/shellycloud.go:149-197 | announced into any registry, it is shown under a full MAC identity with port 80, its MAC, and its address verified now in the cloud's slot and published if it may be dialled |
| CloudPolling.RecoveriesCount | internal/discovery/shellycloud/shellycloud.go:135-141 | Reconnects counts one by one the successes right after a failure |
| CloudPolling.CloudAndLocalAgree | internal/discovery/shellycloud/shellycloud.go:149-197 | a cloud observation with a full MAC and a local one that carries it in TXT or name derive the same identity |
| Avahi.Discoverer.Watch | internal/discovery/avahi/avahi.go:219-268 | the first ending signal decides the reason; the watchdog fires exactly on two failed probes in a row |
| Avahi.WatchByCases | internal/discovery/avahi/avahi.go:219-268 | the reason, by name, for each signal that can follow a stretch of probes of which no two in a row failed |
| Avahi.Discoverer.Session | internal/discovery/avahi/avahi.go:171-213 | fails exactly when the connection or any browser does, with that error; health goes up exactly when neither did |
| Avahi.Discoverer.Run | internal/discovery/avahi/avahi.go:119-168 | gives up exactly when start-up is doomed; waits, health and reconnect count follow the log of sessions |
| Avahi.WaitAfter | internal/discovery/avahi/avahi.go:119-168 | the wait after a session is the ladder at the cycles since the last rebrowse or the start |
| Avahi.CyclesCount | internal/discovery/avahi/avahi.go:119-168 | the cycles counted are the sessions since the last rebrowse, or since the first |
| Avahi.WaitsInClosedForm | internal/discovery/avahi/avahi.go:119-168 | every wait is min(ReconnectMin·2^c, ReconnectMax) exactly when ReconnectMin does not exceed ReconnectMax |
| Avahi.FatalOnlyBeforeFirstSuccess | internal/discovery/avahi/avahi.go:107-149 | a run in which any session worked never returns Fatal |
| Naming.SanitizeName | internal/metrics/naming.go:223-254 | the builder loop computes the words of the input joined by single underscores |
| Naming.AlwaysAName | internal/metrics/naming.go:222-254 | for every string the result matches [a-z_][a-z0-9_]* with no double or trailing underscore |
| Naming.WordsKept | internal/metrics/naming.go:223-254 | every word survives, in order |
| Naming.LettersKept | internal/metrics/naming.go:223-254 | every letter and digit of the folded text is kept, in order, and no other character of it; a text without any becomes unknown |
| Naming.ProperNamesStand | internal/metrics/naming.go:222-254 | exactly the names that are already proper are left as they are |
| Naming.Idempotent | internal/metrics/naming.go:223-254 | applying it twice equals applying it once |

## Left out

- LeasePublished: the run must not merge in a staler record of the slot, since the code then drops a confirmed address; RegistryRuns.StaleMergeEndsLease is the run that shows it and MergedSlotSurvives the exact condition.
- WaitBounds: floating-point rounding, `time.Duration` overflow and the infinity guard are outside the real-valued model.
- LimiterSafety: `in_flight` does not equal the tokens held at every moment, so the difference is stated instead; panics in a probe function are not modelled.
- OneConnectionPerDevice: excludes runs in which the manager gives up on a goroutine still queued for a dial, dialling or connected; TimeoutDoublesUpExactlyWhen shows it must exclude those and no others. One Sync runs at a time.
- AllQuietAfterTeardown: excludes exit timeouts altogether: a goroutine given up on may still be running when Run returns.
- Session: does not model what a session reports to others: the liveness it tells the registry of, and the counters and flags it keeps in the cache.
- Decoding names and rooms from the cloud's JSON is a parameter of the name store.
- Device records are values in a map where the source holds pointers to structs: aliasing of a `deviceState` between two map keys is not captured.
- The gates, the manager and the cloud client are classes for the sections one goroutine runs and state machines on values for their interleavings; the machine uses the same functions the class methods are proved against, but the two are not one object.
- The manager's machine sees of a device goroutine only where it is; that the goroutine itself opens one connection at a time is proved separately, on its trace.
- Case folding beyond ASCII is a parameter wherever it occurs; statements that need it assume only that it agrees with ASCII on ASCII.
- The epoch and all counters are unbounded; the source's are 64-bit.
- Skip and share counters of the limiter, logging, health pages, HTTP handlers, Prometheus gathering and configuration loading.
- D-Bus, zeroconf, the ESPHome wire protocol, digest authentication, JSON decoding and redaction: foreign or plumbing; single-flight, the semaphore and timers are taken at their word.
- Resolving an Avahi browse hit into an endpoint, and how long that may take.
- The unit and family tables, the gen1 and gen2 extractors and entity conversion: flat case analysis.
- Liveness: everything here is about what every run keeps, not about what must eventually happen.
