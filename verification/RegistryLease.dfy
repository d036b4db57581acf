/** Leases: an endpoint slot that keeps being confirmed keeps its address published and its
    device registered, whatever hints, resets, renames and merges interleave. */
module RegistryLease {
  import opened Common
  import opened Identity
  import opened Address
  import opened RegistryModel
  import opened RegistryInvariants

  /** A device, one of its endpoint slots, the address in it, and when that was last
      confirmed. */
  datatype Lease = Lease(id: string, slot: EndpointKey, addr: Addr, confirmedAt: int)

  /** The record has the address, and neither its observation nor its hint predates `since`. */
  predicate Fresh(ep: EndpointState, addr: Addr, since: int) {
    && ep.ep.addr == addr
    && ep.ep.observedAt >= since
    && (ep.unverified && ep.removeHintAt != 0 ==> ep.removeHintAt >= since)
  }

  ghost predicate Holds(s: State, l: Lease) {
    && l.id in s.devices
    && l.slot in s.devices[l.id].endpoints
    && Fresh(s.devices[l.id].endpoints[l.slot], l.addr, l.confirmedAt)
    && s.devices[l.id].pub.lastSeen >= l.confirmedAt
  }

  /** When a step says it happened. */
  function Stamp(step: Step): int {
    match step
    case Observe(ev, now, _, _) => if ev.at == 0 then now else ev.at
    case Scrape(res, _) => res.at
    case ExpiryTick(now, _) => now
  }

  predicate IsAdd(step: Step) {
    step.Observe? && step.ev.kindOf.EventAdd?
  }

  /** The device's identifier after the step: a promoted device is followed. */
  ghost function Follow(cfg: Config, s: State, step: Step, id: string): string {
    if IsAdd(step) && Resolve(cfg, s, step.ev).promoteFrom == Some(id) then Resolve(cfg, s, step.ev).id else id
  }

  /** The step confirms the lease: it announces the slot again, or reports a successful
      scrape of the address under the device's current identifier. */
  ghost predicate Confirms(cfg: Config, s: State, step: Step, l: Lease) {
    || (IsAdd(step) && Resolve(cfg, s, step.ev).id == Follow(cfg, s, step, l.id) && step.ev.endpoint.key == l.slot)
    || (step.Scrape? && step.res.deviceID == l.id && step.res.success && step.res.addr == l.addr)
  }

  ghost function Renew(cfg: Config, s: State, step: Step, l: Lease): Lease {
    Lease(Follow(cfg, s, step, l.id), l.slot, l.addr,
          if Confirms(cfg, s, step, l) then Stamp(step) else l.confirmedAt)
  }

  /** What a step must not do to the lease. It is stamped no earlier than the last
      confirmation; an expiry tick comes within the endpoint TTL and the remove grace of it;
      and an announcement of the slot carries the same address, observed when announced. */
  ghost predicate Timely(cfg: Config, s: State, step: Step, l: Lease) {
    && l.confirmedAt <= Stamp(step)
    && (step.ExpiryTick? ==> step.now - l.confirmedAt <= Min(cfg.endpointTTL, cfg.removeGrace))
    && (IsAdd(step) && Confirms(cfg, s, step, l) ==>
          step.ev.endpoint.addr == l.addr && step.ev.endpoint.observedAt == Stamp(step))
  }

  /** Nor may it bring in, with a device merged in, anything for the slot that is staler than
      the last confirmation. */
  ghost predicate MergesFresh(cfg: Config, s: State, step: Step, l: Lease) {
    IsAdd(step) ==>
      var r := Resolve(cfg, s, step.ev);
      r.promoteFrom.Some? && r.id == l.id && r.promoteFrom.value in s.devices
      && l.slot in s.devices[r.promoteFrom.value].endpoints ==>
        Fresh(s.devices[r.promoteFrom.value].endpoints[l.slot], l.addr, l.confirmedAt)
  }

  ghost predicate Respects(cfg: Config, s: State, step: Step, l: Lease) {
    Timely(cfg, s, step, l) && MergesFresh(cfg, s, step, l)
  }

  ghost function Track(cfg: Config, s: State, run: seq<Step>, l: Lease): Lease {
    if run == [] then l
    else
      var before := run[..|run| - 1];
      Renew(cfg, Exec(cfg, s, before), run[|run| - 1], Track(cfg, s, before, l))
  }

  ghost predicate Kept(cfg: Config, s: State, run: seq<Step>, l: Lease) {
    run == [] ||
    var before := run[..|run| - 1];
    Kept(cfg, s, before, l) && Respects(cfg, Exec(cfg, s, before), run[|run| - 1], Track(cfg, s, before, l))
  }

  // ---- Device-level steps -----------------------------------------------------------

  lemma RecomputeKeepsRecords(cfg: Config, d: DeviceState, order: seq<EndpointKey>)
    ensures var e := Recompute(cfg, d, order);
            e.endpoints == d.endpoints && e.lastDiscovery == d.lastDiscovery && e.lastSuccess == d.lastSuccess
            && e.pub.lastSeen == d.pub.lastSeen && e.pub.isStatic == d.pub.isStatic
  {
    hide RankedBy;
  }

  lemma ObservedRecords(cfg: Config, s: State, id: string, ev: Event, at: int, now: int, order: seq<EndpointKey>)
    ensures var e := Observed(cfg, s, id, ev, at, now, order);
            && ev.endpoint.key in e.endpoints
            && e.endpoints[ev.endpoint.key] == EndpointState(ev.endpoint, false, 0, ev.source)
            && e.pub.lastSeen >= at
            && (id in s.devices ==>
                  forall k :: k in s.devices[id].endpoints && k != ev.endpoint.key ==>
                    k in e.endpoints && e.endpoints[k] == s.devices[id].endpoints[k])
  {
    hide Recompute;
    var d := if id in s.devices then Renamed(s.devices[id], ev) else NewDevice(id, ev, now);
    RecomputeKeepsRecords(cfg, Absorb(d, ev, at), order);
  }

  lemma HintKeepsLease(cfg: Config, d: DeviceState, source: string, key: EndpointKey, at: int, l: Lease)
    requires l.slot in d.endpoints && Fresh(d.endpoints[l.slot], l.addr, l.confirmedAt)
    requires d.pub.lastSeen >= l.confirmedAt && at >= l.confirmedAt
    ensures var e := HintDevice(d, source, key, at).0;
            && l.slot in e.endpoints && Fresh(e.endpoints[l.slot], l.addr, l.confirmedAt)
            && e.pub.lastSeen >= l.confirmedAt
  {
  }

  lemma ScrapeKeepsLease(cfg: Config, d: DeviceState, addr: Addr, at: int, order: seq<EndpointKey>, l: Lease)
    requires l.slot in d.endpoints && Fresh(d.endpoints[l.slot], l.addr, l.confirmedAt) && at >= l.confirmedAt
    ensures var e := Scraped(cfg, d, addr, at, order);
            && l.slot in e.endpoints
            && Fresh(e.endpoints[l.slot], l.addr, if addr == l.addr then at else l.confirmedAt)
            && e.pub.lastSeen >= at
  {
    hide Recompute;
    RecomputeKeepsRecords(cfg, d.(lastSuccess := at, pinned := addr, hasPinned := true), order);
  }

  lemma ExpiryKeepsLease(cfg: Config, d: DeviceState, now: int, order: seq<EndpointKey>, l: Lease)
    requires l.slot in d.endpoints && Fresh(d.endpoints[l.slot], l.addr, l.confirmedAt)
    requires SeenCurrent(d) && d.pub.lastSeen >= l.confirmedAt && cfg.endpointTTL <= cfg.deviceTTL
    requires now - l.confirmedAt <= Min(cfg.endpointTTL, cfg.removeGrace)
    ensures !Forgotten(cfg, d, now, order)
    ensures var e := Pruned(cfg, d, now, order);
            && l.slot in e.endpoints && Fresh(e.endpoints[l.slot], l.addr, l.confirmedAt)
            && e.pub.lastSeen >= l.confirmedAt
  {
    hide Recompute;
    RecomputeKeepsRecords(cfg, d.(endpoints := Surviving(cfg, d, now)), order);
  }

  // ---- Steps ------------------------------------------------------------------------

  lemma PromoteKeepsLease(cfg: Config, s: State, oldID: string, newID: string, order: seq<EndpointKey>, l: Lease)
    requires Inv(cfg, s) && Holds(s, l) && oldID != newID && oldID in s.devices
    requires newID == l.id && l.slot in s.devices[oldID].endpoints ==>
               Fresh(s.devices[oldID].endpoints[l.slot], l.addr, l.confirmedAt)
    ensures var t := Promote(cfg, s, oldID, newID, order);
            var id := if oldID == l.id then newID else l.id;
            && id in t.devices && l.slot in t.devices[id].endpoints
            && Fresh(t.devices[id].endpoints[l.slot], l.addr, l.confirmedAt)
            && (id != newID ==> t.devices[id].pub.lastSeen >= l.confirmedAt)
  {
    PromoteConserves(cfg, s, oldID, newID, order);
    hide Promote, Fresh, Inv;
  }

  lemma MergeRespects(cfg: Config, s: State, step: Step, l: Lease)
    requires IsAdd(step) && Respects(cfg, s, step, l)
    ensures var r := Resolve(cfg, s, step.ev);
            r.promoteFrom.Some? && r.id == l.id && r.promoteFrom.value in s.devices
            && l.slot in s.devices[r.promoteFrom.value].endpoints ==>
              Fresh(s.devices[r.promoteFrom.value].endpoints[l.slot], l.addr, l.confirmedAt)
  {
    hide Resolve, Fresh, Confirms;
  }

  /** The slot of the followed device once the event's identity is resolved; only the device
      the event is about to touch may have a LastSeen out of date. */
  lemma ResolvedKeepsLease(cfg: Config, s: State, step: Step, l: Lease)
    requires Inv(cfg, s) && Holds(s, l) && IsAdd(step) && Respects(cfg, s, step, l)
    ensures var t := Resolved(cfg, s, step.ev, step.mergeOrder);
            var id := Follow(cfg, s, step, l.id);
            && id in t.devices && l.slot in t.devices[id].endpoints
            && Fresh(t.devices[id].endpoints[l.slot], l.addr, l.confirmedAt)
            && (id != Resolve(cfg, s, step.ev).id ==> t.devices[id].pub.lastSeen >= l.confirmedAt)
  {
    InvAliases(cfg, s);
    ResolveFacts(cfg, s, step.ev);
    MergeRespects(cfg, s, step, l);
    hide Inv, Resolve, Promote, EventHandles, DerivedOf, Fresh, Respects, Confirms;
    var r := Resolve(cfg, s, step.ev);
    assert r.promoteFrom == Some(l.id) || Follow(cfg, s, step, l.id) == l.id;
    if r.promoteFrom.Some? {
      assert r.promoteFrom.value != r.id;
      PromoteKeepsLease(cfg, s, r.promoteFrom.value, r.id, step.mergeOrder, l);
    }
  }

  lemma AddToKeepsLease(cfg: Config, s: State, rid: string, ev: Event, at: int, now: int,
                        order: seq<EndpointKey>, l: Lease, confirmed: bool)
    requires l.id in s.devices && l.slot in s.devices[l.id].endpoints
    requires Fresh(s.devices[l.id].endpoints[l.slot], l.addr, l.confirmedAt)
    requires l.id != rid ==> s.devices[l.id].pub.lastSeen >= l.confirmedAt
    requires l.confirmedAt <= at
    requires confirmed == (rid == l.id && ev.endpoint.key == l.slot)
    requires confirmed ==> ev.endpoint.addr == l.addr && ev.endpoint.observedAt == at
    ensures Holds(AddTo(cfg, s, rid, ev, at, now, order), l.(confirmedAt := if confirmed then at else l.confirmedAt))
  {
    hide Observed, BindAliases, EventHandles;
    ObservedRecords(cfg, s, rid, ev, at, now, order);
  }

  lemma AddKeepsLease(cfg: Config, s: State, step: Step, l: Lease)
    requires Inv(cfg, s) && Holds(s, l) && IsAdd(step) && Respects(cfg, s, step, l)
    ensures Holds(Next(cfg, s, step), Renew(cfg, s, step, l))
  {
    ResolvedKeepsInv(cfg, s, step.ev, step.mergeOrder);
    ResolvedKeepsLease(cfg, s, step, l);
    hide Inv, InvBut, Resolve, Resolved, Promote, AddTo, EventHandles, DerivedOf, Fresh, Holds;
    AddToKeepsLease(cfg, Resolved(cfg, s, step.ev, step.mergeOrder), Resolve(cfg, s, step.ev).id, step.ev,
                    Stamp(step), step.now, step.order, l.(id := Follow(cfg, s, step, l.id)), Confirms(cfg, s, step, l));
  }

  lemma HintsKeepLease(cfg: Config, s: State, ev: Event, at: int, l: Lease)
    requires Holds(s, l) && l.confirmedAt <= at
    ensures Holds(ApplyRemoveHint(cfg, s, ev, at).0, l) && Holds(MarkSourceUnverified(s, ev.source, at).0, l)
  {
    hide HintDevice, HintTarget, Fresh;
    HintKeepsLease(cfg, s.devices[l.id], ev.source, NO_KEY, at, l);
    HintKeepsLease(cfg, s.devices[l.id], ev.source, ev.endpoint.key, at, l);
  }

  lemma ScrapeResultKeepsLease(cfg: Config, s: State, res: ScrapeResult, order: seq<EndpointKey>, l: Lease)
    requires Holds(s, l) && l.confirmedAt <= res.at
    ensures var confirmed := res.deviceID == l.id && res.success && res.addr == l.addr;
            Holds(ApplyScrapeResult(cfg, s, res, order).0, l.(confirmedAt := if confirmed then res.at else l.confirmedAt))
  {
    hide Scraped, Fresh;
    ScrapeKeepsLease(cfg, s.devices[l.id], res.addr, res.at, order, l);
  }

  lemma TickKeepsLease(cfg: Config, s: State, now: int, orders: map<string, seq<EndpointKey>>, l: Lease)
    requires Holds(s, l) && SeenCurrent(s.devices[l.id]) && cfg.endpointTTL <= cfg.deviceTTL
    requires now - l.confirmedAt <= Min(cfg.endpointTTL, cfg.removeGrace)
    ensures Holds(Expire(cfg, s, now, orders).0, l)
  {
    hide Pruned, Forgotten, Fresh, SeenCurrent;
    ExpiryKeepsLease(cfg, s.devices[l.id], now, OrderFor(orders, l.id), l);
  }

  lemma RespectsTime(cfg: Config, s: State, step: Step, l: Lease)
    requires Respects(cfg, s, step, l)
    ensures l.confirmedAt <= Stamp(step)
    ensures step.ExpiryTick? ==> step.now - l.confirmedAt <= Min(cfg.endpointTTL, cfg.removeGrace)
  {
    hide Confirms, Resolve, Fresh;
  }

  lemma OtherStepKeepsLease(cfg: Config, s: State, step: Step, l: Lease)
    requires !IsAdd(step) && Holds(s, l) && SeenCurrent(s.devices[l.id]) && cfg.endpointTTL <= cfg.deviceTTL
    requires l.confirmedAt <= Stamp(step)
    requires step.ExpiryTick? ==> step.now - l.confirmedAt <= Min(cfg.endpointTTL, cfg.removeGrace)
    ensures Holds(Next(cfg, s, step), Renew(cfg, s, step, l))
  {
    hide Resolve, ApplyAdd, ApplyRemoveHint, MarkSourceUnverified, ApplyScrapeResult, Expire, Holds;
    match step
    case Observe(ev, now, mergeOrder, order) =>
      HintsKeepLease(cfg, s, ev, Stamp(step), l);
      assert Renew(cfg, s, step, l) == l;
    case Scrape(res, order) =>
      ScrapeResultKeepsLease(cfg, s, res, order, l);
      var confirmed := res.deviceID == l.id && res.success && res.addr == l.addr;
      assert Renew(cfg, s, step, l) == l.(confirmedAt := if confirmed then res.at else l.confirmedAt);
    case ExpiryTick(now, orders) =>
      TickKeepsLease(cfg, s, now, orders, l);
      assert Renew(cfg, s, step, l) == l;
  }

  lemma StepKeepsLease(cfg: Config, s: State, step: Step, l: Lease)
    requires Inv(cfg, s) && Holds(s, l) && Respects(cfg, s, step, l)
    requires cfg.endpointTTL <= cfg.deviceTTL
    ensures Holds(Next(cfg, s, step), Renew(cfg, s, step, l))
  {
    assert SeenCurrent(s.devices[l.id]);
    hide Inv, Holds, Next, Renew, Respects, SeenCurrent;
    RespectsTime(cfg, s, step, l);
    if IsAdd(step) {
      AddKeepsLease(cfg, s, step, l);
    } else {
      OtherStepKeepsLease(cfg, s, step, l);
    }
  }

  lemma {:induction false} RunKeepsLease(cfg: Config, s: State, run: seq<Step>, l: Lease)
    requires Inv(cfg, s) && Holds(s, l) && Kept(cfg, s, run, l) && cfg.endpointTTL <= cfg.deviceTTL
    ensures Inv(cfg, Exec(cfg, s, run)) && Holds(Exec(cfg, s, run), Track(cfg, s, run, l))
    ensures Track(cfg, s, run, l).addr == l.addr
  {
    hide Inv, Holds, Respects, Next, Follow, Confirms;
    if run != [] {
      var before, last := run[..|run| - 1], run[|run| - 1];
      RunKeepsLease(cfg, s, before, l);
      StepKeepsInv(cfg, Exec(cfg, s, before), last);
      StepKeepsLease(cfg, Exec(cfg, s, before), last, Track(cfg, s, before, l));
    }
  }

  lemma KeptPrefix(cfg: Config, s: State, run: seq<Step>, l: Lease, n: nat)
    requires Kept(cfg, s, run, l) && n <= |run|
    ensures Kept(cfg, s, run[..n], l)
  {
    hide Respects, Exec, Track;
    if n == |run| {
      assert run[..n] == run;
    } else {
      assert run[..|run| - 1][..n] == run[..n];
      KeptPrefix(cfg, s, run[..|run| - 1], l, n);
    }
  }

  /** The lease theorem. From any reachable registry holding the lease of a usable address,
      with a device TTL no shorter than the endpoint TTL: at every moment of a run that
      respects the lease the device is still registered, under the identifier it has been
      promoted to, and publishes the address. */
  lemma LeasePublished(cfg: Config, s: State, run: seq<Step>, l: Lease, n: nat)
    requires Inv(cfg, s) && Holds(s, l) && Kept(cfg, s, run, l) && cfg.endpointTTL <= cfg.deviceTTL
    requires Usable(cfg.policy, l.addr) && n <= |run|
    ensures var t := Exec(cfg, s, run[..n]);
            var id := Track(cfg, s, run[..n], l).id;
            id in t.devices && Unmap(l.addr) in t.devices[id].pub.addrs
  {
    KeptPrefix(cfg, s, run, l, n);
    RunKeepsLease(cfg, s, run[..n], l);
    var t := Exec(cfg, s, run[..n]);
    var m := Track(cfg, s, run[..n], l);
    assert RecordOK(cfg, m.id, t.devices[m.id]);
    hide Exec, Track, Usable, Unmap, AddrsCurrent;
    AddrsComplete(cfg, t.devices[m.id], Unmap(l.addr));
    assert Dialable(cfg.policy, t.devices[m.id].endpoints, Unmap(l.addr)) by {
      assert Unmap(t.devices[m.id].endpoints[m.slot].ep.addr) == Unmap(l.addr);
    }
  }

  /** An Add landing in the slot with a usable address observed as announced takes out a
      lease. */
  lemma AddTakesLease(cfg: Config, s: State, step: Step)
    requires Inv(cfg, s) && IsAdd(step) && step.ev.endpoint.observedAt == Stamp(step)
    ensures Holds(Next(cfg, s, step),
                  Lease(Resolve(cfg, s, step.ev).id, step.ev.endpoint.key, step.ev.endpoint.addr, Stamp(step)))
  {
    ResolvedKeepsInv(cfg, s, step.ev, step.mergeOrder);
    hide Resolve, Observed, Resolved, EventHandles, Inv, InvBut;
    ObservedRecords(cfg, Resolved(cfg, s, step.ev, step.mergeOrder), Resolve(cfg, s, step.ev).id,
                    step.ev, Stamp(step), step.now, step.order);
  }

  // ---- What leaves, and when ---------------------------------------------------------

  lemma PromoteKeepsSlot(cfg: Config, s: State, oldID: string, newID: string, order: seq<EndpointKey>, id: string, slot: EndpointKey)
    requires oldID != newID && oldID in s.devices && id in s.devices && slot in s.devices[id].endpoints
    ensures var t, f := Promote(cfg, s, oldID, newID, order), if oldID == id then newID else id;
            f in t.devices && slot in t.devices[f].endpoints
  {
    PromoteConserves(cfg, s, oldID, newID, order);
    hide Promote;
  }

  lemma FollowIs(cfg: Config, s: State, step: Step, id: string)
    requires IsAdd(step)
    ensures var r, t, f := Resolve(cfg, s, step.ev), Resolved(cfg, s, step.ev, step.mergeOrder), Follow(cfg, s, step, id);
            if r.promoteFrom.None? then t == s && f == id
            else t == Promote(cfg, s, r.promoteFrom.value, r.id, step.mergeOrder) && f == (if r.promoteFrom.value == id then r.id else id)
  {
    hide Resolve, Promote;
  }

  lemma PromotesAnother(cfg: Config, s: State, ev: Event)
    requires Inv(cfg, s)
    ensures var r := Resolve(cfg, s, ev);
            r.promoteFrom.Some? ==> r.promoteFrom.value in s.devices && r.promoteFrom.value != r.id
  {
    InvAliases(cfg, s);
    ResolveFacts(cfg, s, ev);
    hide Inv, Resolve, EventHandles, DerivedOf;
  }

  lemma ResolvedKeepsSlot(cfg: Config, s: State, step: Step, id: string, slot: EndpointKey)
    requires Inv(cfg, s) && IsAdd(step) && id in s.devices && slot in s.devices[id].endpoints
    ensures var t, f := Resolved(cfg, s, step.ev, step.mergeOrder), Follow(cfg, s, step, id);
            f in t.devices && slot in t.devices[f].endpoints
  {
    assert step.Observe?;
    hide *;
    PromotesAnother(cfg, s, step.ev);
    FollowIs(cfg, s, step, id);
    var r := Resolve(cfg, s, step.ev);
    if r.promoteFrom.Some? {
      PromoteKeepsSlot(cfg, s, r.promoteFrom.value, r.id, step.mergeOrder, id, slot);
    }
  }

  lemma AddToKeepsSlot(cfg: Config, s: State, rid: string, ev: Event, at: int, now: int,
                       order: seq<EndpointKey>, id: string, slot: EndpointKey)
    requires id in s.devices && slot in s.devices[id].endpoints
    ensures var t := AddTo(cfg, s, rid, ev, at, now, order);
            id in t.devices && slot in t.devices[id].endpoints
  {
    hide Observed, BindAliases, EventHandles;
    ObservedRecords(cfg, s, rid, ev, at, now, order);
  }

  lemma OtherStepKeepsSlot(cfg: Config, s: State, step: Step, id: string, slot: EndpointKey)
    requires !IsAdd(step) && !step.ExpiryTick? && id in s.devices && slot in s.devices[id].endpoints
    ensures var t := Next(cfg, s, step); id in t.devices && slot in t.devices[id].endpoints
  {
    hide HintTarget, Recompute, ApplyAdd;
    if step.Scrape? {
      RecomputeKeepsRecords(cfg, s.devices[id].(lastSuccess := step.res.at, pinned := step.res.addr, hasPinned := true), step.order);
    }
  }

  /** Hints, resets, scrapes, renames and merges never lose an endpoint slot: wherever its
      device's record goes, the slot goes too. */
  lemma SlotsLeaveOnlyByExpiry(cfg: Config, s: State, step: Step, id: string, slot: EndpointKey)
    requires Inv(cfg, s) && !step.ExpiryTick? && id in s.devices && slot in s.devices[id].endpoints
    ensures var t, f := Next(cfg, s, step), Follow(cfg, s, step, id);
            f in t.devices && slot in t.devices[f].endpoints
  {
    if IsAdd(step) {
      ResolvedKeepsSlot(cfg, s, step, id, slot);
      ResolvedKeepsInv(cfg, s, step.ev, step.mergeOrder);
      hide Inv, InvBut, Resolve, Resolved, AddTo, Follow;
      AddToKeepsSlot(cfg, Resolved(cfg, s, step.ev, step.mergeOrder), Resolve(cfg, s, step.ev).id, step.ev,
                     Stamp(step), step.now, step.order, Follow(cfg, s, step, id), slot);
    } else {
      hide Next, Inv;
      OtherStepKeepsSlot(cfg, s, step, id, slot);
    }
  }

  /** What a tick leaves of one slot of a device it keeps. */
  lemma TickedSlot(cfg: Config, s: State, now: int, orders: map<string, seq<EndpointKey>>, id: string, slot: EndpointKey)
    requires id in s.devices && id in Expire(cfg, s, now, orders).0.devices
    ensures var d := s.devices[id];
            slot in Expire(cfg, s, now, orders).0.devices[id].endpoints
            <==> slot in d.endpoints && (d.pub.isStatic || !Lapsed(cfg, d.endpoints[slot], d.lastSuccess, now))
  {
    hide Recompute, Forgotten, Lapsed;
    var d := s.devices[id];
    RecomputeKeepsRecords(cfg, d.(endpoints := Surviving(cfg, d, now)), OrderFor(orders, id));
  }

  lemma TickForgets(cfg: Config, s: State, now: int, orders: map<string, seq<EndpointKey>>, id: string)
    requires id in s.devices && SeenCurrent(s.devices[id])
    ensures id !in Expire(cfg, s, now, orders).0.devices
            <==> !s.devices[id].pub.isStatic && now - s.devices[id].pub.lastSeen > cfg.deviceTTL
  {
    PrunedFacts(cfg, s.devices[id], now, OrderFor(orders, id));
    hide Pruned, SeenCurrent, AddrsCurrent;
  }

  /** An expiry tick forgets a device exactly when it is not static and was last seen longer
      ago than the device TTL, and takes a slot from one it keeps exactly when the device is
      not static and the slot has lapsed: unobserved for longer than the endpoint TTL, or
      hinted at longer ago than the grace with no successful scrape since. */
  lemma ExpiryVerdict(cfg: Config, s: State, now: int, orders: map<string, seq<EndpointKey>>, id: string, slot: EndpointKey)
    requires Inv(cfg, s) && id in s.devices && slot in s.devices[id].endpoints
    ensures var d, t := s.devices[id], Expire(cfg, s, now, orders).0;
            var ep := d.endpoints[slot];
            && (id !in t.devices <==> !d.pub.isStatic && now - d.pub.lastSeen > cfg.deviceTTL)
            && (id in t.devices ==>
                  (slot !in t.devices[id].endpoints <==>
                     !d.pub.isStatic
                     && (now - ep.ep.observedAt > cfg.endpointTTL
                         || (ep.unverified && ep.removeHintAt != 0 && now - ep.removeHintAt > cfg.removeGrace
                             && d.lastSuccess < ep.removeHintAt))))
  {
    assert SeenCurrent(s.devices[id]);
    hide Inv, Expire, SeenCurrent;
    TickForgets(cfg, s, now, orders, id);
    if id in Expire(cfg, s, now, orders).0.devices { TickedSlot(cfg, s, now, orders, id, slot); }
  }

  // ---- Why a merge may not bring a staler record ------------------------------------

  /** Of a merge, the slots of the record merged in are the ones that count. */
  lemma MergedSlot(cfg: Config, s: State, oldID: string, newID: string, order: seq<EndpointKey>, slot: EndpointKey)
    requires oldID != newID && oldID in s.devices && newID in s.devices && slot in s.devices[oldID].endpoints
    ensures var d := Promote(cfg, s, oldID, newID, order).devices[newID];
            && slot in d.endpoints && d.endpoints[slot] == s.devices[oldID].endpoints[slot]
            && d.lastSuccess == Max(s.devices[newID].lastSuccess, s.devices[oldID].lastSuccess)
            && d.pub.isStatic == s.devices[newID].pub.isStatic
  {
    hide Recompute;
    RecomputeFacts(cfg, Merge(s.devices[newID], s.devices[oldID]), order);
  }

  /** After a merge the slot survives an expiry tick exactly when the record merged in does
      not lapse, however recently the surviving device's own record was confirmed. */
  lemma MergedSlotSurvives(cfg: Config, s: State, oldID: string, newID: string, order: seq<EndpointKey>,
                           slot: EndpointKey, now: int, orders: map<string, seq<EndpointKey>>)
    requires oldID != newID && oldID in s.devices && newID in s.devices
    requires slot in s.devices[oldID].endpoints && !s.devices[newID].pub.isStatic
    requires newID in Expire(cfg, Promote(cfg, s, oldID, newID, order), now, orders).0.devices
    ensures slot in Expire(cfg, Promote(cfg, s, oldID, newID, order), now, orders).0.devices[newID].endpoints
            <==> !Lapsed(cfg, s.devices[oldID].endpoints[slot],
                         Max(s.devices[newID].lastSuccess, s.devices[oldID].lastSuccess), now)
  {
    MergedSlot(cfg, s, oldID, newID, order, slot);
    assert newID in Promote(cfg, s, oldID, newID, order).devices;
    hide *;
    TickedSlot(cfg, Promote(cfg, s, oldID, newID, order), now, orders, newID, slot);
  }
}
