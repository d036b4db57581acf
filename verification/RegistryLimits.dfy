/** What the registry does not promise, each with the exact condition under which it holds
    all the same. */
module RegistryLimits {
  import opened Common
  import opened Identity
  import opened Address
  import opened RegistryModel
  import opened RegistryInvariants
  import opened RegistryMeaning

  /** At most one distinct address is vouched for among these slots. */
  ghost predicate OneTrustedAddr(eps: Endpoints) {
    forall k, l :: k in eps && l in eps && eps[k].ep.trusted && eps[l].ep.trusted ==> Unmap(eps[k].ep.addr) == Unmap(eps[l].ep.addr)
  }

  /** The endpoint's slot already holds its address, vouched for or not as before. */
  predicate SameAddress(eps: Endpoints, e: Endpoint) {
    e.key in eps && eps[e.key].ep.addr == e.addr && eps[e.key].ep.trusted == e.trusted
  }

  /** A changed port alone never moves the epoch: a device announced again in the same slot
      with the same address and another port gets the port and keeps its epoch, so whoever
      watches epochs does not learn of it. */
  lemma PortMovesWithoutEpoch(cfg: Config, s: State, id: string, ev: Event, at: int, now: int, order: seq<EndpointKey>)
    requires id in s.devices && AddrsCurrent(cfg, s.devices[id]) && ev.endpoint.port != 0
    requires SameAddress(s.devices[id].endpoints, ev.endpoint) && OneTrustedAddr(s.devices[id].endpoints)
    ensures var d, e := s.devices[id], Observed(cfg, s, id, ev, at, now, order);
            e.pub.port == ev.endpoint.port && e.pub.epoch == d.pub.epoch && e.pub.addrs == d.pub.addrs
  {
    hide RankedBy;
    var d := s.devices[id];
    var a := Absorb(Renamed(d, ev), ev, at);
    AddrsCurrentFrame(cfg, d, a);
    var ks := OrderOf(order, a.endpoints.Keys);
    assert forall k :: k in ks <==> k in Elements(ks);
    AddrsForced(cfg, a, ks);
    PortStays(a.pub.port, a.endpoints, ks);
  }

  /** Being static survives a promotion except when a static record is merged into one that
      is not. */
  lemma StaticSurvivesExactlyWhen(cfg: Config, s: State, oldID: string, newID: string, order: seq<EndpointKey>)
    requires oldID != newID && oldID in s.devices
    ensures var before := s.devices[oldID].pub.isStatic || (newID in s.devices && s.devices[newID].pub.isStatic);
            Promote(cfg, s, oldID, newID, order).devices[newID].pub.isStatic == before
            <==> !(newID in s.devices && s.devices[oldID].pub.isStatic && !s.devices[newID].pub.isStatic)
  {
    hide Recompute;
    var weak := s.devices[oldID];
    var target := if newID in s.devices then Merge(s.devices[newID], weak) else weak.(pub := weak.pub.(id := newID));
    RecomputeFacts(cfg, target, order);
  }

  /** Expiry leaves the Unverified flag alone. One that was right before a tick is right after
      it unless the device is not static and either every verified endpoint lapses while an
      unverified one does not, or all were unverified and all lapse. */
  lemma FlagStaysRightExactlyWhen(cfg: Config, d: DeviceState, now: int, order: seq<EndpointKey>)
    requires d.pub.unverified == AllUnverified(d.endpoints)
    ensures var e := Pruned(cfg, d, now, order);
            e.pub.unverified == AllUnverified(e.endpoints)
            <==> d.pub.isStatic || !(if d.pub.unverified then AllLapse(cfg, d, now) else OnlyDoubtsStay(cfg, d, now))
  {
    hide Recompute, Lapsed, AddrsCurrent;
    var left := Surviving(cfg, d, now);
    RecomputeFacts(cfg, d.(endpoints := left), order);
    assert forall k :: k in left <==> k in d.endpoints && !Lapsed(cfg, d.endpoints[k], d.lastSuccess, now);
    assert left.Keys == {} <==> AllLapse(cfg, d, now);
  }

  predicate AllLapse(cfg: Config, d: DeviceState, now: int) {
    forall k :: k in d.endpoints ==> Lapsed(cfg, d.endpoints[k], d.lastSuccess, now)
  }

  /** Every verified endpoint lapses, and an unverified one does not. */
  predicate OnlyDoubtsStay(cfg: Config, d: DeviceState, now: int) {
    && (forall k :: k in d.endpoints && !d.endpoints[k].unverified ==> Lapsed(cfg, d.endpoints[k], d.lastSuccess, now))
    && exists k :: k in d.endpoints && d.endpoints[k].unverified && !Lapsed(cfg, d.endpoints[k], d.lastSuccess, now)
  }

  /** An Add takes a device's own identifier away from it, as a handle, exactly when that is
      one of the event's handles and the event belongs to another device. */
  lemma OwnHandleStaysExactlyWhen(cfg: Config, s: State, ev: Event, at: int, now: int,
                                  mo: seq<EndpointKey>, o: seq<EndpointKey>, id: string)
    requires Inv(cfg, s) && id in s.devices && id in s.aliases && s.aliases[id] == id
    requires Resolve(cfg, s, ev).promoteFrom != Some(id)
    ensures var t := ApplyAdd(cfg, s, ev, at, now, mo, o).0;
            && id in t.devices && id in t.aliases
            && (t.aliases[id] == id <==> id == Resolve(cfg, s, ev).id || id !in EventHandles(cfg, ev))
  {
    ResolvedKeepsOwnHandle(cfg, s, ev, mo, id);
    hide Inv, Resolve, Resolved, EventHandles, DerivedOf, Observed, BindAliases;
    BoundExactly(Resolved(cfg, s, ev, mo).aliases, Resolve(cfg, s, ev).id, EventHandles(cfg, ev), id);
  }

  lemma ResolvedKeepsOwnHandle(cfg: Config, s: State, ev: Event, mo: seq<EndpointKey>, id: string)
    requires Inv(cfg, s) && id in s.devices && id in s.aliases && s.aliases[id] == id
    requires Resolve(cfg, s, ev).promoteFrom != Some(id)
    ensures var t := Resolved(cfg, s, ev, mo);
            id in t.devices && id in t.aliases && t.aliases[id] == id && Resolve(cfg, s, ev).id != ""
  {
    ResolvedKeepsInv(cfg, s, ev, mo);
    InvAliases(cfg, s);
    ResolveFacts(cfg, s, ev);
    hide Inv, InvBut, Resolve, DerivedOf, EventHandles, Promote, IsMACID;
    var r := Resolve(cfg, s, ev);
    if r.promoteFrom.Some? { PromoteKeepsOwnHandle(cfg, s, r.promoteFrom.value, r.id, mo, id); }
  }

  lemma PromoteKeepsOwnHandle(cfg: Config, s: State, oldID: string, newID: string, order: seq<EndpointKey>, id: string)
    requires oldID != newID && oldID in s.devices && id != oldID
    requires id in s.devices && id in s.aliases && s.aliases[id] == id
    ensures var t := Promote(cfg, s, oldID, newID, order);
            id in t.devices && id in t.aliases && t.aliases[id] == id
  {
    hide Recompute, Merge;
  }

  lemma BoundExactly(aliases: map<string, string>, id: string, hs: seq<string>, h: string)
    requires h in aliases && aliases[h] == h
    ensures var bound := BindAliases(aliases, id, hs);
            h in bound && (bound[h] == h <==> h == id || h !in hs)
  {
  }
}
