/** What the registry's steps mean to whoever reads it, told without reference to how they
    work. */
module RegistryMeaning {
  import opened Common
  import opened Identity
  import opened Address
  import opened RegistryModel
  import opened RegistryInvariants
  import opened RegistryLease

  // ---- Scrapes ----------------------------------------------------------------------

  /** A pinned address that is published is published first. */
  lemma PinnedComesFirst(cfg: Config, d: DeviceState)
    requires AddrsCurrent(cfg, d) && d.hasPinned && d.pinned.IsValid() && Unmap(d.pinned) in d.pub.addrs
    ensures d.pub.addrs[0] == Unmap(d.pinned)
  {
    var ks :| IsEnumeration(ks, d.endpoints.Keys) && RankedBy(cfg, d, ks) == (d.pub.addrs, d.pub.rejectedAddrs);
    assert forall k :: k in ks <==> k in Elements(ks);
    hide OrderCandidates;
    TrustedOutranksDiscovered(cfg.policy, Candidates(d.endpoints, ks), PinOf(d));
  }

  /** After a successful scrape the device is as fresh as the scrape, every endpoint with
      that address is verified and observed then, no other endpoint has changed, and the
      address, if any endpoint has it and it may be dialled, is the preferred one. */
  lemma ScrapeShows(cfg: Config, s: State, res: ScrapeResult, order: seq<EndpointKey>)
    requires Inv(cfg, s) && res.deviceID in s.devices && res.success
    ensures var d, e := s.devices[res.deviceID], ApplyScrapeResult(cfg, s, res, order).0.devices[res.deviceID];
            && e.lastSuccess == res.at && e.pub.lastSeen >= res.at
            && e.endpoints.Keys == d.endpoints.Keys
            && (forall k :: k in d.endpoints ==>
                  e.endpoints[k] == if d.endpoints[k].ep.addr == res.addr
                                    then d.endpoints[k].(unverified := false, ep := d.endpoints[k].ep.(observedAt := res.at))
                                    else d.endpoints[k])
            && (res.addr.IsValid() && Dialable(cfg.policy, d.endpoints, Unmap(res.addr)) ==> Prefers(e, Unmap(res.addr)))
  {
    var d := s.devices[res.deviceID];
    assert RecordOK(cfg, res.deviceID, d);
    hide Inv, Scraped, AddrsCurrent, Dialable, Prefers;
    ScrapedEndpoints(cfg, d, res.addr, res.at, order);
    if res.addr.IsValid() && Dialable(cfg.policy, d.endpoints, Unmap(res.addr)) {
      ScrapedPrefers(cfg, d, res.addr, res.at, order);
    }
  }

  lemma ScrapedPrefers(cfg: Config, d: DeviceState, addr: Addr, at: int, order: seq<EndpointKey>)
    requires AddrsCurrent(cfg, d) && addr.IsValid() && Dialable(cfg.policy, d.endpoints, Unmap(addr))
    ensures Prefers(Scraped(cfg, d, addr, at, order), Unmap(addr))
  {
    ScrapedFacts(cfg, d, addr, at, order);
    ScrapedEndpoints(cfg, d, addr, at, order);
    hide Scraped, AddrsCurrent, Dialable;
    var e := Scraped(cfg, d, addr, at, order);
    SameDialable(cfg.policy, d.endpoints, e.endpoints, Unmap(addr));
    AddrsComplete(cfg, e, Unmap(addr));
    PinnedComesFirst(cfg, e);
  }

  predicate Prefers(d: DeviceState, a: Addr) { d.pub.addrs != [] && d.pub.addrs[0] == a }

  lemma ScrapedEndpoints(cfg: Config, d: DeviceState, addr: Addr, at: int, order: seq<EndpointKey>)
    ensures var e := Scraped(cfg, d, addr, at, order);
            && e.endpoints == Confirm(d.endpoints, addr, at) && e.lastSuccess == at && e.pub.lastSeen >= at
            && (addr.IsValid() ==> e.hasPinned && e.pinned == addr)
  {
    hide Recompute, Confirm;
    var d1 := d.(lastSuccess := at, pinned := addr, hasPinned := true);
    RecomputeFacts(cfg, d1, order);
  }

  lemma SameDialable(p: Policy, a: Endpoints, b: Endpoints, addr: Addr)
    requires a.Keys == b.Keys && forall k :: k in a ==> a[k].ep.addr == b[k].ep.addr && a[k].ep.trusted == b[k].ep.trusted
    requires Dialable(p, a, addr)
    ensures Dialable(p, b, addr)
  {
  }

  // ---- Hints ------------------------------------------------------------------------

  /** A hint takes nothing away: addresses, slots and liveness stay. It marks exactly the
      matching endpoints not yet in doubt, and the device counts as unverified exactly when
      all its endpoints then are. */
  lemma HintOnlyCastsDoubt(d: DeviceState, source: string, key: EndpointKey, at: int)
    requires d.pub.unverified == AllUnverified(d.endpoints)
    ensures var e := HintDevice(d, source, key, at).0;
            && e.endpoints.Keys == d.endpoints.Keys && e.pub.addrs == d.pub.addrs && e.pub.lastSeen == d.pub.lastSeen
            && (forall k :: k in d.endpoints ==>
                  && e.endpoints[k].ep == d.endpoints[k].ep && e.endpoints[k].source == d.endpoints[k].source
                  && (e.endpoints[k].unverified <==>
                        d.endpoints[k].unverified || (d.endpoints[k].source == source && (key == NO_KEY || key == k)))
                  && (e.endpoints[k].removeHintAt == if e.endpoints[k].unverified && !d.endpoints[k].unverified then at
                                                     else d.endpoints[k].removeHintAt))
            && e.pub.unverified == AllUnverified(e.endpoints)
  {
  }

  /** Repeating a hint changes nothing, so repeated goodbyes cannot draw out the grace: the
      first one's time stands. */
  lemma HintsAreIdempotent(d: DeviceState, source: string, key: EndpointKey, at: int, later: int)
    ensures var e := HintDevice(d, source, key, at).0;
            HintDevice(e, source, key, later) == (e, false)
  {
  }

  /** A source reset is a hint to every device of the source, slot or no slot. */
  lemma ResetHintsEveryone(s: State, source: string, at: int, later: int)
    ensures var t := MarkSourceUnverified(s, source, at).0;
            && t.devices.Keys == s.devices.Keys
            && (forall id, k :: id in s.devices && k in s.devices[id].endpoints && s.devices[id].endpoints[k].source == source ==>
                  k in t.devices[id].endpoints && t.devices[id].endpoints[k].unverified)
            && MarkSourceUnverified(t, source, later) == (t, false)
  {
    var t := MarkSourceUnverified(s, source, at).0;
    forall id | id in s.devices
      ensures HintDevice(t.devices[id], source, NO_KEY, later) == (t.devices[id], false)
    {
      HintsAreIdempotent(s.devices[id], source, NO_KEY, at, later);
    }
    assert MarkSourceUnverified(t, source, later).0.devices == t.devices by { hide HintDevice; }
  }

  // ---- Adds -------------------------------------------------------------------------

  /** What an Add leaves to be seen at the identity it resolved to: the endpoint in its
      slot, its address published if it may be dialled, the device verified, its newest TXT
      entries on top of the old, its source among the sources, and a name that an announced
      observation has settled. */
  lemma AddShows(cfg: Config, s: State, ev: Event, at: int, now: int, mo: seq<EndpointKey>, o: seq<EndpointKey>)
    requires Inv(cfg, s)
    ensures var id := Resolve(cfg, s, ev).id;
            var t := ApplyAdd(cfg, s, ev, at, now, mo, o).0;
            id in t.devices && Shows(cfg, t.devices[id], ev, at)
  {
    ResolvedKeepsInv(cfg, s, ev, mo);
    AddKeepsInv(cfg, s, ev, at, now, mo, o);
    hide Inv, InvBut, Resolve, Resolved, Observed, BindAliases, EventHandles, Shows;
    ObservedShows(cfg, Resolved(cfg, s, ev, mo), Resolve(cfg, s, ev).id, ev, at, now, o);
  }

  ghost predicate Shows(cfg: Config, d: DeviceState, ev: Event, at: int) {
    && Carries(d, ev, at)
    && (ev.endpoint.trusted || Usable(cfg.policy, ev.endpoint.addr) ==> Unmap(ev.endpoint.addr) in d.pub.addrs)
  }

  predicate Carries(d: DeviceState, ev: Event, at: int) {
    var e := ev.endpoint;
    && e.key in d.endpoints && d.endpoints[e.key] == EndpointState(e, false, 0, ev.source)
    && !d.pub.unverified && d.lastDiscovery == at && d.pub.lastSeen >= at && ev.source in d.sources
    && (forall k :: k in e.txt ==> k in d.pub.txt && d.pub.txt[k] == e.txt[k])
    && (e.host != "" ==> d.pub.hostname == e.host)
    && (e.port != 0 ==> d.pub.port == e.port)
    && (ev.source == SOURCE_STATIC ==> d.pub.isStatic)
    && (!ev.unnamed && InstanceLabel(ev.instance) != "" ==> !d.provisionalName)
  }

  lemma ObservedShows(cfg: Config, s: State, id: string, ev: Event, at: int, now: int, order: seq<EndpointKey>)
    ensures Shows(cfg, Observed(cfg, s, id, ev, at, now, order), ev, at)
  {
    ObservedCarries(cfg, s, id, ev, at, now, order);
    ObservedFacts(cfg, s, id, ev, at, now, order);
    hide Observed, AddrsCurrent;
    AddressShows(cfg, Observed(cfg, s, id, ev, at, now, order), ev, at);
  }

  lemma AddressShows(cfg: Config, d: DeviceState, ev: Event, at: int)
    requires AddrsCurrent(cfg, d) && Carries(d, ev, at)
    ensures Shows(cfg, d, ev, at)
  {
    assert ev.endpoint.key in d.endpoints && d.endpoints[ev.endpoint.key].ep == ev.endpoint;
    hide AddrsCurrent, Dialable, Usable, Unmap, Carries;
    if ev.endpoint.trusted || Usable(cfg.policy, ev.endpoint.addr) {
      DialableBy(cfg.policy, d.endpoints, ev.endpoint.key);
      AddrsComplete(cfg, d, Unmap(ev.endpoint.addr));
    }
  }

  lemma ObservedCarries(cfg: Config, s: State, id: string, ev: Event, at: int, now: int, order: seq<EndpointKey>)
    ensures Carries(Observed(cfg, s, id, ev, at, now, order), ev, at)
  {
    var d := if id in s.devices then Renamed(s.devices[id], ev) else NewDevice(id, ev, now);
    var r := Recompute(cfg, Absorb(d, ev, at), order);
    assert Observed(cfg, s, id, ev, at, now, order) == Touch(r);
    assert !ev.unnamed && InstanceLabel(ev.instance) != "" ==> !d.provisionalName;
    hide *;
    AbsorbedRecord(cfg, d, ev, at, order);
    TouchedCarries(r, d, ev, at);
  }

  /** What of an observation a record has taken over from the one before. */
  predicate Took(r: DeviceState, d: DeviceState, ev: Event, at: int) {
    && r.endpoints == d.endpoints[ev.endpoint.key := EndpointState(ev.endpoint, false, 0, ev.source)]
    && !r.pub.unverified && r.lastDiscovery == at && ev.source in r.sources && r.provisionalName == d.provisionalName
    && r.pub.txt == d.pub.txt + ev.endpoint.txt
    && (ev.endpoint.host != "" ==> r.pub.hostname == ev.endpoint.host)
    && (ev.endpoint.port != 0 ==> r.pub.port == ev.endpoint.port)
    && (ev.source == SOURCE_STATIC ==> r.pub.isStatic)
  }

  lemma TouchedCarries(r: DeviceState, d: DeviceState, ev: Event, at: int)
    requires Took(r, d, ev, at) && (!ev.unnamed && InstanceLabel(ev.instance) != "" ==> !d.provisionalName)
    ensures Carries(Touch(r), ev, at)
  {
    hide InstanceLabel;
  }

  /** Recomputing the addresses disturbs nothing an observation brought. */
  lemma AbsorbedRecord(cfg: Config, d: DeviceState, ev: Event, at: int, order: seq<EndpointKey>)
    ensures Took(Recompute(cfg, Absorb(d, ev, at), order), d, ev, at)
  {
    var a := Absorb(d, ev, at);
    RecomputeFacts(cfg, a, order);
    AbsorbedPort(cfg, a, order);
    hide Recompute, AddrsCurrent;
  }

  lemma AbsorbedPort(cfg: Config, d: DeviceState, order: seq<EndpointKey>)
    ensures d.pub.port != 0 ==> Recompute(cfg, d, order).pub.port == d.pub.port
  {
    hide RankedBy;
    var ks := OrderOf(order, d.endpoints.Keys);
    assert forall k :: k in ks <==> k in Elements(ks);
    if d.pub.port != 0 { PortStays(d.pub.port, d.endpoints, ks); }
  }

  /** A port once known is not overwritten by looking through the endpoints. */
  lemma {:induction false} PortStays(port: nat, eps: Endpoints, ks: seq<EndpointKey>)
    requires port != 0 && forall k :: k in ks ==> k in eps
    ensures FirstPort(port, eps, ks) == port
  {
    if ks != [] { PortStays(port, eps, ks[..|ks| - 1]); }
  }

  lemma DialableBy(p: Policy, eps: Endpoints, k: EndpointKey)
    requires k in eps && (eps[k].ep.trusted || Usable(p, eps[k].ep.addr))
    ensures Dialable(p, eps, Unmap(eps[k].ep.addr))
  {
  }

  /** Where a port comes from: the one known stays; with none known it is that of some
      endpoint that has one, if any has. */
  lemma PortComesFromAnEndpoint(cfg: Config, d: DeviceState, order: seq<EndpointKey>)
    ensures var port := Recompute(cfg, d, order).pub.port;
            && (d.pub.port != 0 ==> port == d.pub.port)
            && (d.pub.port == 0 ==> (port != 0 <==> exists k :: k in d.endpoints && d.endpoints[k].ep.port != 0))
            && (d.pub.port == 0 && port != 0 ==> exists k :: k in d.endpoints && d.endpoints[k].ep.port == port)
  {
    var ks := OrderOf(order, d.endpoints.Keys);
    assert forall k :: k in ks <==> k in Elements(ks);
    if d.pub.port != 0 { PortStays(d.pub.port, d.endpoints, ks); } else { PortFound(d.endpoints, ks); }
    hide FirstPort, RankedBy;
  }

  lemma {:induction false} PortFound(eps: Endpoints, ks: seq<EndpointKey>)
    requires forall k :: k in ks ==> k in eps
    ensures FirstPort(0, eps, ks) != 0 <==> exists k :: k in ks && eps[k].ep.port != 0
    ensures FirstPort(0, eps, ks) != 0 ==> exists k :: k in ks && eps[k].ep.port == FirstPort(0, eps, ks)
  {
    if ks != [] {
      PortFound(eps, ks[..|ks| - 1]);
      assert forall k :: k in ks <==> k in ks[..|ks| - 1] || k == ks[|ks| - 1];
    }
  }

  lemma AbsorbedFully(cfg: Config, d: DeviceState, ev: Event, at: int, order: seq<EndpointKey>)
    ensures var e := Touch(Recompute(cfg, Absorb(d, ev, at), order));
            && e.endpoints == d.endpoints[ev.endpoint.key := EndpointState(ev.endpoint, false, 0, ev.source)]
            && e.pub.kind == (if d.pub.kind.Unknown? then ev.kind else d.pub.kind) && e.pub.firstSeen == d.pub.firstSeen
            && e.sources == d.sources + {ev.source} && e.pub.isStatic == (d.pub.isStatic || ev.source == SOURCE_STATIC)
            && e.pub.txt == d.pub.txt + ev.endpoint.txt && e.lastSuccess == d.lastSuccess
            && e.pub.hostname == (if ev.endpoint.host != "" then ev.endpoint.host else d.pub.hostname)
            && e.pub.name == d.pub.name && e.provisionalName == d.provisionalName
            && e.hasPinned == d.hasPinned && e.pinned == d.pinned
  {
    RecomputeFacts(cfg, Absorb(d, ev, at), order);
    hide Recompute, AddrsCurrent;
  }

  lemma AddToRecord(cfg: Config, s: State, id: string, ev: Event, at: int, now: int, order: seq<EndpointKey>)
    ensures AddTo(cfg, s, id, ev, at, now, order).devices[id] ==
            Touch(Recompute(cfg, Absorb(if id in s.devices then Renamed(s.devices[id], ev) else NewDevice(id, ev, now), ev, at), order))
  {
    hide Recompute, Touch, Absorb, Renamed, NewDevice, BindAliases, EventHandles;
  }

  /** What an Add makes of the record it finds: a kind once known, the time of the first
      sighting, an announced name and everything the observation does not mention stay. */
  lemma AddKeepsTheRest(cfg: Config, s: State, id: string, ev: Event, at: int, now: int, order: seq<EndpointKey>)
    requires id in s.devices
    ensures var d, e := s.devices[id], AddTo(cfg, s, id, ev, at, now, order).devices[id];
            var named := d.provisionalName && !ev.unnamed && InstanceLabel(ev.instance) != "";
            && e.endpoints == d.endpoints[ev.endpoint.key := EndpointState(ev.endpoint, false, 0, ev.source)]
            && e.pub.kind == (if d.pub.kind.Unknown? then ev.kind else d.pub.kind) && e.pub.firstSeen == d.pub.firstSeen
            && e.sources == d.sources + {ev.source} && e.pub.isStatic == (d.pub.isStatic || ev.source == SOURCE_STATIC)
            && e.pub.txt == d.pub.txt + ev.endpoint.txt && e.lastSuccess == d.lastSuccess
            && e.pub.hostname == (if ev.endpoint.host != "" then ev.endpoint.host else d.pub.hostname)
            && e.pub.name == (if named then InstanceLabel(ev.instance) else d.pub.name)
            && e.provisionalName == (d.provisionalName && !named)
            && e.hasPinned == d.hasPinned && e.pinned == d.pinned
  {
    AddToRecord(cfg, s, id, ev, at, now, order);
    AbsorbedFully(cfg, Renamed(s.devices[id], ev), ev, at, order);
    hide Recompute, Touch, Absorb, AddTo, InstanceLabel;
  }

  /** What an Add makes of a device not heard of before. */
  lemma AddIntroduces(cfg: Config, s: State, id: string, ev: Event, at: int, now: int, order: seq<EndpointKey>)
    requires id !in s.devices
    ensures var e := AddTo(cfg, s, id, ev, at, now, order).devices[id];
            && e.endpoints == map[ev.endpoint.key := EndpointState(ev.endpoint, false, 0, ev.source)]
            && e.pub.id == id && e.pub.kind == ev.kind && e.pub.firstSeen == now && e.lastSuccess == 0
            && e.sources == {ev.source} && e.pub.isStatic == (ev.source == SOURCE_STATIC)
            && e.pub.txt == ev.endpoint.txt && e.pub.hostname == ev.endpoint.host
            && e.pub.name == InstanceLabel(ev.instance) && e.provisionalName == ev.unnamed && !e.hasPinned
  {
    AddToRecord(cfg, s, id, ev, at, now, order);
    AbsorbedFully(cfg, NewDevice(id, ev, now), ev, at, order);
    ObservedFacts(cfg, s, id, ev, at, now, order);
    hide Recompute, Touch, Absorb, InstanceLabel, AddrsCurrent, BindAliases, EventHandles;
  }
}
