/** What every step of the registry keeps, what promotion conserves, and what holds of a
    device for as long as its identifier lives. */
module RegistryInvariants {
  import opened Common
  import opened Identity
  import opened Address
  import opened RegistryModel

  // ---- The invariant ----------------------------------------------------------------

  /** The published addresses are the ranking of some enumeration of the endpoints. */
  ghost predicate AddrsCurrent(cfg: Config, d: DeviceState) {
    exists ks :: IsEnumeration(ks, d.endpoints.Keys)
                 && RankedBy(cfg, d, ks) == (d.pub.addrs, d.pub.rejectedAddrs)
  }

  predicate SeenCurrent(d: DeviceState) {
    d.pub.lastSeen == Max(d.lastDiscovery, d.lastSuccess)
  }

  ghost predicate RecordOK(cfg: Config, id: string, d: DeviceState) {
    id != "" && d.pub.id == id && AddrsCurrent(cfg, d)
  }

  /** No handle dangles. */
  predicate AliasesLive(s: State) {
    forall h :: h in s.aliases ==> s.aliases[h] in s.devices
  }

  /** The invariant, but for the LastSeen of `pending`, the device an Add is working on. */
  ghost predicate InvBut(cfg: Config, s: State, pending: string) {
    && (forall id :: id in s.devices ==> RecordOK(cfg, id, s.devices[id]))
    && (forall id :: id in s.devices && id != pending ==> SeenCurrent(s.devices[id]))
    && AliasesLive(s)
  }

  ghost predicate Inv(cfg: Config, s: State) {
    && (forall id :: id in s.devices ==> RecordOK(cfg, id, s.devices[id]) && SeenCurrent(s.devices[id]))
    && AliasesLive(s)
  }

  // ---- Device-level facts -----------------------------------------------------------

  /** What holds of a device between any two moments of its identifier's life. */
  predicate Evolves(d: DeviceState, e: DeviceState) {
    && e.pub.id == d.pub.id
    && e.pub.epoch >= d.pub.epoch
    && (e.pub.epoch == d.pub.epoch ==> e.pub.addrs == d.pub.addrs)
    && (!d.provisionalName ==> !e.provisionalName && e.pub.name == d.pub.name)
    && e.pub.firstSeen <= d.pub.firstSeen
    && (d.pub.isStatic ==> e.pub.isStatic)
    && d.sources <= e.sources
  }

  /** The epoch counts one change of the address list, if there was one, and nothing else. */
  predicate EpochCounts(d: DeviceState, e: DeviceState) {
    e.pub.epoch == d.pub.epoch + One(e.pub.addrs != d.pub.addrs)
  }

  lemma RecomputeFacts(cfg: Config, d: DeviceState, order: seq<EndpointKey>)
    ensures var e := Recompute(cfg, d, order);
            && AddrsCurrent(cfg, e)
            && Evolves(d, e) && EpochCounts(d, e)
            && e == d.(pub := d.pub.(port := e.pub.port, rejectedAddrs := e.pub.rejectedAddrs,
                                     addrs := e.pub.addrs, epoch := e.pub.epoch))
  {
    var e := Recompute(cfg, d, order);
    var ks := OrderOf(order, d.endpoints.Keys);
    assert forall k :: k in ks <==> k in Elements(ks);
    assert e.pub.addrs == RankedBy(cfg, d, ks).0;
    assert RankedBy(cfg, e, ks) == (e.pub.addrs, e.pub.rejectedAddrs);
  }

  /** Nothing but addresses, trust and the pin bears on the ranking. */
  lemma AddrsCurrentFrame(cfg: Config, d: DeviceState, e: DeviceState)
    requires AddrsCurrent(cfg, d)
    requires e.endpoints.Keys == d.endpoints.Keys
    requires forall k :: k in d.endpoints ==>
               e.endpoints[k].ep.addr == d.endpoints[k].ep.addr && e.endpoints[k].ep.trusted == d.endpoints[k].ep.trusted
    requires PinOf(e) == PinOf(d)
    requires e.pub.addrs == d.pub.addrs && e.pub.rejectedAddrs == d.pub.rejectedAddrs
    ensures AddrsCurrent(cfg, e)
  {
    var ks :| IsEnumeration(ks, d.endpoints.Keys) && RankedBy(cfg, d, ks) == (d.pub.addrs, d.pub.rejectedAddrs);
    assert forall k :: k in ks <==> k in Elements(ks);
    assert Candidates(d.endpoints, ks) == Candidates(e.endpoints, ks);
    assert RankedBy(cfg, e, ks) == (e.pub.addrs, e.pub.rejectedAddrs);
  }

  lemma HintDeviceFacts(cfg: Config, d: DeviceState, source: string, key: EndpointKey, at: int)
    ensures var (e, changed) := HintDevice(d, source, key, at);
            && Evolves(d, e) && (AddrsCurrent(cfg, d) ==> AddrsCurrent(cfg, e))
            && (SeenCurrent(d) ==> SeenCurrent(e)) && (!changed ==> e == d)
            && e.pub.addrs == d.pub.addrs && e.pub.rejectedAddrs == d.pub.rejectedAddrs && e.pub.epoch == d.pub.epoch
            && e.pub.name == d.pub.name && e.pub.port == d.pub.port && e.pub.lastSeen == d.pub.lastSeen
  {
    hide AddrsCurrent, Recompute;
    var (e, changed) := HintDevice(d, source, key, at);
    if AddrsCurrent(cfg, d) { AddrsCurrentFrame(cfg, d, e); }
  }

  lemma RenewedFacts(cfg: Config, d: DeviceState, addr: Addr, at: int)
    ensures var e := Renewed(d, addr, at);
            && Evolves(d, e) && (AddrsCurrent(cfg, d) ==> AddrsCurrent(cfg, e)) && SeenCurrent(e)
            && e.pub.epoch == d.pub.epoch && e.pub.addrs == d.pub.addrs
  {
    hide AddrsCurrent;
    if AddrsCurrent(cfg, d) { AddrsCurrentFrame(cfg, d, Renewed(d, addr, at)); }
  }

  lemma ScrapedFacts(cfg: Config, d: DeviceState, addr: Addr, at: int, order: seq<EndpointKey>)
    ensures var e := Scraped(cfg, d, addr, at, order);
            && Evolves(d, e) && (AddrsCurrent(cfg, d) ==> AddrsCurrent(cfg, e)) && SeenCurrent(e)
            && EpochCounts(d, e)
  {
    hide AddrsCurrent, Recompute, Renewed;
    var d1 := d.(lastSuccess := at);
    var repin := addr.IsValid() && (!d.hasPinned || d.pinned != addr);
    var d2 := if repin then Recompute(cfg, d1.(pinned := addr, hasPinned := true), order) else d1;
    RecomputeFacts(cfg, d1.(pinned := addr, hasPinned := true), order);
    if !repin && AddrsCurrent(cfg, d) { AddrsCurrentFrame(cfg, d, d1); }
    RenewedFacts(cfg, d2, addr, at);
  }

  lemma PrunedFacts(cfg: Config, d: DeviceState, now: int, order: seq<EndpointKey>)
    ensures var e := Pruned(cfg, d, now, order);
            && Evolves(d, e) && (AddrsCurrent(cfg, d) ==> AddrsCurrent(cfg, e))
            && (SeenCurrent(d) ==> SeenCurrent(e) && e.pub.lastSeen == d.pub.lastSeen)
            && EpochCounts(d, e)
  {
    hide AddrsCurrent, Recompute;
    var eps := Surviving(cfg, d, now);
    if !d.pub.isStatic && eps != d.endpoints {
      RecomputeFacts(cfg, d.(endpoints := eps), order);
      AddrsCurrentFrame(cfg, Recompute(cfg, d.(endpoints := eps), order), Pruned(cfg, d, now, order));
    }
  }

  lemma ObservedFacts(cfg: Config, s: State, id: string, ev: Event, at: int, now: int, order: seq<EndpointKey>)
    ensures var e := Observed(cfg, s, id, ev, at, now, order);
            && AddrsCurrent(cfg, e) && SeenCurrent(e)
            && (id in s.devices ==> Evolves(s.devices[id], e) && EpochCounts(s.devices[id], e))
            && e.pub.id == (if id in s.devices then s.devices[id].pub.id else id)
  {
    hide AddrsCurrent, Recompute;
    var d := if id in s.devices then Renamed(s.devices[id], ev) else NewDevice(id, ev, now);
    RecomputeFacts(cfg, Absorb(d, ev, at), order);
    AddrsCurrentFrame(cfg, Recompute(cfg, Absorb(d, ev, at), order), Observed(cfg, s, id, ev, at, now, order));
  }

  // ---- Resolution -------------------------------------------------------------------

  /** What matching by three MAC bytes can come back with. */
  lemma MatchFacts(s: State, kind: Kind, derived: string)
    requires IsMACID(derived) ==> |derived| == 16
    ensures match MatchShortID(s, kind, derived)
            case None => true
            case Some(r) =>
              if IsMACID(derived) then
                r.id == derived && r.promoteFrom.Some? && r.promoteFrom.value in s.devices && !IsMACID(r.promoteFrom.value)
              else r.promoteFrom.None? && r.id in s.devices
  {
    if kind.Shelly? && IsMACID(derived) {
      hide HasSuffix, IsMACID, Only;
      var ids := ShortMatches(s.devices, "-" + MACOfID(derived)[6..]);
      var only := Only(ids);
      if only.Some? {
        OnlyIs(ids);
        ShortIsNotMAC(only.value);
      }
    } else if kind.Shelly? && IsShortID(derived) && LastIndex(derived, '-').Some? {
      hide HasSuffix, IsMACID, IsShortID, Only;
      var ids := MACMatches(s.devices, derived[LastIndex(derived, '-').value + 1..]);
      if Only(ids).Some? { OnlyIs(ids); }
    }
  }

  lemma OnlyIs(ids: set<string>)
    ensures Only(ids).Some? ==> Only(ids).value in ids
  {
  }

  lemma ShortIsNotMAC(id: string)
    requires IsShortID(id)
    ensures !IsMACID(id)
  {
    assert id[0] == 's';
  }

  /** Promotion only ever goes from a weaker identifier to a mac: one, and what an event
      resolves to is live, freshly derived, or chosen by the event itself. */
  lemma ResolveFacts(cfg: Config, s: State, ev: Event)
    requires forall h :: h in s.aliases ==> s.aliases[h] in s.devices
    ensures var r := Resolve(cfg, s, ev);
            && (r.promoteFrom.Some? ==>
                  && r.promoteFrom.value in s.devices && !IsMACID(r.promoteFrom.value)
                  && IsMACID(r.id) && r.id == DerivedOf(cfg, ev) && ev.deviceID == "")
            && (r.promoteFrom.None? ==> r.id in s.devices || r.id == DerivedOf(cfg, ev) || r.id == ev.deviceID != "")
            && (ev.deviceID == "" && IsMACID(DerivedOf(cfg, ev)) ==> IsMACID(r.id))
            && (ev.deviceID != "" ==> r == Resolution(ev.deviceID, None))
  {
    hide EventHandles, DeriveID, DerivedOf, MatchShortID, IsMACID, FirstBound;
    MatchFacts(s, ev.kind, DerivedOf(cfg, ev));
  }

  // ---- Promotion --------------------------------------------------------------------

  /** Promotion conserves: the result holds both records' endpoint slots and sources, the
      weaker record's endpoint winning a clash; FirstSeen is the earlier, the liveness
      stamps the later; every handle of either identity now leads to the new one and no
      other handle moves; and no other device is touched. */
  lemma PromoteConserves(cfg: Config, s: State, oldID: string, newID: string, order: seq<EndpointKey>)
    requires oldID != newID && oldID in s.devices
    ensures var t := Promote(cfg, s, oldID, newID, order);
            var weak := s.devices[oldID];
            && t.devices.Keys == s.devices.Keys - {oldID} + {newID}
            && (forall id :: id in s.devices && id != oldID && id != newID ==> t.devices[id] == s.devices[id])
            && t.aliases.Keys == s.aliases.Keys + {oldID}
            && t.aliases[oldID] == newID
            && (forall h :: h in s.aliases && h != oldID ==>
                  t.aliases[h] == if s.aliases[h] == oldID then newID else s.aliases[h])
            && (newID !in s.devices ==>
                  var e := t.devices[newID];
                  && e.endpoints == weak.endpoints && e.sources == weak.sources
                  && e.pub.firstSeen == weak.pub.firstSeen && e.pub.name == weak.pub.name
                  && e.provisionalName == weak.provisionalName
                  && e.lastDiscovery == weak.lastDiscovery && e.lastSuccess == weak.lastSuccess
                  && e.pub.txt == weak.pub.txt && e.pub.kind == weak.pub.kind && e.pub.isStatic == weak.pub.isStatic
                  && t.promotions == s.promotions + 1 && t.merges == s.merges)
            && (newID in s.devices ==>
                  var e, target := t.devices[newID], s.devices[newID];
                  && e.endpoints.Keys == target.endpoints.Keys + weak.endpoints.Keys
                  && (forall k :: k in weak.endpoints ==> e.endpoints[k] == weak.endpoints[k])
                  && (forall k :: k in target.endpoints && k !in weak.endpoints ==> e.endpoints[k] == target.endpoints[k])
                  && e.sources == target.sources + weak.sources
                  && e.pub.firstSeen == Min(target.pub.firstSeen, weak.pub.firstSeen)
                  && e.lastDiscovery == Max(target.lastDiscovery, weak.lastDiscovery)
                  && e.lastSuccess == Max(target.lastSuccess, weak.lastSuccess)
                  && e.pub.name == (if target.provisionalName && !weak.provisionalName then weak.pub.name else target.pub.name)
                  && e.provisionalName == (target.provisionalName && weak.provisionalName)
                  && e.pub.txt == target.pub.txt + weak.pub.txt
                  && e.pub.kind == target.pub.kind && e.pub.hostname == target.pub.hostname
                  && t.promotions == s.promotions && t.merges == s.merges + 1)
  {
    hide AddrsCurrent, Recompute;
    var weak := s.devices[oldID];
    var target := if newID in s.devices then Merge(s.devices[newID], weak) else weak.(pub := weak.pub.(id := newID));
    RecomputeFacts(cfg, target, order);
  }

  lemma ResolvedIs(cfg: Config, s: State, ev: Event, mo: seq<EndpointKey>)
    ensures var r := Resolve(cfg, s, ev);
            Resolved(cfg, s, ev, mo) == if r.promoteFrom.Some? then Promote(cfg, s, r.promoteFrom.value, r.id, mo) else s
  {
    hide Resolve, Promote;
  }

  /** A rename keeps the number of devices, a merge loses exactly one: devices plus merges
      is conserved. */
  lemma PromoteCountsDevices(cfg: Config, s: State, oldID: string, newID: string, order: seq<EndpointKey>)
    requires oldID != newID && oldID in s.devices
    ensures var t := Promote(cfg, s, oldID, newID, order);
            && |t.devices| + t.merges == |s.devices| + s.merges
            && |s.devices| - 1 <= |t.devices| <= |s.devices|
  {
    PromoteKeys(cfg, s, oldID, newID, order);
    hide Promote;
    SwapOne(s.devices, Promote(cfg, s, oldID, newID, order).devices, oldID, newID);
  }

  lemma PromoteKeys(cfg: Config, s: State, oldID: string, newID: string, order: seq<EndpointKey>)
    requires oldID != newID && oldID in s.devices
    ensures var t := Promote(cfg, s, oldID, newID, order);
            t.devices.Keys == s.devices.Keys - {oldID} + {newID} && t.merges == s.merges + One(newID in s.devices)
  {
    hide Recompute, Merge, Repoint;
  }

  /** Taking one key out and putting another in costs an entry exactly when the other was
      there already. */
  lemma SwapOne<K, V>(m: map<K, V>, n: map<K, V>, out: K, into: K)
    requires out in m && out != into && n.Keys == m.Keys - {out} + {into}
    ensures |n| == |m| - One(into in m)
  {
    var rest := m.Keys - {out};
    assert m.Keys == rest + {out};
    if into in m { assert n.Keys == rest; } else { assert n.Keys == rest + {into}; }
  }

  lemma MergeEvolves(target: DeviceState, weak: DeviceState)
    ensures Evolves(target, Merge(target, weak))
    ensures Merge(target, weak).pub.epoch == target.pub.epoch && Merge(target, weak).pub.addrs == target.pub.addrs
  {
  }

  /** What Promote does to the device table and the handles. */
  lemma PromoteShape(cfg: Config, s: State, oldID: string, newID: string, order: seq<EndpointKey>)
    requires oldID != newID && oldID in s.devices && AliasesLive(s)
    ensures var t := Promote(cfg, s, oldID, newID, order);
            && t.devices.Keys == s.devices.Keys - {oldID} + {newID}
            && (forall id :: id in t.devices && id != newID ==> t.devices[id] == s.devices[id])
            && AliasesLive(t)
            && AddrsCurrent(cfg, t.devices[newID])
            && (newID in s.devices ==> Evolves(s.devices[newID], t.devices[newID]) && EpochCounts(s.devices[newID], t.devices[newID]))
            && (newID !in s.devices ==> t.devices[newID].pub.id == newID)
  {
    hide AddrsCurrent, Recompute, Merge;
    var t := Promote(cfg, s, oldID, newID, order);
    var weak := s.devices[oldID];
    if newID in s.devices {
      RecomputeFacts(cfg, Merge(s.devices[newID], weak), order);
      MergeEvolves(s.devices[newID], weak);
      EvolvesTransitive(s.devices[newID], Merge(s.devices[newID], weak), t.devices[newID]);
    } else {
      RecomputeFacts(cfg, weak.(pub := weak.pub.(id := newID)), order);
    }
    forall h | h in t.aliases ensures t.aliases[h] in t.devices {
      if h in s.aliases { assert s.aliases[h] in s.devices; }
    }
  }

  lemma PromoteKeepsInv(cfg: Config, s: State, oldID: string, newID: string, order: seq<EndpointKey>)
    requires Inv(cfg, s) && newID != "" && oldID != newID && oldID in s.devices
    ensures InvBut(cfg, Promote(cfg, s, oldID, newID, order), newID)
  {
    hide AddrsCurrent, Promote;
    PromoteShape(cfg, s, oldID, newID, order);
  }

  lemma EvolvesReflexive(d: DeviceState)
    ensures Evolves(d, d)
  {
  }

  lemma EvolvesTransitive(a: DeviceState, b: DeviceState, c: DeviceState)
    requires Evolves(a, b) && Evolves(b, c)
    ensures Evolves(a, c)
  {
  }

  // ---- Every step -------------------------------------------------------------------

  lemma AddToKeepsInv(cfg: Config, s: State, id: string, ev: Event, at: int, now: int, order: seq<EndpointKey>)
    requires InvBut(cfg, s, id) && id != ""
    ensures Inv(cfg, AddTo(cfg, s, id, ev, at, now, order))
  {
    hide AddrsCurrent, Observed, EventHandles, DerivedOf, Evolves, SeenCurrent, BindAliases;
    ObservedFacts(cfg, s, id, ev, at, now, order);
    BindAliasesBinds(s.aliases, id, EventHandles(cfg, ev));
    var t := AddTo(cfg, s, id, ev, at, now, order);
    forall x | x in t.devices ensures RecordOK(cfg, x, t.devices[x]) && SeenCurrent(t.devices[x]) {
      if x != id { assert t.devices[x] == s.devices[x]; }
      else if id in s.devices { assert RecordOK(cfg, x, s.devices[x]); }
    }
  }

  lemma ResolvedKeepsInv(cfg: Config, s: State, ev: Event, mergeOrder: seq<EndpointKey>)
    requires Inv(cfg, s)
    ensures Resolve(cfg, s, ev).id != ""
    ensures InvBut(cfg, Resolved(cfg, s, ev, mergeOrder), Resolve(cfg, s, ev).id)
  {
    assert forall id :: id in s.devices ==> id != "";
    hide RecordOK, Resolve, Promote;
    ResolveFacts(cfg, s, ev);
    var r := Resolve(cfg, s, ev);
    if r.promoteFrom.Some? {
      PromoteKeepsInv(cfg, s, r.promoteFrom.value, r.id, mergeOrder);
    }
  }

  /** Every Add is absorbed: resolution never comes back empty-handed. */
  lemma AddKeepsInv(cfg: Config, s: State, ev: Event, at: int, now: int,
                    mergeOrder: seq<EndpointKey>, order: seq<EndpointKey>)
    requires Inv(cfg, s)
    ensures Inv(cfg, ApplyAdd(cfg, s, ev, at, now, mergeOrder, order).0)
    ensures ApplyAdd(cfg, s, ev, at, now, mergeOrder, order).1
  {
    hide AddrsCurrent, Recompute;
    ResolvedKeepsInv(cfg, s, ev, mergeOrder);
    AddToKeepsInv(cfg, Resolved(cfg, s, ev, mergeOrder), Resolve(cfg, s, ev).id, ev, at, now, order);
  }

  lemma RemoveHintKeepsInv(cfg: Config, s: State, ev: Event, at: int)
    requires Inv(cfg, s)
    ensures Inv(cfg, ApplyRemoveHint(cfg, s, ev, at).0)
    ensures !ApplyRemoveHint(cfg, s, ev, at).1 ==> ApplyRemoveHint(cfg, s, ev, at).0 == s
  {
    hide AddrsCurrent, HintDevice, HintTarget;
    var target := HintTarget(cfg, s, ev);
    if target.Some? && target.value in s.devices {
      HintDeviceFacts(cfg, s.devices[target.value], ev.source, ev.endpoint.key, at);
    }
  }

  lemma SourceResetKeepsInv(cfg: Config, s: State, source: string, at: int)
    requires Inv(cfg, s)
    ensures Inv(cfg, MarkSourceUnverified(s, source, at).0)
    ensures !MarkSourceUnverified(s, source, at).1 ==> MarkSourceUnverified(s, source, at).0 == s
  {
    hide AddrsCurrent, HintDevice;
    forall id | id in s.devices
      ensures var (d, changed) := HintDevice(s.devices[id], source, NO_KEY, at);
              RecordOK(cfg, id, d) && SeenCurrent(d) && (!changed ==> d == s.devices[id])
    {
      HintDeviceFacts(cfg, s.devices[id], source, NO_KEY, at);
    }
    var t := MarkSourceUnverified(s, source, at);
    if !t.1 { assert t.0.devices == s.devices; }
  }

  lemma ScrapeKeepsInv(cfg: Config, s: State, res: ScrapeResult, order: seq<EndpointKey>)
    requires Inv(cfg, s)
    ensures Inv(cfg, ApplyScrapeResult(cfg, s, res, order).0)
    ensures !ApplyScrapeResult(cfg, s, res, order).1 ==> ApplyScrapeResult(cfg, s, res, order).0 == s
  {
    hide AddrsCurrent, Scraped;
    if res.deviceID in s.devices && res.success {
      ScrapedFacts(cfg, s.devices[res.deviceID], res.addr, res.at, order);
    }
  }

  lemma ExpireKeepsInv(cfg: Config, s: State, now: int, orders: map<string, seq<EndpointKey>>)
    requires Inv(cfg, s)
    ensures Inv(cfg, Expire(cfg, s, now, orders).0)
    ensures !Expire(cfg, s, now, orders).1 ==> Expire(cfg, s, now, orders).0 == s
  {
    hide AddrsCurrent, Pruned;
    forall id | id in s.devices
      ensures var d := Pruned(cfg, s.devices[id], now, OrderFor(orders, id));
              RecordOK(cfg, id, d) && SeenCurrent(d)
    {
      PrunedFacts(cfg, s.devices[id], now, OrderFor(orders, id));
    }
    var t := Expire(cfg, s, now, orders);
    if !t.1 {
      assert t.0.devices == s.devices;
      assert t.0.aliases == s.aliases;
    }
  }

  /** Every step keeps the invariant, and a step whose handler reports no change leaves the
      registry exactly as it was. */
  lemma StepKeepsInv(cfg: Config, s: State, step: Step)
    requires Inv(cfg, s)
    ensures Inv(cfg, Next(cfg, s, step))
    ensures !Apply(cfg, s, step).1 ==> Next(cfg, s, step) == s
  {
    hide Inv, ApplyAdd, ApplyRemoveHint, MarkSourceUnverified, ApplyScrapeResult, Expire;
    match step
    case Observe(ev, now, mergeOrder, order) =>
      var at := if ev.at == 0 then now else ev.at;
      AddKeepsInv(cfg, s, ev, at, now, mergeOrder, order);
      RemoveHintKeepsInv(cfg, s, ev, at);
      SourceResetKeepsInv(cfg, s, ev.source, at);
    case Scrape(res, order) => ScrapeKeepsInv(cfg, s, res, order);
    case ExpiryTick(now, orders) => ExpireKeepsInv(cfg, s, now, orders);
  }

  /** Identity integrity over every run from an empty registry: each record sits under its
      own identifier, no handle dangles, LastSeen is the later liveness stamp, and the
      published addresses are a ranking of the endpoints. */
  lemma {:induction false} ReachableInv(cfg: Config, run: seq<Step>)
    ensures Inv(cfg, Exec(cfg, EMPTY, run))
  {
    assert Inv(cfg, EMPTY);
    hide Inv, Next;
    if run != [] {
      ReachableInv(cfg, run[..|run| - 1]);
      StepKeepsInv(cfg, Exec(cfg, EMPTY, run[..|run| - 1]), run[|run| - 1]);
    }
  }

  /** With at most one distinct vouched-for address the published order is forced: it is
      the ranking of every enumeration of the endpoints. */
  lemma AddrsForced(cfg: Config, d: DeviceState, ks: seq<EndpointKey>)
    requires AddrsCurrent(cfg, d) && IsEnumeration(ks, d.endpoints.Keys)
    requires forall k, l :: k in d.endpoints && l in d.endpoints && d.endpoints[k].ep.trusted && d.endpoints[l].ep.trusted
               ==> Unmap(d.endpoints[k].ep.addr) == Unmap(d.endpoints[l].ep.addr)
    ensures RankedBy(cfg, d, ks).0 == d.pub.addrs
  {
    hide OrderCandidates;
    var js :| IsEnumeration(js, d.endpoints.Keys) && RankedBy(cfg, d, js) == (d.pub.addrs, d.pub.rejectedAddrs);
    assert forall k :: k in ks <==> k in Elements(ks);
    assert forall k :: k in js <==> k in Elements(js);
    var cs, ds := Candidates(d.endpoints, js), Candidates(d.endpoints, ks);
    CandidateSet(d.endpoints, js);
    CandidateSet(d.endpoints, ks);
    assert AtMostOneTrusted(cs);
    OrderCandidatesIgnoresInputOrder(cfg.policy, cs, ds, PinOf(d));
  }

  lemma CandidateSet(eps: Endpoints, ks: seq<EndpointKey>)
    requires forall k :: k in ks <==> k in eps
    ensures Elements(Candidates(eps, ks)) == set k | k in eps :: Candidate(eps[k].ep.addr, eps[k].ep.trusted)
  {
    var cs := Candidates(eps, ks);
    forall k | k in eps ensures Candidate(eps[k].ep.addr, eps[k].ep.trusted) in cs {
      var i :| 0 <= i < |ks| && ks[i] == k;
      assert cs[i] == Candidate(eps[k].ep.addr, eps[k].ep.trusted);
    }
    forall c | c in cs ensures exists k :: k in eps && c == Candidate(eps[k].ep.addr, eps[k].ep.trusted) {
      var i :| 0 <= i < |cs| && cs[i] == c;
      assert ks[i] in eps;
    }
  }

  lemma CandidatesComplete(p: Policy, eps: Endpoints, ks: seq<EndpointKey>, pinned: Addr, a: Addr)
    requires forall k :: k in ks <==> k in eps
    ensures a in OrderCandidates(p, Candidates(eps, ks), pinned).0 <==> Dialable(p, eps, a)
  {
    hide OrderCandidates, Usable, Unmap;
    var cs := Candidates(eps, ks);
    OrderCandidatesMeaning(p, cs, pinned);
    if k :| k in eps && Unmap(eps[k].ep.addr) == a && (eps[k].ep.trusted || Usable(p, eps[k].ep.addr)) {
      var i :| 0 <= i < |ks| && ks[i] == k;
      assert Unmap(cs[i].addr) == a;
    }
    if a in OrderCandidates(p, cs, pinned).0 {
      var i :| 0 <= i < |cs| && Unmap(cs[i].addr) == a && (cs[i].trusted || Usable(p, cs[i].addr));
      assert ks[i] in eps;
    }
  }

  /** Some endpoint has the address, vouched for or usable. */
  ghost predicate Dialable(p: Policy, eps: Endpoints, a: Addr) {
    exists k :: k in eps && Unmap(eps[k].ep.addr) == a && (eps[k].ep.trusted || Usable(p, eps[k].ep.addr))
  }

  /** An address is published exactly when some endpoint has it, vouched for or usable. */
  lemma AddrsComplete(cfg: Config, d: DeviceState, a: Addr)
    requires AddrsCurrent(cfg, d)
    ensures a in d.pub.addrs <==> Dialable(cfg.policy, d.endpoints, a)
  {
    hide OrderCandidates, Dialable;
    var ks :| IsEnumeration(ks, d.endpoints.Keys) && RankedBy(cfg, d, ks) == (d.pub.addrs, d.pub.rejectedAddrs);
    assert forall k :: k in ks <==> k in Elements(ks);
    CandidatesComplete(cfg.policy, d.endpoints, ks, PinOf(d), a);
  }

  // ---- The life of an identifier ----------------------------------------------------

  /** One step never lowers a surviving device's epoch, never changes its addresses under
      the same epoch, and never changes an announced name. */
  lemma StepEvolves(cfg: Config, s: State, step: Step, id: string)
    requires Inv(cfg, s) && id in s.devices && id in Next(cfg, s, step).devices
    ensures Evolves(s.devices[id], Next(cfg, s, step).devices[id])
  {
    hide Evolves, AddrsCurrent, SeenCurrent, Scraped, Pruned, HintDevice, HintTarget, ApplyAdd;
    EvolvesReflexive(s.devices[id]);
    match step
    case Observe(ev, now, mergeOrder, order) =>
      var at := if ev.at == 0 then now else ev.at;
      if ev.kindOf.EventAdd? {
        AddEvolves(cfg, s, ev, at, now, mergeOrder, order, id);
      } else {
        HintDeviceFacts(cfg, s.devices[id], ev.source, NO_KEY, at);
        HintDeviceFacts(cfg, s.devices[id], ev.source, ev.endpoint.key, at);
      }
    case Scrape(res, order) =>
      ScrapedFacts(cfg, s.devices[id], res.addr, res.at, order);
    case ExpiryTick(now, orders) =>
      PrunedFacts(cfg, s.devices[id], now, OrderFor(orders, id));
  }

  lemma AddEvolves(cfg: Config, s: State, ev: Event, at: int, now: int,
                   mergeOrder: seq<EndpointKey>, order: seq<EndpointKey>, id: string)
    requires Inv(cfg, s) && id in s.devices
    requires id in ApplyAdd(cfg, s, ev, at, now, mergeOrder, order).0.devices
    ensures Evolves(s.devices[id], ApplyAdd(cfg, s, ev, at, now, mergeOrder, order).0.devices[id])
  {
    hide Resolve, Promote, Observed, AddrsCurrent;
    ResolveFacts(cfg, s, ev);
    var r := Resolve(cfg, s, ev);
    var s1 := Resolved(cfg, s, ev, mergeOrder);
    if r.promoteFrom.Some? {
      PromoteShape(cfg, s, r.promoteFrom.value, r.id, mergeOrder);
    }
    assert id in s1.devices && Evolves(s.devices[id], s1.devices[id]);
    if id == r.id {
      ObservedFacts(cfg, s1, id, ev, at, now, order);
      EvolvesTransitive(s.devices[id], s1.devices[id], Observed(cfg, s1, id, ev, at, now, order));
    }
  }

  /** Over any stretch of a run throughout which an identifier stays registered: the epoch
      never falls, equal epochs mean equal addresses, and an announced name never changes. */
  lemma {:induction false} LifeEvolves(cfg: Config, s: State, run: seq<Step>, id: string)
    requires Inv(cfg, s)
    requires forall n :: 0 <= n <= |run| ==> id in Exec(cfg, s, run[..n]).devices
    ensures id in s.devices && id in Exec(cfg, s, run).devices
    ensures Evolves(s.devices[id], Exec(cfg, s, run).devices[id])
    ensures Inv(cfg, Exec(cfg, s, run))
  {
    hide Inv, Next;
    assert run[..|run|] == run && run[..0] == [];
    assert id in Exec(cfg, s, run[..0]).devices && id in Exec(cfg, s, run[..|run|]).devices;
    if run != [] {
      var before := run[..|run| - 1];
      assert forall n :: 0 <= n <= |before| ==> before[..n] == run[..n];
      LifeEvolves(cfg, s, before, id);
      StepKeepsInv(cfg, Exec(cfg, s, before), run[|run| - 1]);
      StepEvolves(cfg, Exec(cfg, s, before), run[|run| - 1], id);
      EvolvesTransitive(s.devices[id], Exec(cfg, s, before).devices[id], Exec(cfg, s, run).devices[id]);
    }
  }

  /** The addresses a surviving device has halfway through a step: an Add may merge another
      record in before it takes over the observation. */
  ghost function Midway(cfg: Config, s: State, step: Step, id: string): seq<Addr>
    requires id in s.devices
  {
    if step.Observe? && step.ev.kindOf.EventAdd? && id in Resolved(cfg, s, step.ev, step.mergeOrder).devices
    then Resolved(cfg, s, step.ev, step.mergeOrder).devices[id].pub.addrs
    else s.devices[id].pub.addrs
  }

  /** How often a step changes the addresses of a device that outlives it. */
  ghost function AddrChanges(cfg: Config, s: State, step: Step, id: string): nat {
    if id in s.devices && id in Next(cfg, s, step).devices then
      One(Midway(cfg, s, step, id) != s.devices[id].pub.addrs)
      + One(Next(cfg, s, step).devices[id].pub.addrs != Midway(cfg, s, step, id))
    else 0
  }

  /** A step moves the epoch by one for each change it makes to the address list, and leaves
      it alone otherwise. */
  lemma StepEpoch(cfg: Config, s: State, step: Step, id: string)
    requires Inv(cfg, s) && id in s.devices && id in Next(cfg, s, step).devices
    ensures Next(cfg, s, step).devices[id].pub.epoch == s.devices[id].pub.epoch + AddrChanges(cfg, s, step, id)
  {
    hide AddrsCurrent, SeenCurrent, Scraped, Pruned, HintDevice, HintTarget, ApplyAdd, Resolved, Evolves;
    match step
    case Observe(ev, now, mergeOrder, order) =>
      var at := if ev.at == 0 then now else ev.at;
      if ev.kindOf.EventAdd? {
        AddEpoch(cfg, s, ev, at, now, mergeOrder, order, id);
      } else {
        HintDeviceFacts(cfg, s.devices[id], ev.source, NO_KEY, at);
        HintDeviceFacts(cfg, s.devices[id], ev.source, ev.endpoint.key, at);
      }
    case Scrape(res, order) =>
      ScrapedFacts(cfg, s.devices[id], res.addr, res.at, order);
    case ExpiryTick(now, orders) =>
      PrunedFacts(cfg, s.devices[id], now, OrderFor(orders, id));
  }

  lemma AddEpoch(cfg: Config, s: State, ev: Event, at: int, now: int,
                 mergeOrder: seq<EndpointKey>, order: seq<EndpointKey>, id: string)
    requires Inv(cfg, s) && id in s.devices
    requires id in ApplyAdd(cfg, s, ev, at, now, mergeOrder, order).0.devices
    ensures var mid, t := Resolved(cfg, s, ev, mergeOrder), ApplyAdd(cfg, s, ev, at, now, mergeOrder, order).0;
            id in mid.devices && EpochCounts(s.devices[id], mid.devices[id]) && EpochCounts(mid.devices[id], t.devices[id])
  {
    hide Resolve, Promote, Observed, AddrsCurrent, Evolves;
    ResolveFacts(cfg, s, ev);
    var r := Resolve(cfg, s, ev);
    var mid := Resolved(cfg, s, ev, mergeOrder);
    if r.promoteFrom.Some? {
      PromoteShape(cfg, s, r.promoteFrom.value, r.id, mergeOrder);
    }
    if id == r.id { ObservedFacts(cfg, mid, id, ev, at, now, order); }
  }

  ghost function LifeChanges(cfg: Config, s: State, run: seq<Step>, id: string): nat {
    if run == [] then 0
    else
      var before := run[..|run| - 1];
      LifeChanges(cfg, s, before, id) + AddrChanges(cfg, Exec(cfg, s, before), run[|run| - 1], id)
  }

  /** Over any stretch of a run throughout which an identifier stays registered, the epoch
      counts the changes of its address list exactly. */
  lemma {:induction false} EpochCountsChanges(cfg: Config, s: State, run: seq<Step>, id: string)
    requires Inv(cfg, s)
    requires forall n :: 0 <= n <= |run| ==> id in Exec(cfg, s, run[..n]).devices
    ensures id in s.devices && id in Exec(cfg, s, run).devices
    ensures Exec(cfg, s, run).devices[id].pub.epoch == s.devices[id].pub.epoch + LifeChanges(cfg, s, run, id)
  {
    hide Inv, Next, AddrChanges;
    assert run[..|run|] == run && run[..0] == [];
    assert id in Exec(cfg, s, run[..0]).devices && id in Exec(cfg, s, run[..|run|]).devices;
    if run != [] {
      var before := run[..|run| - 1];
      assert forall n :: 0 <= n <= |before| ==> before[..n] == run[..n];
      EpochCountsChanges(cfg, s, before, id);
      LifeEvolves(cfg, s, before, id);
      StepEpoch(cfg, Exec(cfg, s, before), run[|run| - 1], id);
    }
  }

  /** A mac: identifier, once registered, leaves only by expiry. */
  lemma MACLeavesOnlyByExpiry(cfg: Config, s: State, step: Step, id: string)
    requires Inv(cfg, s) && IsMACID(id) && id in s.devices && !step.ExpiryTick?
    ensures id in Next(cfg, s, step).devices
  {
    hide AddrsCurrent, Recompute;
    if step.Observe? && step.ev.kindOf.EventAdd? {
      ResolveFacts(cfg, s, step.ev);
      var r := Resolve(cfg, s, step.ev);
      if r.promoteFrom.Some? {
        PromoteConserves(cfg, s, r.promoteFrom.value, r.id, step.mergeOrder);
      }
    }
  }

  // ---- Identity stability -----------------------------------------------------------

  lemma HandlesBound(aliases: map<string, string>, id: string, hs: seq<string>)
    requires hs != [] && forall h :: h in hs ==> h in aliases && aliases[h] == id
    ensures FirstBound(aliases, hs) == Some(id)
  {
  }

  /** The identity and the event's every handle lead to it. */
  ghost predicate Bound(cfg: Config, s: State, ev: Event, id: string) {
    && (forall h :: h in EventHandles(cfg, ev) ==> h in s.aliases && s.aliases[h] == id)
    && id in s.aliases && s.aliases[id] == id
  }

  /** An event all of whose handles lead to one sufficiently strong identity resolves to it
      without promoting anything. */
  lemma BoundResolves(cfg: Config, s: State, ev: Event, id: string)
    requires Bound(cfg, s, ev, id)
    requires if ev.deviceID != "" then id == ev.deviceID else IsMACID(DerivedOf(cfg, ev)) ==> IsMACID(id)
    ensures Resolve(cfg, s, ev) == Resolution(id, None)
  {
    hide EventHandles, MatchShortID;
    HandlesBound(s.aliases, id, EventHandles(cfg, ev));
  }

  lemma AddBinds(cfg: Config, s: State, id: string, ev: Event, at: int, now: int, order: seq<EndpointKey>)
    ensures var t := AddTo(cfg, s, id, ev, at, now, order);
            && id in t.devices && t.devices.Keys == s.devices.Keys + {id}
            && Bound(cfg, t, ev, id)
            && t.promotions == s.promotions && t.merges == s.merges
            && (Bound(cfg, s, ev, id) ==> t.aliases == s.aliases)
  {
    hide Observed, EventHandles, DerivedOf, BindAliases;
    BindAliasesBinds(s.aliases, id, EventHandles(cfg, ev));
  }

  lemma BindAliasesBinds(aliases: map<string, string>, id: string, hs: seq<string>)
    ensures var bound := BindAliases(aliases, id, hs);
            && id in bound && bound[id] == id
            && (forall h :: h in hs ==> h in bound && bound[h] == id)
            && (forall h :: h in bound ==> bound[h] == id || (h in aliases && bound[h] == aliases[h]))
            && (id in aliases && aliases[id] == id && (forall h :: h in hs ==> h in aliases && aliases[h] == id) ==>
                  bound == aliases)
  {
  }

  /** The handles and the identity lead there, and no other handle moves. */
  lemma BindsOnly(aliases: map<string, string>, id: string, hs: seq<string>)
    ensures var bound := BindAliases(aliases, id, hs);
            && (forall h :: h in bound <==> h == id || h in hs || h in aliases)
            && (forall h :: h in bound ==> bound[h] == if h in hs || h == id then id else aliases[h])
  {
  }

  /** Once absorbed, an Add's every handle leads to the identity it resolved to; applying it
      again resolves there with no new device, promotion or merge, and moves no handle. */
  lemma AddIsStable(cfg: Config, s: State, ev: Event, at: int, now: int, mo: seq<EndpointKey>, o: seq<EndpointKey>,
                    at': int, now': int, mo': seq<EndpointKey>, o': seq<EndpointKey>)
    requires Inv(cfg, s)
    ensures var id := Resolve(cfg, s, ev).id;
            var t := ApplyAdd(cfg, s, ev, at, now, mo, o).0;
            var u := ApplyAdd(cfg, t, ev, at', now', mo', o').0;
            && id in t.devices && Bound(cfg, t, ev, id)
            && Resolve(cfg, t, ev) == Resolution(id, None)
            && u.devices.Keys == t.devices.Keys && u.aliases == t.aliases
            && u.promotions == t.promotions && u.merges == t.merges
  {
    ResolvedKeepsInv(cfg, s, ev, mo);
    InvAliases(cfg, s);
    hide Resolve, Promote, AddTo, Inv, InvBut, Bound;
    ResolveFacts(cfg, s, ev);
    var id := Resolve(cfg, s, ev).id;
    var s1 := Resolved(cfg, s, ev, mo);
    AddBinds(cfg, s1, id, ev, at, now, o);
    var t := AddTo(cfg, s1, id, ev, at, now, o);
    BoundResolves(cfg, t, ev, id);
    AddBinds(cfg, t, id, ev, at', now', o');
  }

  lemma InvAliases(cfg: Config, s: State)
    requires Inv(cfg, s)
    ensures forall h :: h in s.aliases ==> s.aliases[h] in s.devices
  {
    hide RecordOK;
  }
}
