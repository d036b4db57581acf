/** What the registry holds, told from the history of its run: every endpoint was announced,
    every address published may be dialled, and a device nobody hears from is forgotten, by
    the first tick that finds it silent for longer than the device TTL and by nothing else. */
module RegistryHistory {
  import opened Common
  import opened Identity
  import opened Address
  import opened RegistryModel
  import opened RegistryInvariants
  import opened RegistryLease
  import opened RegistryMeaning

  // ---- Where endpoints come from -------------------------------------------------------

  /** The record is of the endpoint this step announced, but for when it was last observed
      and what hints have made of it. */
  predicate Announces(step: Step, key: EndpointKey, ep: EndpointState) {
    IsAdd(step) && step.ev.endpoint.key == key && SameEndpoint(ep, EndpointState(step.ev.endpoint, false, 0, step.ev.source))
  }

  predicate SameEndpoint(a: EndpointState, b: EndpointState) {
    a.ep.(observedAt := b.ep.observedAt) == b.ep && a.source == b.source
  }

  /** Some device of the state has the endpoint. */
  ghost predicate Has(s: State, key: EndpointKey, ep: EndpointState) {
    exists id :: id in s.devices && key in s.devices[id].endpoints && SameEndpoint(ep, s.devices[id].endpoints[key])
  }

  lemma HasIt(s: State, id: string, key: EndpointKey, ep: EndpointState)
    requires id in s.devices && key in s.devices[id].endpoints && SameEndpoint(ep, s.devices[id].endpoints[key])
    ensures Has(s, key, ep)
  {
    hide SameEndpoint;
  }

  lemma PromoteBringsNothing(cfg: Config, s: State, oldID: string, newID: string, order: seq<EndpointKey>, id: string, key: EndpointKey)
    requires oldID != newID && oldID in s.devices
    requires var t := Promote(cfg, s, oldID, newID, order); id in t.devices && key in t.devices[id].endpoints
    ensures Has(s, key, Promote(cfg, s, oldID, newID, order).devices[id].endpoints[key])
  {
    PromoteConserves(cfg, s, oldID, newID, order);
    hide Promote, Has;
    var ep := Promote(cfg, s, oldID, newID, order).devices[id].endpoints[key];
    if id != newID {
      HasIt(s, id, key, ep);
    } else if key in s.devices[oldID].endpoints {
      HasIt(s, oldID, key, ep);
    } else {
      HasIt(s, newID, key, ep);
    }
  }

  lemma ResolvedBringsNothing(cfg: Config, s: State, ev: Event, mo: seq<EndpointKey>, id: string, key: EndpointKey)
    requires Inv(cfg, s)
    requires var t := Resolved(cfg, s, ev, mo); id in t.devices && key in t.devices[id].endpoints
    ensures Has(s, key, Resolved(cfg, s, ev, mo).devices[id].endpoints[key])
  {
    PromotesAnother(cfg, s, ev);
    hide Resolve, Promote, Has, Inv;
    var r := Resolve(cfg, s, ev);
    if r.promoteFrom.Some? {
      PromoteBringsNothing(cfg, s, r.promoteFrom.value, r.id, mo, id, key);
    } else {
      HasIt(s, id, key, s.devices[id].endpoints[key]);
    }
  }

  lemma ObservedEndpoints(cfg: Config, s: State, id: string, ev: Event, at: int, now: int, order: seq<EndpointKey>)
    ensures Observed(cfg, s, id, ev, at, now, order).endpoints ==
            (if id in s.devices then s.devices[id].endpoints else map[])[ev.endpoint.key := EndpointState(ev.endpoint, false, 0, ev.source)]
  {
    var d := if id in s.devices then Renamed(s.devices[id], ev) else NewDevice(id, ev, now);
    RecomputeKeepsRecords(cfg, Absorb(d, ev, at), order);
    hide Recompute;
  }

  lemma AddBrings(cfg: Config, s: State, step: Step, id: string, key: EndpointKey)
    requires Inv(cfg, s) && IsAdd(step)
    requires id in Next(cfg, s, step).devices && key in Next(cfg, s, step).devices[id].endpoints
    ensures var ep := Next(cfg, s, step).devices[id].endpoints[key]; Announces(step, key, ep) || Has(s, key, ep)
  {
    hide Next, Inv, Resolve, Resolved, Announces, Has;
    NextOfAdd(cfg, s, step);
    AddToBrings(cfg, Resolved(cfg, s, step.ev, step.mergeOrder), step, Resolve(cfg, s, step.ev).id, id, key);
    if !Announces(step, key, Next(cfg, s, step).devices[id].endpoints[key]) {
      ResolvedBringsNothing(cfg, s, step.ev, step.mergeOrder, id, key);
    }
  }

  /** What absorbing an observation adds is its own endpoint. */
  lemma AddToBrings(cfg: Config, s: State, step: Step, rid: string, id: string, key: EndpointKey)
    requires IsAdd(step)
    requires var t := AddTo(cfg, s, rid, step.ev, Stamp(step), step.now, step.order); id in t.devices && key in t.devices[id].endpoints
    ensures var ep := AddTo(cfg, s, rid, step.ev, Stamp(step), step.now, step.order).devices[id].endpoints[key];
            Announces(step, key, ep) || (id in s.devices && key in s.devices[id].endpoints && ep == s.devices[id].endpoints[key])
  {
    hide AddTo, Observed, Announces, Stamp;
    AddToDevices(cfg, s, rid, step.ev, Stamp(step), step.now, step.order);
    ObservedEndpoints(cfg, s, rid, step.ev, Stamp(step), step.now, step.order);
    AnnouncesItself(step, EndpointState(step.ev.endpoint, false, 0, step.ev.source));
  }

  lemma AnnouncesItself(step: Step, ep: EndpointState)
    requires IsAdd(step) && ep == EndpointState(step.ev.endpoint, false, 0, step.ev.source)
    ensures Announces(step, step.ev.endpoint.key, ep)
  {
  }

  /** An Add, once its event is resolved, puts one record into the map. */
  lemma NextOfAdd(cfg: Config, s: State, step: Step)
    requires Inv(cfg, s) && IsAdd(step)
    ensures Next(cfg, s, step) == AddTo(cfg, Resolved(cfg, s, step.ev, step.mergeOrder), Resolve(cfg, s, step.ev).id,
                                        step.ev, Stamp(step), step.now, step.order)
  {
    NeverNameless(cfg, s, step.ev);
    hide Resolve, Resolved, AddTo, Inv;
  }

  lemma NeverNameless(cfg: Config, s: State, ev: Event)
    requires Inv(cfg, s)
    ensures Resolve(cfg, s, ev).id != ""
  {
    InvAliases(cfg, s);
    ResolveFacts(cfg, s, ev);
    if Resolve(cfg, s, ev).id in s.devices { IsNamed(cfg, s, Resolve(cfg, s, ev).id); }
    hide Resolve, Inv;
  }

  lemma IsNamed(cfg: Config, s: State, id: string)
    requires Inv(cfg, s) && id in s.devices
    ensures id != ""
  {
    assert RecordOK(cfg, id, s.devices[id]);
  }

  lemma AddToDevices(cfg: Config, s: State, id: string, ev: Event, at: int, now: int, order: seq<EndpointKey>)
    ensures AddTo(cfg, s, id, ev, at, now, order).devices == s.devices[id := Observed(cfg, s, id, ev, at, now, order)]
  {
    hide Observed, BindAliases, EventHandles;
  }

  lemma OthersBringNothing(cfg: Config, s: State, step: Step, id: string, key: EndpointKey)
    requires !IsAdd(step)
    requires var t := Next(cfg, s, step); id in t.devices && key in t.devices[id].endpoints
    ensures Has(s, key, Next(cfg, s, step).devices[id].endpoints[key])
  {
    hide Has, Scraped, Pruned, HintTarget, DerivedOf, HintDevice, Forgotten, Confirm;
    var t := Next(cfg, s, step);
    match step
    case Observe(ev, now, _, _) =>
      var at := Stamp(step);
      HintedEndpoints(s.devices[id], ev.source, NO_KEY, at, key);
      HintedEndpoints(s.devices[id], ev.source, ev.endpoint.key, at, key);
      HasIt(s, id, key, t.devices[id].endpoints[key]);
    case Scrape(res, order) =>
      ScrapedEndpoint(cfg, s.devices[id], res.addr, res.at, order, key);
      HasIt(s, id, key, t.devices[id].endpoints[key]);
    case ExpiryTick(now, orders) =>
      PrunedEndpoints(cfg, s.devices[id], now, OrderFor(orders, id));
      HasIt(s, id, key, t.devices[id].endpoints[key]);
  }

  lemma HintedEndpoints(d: DeviceState, source: string, slot: EndpointKey, at: int, key: EndpointKey)
    ensures var e := HintDevice(d, source, slot, at).0;
            && e.endpoints.Keys == d.endpoints.Keys
            && (key in d.endpoints ==> SameEndpoint(e.endpoints[key], d.endpoints[key]))
  {
    hide AllUnverified;
  }

  lemma ScrapedEndpoint(cfg: Config, d: DeviceState, addr: Addr, at: int, order: seq<EndpointKey>, key: EndpointKey)
    ensures var e := Scraped(cfg, d, addr, at, order);
            && e.endpoints.Keys == d.endpoints.Keys
            && (key in d.endpoints ==> SameEndpoint(e.endpoints[key], d.endpoints[key]))
  {
    ScrapedEndpoints(cfg, d, addr, at, order);
    hide Scraped;
  }

  lemma PrunedEndpoints(cfg: Config, d: DeviceState, now: int, order: seq<EndpointKey>)
    ensures var e := Pruned(cfg, d, now, order);
            forall k :: k in e.endpoints ==> k in d.endpoints && e.endpoints[k] == d.endpoints[k]
  {
    RecomputeKeepsRecords(cfg, d.(endpoints := Surviving(cfg, d, now)), order);
    hide Recompute, Lapsed;
  }

  /** Every endpoint the registry holds was announced, as it is held, by an Add of the run. */
  lemma {:induction false} EndpointsWereAnnounced(cfg: Config, run: seq<Step>, id: string, key: EndpointKey)
    requires var t := Exec(cfg, EMPTY, run); id in t.devices && key in t.devices[id].endpoints
    ensures exists j :: 0 <= j < |run| && Announces(run[j], key, Exec(cfg, EMPTY, run).devices[id].endpoints[key])
  {
    hide Next, Announces, Has, SameEndpoint;
    if run != [] {
      var before, last := run[..|run| - 1], run[|run| - 1];
      var s, ep := Exec(cfg, EMPTY, before), Exec(cfg, EMPTY, run).devices[id].endpoints[key];
      ReachableInv(cfg, before);
      if IsAdd(last) { AddBrings(cfg, s, last, id, key); } else { OthersBringNothing(cfg, s, last, id, key); }
      if Announces(last, key, ep) {
        assert Announces(run[|run| - 1], key, ep);
      } else {
        var from := HadBy(s, key, ep);
        EndpointsWereAnnounced(cfg, before, from, key);
        var j :| 0 <= j < |before| && Announces(before[j], key, s.devices[from].endpoints[key]);
        AnnouncesAlike(before[j], key, s.devices[from].endpoints[key], ep);
        assert Announces(run[j], key, ep);
      }
    }
  }

  lemma HadBy(s: State, key: EndpointKey, ep: EndpointState) returns (id: string)
    requires Has(s, key, ep)
    ensures id in s.devices && key in s.devices[id].endpoints && SameEndpoint(ep, s.devices[id].endpoints[key])
  {
    hide SameEndpoint;
    id :| id in s.devices && key in s.devices[id].endpoints && SameEndpoint(ep, s.devices[id].endpoints[key]);
  }

  lemma AnnouncesAlike(step: Step, key: EndpointKey, a: EndpointState, b: EndpointState)
    requires Announces(step, key, a) && SameEndpoint(b, a)
    ensures Announces(step, key, b)
  {
  }

  /** Every address any device publishes was announced by an Add of the run, and was either
      vouched for there or may be dialled by the policy. */
  lemma PublishedWasAnnounced(cfg: Config, run: seq<Step>, id: string, a: Addr)
    requires var t := Exec(cfg, EMPTY, run); id in t.devices && a in t.devices[id].pub.addrs
    ensures exists j :: 0 <= j < |run| && IsAdd(run[j]) && Unmap(run[j].ev.endpoint.addr) == a
                        && (run[j].ev.endpoint.trusted || Usable(cfg.policy, run[j].ev.endpoint.addr))
  {
    ReachableInv(cfg, run);
    hide Exec, Usable, Unmap, AddrsCurrent;
    var d := Exec(cfg, EMPTY, run).devices[id];
    AddrsComplete(cfg, d, a);
    var key :| key in d.endpoints && Unmap(d.endpoints[key].ep.addr) == a
               && (d.endpoints[key].ep.trusted || Usable(cfg.policy, d.endpoints[key].ep.addr));
    EndpointsWereAnnounced(cfg, run, id, key);
    var j :| 0 <= j < |run| && Announces(run[j], key, d.endpoints[key]);
  }

  /** An address in a denied prefix that nobody ever vouches for is published for no device,
      at no moment of any run. */
  lemma DeniedIsNeverPublished(cfg: Config, run: seq<Step>, n: nat, id: string, a: Addr, i: nat)
    requires n <= |run| && i < |cfg.policy.deny| && Contains(cfg.policy.deny[i], a)
    requires forall j :: 0 <= j < |run| && IsAdd(run[j]) && run[j].ev.endpoint.trusted ==> Unmap(run[j].ev.endpoint.addr) != a
    ensures id in Exec(cfg, EMPTY, run[..n]).devices ==> a !in Exec(cfg, EMPTY, run[..n]).devices[id].pub.addrs
  {
    hide Exec, Usable, Unmap, Contains;
    if id in Exec(cfg, EMPTY, run[..n]).devices && a in Exec(cfg, EMPTY, run[..n]).devices[id].pub.addrs {
      PublishedWasAnnounced(cfg, run[..n], id, a);
      var j :| 0 <= j < n && IsAdd(run[..n][j]) && Unmap(run[..n][j].ev.endpoint.addr) == a
               && (run[..n][j].ev.endpoint.trusted || Usable(cfg.policy, run[..n][j].ev.endpoint.addr));
      assert run[..n][j] == run[j];
      UsableExactlyWhen(cfg.policy, run[j].ev.endpoint.addr);
    }
  }

  // ---- Silence -------------------------------------------------------------------------

  /** A scrape that failed, or of a device unknown, changes nothing and says so. */
  lemma FailedScrapeChangesNothing(cfg: Config, s: State, res: ScrapeResult, order: seq<EndpointKey>)
    requires !res.success || res.deviceID !in s.devices
    ensures Apply(cfg, s, Scrape(res, order)) == (s, false)
  {
  }

  /** The step is a sign of life of the device: an Add that resolves to it or renames it, or
      a scrape of it that worked. */
  ghost predicate Heard(cfg: Config, s: State, step: Step, id: string) {
    || (IsAdd(step) && (Resolve(cfg, s, step.ev).id == id || Resolve(cfg, s, step.ev).promoteFrom == Some(id)))
    || (step.Scrape? && step.res.success && step.res.deviceID == id)
  }

  /** No step of the run is a sign of life of the device. */
  ghost predicate Silent(cfg: Config, s: State, run: seq<Step>, id: string) {
    forall n :: 0 <= n < |run| ==> !Heard(cfg, Exec(cfg, s, run[..n]), run[n], id)
  }

  /** The tick finds the device silent for longer than the device TTL. */
  predicate Overstays(cfg: Config, step: Step, lastSeen: int) { step.ExpiryTick? && step.now - lastSeen > cfg.deviceTTL }

  lemma SilentAdd(cfg: Config, s: State, step: Step, id: string)
    requires Inv(cfg, s) && IsAdd(step) && !Heard(cfg, s, step, id)
    ensures var t := Next(cfg, s, step);
            && (id in t.devices <==> id in s.devices)
            && (id in s.devices ==> t.devices[id] == s.devices[id])
  {
    hide Next, Inv, Resolve, Resolved, AddTo, Observed, Stamp;
    var r, mid := Resolve(cfg, s, step.ev), Resolved(cfg, s, step.ev, step.mergeOrder);
    NextOfAdd(cfg, s, step);
    AddToDevices(cfg, mid, r.id, step.ev, Stamp(step), step.now, step.order);
    ResolvedElsewhere(cfg, s, step.ev, step.mergeOrder, id);
  }

  lemma ResolvedElsewhere(cfg: Config, s: State, ev: Event, mo: seq<EndpointKey>, id: string)
    requires Inv(cfg, s) && Resolve(cfg, s, ev).id != id && Resolve(cfg, s, ev).promoteFrom != Some(id)
    ensures var t := Resolved(cfg, s, ev, mo);
            && (id in t.devices <==> id in s.devices)
            && (id in s.devices ==> t.devices[id] == s.devices[id])
  {
    PromotesAnother(cfg, s, ev);
    hide Resolve, Promote, Inv;
    var r := Resolve(cfg, s, ev);
    if r.promoteFrom.Some? { PromoteElsewhere(cfg, s, r.promoteFrom.value, r.id, mo, id); }
  }

  lemma PromoteElsewhere(cfg: Config, s: State, oldID: string, newID: string, order: seq<EndpointKey>, id: string)
    requires id != oldID && id != newID
    ensures var t := Promote(cfg, s, oldID, newID, order);
            (id in t.devices <==> id in s.devices) && (id in s.devices ==> t.devices[id] == s.devices[id])
  {
    hide Recompute, Merge, Repoint;
  }

  /** What a step that is no sign of life leaves of a device. */
  lemma SilentStep(cfg: Config, s: State, step: Step, id: string)
    requires Inv(cfg, s) && !Heard(cfg, s, step, id)
    ensures var t := Next(cfg, s, step);
            && (id in t.devices ==>
                  id in s.devices && t.devices[id].pub.lastSeen == s.devices[id].pub.lastSeen
                  && t.devices[id].pub.isStatic == s.devices[id].pub.isStatic)
            && (id in s.devices ==>
                  (id in t.devices <==> s.devices[id].pub.isStatic || !Overstays(cfg, step, s.devices[id].pub.lastSeen)))
  {
    hide Inv, Next, Overstays;
    if IsAdd(step) {
      SilentAdd(cfg, s, step, id);
    } else if id in s.devices {
      InvSeen(cfg, s, id);
      SilentOther(cfg, s, step, id);
    } else {
      NobodyComes(cfg, s, step, id);
    }
    NoTickNoEnd(cfg, step);
  }

  lemma NoTickNoEnd(cfg: Config, step: Step)
    ensures IsAdd(step) ==> forall at :: !Overstays(cfg, step, at)
  {
  }

  lemma NobodyComes(cfg: Config, s: State, step: Step, id: string)
    requires !IsAdd(step) && id !in s.devices
    ensures id !in Next(cfg, s, step).devices
  {
    hide Scraped, Pruned, HintDevice, HintTarget, Forgotten;
  }

  lemma SilentOther(cfg: Config, s: State, step: Step, id: string)
    requires !IsAdd(step) && !Heard(cfg, s, step, id) && id in s.devices && SeenCurrent(s.devices[id])
    ensures var d, t := s.devices[id], Next(cfg, s, step);
            && (id in t.devices ==> t.devices[id].pub.lastSeen == d.pub.lastSeen && t.devices[id].pub.isStatic == d.pub.isStatic)
            && (id in t.devices <==> d.pub.isStatic || !Overstays(cfg, step, d.pub.lastSeen))
  {
    hide Scraped, Pruned, HintTarget, DerivedOf, HintDevice, Forgotten;
    match step
    case Observe(ev, now, _, _) =>
      HintedSeen(s.devices[id], ev.source, NO_KEY, Stamp(step));
      HintedSeen(s.devices[id], ev.source, ev.endpoint.key, Stamp(step));
    case Scrape(res, order) =>
    case ExpiryTick(now, orders) =>
      TickForgets(cfg, s, now, orders, id);
      PrunedSeen(cfg, s.devices[id], now, OrderFor(orders, id));
  }

  lemma HintedSeen(d: DeviceState, source: string, slot: EndpointKey, at: int)
    ensures var e := HintDevice(d, source, slot, at).0;
            e.pub.lastSeen == d.pub.lastSeen && e.pub.isStatic == d.pub.isStatic
  {
    hide AllUnverified;
  }

  lemma InvSeen(cfg: Config, s: State, id: string)
    requires Inv(cfg, s) && id in s.devices
    ensures SeenCurrent(s.devices[id])
  {
    hide AddrsCurrent;
  }

  lemma PrunedSeen(cfg: Config, d: DeviceState, now: int, order: seq<EndpointKey>)
    requires SeenCurrent(d)
    ensures Pruned(cfg, d, now, order).pub.lastSeen == d.pub.lastSeen
    ensures Pruned(cfg, d, now, order).pub.isStatic == d.pub.isStatic
  {
    RecomputeKeepsRecords(cfg, d.(endpoints := Surviving(cfg, d, now)), order);
    hide Recompute, Surviving;
  }

  /** The dual of the lease. Over any stretch of a run without a sign of life of it, a device
      keeps the LastSeen it had, and it is still registered at the end exactly if it is
      static or no tick has found it silent for longer than the device TTL. */
  lemma {:induction false} SilentDeviceStaysExactlyWhen(cfg: Config, s: State, run: seq<Step>, id: string)
    requires Inv(cfg, s) && id in s.devices && Silent(cfg, s, run, id)
    ensures var d, t := s.devices[id], Exec(cfg, s, run);
            && (id in t.devices ==> t.devices[id].pub.lastSeen == d.pub.lastSeen && t.devices[id].pub.isStatic == d.pub.isStatic)
            && (id in t.devices <==>
                  d.pub.isStatic
                  || forall n :: 0 <= n < |run| && run[n].ExpiryTick? ==> run[n].now - d.pub.lastSeen <= cfg.deviceTTL)
  {
    hide Inv, Next, Silent, Overstays;
    if run != [] {
      var before, last := run[..|run| - 1], run[|run| - 1];
      SilentTurn(cfg, s, run, id);
      SilentDeviceStaysExactlyWhen(cfg, s, before, id);
      ExecKeepsInv(cfg, s, before);
      SilentStep(cfg, Exec(cfg, s, before), last, id);
      PatienceTurns(cfg, run, s.devices[id].pub.lastSeen);
    }
  }

  lemma SilentTurn(cfg: Config, s: State, run: seq<Step>, id: string)
    requires run != [] && Silent(cfg, s, run, id)
    ensures Silent(cfg, s, run[..|run| - 1], id) && !Heard(cfg, Exec(cfg, s, run[..|run| - 1]), run[|run| - 1], id)
  {
    hide Exec, Heard;
    var before := run[..|run| - 1];
    assert forall n :: 0 <= n < |before| ==> before[n] == run[n] && before[..n] == run[..n];
  }

  lemma PatienceTurns(cfg: Config, run: seq<Step>, at: int)
    requires run != []
    ensures var before := run[..|run| - 1];
            (forall n :: 0 <= n < |run| && run[n].ExpiryTick? ==> run[n].now - at <= cfg.deviceTTL)
            <==> (forall n :: 0 <= n < |before| && before[n].ExpiryTick? ==> before[n].now - at <= cfg.deviceTTL)
                 && !Overstays(cfg, run[|run| - 1], at)
  {
    var before := run[..|run| - 1];
    assert forall n :: 0 <= n < |run| ==> run[n] == if n < |before| then before[n] else run[|run| - 1];
  }

  lemma {:induction false} ExecKeepsInv(cfg: Config, s: State, run: seq<Step>)
    requires Inv(cfg, s)
    ensures Inv(cfg, Exec(cfg, s, run))
  {
    hide Inv, Next;
    if run != [] {
      ExecKeepsInv(cfg, s, run[..|run| - 1]);
      StepKeepsInv(cfg, Exec(cfg, s, run[..|run| - 1]), run[|run| - 1]);
    }
  }

  // ---- Handles and goodbyes ----------------------------------------------------------------

  /** A tick takes exactly the handles of the devices it forgets. */
  lemma HandlesGoWithTheirDevice(cfg: Config, s: State, now: int, orders: map<string, seq<EndpointKey>>, h: string)
    requires AliasesLive(s)
    ensures var t := Next(cfg, s, ExpiryTick(now, orders));
            && (h in t.aliases <==> h in s.aliases && s.aliases[h] in t.devices)
            && (h in t.aliases ==> t.aliases[h] == s.aliases[h])
  {
    hide Forgotten, Pruned;
  }

  /** An Add binds its own handles and the identity, and moves no other, but that those of a
      device it renames or merges away follow it. */
  lemma AddMovesOnlyItsHandles(cfg: Config, s: State, step: Step, h: string)
    requires Inv(cfg, s) && IsAdd(step)
    ensures var r, t := Resolve(cfg, s, step.ev), Next(cfg, s, step);
            if h in EventHandles(cfg, step.ev) || h == r.id || Some(h) == r.promoteFrom then h in t.aliases && t.aliases[h] == r.id
            else if h in s.aliases then h in t.aliases && t.aliases[h] == if r.promoteFrom == Some(s.aliases[h]) then r.id else s.aliases[h]
            else h !in t.aliases
  {
    hide Inv, Resolve, Resolved, EventHandles, Next, Stamp, AddTo;
    var r, mid := Resolve(cfg, s, step.ev), Resolved(cfg, s, step.ev, step.mergeOrder);
    NextOfAdd(cfg, s, step);
    AddToAliases(cfg, mid, r.id, step.ev, Stamp(step), step.now, step.order);
    ResolvedAliases(cfg, s, step.ev, step.mergeOrder, h);
    BindsOnly(mid.aliases, r.id, EventHandles(cfg, step.ev));
  }

  lemma AddToAliases(cfg: Config, s: State, id: string, ev: Event, at: int, now: int, order: seq<EndpointKey>)
    ensures AddTo(cfg, s, id, ev, at, now, order).aliases == BindAliases(s.aliases, id, EventHandles(cfg, ev))
  {
    hide Observed, BindAliases, EventHandles;
  }

  lemma ResolvedAliases(cfg: Config, s: State, ev: Event, mo: seq<EndpointKey>, h: string)
    requires Inv(cfg, s)
    ensures var r, t := Resolve(cfg, s, ev), Resolved(cfg, s, ev, mo);
            if Some(h) == r.promoteFrom then h in t.aliases && t.aliases[h] == r.id
            else if h in s.aliases then h in t.aliases && t.aliases[h] == if r.promoteFrom == Some(s.aliases[h]) then r.id else s.aliases[h]
            else h !in t.aliases
  {
    hide *;
    PromotesAnother(cfg, s, ev);
    var r := Resolve(cfg, s, ev);
    ResolvedIs(cfg, s, ev, mo);
    if r.promoteFrom.Some? {
      PromoteAliases(cfg, s, r.promoteFrom.value, r.id, mo);
      Repointed(s.aliases, r.promoteFrom.value, r.id, h);
    }
  }

  lemma Repointed(aliases: map<string, string>, oldID: string, newID: string, h: string)
    ensures var after := Repoint(aliases, oldID, newID);
            (h in after <==> h in aliases) && (h in aliases ==> after[h] == if aliases[h] == oldID then newID else aliases[h])
  {
  }

  lemma PromoteAliases(cfg: Config, s: State, oldID: string, newID: string, order: seq<EndpointKey>)
    requires oldID != newID && oldID in s.devices
    ensures Promote(cfg, s, oldID, newID, order).aliases == Repoint(s.aliases, oldID, newID)[oldID := newID]
  {
    hide Recompute, Merge, Repoint;
  }

  /** The goodbye is for this device: the identity it derives leads there, or leads nowhere
      and its name does. */
  predicate IsFor(cfg: Config, s: State, bye: Event, id: string) {
    var derived, byName := DerivedOf(cfg, bye), PREFIX_NAME + Lower(InstanceLabel(bye.instance));
    if derived in s.aliases then s.aliases[derived] == id else byName in s.aliases && s.aliases[byName] == id
  }

  /** A goodbye casts doubt on the matching endpoints of the one device it is for, from its
      own time on, and leaves every other device, endpoint and handle alone. */
  lemma GoodbyeReaches(cfg: Config, s: State, step: Step, id: string, key: EndpointKey)
    requires step.Observe? && step.ev.kindOf.EventRemove? && id in s.devices && key in s.devices[id].endpoints
    ensures var t, before, bye := Next(cfg, s, step), s.devices[id].endpoints[key], step.ev;
            var hit := IsFor(cfg, s, bye, id) && before.source == bye.source && (bye.endpoint.key == NO_KEY || bye.endpoint.key == key);
            && t.aliases == s.aliases && t.devices.Keys == s.devices.Keys
            && t.devices[id].endpoints.Keys == s.devices[id].endpoints.Keys
            && t.devices[id].endpoints[key] ==
               if hit && !before.unverified then before.(unverified := true, removeHintAt := Stamp(step)) else before
  {
    hide Next, HintDevice, DerivedOf, InstanceLabel, Lower;
    NextOfRemove(cfg, s, step);
    HintsOneEndpoint(s.devices[id], step.ev.source, step.ev.endpoint.key, Stamp(step), key);
  }

  lemma NextOfRemove(cfg: Config, s: State, step: Step)
    requires step.Observe? && step.ev.kindOf.EventRemove?
    ensures Next(cfg, s, step) == ApplyRemoveHint(cfg, s, step.ev, Stamp(step)).0
  {
    hide ApplyRemoveHint;
  }

  lemma HintsOneEndpoint(d: DeviceState, source: string, slot: EndpointKey, at: int, key: EndpointKey)
    requires key in d.endpoints
    ensures var e, before := HintDevice(d, source, slot, at).0, d.endpoints[key];
            && e.endpoints.Keys == d.endpoints.Keys
            && e.endpoints[key] == if before.source == source && (slot == NO_KEY || slot == key) && !before.unverified
                                   then before.(unverified := true, removeHintAt := at) else before
  {
    hide AllUnverified;
  }

  /** What was announced can be taken back: right after an Add, a goodbye under the same
      instance name finds the device the Add went to, whichever that was, unless it derives
      an identity of its own that leads elsewhere. */
  lemma GoodbyeFindsItsDevice(cfg: Config, s: State, step: Step, bye: Event)
    requires Inv(cfg, s) && IsAdd(step)
    requires InstanceLabel(bye.instance) == InstanceLabel(step.ev.instance) != ""
    requires DerivedOf(cfg, bye) in EventHandles(cfg, step.ev) || DerivedOf(cfg, bye) !in Next(cfg, s, step).aliases
    ensures IsFor(cfg, Next(cfg, s, step), bye, Resolve(cfg, s, step.ev).id)
  {
    NameIsHandle(cfg, step.ev);
    AddMovesOnlyItsHandles(cfg, s, step, DerivedOf(cfg, bye));
    AddMovesOnlyItsHandles(cfg, s, step, PREFIX_NAME + Lower(InstanceLabel(bye.instance)));
    hide Next, Resolve, EventHandles, DerivedOf, InstanceLabel, Lower, Inv;
  }

  lemma NameIsHandle(cfg: Config, ev: Event)
    ensures InstanceLabel(ev.instance) != "" ==> PREFIX_NAME + Lower(InstanceLabel(ev.instance)) in EventHandles(cfg, ev)
  {
    hide InstanceLabel, NormaliseMAC, DerivedOf, Lower;
  }

  /** What an event is known by: its name, the full MAC of its TXT record, that record's "id"
      as a name, and the identity it derives; and by nothing else. */
  lemma HandlesAre(cfg: Config, ev: Event, h: string)
    ensures var bare, mac, id := InstanceLabel(ev.instance), NormaliseMAC(cfg.fold, Get(ev.endpoint.txt, "mac")), Get(ev.endpoint.txt, "id");
            h in EventHandles(cfg, ev) <==>
              || (bare != "" && h == "name:" + Lower(bare))
              || (|mac| == 12 && h == "mac:" + mac)
              || (id != "" && h == "name:" + Lower(id))
              || h == DerivedOf(cfg, ev)
  {
    hide InstanceLabel, NormaliseMAC, DerivedOf, Lower;
  }

  /** One handle in common is enough: right after an Add, an event that shares any of its
      handles, and has none that leads elsewhere, is of the device the Add went to, and at
      most gives it the stronger identity it derives. */
  lemma HeardAgainUnderAnyHandle(cfg: Config, s: State, step: Step, again: Event, h: string)
    requires Inv(cfg, s) && IsAdd(step) && again.deviceID == ""
    requires h in EventHandles(cfg, again) && h in EventHandles(cfg, step.ev)
    requires forall x :: x in EventHandles(cfg, again) ==> x in EventHandles(cfg, step.ev) || x !in Next(cfg, s, step).aliases
    ensures var id, derived := Resolve(cfg, s, step.ev).id, DerivedOf(cfg, again);
            Resolve(cfg, Next(cfg, s, step), again) ==
            if IsMACID(derived) && !IsMACID(id) then Resolution(derived, Some(id)) else Resolution(id, None)
  {
    hide Next, EventHandles, DerivedOf, IsMACID, Inv;
    var id, t := Resolve(cfg, s, step.ev).id, Next(cfg, s, step);
    forall x | x in EventHandles(cfg, again) && x in t.aliases ensures t.aliases[x] == id { AddMovesOnlyItsHandles(cfg, s, step, x); }
    AddMovesOnlyItsHandles(cfg, s, step, h);
    assert FirstBound(t.aliases, EventHandles(cfg, again)) == Some(id);
    hide FirstBound, MatchShortID;
  }
}
