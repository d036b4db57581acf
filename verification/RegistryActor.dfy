/** The registry as the source runs it: one actor updating its maps in place, ranging over
    them in whatever order comes. Every method is proved to leave the state the model gives,
    for the orders it happened to take. */
module RegistryActor {
  import opened Common
  import opened Identity
  import opened Address
  import opened RegistryModel
  import opened RegistryInvariants
  import opened Snapshots

  /** What the loop can be woken by. */
  datatype Wake =
    | OnEvent(ev: Event, now: int)
    | OnResult(res: ScrapeResult)
    | OnExpiry(now: int)
    | OnRefresh
    | OnPublish(now: int)

  class Registry {
    const cfg: Config
    var devices: map<string, DeviceState>
    var aliases: map<string, string>
    var promotions: nat
    var merges: nat
    var snapshot: Snapshot
    var dirty: bool
    var armed: bool

    ghost function Model(): State
      reads this
    {
      State(devices, aliases, promotions, merges)
    }

    ghost function LoopState(): Loop
      reads this
    {
      Loop(Model(), dirty, armed, snapshot)
    }

    ghost predicate Valid()
      reads this
    {
      LoopInv(cfg, LoopState())
    }

    constructor (cfg: Config, now: int)
      ensures this.cfg == cfg && Initial(LoopState()) && Valid()
    {
      this.cfg := cfg;
      devices, aliases, promotions, merges := map[], map[], 0, 0;
      snapshot, dirty, armed := Snapshot(now, [], map[]), false, false;
      new;
      InitialInv(cfg, LoopState());
    }

    // ---- Addresses ------------------------------------------------------------------

    /** Ranges over the endpoints, gathering candidate addresses and the first port. */
    method CollectCandidates(eps: Endpoints, port: nat)
      returns (candidates: seq<Candidate>, found: nat, ghost order: seq<EndpointKey>)
      ensures IsEnumeration(order, eps.Keys) && (forall k :: k in order ==> k in eps)
      ensures candidates == Candidates(eps, order) && found == FirstPort(port, eps, order)
      ensures found == 0 <==> port == 0 && forall k :: k in eps ==> eps[k].ep.port == 0
    {
      candidates, found, order := [], port, [];
      var rest := eps.Keys;
      while rest != {}
        invariant Distinct(order) && Elements(order) !! rest && Elements(order) + rest == eps.Keys
        invariant forall k :: k in order ==> k in eps
        invariant candidates == Candidates(eps, order)
        invariant found == FirstPort(port, eps, order)
        invariant found == 0 <==> port == 0 && forall k :: k in eps && k !in rest ==> eps[k].ep.port == 0
        decreases rest
      {
        var k :| k in rest;
        var ep := eps[k].ep;
        candidates := candidates + [Candidate(ep.addr, ep.trusted)];
        if found == 0 && ep.port != 0 { found := ep.port; }
        assert (order + [k])[..|order|] == order;
        assert k !in Elements(order) && Elements(order + [k]) == Elements(order) + {k};
        order := order + [k];
        rest := rest - {k};
      }
    }

    method RecomputeAddrs(dev: DeviceState) returns (d: DeviceState, ghost order: seq<EndpointKey>)
      ensures d == Recompute(cfg, dev, order)
    {
      hide OrderCandidates, Candidates, FirstPort;
      var candidates, port;
      candidates, port, order := CollectCandidates(dev.endpoints, dev.pub.port);
      var next, rejected := ComputeOrderCandidates(cfg.policy, candidates, PinOf(dev));
      d := dev.(pub := dev.pub.(port := port, rejectedAddrs := rejected));
      if next != d.pub.addrs {
        d := d.(pub := d.pub.(addrs := next, epoch := d.pub.epoch + 1));
      }
    }

    // ---- Identity -------------------------------------------------------------------

    method MergeEndpoints(target: Endpoints, weak: Endpoints) returns (eps: Endpoints)
      ensures eps == target + weak
    {
      eps := target;
      var rest := weak.Keys;
      while rest != {}
        invariant rest <= weak.Keys && eps == target + (map k | k in weak && k !in rest :: weak[k])
        decreases rest
      {
        var k :| k in rest;
        eps := eps[k := weak[k]];
        rest := rest - {k};
      }
      assert (map k | k in weak && k !in rest :: weak[k]) == weak;
    }

    method RepointAliases(oldID: string, newID: string)
      modifies this`aliases
      ensures aliases == Repoint(old(aliases), oldID, newID)
    {
      ghost var was := aliases;
      var rest := aliases.Keys;
      while rest != {}
        invariant rest <= aliases.Keys == was.Keys
        invariant forall h :: h in rest ==> aliases[h] == was[h]
        invariant forall h :: h in was && h !in rest ==> aliases[h] == if was[h] == oldID then newID else was[h]
        decreases rest
      {
        var h :| h in rest;
        if aliases[h] == oldID { aliases := aliases[h := newID]; }
        rest := rest - {h};
      }
    }

    /** Folds a weakly identified device into its strong identity. */
    method Promote(oldID: string, newID: string) returns (ghost order: seq<EndpointKey>)
      modifies this`devices, this`aliases, this`promotions, this`merges
      ensures Model() == RegistryModel.Promote(cfg, old(Model()), oldID, newID, order)
    {
      hide Recompute;
      order := [];
      if oldID == newID || oldID !in devices { return; }
      var weak := devices[oldID];
      var target: DeviceState;
      if newID !in devices {
        target := weak.(pub := weak.pub.(id := newID));
        promotions := promotions + 1;
      } else {
        target := devices[newID];
        var eps := MergeEndpoints(target.endpoints, weak.endpoints);
        target := target.(endpoints := eps, pub := target.pub.(txt := target.pub.txt + weak.pub.txt),
                          sources := target.sources + weak.sources);
        if target.lastDiscovery < weak.lastDiscovery { target := target.(lastDiscovery := weak.lastDiscovery); }
        if target.lastSuccess < weak.lastSuccess { target := target.(lastSuccess := weak.lastSuccess); }
        if weak.pub.firstSeen < target.pub.firstSeen {
          target := target.(pub := target.pub.(firstSeen := weak.pub.firstSeen));
        }
        if target.provisionalName && !weak.provisionalName {
          target := target.(pub := target.pub.(name := weak.pub.name), provisionalName := false);
        }
        assert target == Merge(devices[newID], weak);
        merges := merges + 1;
      }
      devices := devices - {oldID};
      RepointAliases(oldID, newID);
      aliases := aliases[oldID := newID];
      target, order := RecomputeAddrs(target);
      devices := devices[newID := target];
    }

    /** The identifier of the one Shelly of the wanted form with the suffix, or "". */
    method OnlyMatch(short: bool, suffix: string) returns (found: string)
      ensures var ids := if short then ShortMatches(devices, suffix) else MACMatches(devices, suffix);
              found == match Only(ids) case Some(id) => id case None => ""
    {
      ghost var ids := if short then ShortMatches(devices, suffix) else MACMatches(devices, suffix);
      assert "" !in ids;
      found := "";
      var rest := devices.Keys;
      while rest != {}
        invariant rest <= devices.Keys
        invariant ids - rest == if found == "" then {} else {found}
        decreases rest
      {
        var id :| id in rest;
        ghost var seen := ids - rest;
        rest := rest - {id};
        assert ids - rest == if id in ids then seen + {id} else seen;
        if devices[id].pub.kind.Shelly? && (if short then IsShortID(id) else IsMACID(id)) && HasSuffix(id, suffix) {
          if found != "" {
            assert found in ids && id in ids && found != id;
            assert Only(ids) == None;
            return "";
          }
          found := id;
        }
      }
      assert ids - rest == ids;
    }

    method MatchShortID(kind: Kind, derived: string) returns (id: string, ghost order: seq<EndpointKey>)
      requires IsMACID(derived) ==> |derived| == 16
      modifies this`devices, this`aliases, this`promotions, this`merges
      ensures var r := RegistryModel.MatchShortID(old(Model()), kind, derived);
              id == (if r.Some? then r.value.id else "") &&
              Model() == (if r.Some? then Following(cfg, old(Model()), r.value, order) else old(Model())) &&
              (r.Some? <==> id != "")
    {
      hide RegistryModel.Promote, HasSuffix;
      id, order := "", [];
      if !kind.Shelly? { return; }
      if IsMACID(derived) {
        var found := OnlyMatch(true, "-" + MACOfID(derived)[6..]);
        if found != "" {
          order := Promote(found, derived);
          id := derived;
        }
      } else if IsShortID(derived) {
        var i := LastIndex(derived, '-');
        if i.Some? {
          id := OnlyMatch(false, derived[i.value + 1..]);
        }
      }
    }

    method ResolveID(ev: Event) returns (id: string, ghost order: seq<EndpointKey>)
      modifies this`devices, this`aliases, this`promotions, this`merges
      ensures id == Resolve(cfg, old(Model()), ev).id
      ensures Model() == Resolved(cfg, old(Model()), ev, order)
    {
      hide RegistryModel.Promote, RegistryModel.MatchShortID, EventHandles, DeriveID;
      order := [];
      if ev.deviceID != "" { return ev.deviceID, []; }
      var derived := DerivedOf(cfg, ev);
      var bound := FirstBound(aliases, EventHandles(cfg, ev));
      if bound.Some? {
        if IsMACID(derived) && !IsMACID(bound.value) {
          order := Promote(bound.value, derived);
          return derived, order;
        }
        return bound.value, [];
      }
      // The source looks the derived identifier up once more here; being a handle itself, it
      // cannot be bound when none is.
      assert derived !in aliases;
      id, order := MatchShortID(ev.kind, derived);
      if id == "" { id := derived; }
    }

    method BindAliases(id: string, handles: seq<string>)
      modifies this`aliases
      ensures aliases == RegistryModel.BindAliases(old(aliases), id, handles)
    {
      ghost var was := aliases;
      for i := 0 to |handles|
        invariant forall h :: h in aliases <==> h in was || h in handles[..i]
        invariant forall h :: h in aliases ==> aliases[h] == if h in handles[..i] then id else was[h]
      {
        assert handles[..i + 1] == handles[..i] + [handles[i]];
        aliases := aliases[handles[i] := id];
      }
      assert handles[..|handles|] == handles;
      aliases := aliases[id := id];
    }

    // ---- Handlers -------------------------------------------------------------------

    /** Takes in what an observation says about a device. */
    method TakeIn(was: DeviceState, ev: Event, at: int) returns (dev: DeviceState)
      ensures dev == Absorb(was, ev, at)
    {
      dev := was.(sources := was.sources + {ev.source}, lastDiscovery := at,
                  endpoints := was.endpoints[ev.endpoint.key := EndpointState(ev.endpoint, false, 0, ev.source)]);
      var pub := was.pub.(txt := was.pub.txt + ev.endpoint.txt, unverified := false);
      if ev.source == SOURCE_STATIC { pub := pub.(isStatic := true); }
      if pub.kind.Unknown? && !ev.kind.Unknown? { pub := pub.(kind := ev.kind); }
      if ev.endpoint.host != "" { pub := pub.(hostname := ev.endpoint.host); }
      if ev.endpoint.port != 0 { pub := pub.(port := ev.endpoint.port); }
      dev := dev.(pub := pub);
    }

    method ApplyAdd(ev: Event, at: int, now: int)
      returns (changed: bool, ghost mergeOrder: seq<EndpointKey>, ghost order: seq<EndpointKey>)
      modifies this`devices, this`aliases, this`promotions, this`merges
      ensures (Model(), changed) == RegistryModel.ApplyAdd(cfg, old(Model()), ev, at, now, mergeOrder, order)
    {
      hide Resolve, Resolved, Recompute, EventHandles, RegistryModel.BindAliases, InstanceLabel, Absorb, DeriveID;
      order := [];
      var id;
      id, mergeOrder := ResolveID(ev);
      if id == "" { return false, mergeOrder, []; }
      ghost var s1 := Model();
      var dev: DeviceState;
      if id !in devices {
        dev := NewDevice(id, ev, now);
      } else {
        dev := devices[id];
        if dev.provisionalName && !ev.unnamed {
          var name := InstanceLabel(ev.instance);
          if name != "" { dev := dev.(pub := dev.pub.(name := name), provisionalName := false); }
        }
        assert dev == Renamed(devices[id], ev);
      }
      hide NewDevice, Renamed;
      BindAliases(id, EventHandles(cfg, ev));
      dev := TakeIn(dev, ev, at);
      dev, order := RecomputeAddrs(dev);
      devices := devices[id := Touch(dev)];
      changed := true;
    }

    /** Marks every matching verified endpoint of a device as hinted. */
    method HintEndpoints(dev: DeviceState, source: string, key: EndpointKey, at: int) returns (d: DeviceState, changed: bool)
      ensures (d, changed) == HintDevice(dev, source, key, at)
    {
      var eps := dev.endpoints;
      changed := false;
      var rest := eps.Keys;
      while rest != {}
        invariant rest <= eps.Keys == dev.endpoints.Keys
        invariant forall k :: k in rest ==> eps[k] == dev.endpoints[k]
        invariant forall k :: k in eps && k !in rest ==>
                    eps[k] == if Hinted(k, dev.endpoints[k], source, key) then Hint(dev.endpoints[k], at) else dev.endpoints[k]
        invariant changed == exists k :: k in eps && k !in rest && Hinted(k, dev.endpoints[k], source, key)
        decreases rest
      {
        var k :| k in rest;
        rest := rest - {k};
        var ep := eps[k];
        if ep.source == source && (key == NO_KEY || k == key) && !ep.unverified {
          eps := eps[k := ep.(unverified := true, removeHintAt := at)];
          changed := true;
        }
      }
      ghost var hinted: Endpoints := map k | k in dev.endpoints ::
        if Hinted(k, dev.endpoints[k], source, key) then Hint(dev.endpoints[k], at) else dev.endpoints[k];
      assert eps == hinted;
      d := if changed then dev.(endpoints := eps, pub := dev.pub.(unverified := AllUnverified(eps))) else dev;
    }

    method ApplyRemoveHint(ev: Event, at: int) returns (changed: bool)
      modifies this`devices
      ensures (Model(), changed) == RegistryModel.ApplyRemoveHint(cfg, old(Model()), ev, at)
    {
      hide HintDevice, DeriveID, InstanceLabel;
      var derived, byName := DerivedOf(cfg, ev), PREFIX_NAME + Lower(InstanceLabel(ev.instance));
      var id: string;
      if derived in aliases { id := aliases[derived]; }
      else if byName in aliases { id := aliases[byName]; }
      else { return false; }
      if id !in devices { return false; }
      var dev;
      dev, changed := HintEndpoints(devices[id], ev.source, ev.endpoint.key, at);
      devices := devices[id := dev];
    }

    method MarkSourceUnverified(source: string, at: int) returns (changed: bool)
      modifies this`devices
      ensures (Model(), changed) == RegistryModel.MarkSourceUnverified(old(Model()), source, at)
    {
      hide HintDevice;
      ghost var was := devices;
      changed := false;
      var rest := devices.Keys;
      while rest != {}
        invariant rest <= devices.Keys == was.Keys
        invariant forall id :: id in rest ==> devices[id] == was[id]
        invariant forall id :: id in was && id !in rest ==> devices[id] == HintDevice(was[id], source, NO_KEY, at).0
        invariant changed == exists id :: id in was && id !in rest && HintDevice(was[id], source, NO_KEY, at).1
        decreases rest
      {
        var id :| id in rest;
        rest := rest - {id};
        var dev, devChanged := HintEndpoints(devices[id], source, NO_KEY, at);
        devices := devices[id := dev];
        if devChanged { changed := true; }
      }
      assert devices == map id | id in was :: HintDevice(was[id], source, NO_KEY, at).0;
    }

    method ApplyEvent(ev: Event, now: int)
      returns (changed: bool, ghost mergeOrder: seq<EndpointKey>, ghost order: seq<EndpointKey>)
      modifies this`devices, this`aliases, this`promotions, this`merges
      ensures (Model(), changed) == RegistryModel.ApplyEvent(cfg, old(Model()), ev, now, mergeOrder, order)
    {
      hide RegistryModel.ApplyAdd, RegistryModel.ApplyRemoveHint, RegistryModel.MarkSourceUnverified;
      mergeOrder, order := [], [];
      var at := if ev.at == 0 then now else ev.at;
      match ev.kindOf
      case EventSourceReset => changed := MarkSourceUnverified(ev.source, at);
      case EventRemove => changed := ApplyRemoveHint(ev, at);
      case EventAdd => changed, mergeOrder, order := ApplyAdd(ev, at, now);
      case EventOther => changed := false;
    }

    method ConfirmEndpoints(was: Endpoints, addr: Addr, at: int) returns (eps: Endpoints)
      ensures eps == Confirm(was, addr, at)
    {
      eps := was;
      var rest := eps.Keys;
      while rest != {}
        invariant rest <= eps.Keys == was.Keys
        invariant forall k :: k in rest ==> eps[k] == was[k]
        invariant forall k :: k in was && k !in rest ==> eps[k] == Confirm(was, addr, at)[k]
        decreases rest
      {
        var k :| k in rest;
        rest := rest - {k};
        if eps[k].ep.addr == addr {
          eps := eps[k := eps[k].(unverified := false, ep := eps[k].ep.(observedAt := at))];
        }
      }
    }

    method ApplyScrapeResult(res: ScrapeResult) returns (changed: bool, ghost order: seq<EndpointKey>)
      modifies this`devices
      ensures (Model(), changed) == RegistryModel.ApplyScrapeResult(cfg, old(Model()), res, order)
    {
      hide Recompute, Confirm;
      order := [];
      if res.deviceID !in devices { return false, []; }
      if !res.success { return false, []; }
      var dev := devices[res.deviceID].(lastSuccess := res.at);
      if res.addr.IsValid() && (!dev.hasPinned || dev.pinned != res.addr) {
        dev, order := RecomputeAddrs(dev.(pinned := res.addr, hasPinned := true));
      }
      var eps := ConfirmEndpoints(dev.endpoints, res.addr, res.at);
      dev := dev.(endpoints := eps, pub := dev.pub.(unverified := AllUnverified(eps)));
      devices := devices[res.deviceID := Touch(dev)];
      assert Touch(dev) == Scraped(cfg, old(devices)[res.deviceID], res.addr, res.at, order);
      changed := true;
    }

    method SurvivingEndpoints(dev: DeviceState, now: int) returns (eps: Endpoints, changed: bool)
      ensures eps == Surviving(cfg, dev, now) && changed == (eps != dev.endpoints)
    {
      eps, changed := dev.endpoints, false;
      var rest := eps.Keys;
      while rest != {}
        invariant rest <= eps.Keys <= dev.endpoints.Keys
        invariant forall k :: k in eps ==> eps[k] == dev.endpoints[k]
        invariant forall k :: k in dev.endpoints && k !in rest ==>
                    (k in eps <==> !Lapsed(cfg, dev.endpoints[k], dev.lastSuccess, now))
        invariant changed == (eps.Keys != dev.endpoints.Keys)
        decreases rest
      {
        var k :| k in rest;
        rest := rest - {k};
        var expired := now - eps[k].ep.observedAt > cfg.endpointTTL;
        var hinted := eps[k].unverified && eps[k].removeHintAt != 0 && now - eps[k].removeHintAt > cfg.removeGrace
                      && dev.lastSuccess < eps[k].removeHintAt;
        if expired || hinted {
          eps := eps - {k};
          changed := true;
        }
      }
    }

    method PruneDevice(dev: DeviceState, now: int) returns (d: DeviceState, changed: bool, ghost order: seq<EndpointKey>)
      ensures d == Pruned(cfg, dev, now, order) && changed == (d != dev)
      ensures d.pub.isStatic == dev.pub.isStatic
    {
      hide Surviving;
      d, changed, order := dev, false, [];
      if dev.pub.isStatic { return; }
      var eps;
      eps, changed := SurvivingEndpoints(dev, now);
      if changed {
        d, order := RecomputeAddrs(dev.(endpoints := eps));
        d := Touch(d);
        RecomputeFacts(cfg, dev.(endpoints := eps), order);
      }
    }

    method Forget(id: string)
      modifies this`devices, this`aliases
      ensures devices == old(devices) - {id}
      ensures forall h :: h in aliases ==> h in old(aliases) && aliases[h] == old(aliases)[h]
      ensures forall h :: h in old(aliases) ==> (h in aliases <==> old(aliases)[h] != id)
    {
      devices := devices - {id};
      ghost var was := aliases;
      var rest := aliases.Keys;
      while rest != {}
        invariant devices == old(devices) - {id} && rest <= aliases.Keys <= was.Keys
        invariant forall h :: h in aliases ==> aliases[h] == was[h]
        invariant forall h :: h in was && h !in rest ==> (h in aliases <==> was[h] != id)
        decreases rest
      {
        var h :| h in rest;
        rest := rest - {h};
        if aliases[h] == id { aliases := aliases - {h}; }
      }
    }

    method Expire(now: int) returns (changed: bool, ghost orders: map<string, seq<EndpointKey>>)
      modifies this`devices, this`aliases
      ensures (Model(), changed) == RegistryModel.Expire(cfg, old(Model()), now, orders)
    {
      hide Pruned, Forgotten, RegistryModel.Expire, Passed, AliasesLeft;
      ghost var was := Model();
      ghost var decided: map<string, Option<DeviceState>> := map[];
      changed, orders := false, map[];
      var rest := devices.Keys;
      PassStarts(was.devices, was.aliases);
      while rest != {}
        invariant rest <= devices.Keys && promotions == was.promotions && merges == was.merges
        invariant Passed(was.devices, devices, rest, decided) && orders.Keys == decided.Keys <= was.devices.Keys
        invariant AliasesLeft(was.aliases, aliases, Dropped(decided))
        invariant forall id :: id in decided ==> decided[id] == Verdict(cfg, was.devices[id], now, orders[id])
        invariant changed <==> exists id :: id in decided && decided[id] != Some(was.devices[id])
        decreases rest
      {
        var id :| id in rest;
        PassVisits(was.devices, devices, rest, decided, id);
        ghost var before := Model();
        var dev, devChanged;
        ghost var order;
        dev, devChanged, order := PruneDevice(devices[id], now);
        ForgottenIs(cfg, devices[id], now, order);
        devices := devices[id := dev];
        var expired := !dev.pub.isStatic && now - dev.pub.lastSeen > cfg.deviceTTL;
        if expired { Forget(id); }
        ghost var verdict := if expired then None else Some(dev);
        assert devices == if expired then before.devices - {id} else before.devices[id := dev];
        PassOne(was.devices, before.devices, rest, decided, id, verdict, devices);
        AliasesForgotten(was.aliases, before.aliases, aliases, decided, id, verdict);
        rest := rest - {id};
        if devChanged || expired { changed := true; }
        orders, decided := orders[id := order], decided[id := verdict];
      }
      PassIsExpire(cfg, was, Model(), decided, orders, now, changed);
    }

    // ---- Publication and the loop -----------------------------------------------------

    /** Copies every device into a new snapshot. */
    method Publish(now: int)
      requires forall id :: id in devices ==> devices[id].pub.id == id
      modifies this`snapshot
      ensures IsCopyOf(snapshot, Model()) && snapshot.at == now
    {
      var copies: seq<Device> := [];
      var rest := devices.Keys;
      while rest != {}
        invariant rest <= devices.Keys && UniqueIDs(copies)
        invariant forall d :: d in copies <==> d.id in devices && d.id !in rest && devices[d.id].pub == d
        decreases rest
      {
        var id :| id in rest;
        rest := rest - {id};
        copies := copies + [devices[id].pub];
      }
      snapshot := NewSnapshot(now, copies);
      assert Elements(snapshot.devices) == Views(Model()) by {
        forall d ensures d in Elements(copies) <==> d in Views(Model()) {
          if d in Views(Model()) {
            var id :| id in devices && devices[id].pub == d;
          }
        }
      }
    }

    method MarkDirty()
      modifies this`dirty, this`armed
      ensures LoopState() == Snapshots.MarkDirty(old(LoopState()))
    {
      if dirty { return; }
      dirty := true;
      armed := true;
    }

    method HandleEvent(ev: Event, now: int) returns (ghost input: Input)
      requires Valid()
      modifies this
      ensures Valid() && Turn(cfg, old(LoopState()), input, LoopState())
    {
      hide Inv, RegistryModel.ApplyEvent, RegistryModel.ApplyScrapeResult, RegistryModel.Expire, LoopInv, Turn;
      ghost var was := LoopState();
      var changed;
      ghost var mergeOrder, order;
      changed, mergeOrder, order := ApplyEvent(ev, now);
      input := Handle(Observe(ev, now, mergeOrder, order));
      HandledTurn(cfg, was, input.step, Model(), changed);
      if changed { MarkDirty(); }
      TurnKeepsInv(cfg, was, input, LoopState());
    }

    method HandleResult(res: ScrapeResult) returns (ghost input: Input)
      requires Valid()
      modifies this
      ensures Valid() && Turn(cfg, old(LoopState()), input, LoopState())
    {
      hide Inv, RegistryModel.ApplyEvent, RegistryModel.ApplyScrapeResult, RegistryModel.Expire, LoopInv, Turn;
      ghost var was := LoopState();
      var changed;
      ghost var order;
      changed, order := ApplyScrapeResult(res);
      input := Handle(Scrape(res, order));
      HandledTurn(cfg, was, input.step, Model(), changed);
      if changed { MarkDirty(); }
      TurnKeepsInv(cfg, was, input, LoopState());
    }

    method HandleExpiry(now: int) returns (ghost input: Input)
      requires Valid()
      modifies this
      ensures Valid() && Turn(cfg, old(LoopState()), input, LoopState())
    {
      hide Inv, RegistryModel.ApplyEvent, RegistryModel.ApplyScrapeResult, RegistryModel.Expire, LoopInv, Turn;
      ghost var was := LoopState();
      var changed;
      ghost var orders;
      changed, orders := Expire(now);
      input := Handle(ExpiryTick(now, orders));
      HandledTurn(cfg, was, input.step, Model(), changed);
      if changed { MarkDirty(); }
      TurnKeepsInv(cfg, was, input, LoopState());
    }

    method HandleRefresh() returns (ghost input: Input)
      requires Valid()
      modifies this
      ensures Valid() && Turn(cfg, old(LoopState()), input, LoopState())
    {
      hide Inv, LoopInv;
      ghost var was := LoopState();
      MarkDirty();
      input := RefreshTick;
      TurnKeepsInv(cfg, was, input, LoopState());
    }

    method HandlePublish(now: int) returns (ghost input: Input)
      requires Valid() && armed
      modifies this
      ensures Valid() && Turn(cfg, old(LoopState()), input, LoopState())
    {
      ghost var was := LoopState();
      RecordsUnderTheirIDs(cfg, Model());
      hide Inv, LoopInv, IsCopyOf;
      dirty, armed := false, false;
      Publish(now);
      input := TimerFires(now);
      TurnKeepsInv(cfg, was, input, LoopState());
    }

    /** One turn of the loop: whatever woke it is handled, and what the model calls that turn
        is what happened. A timer that is not armed cannot wake it. */
    method Wake(w: Wake) returns (ghost inputs: seq<Input>)
      requires Valid()
      modifies this
      ensures Valid() && |inputs| <= 1
      ensures |inputs| == 0 ==> LoopState() == old(LoopState())
      ensures |inputs| == 1 ==> Turn(cfg, old(LoopState()), inputs[0], LoopState())
      ensures |inputs| == 0 <==> w.OnPublish? && !old(armed)
    {
      hide LoopInv, Turn;
      inputs := [];
      ghost var input;
      match w {
        case OnEvent(ev, now) => input := HandleEvent(ev, now);
        case OnResult(res) => input := HandleResult(res);
        case OnExpiry(now) => input := HandleExpiry(now);
        case OnRefresh => input := HandleRefresh();
        case OnPublish(now) =>
          if !armed { return; }
          input := HandlePublish(now);
      }
      inputs := [input];
    }

    /** The actor until its wake-ups run out: every turn it takes is a turn of the model, so
        whatever holds of the model's executions holds of it. */
    method Run(wakes: seq<Wake>) returns (ghost states: seq<Loop>, ghost inputs: seq<Input>)
      requires Valid() && Initial(LoopState())
      modifies this
      ensures Valid() && |states| == |inputs| + 1 && Execution(cfg, states, inputs) && states[|inputs|] == LoopState()
    {
      states, inputs := [LoopState()], [];
      assert Execution(cfg, states, inputs);
      for i := 0 to |wakes|
        invariant Valid() && |states| == |inputs| + 1 && Execution(cfg, states, inputs) && states[|inputs|] == LoopState()
      {
        hide Turn, LoopInv, Initial, Execution;
        ghost var turn := Wake(wakes[i]);
        if |turn| == 1 {
          ExecutionExtends(cfg, states, inputs, turn[0], LoopState());
          states, inputs := states + [LoopState()], inputs + [turn[0]];
        }
      }
    }
  }

  lemma ExecutionExtends(cfg: Config, states: seq<Loop>, inputs: seq<Input>, input: Input, next: Loop)
    requires Execution(cfg, states, inputs) && Turn(cfg, states[|inputs|], input, next)
    ensures Execution(cfg, states + [next], inputs + [input])
  {
    hide Turn, Initial;
    var ls, ins := states + [next], inputs + [input];
    forall i | 0 <= i < |ins| ensures Turn(cfg, ls[i], ins[i], ls[i + 1]) {
      if i < |inputs| { assert Turn(cfg, states[i], inputs[i], states[i + 1]); }
    }
  }

  lemma HandledTurn(cfg: Config, was: Loop, step: Step, reg: State, changed: bool)
    requires (reg, changed) == Apply(cfg, was.reg, step)
    ensures Turn(cfg, was, Handle(step), if changed then Snapshots.MarkDirty(was.(reg := reg)) else was.(reg := reg))
  {
    hide Apply;
  }

  lemma RecordsUnderTheirIDs(cfg: Config, s: State)
    requires Inv(cfg, s)
    ensures forall id :: id in s.devices ==> s.devices[id].pub.id == id
  {
    hide AddrsCurrent;
    assert forall id :: id in s.devices ==> RecordOK(cfg, id, s.devices[id]);
  }

  /** What an expiry pass decides for a device: nothing if it is forgotten, else what is left. */
  ghost function Verdict(cfg: Config, d: DeviceState, now: int, order: seq<EndpointKey>): Option<DeviceState> {
    if Forgotten(cfg, d, now, order) then None else Some(Pruned(cfg, d, now, order))
  }

  /** How far a pass over a map has come: `rest` is as it was, the others are as decided. */
  ghost predicate Passed<V(!new)>(was: map<string, V>, cur: map<string, V>, rest: set<string>, decided: map<string, Option<V>>) {
    && rest !! decided.Keys && rest + decided.Keys == was.Keys && cur.Keys <= was.Keys
    && (forall id :: id in rest ==> id in cur && cur[id] == was[id])
    && (forall id :: id in decided ==> (id in cur <==> decided[id].Some?))
    && (forall id :: id in decided && id in cur ==> decided[id] == Some(cur[id]))
  }

  lemma PassOne<V(!new)>(was: map<string, V>, cur: map<string, V>, rest: set<string>, decided: map<string, Option<V>>,
                         id: string, v: Option<V>, next: map<string, V>)
    requires Passed(was, cur, rest, decided) && id in rest
    requires next == if v.Some? then cur[id := v.value] else cur - {id}
    ensures Passed(was, next, rest - {id}, decided[id := v])
  {
  }

  ghost function Dropped<V>(decided: map<string, Option<V>>): set<string> {
    set id | id in decided && decided[id].None?
  }

  /** The handles left once those of the forgotten devices are dropped. */
  ghost predicate AliasesLeft(was: map<string, string>, aliases: map<string, string>, gone: set<string>) {
    && (forall h :: h in aliases ==> h in was && aliases[h] == was[h])
    && (forall h :: h in was ==> (h in aliases <==> was[h] !in gone))
  }

  lemma AliasesLeftMore(a: map<string, string>, b: map<string, string>, c: map<string, string>, gone: set<string>, more: set<string>)
    requires AliasesLeft(a, b, gone) && AliasesLeft(b, c, more)
    ensures AliasesLeft(a, c, gone + more)
  {
  }

  lemma AliasesForgotten(was: map<string, string>, before: map<string, string>, aliases: map<string, string>,
                         decided: map<string, Option<DeviceState>>, id: string, v: Option<DeviceState>)
    requires AliasesLeft(was, before, Dropped(decided)) && id !in decided
    requires v.Some? ==> aliases == before
    requires v.None? ==>
               && (forall h :: h in aliases ==> h in before && aliases[h] == before[h])
               && (forall h :: h in before ==> (h in aliases <==> before[h] != id))
    ensures AliasesLeft(was, aliases, Dropped(decided[id := v]))
  {
    var more := if v.None? then {id} else {};
    assert AliasesLeft(before, aliases, more);
    AliasesLeftMore(was, before, aliases, Dropped(decided), more);
    assert Dropped(decided[id := v]) == Dropped(decided) + more;
  }

  lemma PassStarts(devices: map<string, DeviceState>, aliases: map<string, string>)
    ensures Passed(devices, devices, devices.Keys, map[])
    ensures AliasesLeft(aliases, aliases, Dropped<DeviceState>(map[]))
  {
  }

  lemma PassVisits<V(!new)>(was: map<string, V>, cur: map<string, V>, rest: set<string>, decided: map<string, Option<V>>, id: string)
    requires Passed(was, cur, rest, decided) && id in rest
    ensures id in was && id in cur && cur[id] == was[id] && id !in decided
  {
  }

  /** A whole pass, with every decision the model's, leaves what the model's Expire does. */
  lemma PassIsExpire(cfg: Config, was: State, s: State, decided: map<string, Option<DeviceState>>,
                     orders: map<string, seq<EndpointKey>>, now: int, changed: bool)
    requires Passed(was.devices, s.devices, {}, decided) && orders.Keys == decided.Keys
    requires AliasesLeft(was.aliases, s.aliases, Dropped(decided))
    requires forall id :: id in decided ==> decided[id] == Verdict(cfg, was.devices[id], now, orders[id])
    requires changed <==> exists id :: id in decided && decided[id] != Some(was.devices[id])
    requires s.promotions == was.promotions && s.merges == was.merges
    ensures (s, changed) == Expire(cfg, was, now, orders)
  {
    hide Pruned, Forgotten;
    GoneIsDropped(cfg, was, decided, orders, now);
    ChangesShow(cfg, was, decided, orders, now);
    var left := Expire(cfg, was, now, orders).0;
    assert s.aliases == left.aliases;
    assert s.devices == left.devices;
  }

  lemma GoneIsDropped(cfg: Config, was: State, decided: map<string, Option<DeviceState>>, orders: map<string, seq<EndpointKey>>, now: int)
    requires decided.Keys == was.devices.Keys == orders.Keys
    requires forall id :: id in decided ==> decided[id] == Verdict(cfg, was.devices[id], now, orders[id])
    ensures (set id | id in was.devices && Forgotten(cfg, was.devices[id], now, OrderFor(orders, id))) == Dropped(decided)
    ensures forall id :: id in was.devices ==>
              OrderFor(orders, id) == orders[id]
              && (decided[id].Some? ==> decided[id] == Some(Pruned(cfg, was.devices[id], now, OrderFor(orders, id))))
  {
    hide Pruned, Forgotten;
  }

  lemma ChangesShow(cfg: Config, was: State, decided: map<string, Option<DeviceState>>, orders: map<string, seq<EndpointKey>>, now: int)
    requires decided.Keys == was.devices.Keys == orders.Keys
    requires forall id :: id in decided ==> decided[id] == Verdict(cfg, was.devices[id], now, orders[id])
    ensures Expire(cfg, was, now, orders).1 <==> exists id :: id in decided && decided[id] != Some(was.devices[id])
  {
    hide Pruned, Forgotten, Verdict;
    GoneIsDropped(cfg, was, decided, orders, now);
    if id :| id in decided && decided[id] != Some(was.devices[id]) {
      assert id in Dropped(decided) || Pruned(cfg, was.devices[id], now, OrderFor(orders, id)) != was.devices[id];
    } else {
      assert Dropped(decided) == {};
    }
  }

  lemma ForgottenIs(cfg: Config, d: DeviceState, now: int, order: seq<EndpointKey>)
    ensures Forgotten(cfg, d, now, order) <==>
            !d.pub.isStatic && now - Pruned(cfg, d, now, order).pub.lastSeen > cfg.deviceTTL
  {
    hide Pruned;
  }

  /** The state once a resolution's promotion, if it takes one, is done. */
  ghost function Following(cfg: Config, s: State, r: Resolution, order: seq<EndpointKey>): State {
    if r.promoteFrom.Some? then Promote(cfg, s, r.promoteFrom.value, r.id, order) else s
  }
}
