/** The registry actor's state and, for each of its handlers, the state that handler leaves
    (internal/registry/registry.go). Go ranges over maps in an arbitrary order; where that
    order can show, the step carries the order taken. Times count from Go's zero time. */
module RegistryModel {
  import opened Common
  import opened Identity
  import opened Address

  datatype Kind = ESPHome | Shelly | Unknown

  const SOURCE_STATIC := "static"

  datatype EndpointKey = EndpointKey(serviceType: string, iface: int, protocol: string)

  const NO_KEY := EndpointKey("", 0, "")

  datatype Endpoint = Endpoint(
    key: EndpointKey, host: string, addr: Addr, port: nat, txt: Txt, trusted: bool, observedAt: int)

  datatype EventType = EventAdd | EventRemove | EventSourceReset | EventOther

  datatype Event = Event(
    kindOf: EventType, source: string, deviceID: string, instance: string, unnamed: bool,
    kind: Kind, endpoint: Endpoint, at: int)

  datatype ScrapeResult = ScrapeResult(deviceID: string, addr: Addr, success: bool, at: int)

  /** What readers see of a device. */
  datatype Device = Device(
    id: string, kind: Kind, name: string, hostname: string, addrs: seq<Addr>,
    rejectedAddrs: seq<Addr>, port: nat, txt: Txt, firstSeen: int, lastSeen: int,
    isStatic: bool, epoch: nat, unverified: bool)

  datatype EndpointState = EndpointState(ep: Endpoint, unverified: bool, removeHintAt: int, source: string)

  type Endpoints = map<EndpointKey, EndpointState>

  /** The actor's private record of a device. */
  datatype DeviceState = DeviceState(
    pub: Device, endpoints: Endpoints, pinned: Addr, hasPinned: bool,
    lastDiscovery: int, lastSuccess: int, sources: set<string>, provisionalName: bool)

  datatype State = State(
    devices: map<string, DeviceState>, aliases: map<string, string>, promotions: nat, merges: nat)

  const EMPTY := State(map[], map[], 0, 0)

  datatype Config = Config(
    endpointTTL: int, deviceTTL: int, removeGrace: int, policy: Policy, fold: char -> char)

  // ---- Addresses of a device --------------------------------------------------------

  function PinOf(d: DeviceState): Addr {
    if d.hasPinned then d.pinned else NoAddr
  }

  function Candidates(eps: Endpoints, ks: seq<EndpointKey>): (cs: seq<Candidate>)
    requires forall k :: k in ks ==> k in eps
    ensures |cs| == |ks|
    ensures forall i :: 0 <= i < |ks| ==> cs[i] == Candidate(eps[ks[i]].ep.addr, eps[ks[i]].ep.trusted)
  {
    seq(|ks|, i requires 0 <= i < |ks| => Candidate(eps[ks[i]].ep.addr, eps[ks[i]].ep.trusted))
  }

  function FirstPort(port: nat, eps: Endpoints, ks: seq<EndpointKey>): nat
    requires forall k :: k in ks ==> k in eps
  {
    if ks == [] then port
    else
      var p := FirstPort(port, eps, ks[..|ks| - 1]);
      if p == 0 then eps[ks[|ks| - 1]].ep.port else p
  }

  /** The ordered and rejected addresses for one enumeration of the endpoints. */
  ghost function RankedBy(cfg: Config, d: DeviceState, ks: seq<EndpointKey>): (seq<Addr>, seq<Addr>)
    requires IsEnumeration(ks, d.endpoints.Keys)
  {
    assert forall k :: k in ks <==> k in Elements(ks);
    OrderCandidates(cfg.policy, Candidates(d.endpoints, ks), PinOf(d))
  }

  ghost function Recompute(cfg: Config, d: DeviceState, order: seq<EndpointKey>): DeviceState {
    var ks := OrderOf(order, d.endpoints.Keys);
    assert forall k :: k in ks <==> k in Elements(ks);
    var (next, rejected) := RankedBy(cfg, d, ks);
    d.(pub := d.pub.(
         port := FirstPort(d.pub.port, d.endpoints, ks),
         rejectedAddrs := rejected,
         addrs := next,
         epoch := if next == d.pub.addrs then d.pub.epoch else d.pub.epoch + 1))
  }

  function Touch(d: DeviceState): DeviceState {
    d.(pub := d.pub.(lastSeen := Max(d.lastDiscovery, d.lastSuccess)))
  }

  predicate AllUnverified(eps: Endpoints) {
    eps.Keys != {} && forall k :: k in eps ==> eps[k].unverified
  }

  // ---- Identity resolution ----------------------------------------------------------

  function DerivedOf(cfg: Config, ev: Event): (id: string)
    ensures id != "" && (IsMACID(id) ==> |id| == 16)
  {
    DeriveID(cfg.fold, ev.instance, ev.endpoint.txt)
  }

  /** Every identifier this observation could be known by. */
  function EventHandles(cfg: Config, ev: Event): (hs: seq<string>)
    ensures DerivedOf(cfg, ev) in hs
  {
    var name := InstanceLabel(ev.instance);
    var mac := NormaliseMAC(cfg.fold, Get(ev.endpoint.txt, "mac"));
    var id := Get(ev.endpoint.txt, "id");
    (if name != "" then [PREFIX_NAME + Lower(name)] else [])
    + (if |mac| == 12 then [PREFIX_MAC + mac] else [])
    + (if id != "" then [PREFIX_NAME + Lower(id)] else [])
    + [DerivedOf(cfg, ev)]
  }

  /** The device the first already-bound handle belongs to. */
  function FirstBound(aliases: map<string, string>, hs: seq<string>): (r: Option<string>)
    ensures r.None? <==> forall h :: h in hs ==> h !in aliases
    ensures r.Some? ==> exists h :: h in hs && h in aliases && aliases[h] == r.value
  {
    if hs == [] then None
    else if hs[0] in aliases then Some(aliases[hs[0]])
    else FirstBound(aliases, hs[1..])
  }

  function ShortMatches(devices: map<string, DeviceState>, suffix: string): set<string> {
    set id | id in devices && devices[id].pub.kind.Shelly? && IsShortID(id) && HasSuffix(id, suffix)
  }

  function MACMatches(devices: map<string, DeviceState>, suffix: string): set<string> {
    set id | id in devices && devices[id].pub.kind.Shelly? && IsMACID(id) && HasSuffix(id, suffix)
  }

  ghost function Only(ids: set<string>): (r: Option<string>)
    ensures r.Some? <==> exists x :: ids == {x}
    ensures r.Some? ==> ids == {r.value}
  {
    if x :| ids == {x} then Some(x) else None
  }

  /** The identity an event resolves to and, when that takes folding a weakly identified
      device into it, which one. */
  datatype Resolution = Resolution(id: string, promoteFrom: Option<string>)

  ghost function MatchShortID(s: State, kind: Kind, derived: string): Option<Resolution>
    requires IsMACID(derived) ==> |derived| == 16
  {
    if !kind.Shelly? then None
    else if IsMACID(derived) then
      match Only(ShortMatches(s.devices, "-" + MACOfID(derived)[6..]))
      case Some(id) => Some(Resolution(derived, Some(id)))
      case None => None
    else if IsShortID(derived) then
      match LastIndex(derived, '-')
      case None => None
      case Some(i) =>
        match Only(MACMatches(s.devices, derived[i + 1..]))
        case Some(id) => Some(Resolution(id, None))
        case None => None
    else None
  }

  ghost function Resolve(cfg: Config, s: State, ev: Event): Resolution {
    var derived := DerivedOf(cfg, ev);
    if ev.deviceID != "" then Resolution(ev.deviceID, None)
    else
      match FirstBound(s.aliases, EventHandles(cfg, ev))
      case Some(id) =>
        if IsMACID(derived) && !IsMACID(id) then Resolution(derived, Some(id)) else Resolution(id, None)
      case None =>
        // The derived identifier is itself a handle, so the source's further lookup of it
        // cannot succeed here.
        match MatchShortID(s, ev.kind, derived)
        case Some(r) => r
        case None => Resolution(derived, None)
  }

  // ---- Promotion --------------------------------------------------------------------

  /** Two records of one device in one: the weakly identified record's endpoints and TXT
      entries win a clash, the target's name and addresses stay. */
  function Merge(target: DeviceState, weak: DeviceState): DeviceState {
    var takesName := target.provisionalName && !weak.provisionalName;
    target.(
      endpoints := target.endpoints + weak.endpoints,
      sources := target.sources + weak.sources,
      lastDiscovery := Max(target.lastDiscovery, weak.lastDiscovery),
      lastSuccess := Max(target.lastSuccess, weak.lastSuccess),
      provisionalName := target.provisionalName && weak.provisionalName,
      pub := target.pub.(
        txt := target.pub.txt + weak.pub.txt,
        firstSeen := Min(target.pub.firstSeen, weak.pub.firstSeen),
        name := if takesName then weak.pub.name else target.pub.name))
  }

  function Repoint(aliases: map<string, string>, oldID: string, newID: string): map<string, string> {
    map h | h in aliases :: if aliases[h] == oldID then newID else aliases[h]
  }

  ghost function Promote(cfg: Config, s: State, oldID: string, newID: string, order: seq<EndpointKey>): State {
    if oldID == newID || oldID !in s.devices then s
    else
      var weak := s.devices[oldID];
      var exists_ := newID in s.devices;
      var target := if exists_ then Merge(s.devices[newID], weak) else weak.(pub := weak.pub.(id := newID));
      State((s.devices - {oldID})[newID := Recompute(cfg, target, order)],
            Repoint(s.aliases, oldID, newID)[oldID := newID],
            if exists_ then s.promotions else s.promotions + 1,
            if exists_ then s.merges + 1 else s.merges)
  }

  // ---- Add --------------------------------------------------------------------------

  function NewDevice(id: string, ev: Event, now: int): DeviceState {
    DeviceState(
      Device(id, ev.kind, InstanceLabel(ev.instance), "", [], [], 0, map[], now, 0, false, 0, false),
      map[], NoAddr, false, 0, 0, {}, ev.unnamed)
  }

  /** A provisional name gives way to the first announced one. */
  function Renamed(d: DeviceState, ev: Event): DeviceState {
    if d.provisionalName && !ev.unnamed && InstanceLabel(ev.instance) != "" then
      d.(pub := d.pub.(name := InstanceLabel(ev.instance)), provisionalName := false)
    else d
  }

  function Absorb(d: DeviceState, ev: Event, at: int): DeviceState {
    var e := ev.endpoint;
    d.(
      endpoints := d.endpoints[e.key := EndpointState(e, false, 0, ev.source)],
      sources := d.sources + {ev.source},
      lastDiscovery := at,
      pub := d.pub.(
        isStatic := d.pub.isStatic || ev.source == SOURCE_STATIC,
        kind := if d.pub.kind.Unknown? then ev.kind else d.pub.kind,
        hostname := if e.host != "" then e.host else d.pub.hostname,
        txt := d.pub.txt + e.txt,
        unverified := false,
        port := if e.port != 0 then e.port else d.pub.port))
  }

  function BindAliases(aliases: map<string, string>, id: string, hs: seq<string>): map<string, string> {
    map h | h in aliases.Keys + (set x | x in hs) + {id} :: if h in hs || h == id then id else aliases[h]
  }

  /** The record an Add leaves at the identity it resolved to. */
  ghost function Observed(cfg: Config, s: State, id: string, ev: Event, at: int, now: int, order: seq<EndpointKey>): DeviceState {
    var d := if id in s.devices then Renamed(s.devices[id], ev) else NewDevice(id, ev, now);
    Touch(Recompute(cfg, Absorb(d, ev, at), order))
  }

  ghost function AddTo(cfg: Config, s: State, id: string, ev: Event, at: int, now: int, order: seq<EndpointKey>): State {
    s.(devices := s.devices[id := Observed(cfg, s, id, ev, at, now, order)],
       aliases := BindAliases(s.aliases, id, EventHandles(cfg, ev)))
  }

  /** The state once an event's identity is resolved, before it is absorbed. */
  ghost function Resolved(cfg: Config, s: State, ev: Event, mergeOrder: seq<EndpointKey>): State {
    var r := Resolve(cfg, s, ev);
    if r.promoteFrom.Some? then Promote(cfg, s, r.promoteFrom.value, r.id, mergeOrder) else s
  }

  ghost function ApplyAdd(cfg: Config, s: State, ev: Event, at: int, now: int,
                          mergeOrder: seq<EndpointKey>, order: seq<EndpointKey>): (State, bool) {
    var id := Resolve(cfg, s, ev).id;
    var s1 := Resolved(cfg, s, ev, mergeOrder);
    if id == "" then (s1, false) else (AddTo(cfg, s1, id, ev, at, now, order), true)
  }

  // ---- Remove hints and source resets -----------------------------------------------

  function Hint(ep: EndpointState, at: int): EndpointState {
    if ep.unverified then ep else ep.(unverified := true, removeHintAt := at)
  }

  predicate Hinted(k: EndpointKey, ep: EndpointState, source: string, key: EndpointKey) {
    ep.source == source && (key == NO_KEY || k == key) && !ep.unverified
  }

  /** The device with every matching verified endpoint hinted, and whether any was. */
  function HintDevice(d: DeviceState, source: string, key: EndpointKey, at: int): (DeviceState, bool) {
    var eps := map k | k in d.endpoints ::
                 if Hinted(k, d.endpoints[k], source, key) then Hint(d.endpoints[k], at) else d.endpoints[k];
    var changed := exists k :: k in d.endpoints && Hinted(k, d.endpoints[k], source, key);
    if changed then (d.(endpoints := eps, pub := d.pub.(unverified := AllUnverified(eps))), true)
    else (d, false)
  }

  function HintTarget(cfg: Config, s: State, ev: Event): Option<string> {
    var byName := PREFIX_NAME + Lower(InstanceLabel(ev.instance));
    if DerivedOf(cfg, ev) in s.aliases then Some(s.aliases[DerivedOf(cfg, ev)])
    else if byName in s.aliases then Some(s.aliases[byName])
    else None
  }

  function ApplyRemoveHint(cfg: Config, s: State, ev: Event, at: int): (State, bool) {
    var target := HintTarget(cfg, s, ev);
    if target.None? || target.value !in s.devices then (s, false)
    else
      var (d, changed) := HintDevice(s.devices[target.value], ev.source, ev.endpoint.key, at);
      (s.(devices := s.devices[target.value := d]), changed)
  }

  function MarkSourceUnverified(s: State, source: string, at: int): (State, bool) {
    (s.(devices := map id | id in s.devices :: HintDevice(s.devices[id], source, NO_KEY, at).0),
     exists id :: id in s.devices && HintDevice(s.devices[id], source, NO_KEY, at).1)
  }

  ghost function ApplyEvent(cfg: Config, s: State, ev: Event, now: int,
                            mergeOrder: seq<EndpointKey>, order: seq<EndpointKey>): (State, bool) {
    var at := if ev.at == 0 then now else ev.at;
    match ev.kindOf
    case EventSourceReset => MarkSourceUnverified(s, ev.source, at)
    case EventRemove => ApplyRemoveHint(cfg, s, ev, at)
    case EventAdd => ApplyAdd(cfg, s, ev, at, now, mergeOrder, order)
    case EventOther => (s, false)
  }

  // ---- Scrape results ---------------------------------------------------------------

  function Confirm(eps: Endpoints, addr: Addr, at: int): Endpoints {
    map k | k in eps ::
      if eps[k].ep.addr == addr then eps[k].(unverified := false, ep := eps[k].ep.(observedAt := at)) else eps[k]
  }

  /** Every endpoint with the address is verified and observed again. */
  function Renewed(d: DeviceState, addr: Addr, at: int): DeviceState {
    var eps := Confirm(d.endpoints, addr, at);
    Touch(d.(endpoints := eps, pub := d.pub.(unverified := AllUnverified(eps))))
  }

  ghost function Scraped(cfg: Config, d: DeviceState, addr: Addr, at: int, order: seq<EndpointKey>): DeviceState {
    var d1 := d.(lastSuccess := at);
    var d2 := if addr.IsValid() && (!d.hasPinned || d.pinned != addr)
              then Recompute(cfg, d1.(pinned := addr, hasPinned := true), order) else d1;
    Renewed(d2, addr, at)
  }

  ghost function ApplyScrapeResult(cfg: Config, s: State, res: ScrapeResult, order: seq<EndpointKey>): (State, bool) {
    if res.deviceID !in s.devices || !res.success then (s, false)
    else (s.(devices := s.devices[res.deviceID := Scraped(cfg, s.devices[res.deviceID], res.addr, res.at, order)]), true)
  }

  // ---- Expiry -----------------------------------------------------------------------

  predicate Lapsed(cfg: Config, ep: EndpointState, lastSuccess: int, now: int) {
    || now - ep.ep.observedAt > cfg.endpointTTL
    || (ep.unverified && ep.removeHintAt != 0 && now - ep.removeHintAt > cfg.removeGrace
        && lastSuccess < ep.removeHintAt)
  }

  function Surviving(cfg: Config, d: DeviceState, now: int): Endpoints {
    map k | k in d.endpoints && !Lapsed(cfg, d.endpoints[k], d.lastSuccess, now) :: d.endpoints[k]
  }

  ghost function Pruned(cfg: Config, d: DeviceState, now: int, order: seq<EndpointKey>): DeviceState {
    var eps := Surviving(cfg, d, now);
    if d.pub.isStatic || eps == d.endpoints then d
    else Touch(Recompute(cfg, d.(endpoints := eps), order))
  }

  function OrderFor(orders: map<string, seq<EndpointKey>>, id: string): seq<EndpointKey> {
    if id in orders then orders[id] else []
  }

  ghost predicate Forgotten(cfg: Config, d: DeviceState, now: int, order: seq<EndpointKey>) {
    !d.pub.isStatic && now - Pruned(cfg, d, now, order).pub.lastSeen > cfg.deviceTTL
  }

  ghost function Expire(cfg: Config, s: State, now: int, orders: map<string, seq<EndpointKey>>): (State, bool) {
    var gone := set id | id in s.devices && Forgotten(cfg, s.devices[id], now, OrderFor(orders, id));
    (s.(devices := map id | id in s.devices && id !in gone :: Pruned(cfg, s.devices[id], now, OrderFor(orders, id)),
        aliases := map h | h in s.aliases && s.aliases[h] !in gone :: s.aliases[h]),
     gone != {} || exists id :: id in s.devices && Pruned(cfg, s.devices[id], now, OrderFor(orders, id)) != s.devices[id])
  }

  // ---- Runs -------------------------------------------------------------------------

  datatype Step =
    | Observe(ev: Event, now: int, mergeOrder: seq<EndpointKey>, order: seq<EndpointKey>)
    | Scrape(res: ScrapeResult, order: seq<EndpointKey>)
    | ExpiryTick(now: int, orders: map<string, seq<EndpointKey>>)

  ghost function Apply(cfg: Config, s: State, step: Step): (State, bool) {
    match step
    case Observe(ev, now, mergeOrder, order) => ApplyEvent(cfg, s, ev, now, mergeOrder, order)
    case Scrape(res, order) => ApplyScrapeResult(cfg, s, res, order)
    case ExpiryTick(now, orders) => Expire(cfg, s, now, orders)
  }

  ghost function Next(cfg: Config, s: State, step: Step): State {
    Apply(cfg, s, step).0
  }

  ghost function Exec(cfg: Config, s: State, run: seq<Step>): State {
    if run == [] then s else Next(cfg, Exec(cfg, s, run[..|run| - 1]), run[|run| - 1])
  }
}
