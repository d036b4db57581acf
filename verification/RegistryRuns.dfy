/** Runs from an empty registry that show what it does not promise. Each is given in full:
    its events, its times, and whatever order the map ranges take. */
module RegistryRuns {
  import opened Common
  import opened Identity
  import opened Address
  import opened RegistryModel
  import opened RegistryInvariants
  import opened RegistryLease
  import opened RegistryMeaning
  import opened RegistryLimits

  const MAC := "a8032ab1c2d3"
  const FOO := "foo"
  const BAR := "bar"
  const SLOT := EndpointKey("_http._tcp", 2, "ipv4")
  const OTHER_SLOT := EndpointKey("_http._tcp", 3, "ipv4")
  const HOME := V4(0xC0A8_013D)
  const AWAY := V4(0xC0A8_013E)

  const WEAK := PREFIX_NAME + FOO
  const STRONG := PREFIX_MAC + MAC

  /** Every TTL and the grace are fifty units; ASCII case folding. */
  const CFG := Config(50, 50, 50, Policy(false, [], []), LowerChar)

  function Announce(source: string, id: string, name: string, txt: Txt, slot: EndpointKey, addr: Addr, port: nat, at: int): Event {
    Event(EventAdd, source, id, name, false, Shelly, Endpoint(slot, "", addr, port, txt, false, at), at)
  }

  /** The orders the ranges of one step take: any at all. */
  datatype Orders = Orders(merge: seq<EndpointKey>, add: seq<EndpointKey>, tick: map<string, seq<EndpointKey>>)

  function Hear(ev: Event, o: Orders): Step { Observe(ev, ev.at, o.merge, o.add) }

  lemma ExecOne(cfg: Config, s: State, run: seq<Step>, step: Step)
    ensures Exec(cfg, s, run + [step]) == Next(cfg, Exec(cfg, s, run), step)
  {
    hide Next;
    assert (run + [step])[..|run|] == run;
  }

  // ---- What the example names derive --------------------------------------------------

  lemma {:induction false} IndexNeeds(s: string, p: string)
    requires p != "" && p[0] !in s
    ensures Index(s, p) == None
  {
    if s != "" { IndexNeeds(s[1..], p); }
  }

  lemma SuffixBegins(s: string, p: string)
    requires p != ""
    ensures HasSuffix(s, p) ==> p[0] in s
  {
    if HasSuffix(s, p) { assert s[|s| - |p|] == p[0]; }
  }

  lemma PlainLabel(s: string)
    requires '.' !in s
    ensures InstanceLabel(s) == s
  {
    IndexNeeds(s, "._");
    hide Index;
    SuffixBegins(s, ".");
    SuffixBegins(s, ".local");
  }

  lemma {:induction false} AllHex(s: string)
    requires forall i :: 0 <= i < |s| ==> IsHexDigit(s[i])
    ensures HexOnly(s) == s
  {
    if s != "" { AllHex(s[1..]); }
  }

  lemma LowerIs(s: string)
    requires forall i :: 0 <= i < |s| ==> !IsUpper(s[i])
    ensures MapChars(LowerChar, s) == s
  {
  }

  lemma MACDerives(name: string, txt: Txt)
    requires "mac" in txt && txt["mac"] == MAC
    ensures DeriveID(LowerChar, name, txt) == STRONG && NormaliseMAC(LowerChar, MAC) == MAC && |MAC| == 12
  {
    hide InstanceLabel, MacFromName;
    LowerIs(MAC);
    AllHex(MAC);
  }

  lemma NameDerives(name: string)
    requires '.' !in name && |name| < 6 && forall i :: 0 <= i < |name| ==> !IsUpper(name[i])
    ensures DeriveID(LowerChar, name, map[]) == PREFIX_NAME + name
    ensures MacFromName(LowerChar, name) == "" && Lower(name) == name && InstanceLabel(name) == name
  {
    PlainLabel(name);
    PlainLabel("");
    LowerIs(name);
    hide InstanceLabel;
  }

  /** The handles of the example observations. */
  lemma HandlesByName(ev: Event)
    requires (ev.instance == FOO || ev.instance == BAR) && ev.endpoint.txt == map[]
    ensures EventHandles(CFG, ev) == [PREFIX_NAME + ev.instance, PREFIX_NAME + ev.instance]
    ensures DerivedOf(CFG, ev) == PREFIX_NAME + ev.instance
  {
    NameDerives(ev.instance);
    LowerIs("");
    hide DeriveID, InstanceLabel, MapChars, FOO, BAR;
  }

  lemma HandlesByMAC(ev: Event)
    requires (ev.instance == FOO || ev.instance == BAR) && ev.endpoint.txt == map["mac" := MAC]
    ensures EventHandles(CFG, ev) == [PREFIX_NAME + ev.instance, STRONG, STRONG] && DerivedOf(CFG, ev) == STRONG
  {
    NameDerives(ev.instance);
    MACDerives(ev.instance, ev.endpoint.txt);
    assert Get(ev.endpoint.txt, "mac") == MAC && Get(ev.endpoint.txt, "id") == "" && ev.instance != "";
    assert CFG.fold == LowerChar;
    assert PREFIX_MAC + MAC == STRONG;
    hide *;
    HandlesWithMAC(CFG, ev, MAC, STRONG);
  }

  lemma HandlesWithMAC(cfg: Config, ev: Event, mac: string, strong: string)
    requires Get(ev.endpoint.txt, "mac") == mac && Get(ev.endpoint.txt, "id") == "" && ev.instance != ""
    requires InstanceLabel(ev.instance) == ev.instance && Lower(ev.instance) == ev.instance
    requires NormaliseMAC(cfg.fold, mac) == mac && |mac| == 12 && DeriveID(cfg.fold, ev.instance, ev.endpoint.txt) == strong
    ensures PREFIX_MAC + mac == strong ==>
              EventHandles(cfg, ev) == [PREFIX_NAME + ev.instance, strong, strong] && DerivedOf(cfg, ev) == strong
  {
    hide DeriveID, InstanceLabel, NormaliseMAC, Lower, Get, PREFIX_MAC, PREFIX_NAME;
  }

  lemma IDsDiffer()
    ensures WEAK != STRONG && PREFIX_NAME + BAR != WEAK && PREFIX_NAME + BAR != STRONG
    ensures IsMACID(STRONG) && !IsMACID(WEAK) && !IsShortID(WEAK) && !IsShortID(STRONG)
    ensures WEAK != "" && STRONG != ""
  {
    assert WEAK[0] == 'n' && STRONG[0] == 'm' && WEAK[5] == 'f';
    assert (PREFIX_NAME + BAR)[0] == 'n' && (PREFIX_NAME + BAR)[5] == 'b';
    assert PREFIX_SHORT_ID[0] == 's' && PREFIX_MAC[0] == 'm';
  }

  // ---- One Add at a time --------------------------------------------------------------

  /** The parts of a record the runs follow. */
  predicate Has(d: DeviceState, eps: Endpoints, isStatic: bool) {
    d.endpoints == eps && d.pub.isStatic == isStatic && !d.pub.unverified
  }

  function Slot(ev: Event): EndpointState { EndpointState(ev.endpoint, false, 0, ev.source) }

  lemma ObservedHas(cfg: Config, s: State, id: string, ev: Event, at: int, now: int, order: seq<EndpointKey>)
    ensures var e := Observed(cfg, s, id, ev, at, now, order);
            var before := if id in s.devices then s.devices[id].endpoints else map[];
            var was := id in s.devices && s.devices[id].pub.isStatic;
            Has(e, before[ev.endpoint.key := Slot(ev)], was || ev.source == SOURCE_STATIC) && e.pub.lastSeen >= at
  {
    hide Recompute;
    var d := if id in s.devices then Renamed(s.devices[id], ev) else NewDevice(id, ev, now);
    RecomputeFacts(cfg, Absorb(d, ev, at), order);
  }

  lemma NextIsAdd(cfg: Config, s: State, ev: Event, o: Orders)
    requires ev.kindOf.EventAdd? && ev.at != 0 && Resolve(cfg, s, ev).id != ""
    ensures Next(cfg, s, Hear(ev, o)) ==
            AddTo(cfg, Resolved(cfg, s, ev, o.merge), Resolve(cfg, s, ev).id, ev, ev.at, ev.at, o.add)
  {
    hide Resolve, Resolved, AddTo;
  }

  lemma AddToHas(cfg: Config, s: State, ev: Event, order: seq<EndpointKey>, id: string)
    ensures var t := AddTo(cfg, s, id, ev, ev.at, ev.at, order);
            var before := if id in s.devices then s.devices[id].endpoints else map[];
            var was := id in s.devices && s.devices[id].pub.isStatic;
            && t.devices.Keys == s.devices.Keys + {id} && (forall x :: x in s.devices && x != id ==> t.devices[x] == s.devices[x])
            && Has(t.devices[id], before[ev.endpoint.key := Slot(ev)], was || ev.source == SOURCE_STATIC)
            && t.devices[id].pub.lastSeen >= ev.at
            && t.aliases == BindAliases(s.aliases, id, EventHandles(cfg, ev))
  {
    hide Observed, EventHandles, BindAliases, Has;
    ObservedHas(cfg, s, id, ev, ev.at, ev.at, order);
  }

  lemma PlainAdd(cfg: Config, s: State, ev: Event, o: Orders, id: string)
    requires ev.kindOf.EventAdd? && ev.at != 0 && Resolve(cfg, s, ev) == Resolution(id, None) && id != ""
    ensures var t := Next(cfg, s, Hear(ev, o));
            var before := if id in s.devices then s.devices[id].endpoints else map[];
            var was := id in s.devices && s.devices[id].pub.isStatic;
            && t.devices.Keys == s.devices.Keys + {id} && (forall x :: x in s.devices && x != id ==> t.devices[x] == s.devices[x])
            && Has(t.devices[id], before[ev.endpoint.key := Slot(ev)], was || ev.source == SOURCE_STATIC)
            && t.devices[id].pub.lastSeen >= ev.at
            && t.aliases == BindAliases(s.aliases, id, EventHandles(cfg, ev))
  {
    assert Resolved(cfg, s, ev, o.merge) == s by { hide Resolve, Promote; }
    hide *;
    NextIsAdd(cfg, s, ev, o);
    AddToHas(cfg, s, ev, o.add, id);
  }

  lemma MergingAdd(cfg: Config, s: State, ev: Event, o: Orders, oldID: string, newID: string)
    requires ev.kindOf.EventAdd? && ev.at != 0 && Resolve(cfg, s, ev) == Resolution(newID, Some(oldID)) && newID != ""
    requires oldID != newID && oldID in s.devices && newID in s.devices
    ensures var t := Next(cfg, s, Hear(ev, o));
            && t.devices.Keys == s.devices.Keys - {oldID}
            && Has(t.devices[newID], (s.devices[newID].endpoints + s.devices[oldID].endpoints)[ev.endpoint.key := Slot(ev)],
                   s.devices[newID].pub.isStatic || ev.source == SOURCE_STATIC)
            && t.devices[newID].pub.lastSeen >= ev.at
  {
    hide *;
    var mid := Promote(cfg, s, oldID, newID, o.merge);
    ResolvedIs(cfg, s, ev, o.merge);
    Merged(cfg, s, oldID, newID, o.merge);
    NextIsAdd(cfg, s, ev, o);
    AddToHas(cfg, mid, ev, o.add, newID);
    OneLess(s.devices.Keys, mid.devices.Keys, oldID, newID);
  }

  lemma OneLess(before: set<string>, after: set<string>, gone: string, kept: string)
    requires after == before - {gone} && kept in before && kept != gone
    ensures after + {kept} == before - {gone}
  {
  }

  lemma Merged(cfg: Config, s: State, oldID: string, newID: string, order: seq<EndpointKey>)
    requires oldID != newID && oldID in s.devices && newID in s.devices
    ensures var t := Promote(cfg, s, oldID, newID, order);
            && t.devices.Keys == s.devices.Keys - {oldID}
            && t.devices[newID].endpoints == s.devices[newID].endpoints + s.devices[oldID].endpoints
            && t.devices[newID].pub.isStatic == s.devices[newID].pub.isStatic
  {
    hide Recompute;
    RecomputeFacts(cfg, Merge(s.devices[newID], s.devices[oldID]), order);
  }

  // ---- Two records of one device, merged ----------------------------------------------

  /** What the three observations are known by. */
  ghost predicate Told(cfg: Config, e1: Event, e2: Event, e3: Event, weak: string, strong: string, other: string) {
    && EventHandles(cfg, e1) == [weak, weak] && DerivedOf(cfg, e1) == weak
    && EventHandles(cfg, e2) == [other, strong, strong] && DerivedOf(cfg, e2) == strong
    && EventHandles(cfg, e3) == [weak, strong, strong] && DerivedOf(cfg, e3) == strong
    && weak != strong && other != weak && other != strong && weak != "" && strong != ""
    && IsMACID(strong) && !IsMACID(weak) && !IsShortID(weak) && !IsShortID(strong)
    && (forall e :: e in [e1, e2, e3] ==> e.deviceID == "" && e.kindOf.EventAdd? && e.at != 0)
  }

  lemma NothingShort(devices: map<string, DeviceState>, suffix: string)
    requires forall id :: id in devices ==> !IsShortID(id)
    ensures Only(ShortMatches(devices, suffix)) == None
  {
    assert ShortMatches(devices, suffix) == {};
  }

  lemma ResolvesFresh(cfg: Config, s: State, ev: Event)
    requires ev.deviceID == "" && (forall h :: h in EventHandles(cfg, ev) ==> h !in s.aliases)
    requires !IsShortID(DerivedOf(cfg, ev)) && forall id :: id in s.devices ==> !IsShortID(id)
    ensures Resolve(cfg, s, ev) == Resolution(DerivedOf(cfg, ev), None)
  {
    var derived := DerivedOf(cfg, ev);
    hide EventHandles, DerivedOf, IsShortID, ShortMatches;
    if IsMACID(derived) { NothingShort(s.devices, "-" + MACOfID(derived)[6..]); }
  }

  lemma Heard(cfg: Config, e1: Event, o1: Orders, weak: string)
    requires EventHandles(cfg, e1) == [weak, weak] && DerivedOf(cfg, e1) == weak && weak != "" && !IsShortID(weak)
    requires e1.deviceID == "" && e1.kindOf.EventAdd? && e1.at != 0
    ensures var s1 := Next(cfg, EMPTY, Hear(e1, o1));
            && s1.devices.Keys == {weak} && s1.aliases == map[weak := weak]
            && Has(s1.devices[weak], map[e1.endpoint.key := Slot(e1)], e1.source == SOURCE_STATIC)
  {
    hide Next, Resolve, Has, EventHandles, DerivedOf, IsShortID;
    ResolvesFresh(cfg, EMPTY, e1);
    PlainAdd(cfg, EMPTY, e1, o1, weak);
    assert BindAliases(map[], weak, [weak, weak]) == map[weak := weak];
  }

  lemma HeardTwice(cfg: Config, e1: Event, e2: Event, e3: Event, o1: Orders, o2: Orders, weak: string, strong: string, other: string)
    requires Told(cfg, e1, e2, e3, weak, strong, other)
    ensures var s1 := Next(cfg, EMPTY, Hear(e1, o1));
            var s2 := Next(cfg, s1, Hear(e2, o2));
            && s2.devices.Keys == {weak, strong} && weak in s2.aliases && s2.aliases[weak] == weak
            && Has(s2.devices[weak], map[e1.endpoint.key := Slot(e1)], e1.source == SOURCE_STATIC)
            && Has(s2.devices[strong], map[e2.endpoint.key := Slot(e2)], e2.source == SOURCE_STATIC)
            && s2.devices[strong].pub.lastSeen >= e2.at
  {
    hide Next, Resolve, Has, EventHandles, DerivedOf, IsShortID, IsMACID;
    Heard(cfg, e1, o1, weak);
    var s1 := Next(cfg, EMPTY, Hear(e1, o1));
    ResolvesFresh(cfg, s1, e2);
    PlainAdd(cfg, s1, e2, o2, strong);
  }

  lemma ResolvesToMerge(cfg: Config, s: State, e: Event, weak: string, strong: string)
    requires EventHandles(cfg, e) == [weak, strong, strong] && DerivedOf(cfg, e) == strong && e.deviceID == ""
    requires IsMACID(strong) && !IsMACID(weak) && weak in s.aliases && s.aliases[weak] == weak
    ensures Resolve(cfg, s, e) == Resolution(strong, Some(weak))
  {
    hide EventHandles, DerivedOf, IsMACID;
  }

  /** The third observation merges the two records: the first one's endpoint keeps the slot,
      and whether the result is static is the second one's business. */
  lemma HeardThrice(cfg: Config, e1: Event, e2: Event, e3: Event, o1: Orders, o2: Orders, o3: Orders,
                    weak: string, strong: string, other: string)
    requires Told(cfg, e1, e2, e3, weak, strong, other) && e1.endpoint.key == e2.endpoint.key != e3.endpoint.key
    ensures var s1 := Next(cfg, EMPTY, Hear(e1, o1));
            var s2 := Next(cfg, s1, Hear(e2, o2));
            var s3 := Next(cfg, s2, Hear(e3, o3));
            && s3.devices.Keys == {strong} && s3.devices[strong].pub.lastSeen >= e3.at
            && Has(s3.devices[strong], map[e1.endpoint.key := Slot(e1), e3.endpoint.key := Slot(e3)],
                   e2.source == SOURCE_STATIC || e3.source == SOURCE_STATIC)
  {
    HeardTwice(cfg, e1, e2, e3, o1, o2, weak, strong, other);
    var s2 := Next(cfg, Next(cfg, EMPTY, Hear(e1, o1)), Hear(e2, o2));
    HasIs(s2.devices[weak], map[e1.endpoint.key := Slot(e1)], e1.source == SOURCE_STATIC);
    HasIs(s2.devices[strong], map[e2.endpoint.key := Slot(e2)], e2.source == SOURCE_STATIC);
    hide *;
    ThenMerges(cfg, s2, e1, e2, e3, o3, weak, strong, other);
  }

  lemma HasIs(d: DeviceState, eps: Endpoints, isStatic: bool)
    requires Has(d, eps, isStatic)
    ensures d.endpoints == eps && d.pub.isStatic == isStatic
  {
  }

  lemma ThenMerges(cfg: Config, s2: State, e1: Event, e2: Event, e3: Event, o3: Orders, weak: string, strong: string, other: string)
    requires Told(cfg, e1, e2, e3, weak, strong, other) && e1.endpoint.key == e2.endpoint.key != e3.endpoint.key
    requires s2.devices.Keys == {weak, strong} && weak in s2.aliases && s2.aliases[weak] == weak
    requires s2.devices[weak].endpoints == map[e1.endpoint.key := Slot(e1)]
    requires s2.devices[strong].endpoints == map[e2.endpoint.key := Slot(e2)]
    requires s2.devices[strong].pub.isStatic == (e2.source == SOURCE_STATIC)
    ensures var s3 := Next(cfg, s2, Hear(e3, o3));
            && s3.devices.Keys == {strong} && s3.devices[strong].pub.lastSeen >= e3.at
            && Has(s3.devices[strong], map[e1.endpoint.key := Slot(e1), e3.endpoint.key := Slot(e3)],
                   e2.source == SOURCE_STATIC || e3.source == SOURCE_STATIC)
  {
    hide Next, Resolve, EventHandles, DerivedOf, IsMACID, IsShortID, Has;
    ResolvesToMerge(cfg, s2, e3, weak, strong);
    MergingAdd(cfg, s2, e3, o3, weak, strong);
    TwoSlots(s2.devices[strong].endpoints, s2.devices[weak].endpoints, e1, e2, e3);
    assert s2.devices.Keys - {weak} == {strong};
  }

  lemma TwoSlots(strong: Endpoints, weak: Endpoints, e1: Event, e2: Event, e3: Event)
    requires e1.endpoint.key == e2.endpoint.key != e3.endpoint.key
    requires weak == map[e1.endpoint.key := Slot(e1)] && strong == map[e2.endpoint.key := Slot(e2)]
    ensures (strong + weak)[e3.endpoint.key := Slot(e3)] == map[e1.endpoint.key := Slot(e1), e3.endpoint.key := Slot(e3)]
  {
    hide Slot;
  }

  /** A device heard of by name alone; then by MAC under another name, in the same slot; then
      by MAC under the first name, elsewhere. */
  function Conversation(e1: Event, e2: Event, e3: Event, o1: Orders, o2: Orders, o3: Orders): seq<Step> {
    [Hear(e1, o1), Hear(e2, o2), Hear(e3, o3)]
  }

  lemma ConversationStates(cfg: Config, e1: Event, e2: Event, e3: Event, o1: Orders, o2: Orders, o3: Orders)
    ensures var run := Conversation(e1, e2, e3, o1, o2, o3);
            var s2 := Next(cfg, Next(cfg, EMPTY, Hear(e1, o1)), Hear(e2, o2));
            && |run| == 3 && run[2] == Hear(e3, o3)
            && Exec(cfg, EMPTY, run[..2]) == s2 && Exec(cfg, EMPTY, run) == Next(cfg, s2, Hear(e3, o3))
  {
    hide Next, Hear;
    var run := Conversation(e1, e2, e3, o1, o2, o3);
    assert run[..1] == [] + [run[0]] && run[..2] == run[..1] + [run[1]] && run == run[..2] + [run[2]];
    ExecOne(cfg, EMPTY, [], run[0]);
    ExecOne(cfg, EMPTY, run[..1], run[1]);
    ExecOne(cfg, EMPTY, run[..2], run[2]);
  }

  /** The first two share slot and address, the third brings another of each; none is vouched
      for or static, each is observed when announced, and the clock does not run back. */
  ghost predicate Scattered(e1: Event, e2: Event, e3: Event) {
    && e1.endpoint.key == e2.endpoint.key != e3.endpoint.key
    && e1.endpoint.addr == e2.endpoint.addr && Unmap(e1.endpoint.addr) != Unmap(e3.endpoint.addr)
    && (forall e :: e in [e1, e2, e3] ==> e.source != SOURCE_STATIC && e.endpoint.observedAt == e.at)
    && e1.at <= e2.at <= e3.at
  }

  lemma LeaseTaken(cfg: Config, e1: Event, e2: Event, e3: Event, o1: Orders, o2: Orders, weak: string, strong: string, other: string)
    requires Told(cfg, e1, e2, e3, weak, strong, other) && Scattered(e1, e2, e3)
    ensures var s2 := Next(cfg, Next(cfg, EMPTY, Hear(e1, o1)), Hear(e2, o2));
            Holds(s2, Lease(strong, e2.endpoint.key, e2.endpoint.addr, e2.at))
  {
    hide Told, Next, Unmap;
    HeardTwice(cfg, e1, e2, e3, o1, o2, weak, strong, other);
  }

  /** What a tick keeps of a device, it keeps as it was. */
  lemma TickShrinks(cfg: Config, s: State, now: int, orders: map<string, seq<EndpointKey>>, id: string)
    requires id in s.devices && id in Expire(cfg, s, now, orders).0.devices
    ensures var d, e := s.devices[id], Expire(cfg, s, now, orders).0.devices[id];
            forall k :: k in e.endpoints ==> k in d.endpoints && e.endpoints[k] == d.endpoints[k]
  {
    hide Recompute, Forgotten, Lapsed;
    var d := s.devices[id];
    RecomputeKeepsRecords(cfg, d.(endpoints := Surviving(cfg, d, now)), OrderFor(orders, id));
  }

  /** After the merge one tick drops the address and keeps the device. */
  lemma StaleSlotLapses(cfg: Config, s: State, now: int, orders: map<string, seq<EndpointKey>>, id: string, e1: Event, e3: Event)
    requires Inv(cfg, s) && id in s.devices && s.devices[id].pub.lastSeen >= e3.at && now - e3.at <= cfg.deviceTTL
    requires Has(s.devices[id], map[e1.endpoint.key := Slot(e1), e3.endpoint.key := Slot(e3)], false)
    requires e1.endpoint.key != e3.endpoint.key && Unmap(e1.endpoint.addr) != Unmap(e3.endpoint.addr)
    requires now - e1.endpoint.observedAt > cfg.endpointTTL
    ensures var t := Expire(cfg, s, now, orders).0;
            id in t.devices && Unmap(e1.endpoint.addr) !in t.devices[id].pub.addrs
  {
    var t := Expire(cfg, s, now, orders).0;
    HasTwo(s.devices[id], e1, e3);
    ExpireKeepsInv(cfg, s, now, orders);
    hide *;
    ExpiryVerdict(cfg, s, now, orders, id, e1.endpoint.key);
    TickShrinks(cfg, s, now, orders, id);
    RecordIsCurrent(cfg, t, id);
    AddrsComplete(cfg, t.devices[id], Unmap(e1.endpoint.addr));
    LeftOver(s.devices[id].endpoints, t.devices[id].endpoints, e1.endpoint.key, Slot(e1), e3.endpoint.key, Slot(e3));
    NotDialable(cfg.policy, t.devices[id].endpoints, e3, Unmap(e1.endpoint.addr));
  }

  lemma HasTwo(d: DeviceState, e1: Event, e3: Event)
    requires Has(d, map[e1.endpoint.key := Slot(e1), e3.endpoint.key := Slot(e3)], false) && e1.endpoint.key != e3.endpoint.key
    ensures d.endpoints == map[e1.endpoint.key := Slot(e1), e3.endpoint.key := Slot(e3)] && !d.pub.isStatic
    ensures e1.endpoint.key in d.endpoints && d.endpoints[e1.endpoint.key].ep == e1.endpoint
  {
  }

  lemma LeftOver<K, V>(before: map<K, V>, after: map<K, V>, k: K, v: V, l: K, w: V)
    requires before == map[k := v, l := w] && k !in after
    requires forall x :: x in after ==> x in before && after[x] == before[x]
    ensures forall x :: x in after ==> after[x] == w
  {
  }

  lemma RecordIsCurrent(cfg: Config, s: State, id: string)
    requires Inv(cfg, s) && id in s.devices
    ensures AddrsCurrent(cfg, s.devices[id])
  {
    hide AddrsCurrent;
    assert RecordOK(cfg, id, s.devices[id]);
  }

  lemma NotDialable(p: Policy, eps: Endpoints, e: Event, a: Addr)
    requires forall k :: k in eps ==> eps[k] == Slot(e)
    requires Unmap(e.endpoint.addr) != a
    ensures !Dialable(p, eps, a)
  {
    hide Unmap, Usable;
  }

  lemma HeldShows(cfg: Config, s: State, l: Lease)
    requires Inv(cfg, s) && Holds(s, l) && Usable(cfg.policy, l.addr)
    ensures Unmap(l.addr) in s.devices[l.id].pub.addrs
  {
    RecordIsCurrent(cfg, s, l.id);
    hide Inv, Usable, Unmap, AddrsCurrent, Dialable;
    DialableBy(cfg.policy, s.devices[l.id].endpoints, l.slot);
    AddrsComplete(cfg, s.devices[l.id], Unmap(l.addr));
  }

  /** An Add elsewhere that promotes another record comes in time and confirms nothing. */
  lemma MergeInTime(cfg: Config, s: State, e: Event, o: Orders, l: Lease, weak: string)
    requires Resolve(cfg, s, e) == Resolution(l.id, Some(weak)) && weak != l.id
    requires e.kindOf.EventAdd? && e.at != 0 && e.endpoint.key != l.slot && l.confirmedAt <= e.at
    ensures Timely(cfg, s, Hear(e, o), l) && Renew(cfg, s, Hear(e, o), l) == l
  {
    hide Resolve;
  }

  lemma TickInTime(cfg: Config, s: State, now: int, orders: map<string, seq<EndpointKey>>, l: Lease)
    requires l.confirmedAt <= now && now - l.confirmedAt <= Min(cfg.endpointTTL, cfg.removeGrace)
    ensures Timely(cfg, s, ExpiryTick(now, orders), l)
  {
  }

  /** So "an address confirmed often enough stays" is false as it stands. A usable address is
      confirmed in its slot under the mac: identity; nothing overwrites the slot with another
      address; every later step comes in time; and yet, once a third observation has merged
      in the older record of the same slot and address, the next tick takes the address from
      a device that stays registered. */
  lemma StaleMergeEndsLease(cfg: Config, e1: Event, e2: Event, e3: Event, o1: Orders, o2: Orders, o3: Orders, o4: Orders, now: int,
                            weak: string, strong: string, other: string)
    requires Told(cfg, e1, e2, e3, weak, strong, other) && Scattered(e1, e2, e3) && Usable(cfg.policy, e1.endpoint.addr)
    requires e3.at <= now && now - e2.at <= Min(cfg.endpointTTL, cfg.removeGrace) && cfg.endpointTTL <= cfg.deviceTTL
    requires now - e1.at > cfg.endpointTTL
    ensures var run, tick := Conversation(e1, e2, e3, o1, o2, o3), ExpiryTick(now, o4.tick);
            var l := Lease(strong, e2.endpoint.key, e2.endpoint.addr, e2.at);
            var s2, s3, s4 := Exec(cfg, EMPTY, run[..2]), Exec(cfg, EMPTY, run), Exec(cfg, EMPTY, run + [tick]);
            && Holds(s2, l) && Unmap(l.addr) in s2.devices[strong].pub.addrs
            && Timely(cfg, s2, run[2], l) && Renew(cfg, s2, run[2], l) == l && Timely(cfg, s3, tick, l)
            && strong in s4.devices && Unmap(l.addr) !in s4.devices[strong].pub.addrs
  {
    assert e1.at <= e2.at <= e3.at && now - e3.at <= cfg.deviceTTL;
    hide *;
    ToldOf(cfg, e1, e2, e3, weak, strong, other);
    ScatteredOf(e1, e2, e3);
    var run, tick := Conversation(e1, e2, e3, o1, o2, o3), ExpiryTick(now, o4.tick);
    var l := Lease(strong, e2.endpoint.key, e2.endpoint.addr, e2.at);
    ConversationStates(cfg, e1, e2, e3, o1, o2, o3);
    ExecOne(cfg, EMPTY, run, tick);
    ReachableInv(cfg, run[..2]);
    ReachableInv(cfg, run);
    var s1 := Next(cfg, EMPTY, Hear(e1, o1));
    var s2 := Next(cfg, s1, Hear(e2, o2));
    var s3 := Next(cfg, s2, Hear(e3, o3));
    TickIs(cfg, s3, now, o4.tick);
    LeaseTaken(cfg, e1, e2, e3, o1, o2, weak, strong, other);
    HeardTwice(cfg, e1, e2, e3, o1, o2, weak, strong, other);
    HeardThrice(cfg, e1, e2, e3, o1, o2, o3, weak, strong, other);
    ResolvesToMerge(cfg, s2, e3, weak, strong);
    HeldShows(cfg, s2, l);
    MergeInTime(cfg, s2, e3, o3, l, weak);
    TickInTime(cfg, s3, now, o4.tick, l);
    StaleSlotLapses(cfg, s3, now, o4.tick, strong, e1, e3);
  }

  lemma TickIs(cfg: Config, s: State, now: int, orders: map<string, seq<EndpointKey>>)
    ensures Next(cfg, s, ExpiryTick(now, orders)) == Expire(cfg, s, now, orders).0
  {
    hide Expire;
  }

  lemma ToldOf(cfg: Config, e1: Event, e2: Event, e3: Event, weak: string, strong: string, other: string)
    requires Told(cfg, e1, e2, e3, weak, strong, other)
    ensures EventHandles(cfg, e3) == [weak, strong, strong] && DerivedOf(cfg, e3) == strong
    ensures IsMACID(strong) && !IsMACID(weak) && weak != strong
    ensures e3.deviceID == "" && e3.kindOf.EventAdd? && e3.at != 0
  {
    hide EventHandles, DerivedOf, IsMACID, IsShortID;
  }

  lemma ScatteredOf(e1: Event, e2: Event, e3: Event)
    requires Scattered(e1, e2, e3)
    ensures e1.endpoint.key == e2.endpoint.key != e3.endpoint.key && e1.endpoint.addr == e2.endpoint.addr
    ensures Unmap(e1.endpoint.addr) != Unmap(e3.endpoint.addr) && e1.endpoint.observedAt == e1.at && e1.at <= e2.at <= e3.at
    ensures e1.source != SOURCE_STATIC && e2.source != SOURCE_STATIC && e3.source != SOURCE_STATIC
  {
    assert e1 in [e1, e2, e3] && e2 in [e1, e2, e3] && e3 in [e1, e2, e3];
    hide Unmap;
  }

  /** In the same conversation a first record that was static is folded into one that is not,
      and the device is not static any more. */
  lemma StaticLostInMerge(cfg: Config, e1: Event, e2: Event, e3: Event, o1: Orders, o2: Orders, o3: Orders,
                          weak: string, strong: string, other: string)
    requires Told(cfg, e1, e2, e3, weak, strong, other) && e1.endpoint.key == e2.endpoint.key != e3.endpoint.key
    requires e1.source == SOURCE_STATIC && e2.source != SOURCE_STATIC && e3.source != SOURCE_STATIC
    ensures var run := Conversation(e1, e2, e3, o1, o2, o3);
            && weak in Exec(cfg, EMPTY, run[..2]).devices && Exec(cfg, EMPTY, run[..2]).devices[weak].pub.isStatic
            && Exec(cfg, EMPTY, run).devices.Keys == {strong} && !Exec(cfg, EMPTY, run).devices[strong].pub.isStatic
  {
    ConversationStates(cfg, e1, e2, e3, o1, o2, o3);
    hide Told, Next, Exec;
    HeardTwice(cfg, e1, e2, e3, o1, o2, weak, strong, other);
    HeardThrice(cfg, e1, e2, e3, o1, o2, o3, weak, strong, other);
  }

  // ---- The conversation in so many words ----------------------------------------------

  function ByName(source: string): Event { Announce(source, "", FOO, map[], SLOT, HOME, 80, 10) }

  function ByMAC(): Event { Announce("avahi", "", BAR, map["mac" := MAC], SLOT, HOME, 80, 100) }

  function ByBoth(): Event { Announce("avahi", "", FOO, map["mac" := MAC], OTHER_SLOT, AWAY, 80, 100) }

  lemma TellsOf(source: string)
    ensures EventHandles(CFG, ByName(source)) == [WEAK, WEAK] && DerivedOf(CFG, ByName(source)) == WEAK
    ensures EventHandles(CFG, ByMAC()) == [PREFIX_NAME + BAR, STRONG, STRONG] && DerivedOf(CFG, ByMAC()) == STRONG
    ensures EventHandles(CFG, ByBoth()) == [WEAK, STRONG, STRONG] && DerivedOf(CFG, ByBoth()) == STRONG
  {
    hide EventHandles, DerivedOf, MAC;
    HandlesByName(ByName(source));
    HandlesByMAC(ByMAC());
    HandlesByMAC(ByBoth());
  }

  lemma Assembled(cfg: Config, e1: Event, e2: Event, e3: Event, weak: string, strong: string, other: string)
    requires EventHandles(cfg, e1) == [weak, weak] && DerivedOf(cfg, e1) == weak
    requires EventHandles(cfg, e2) == [other, strong, strong] && DerivedOf(cfg, e2) == strong
    requires EventHandles(cfg, e3) == [weak, strong, strong] && DerivedOf(cfg, e3) == strong
    requires weak != strong && other != weak && other != strong && weak != "" && strong != ""
    requires IsMACID(strong) && !IsMACID(weak) && !IsShortID(weak) && !IsShortID(strong)
    requires e1.deviceID == e2.deviceID == e3.deviceID == "" && e1.kindOf.EventAdd? && e2.kindOf.EventAdd? && e3.kindOf.EventAdd?
    requires e1.at != 0 && e2.at != 0 && e3.at != 0
    ensures Told(cfg, e1, e2, e3, weak, strong, other)
  {
    hide EventHandles, DerivedOf, IsMACID, IsShortID;
  }

  lemma Plainly(source: string)
    ensures ByName(source).deviceID == ByMAC().deviceID == ByBoth().deviceID == ""
    ensures ByName(source).kindOf.EventAdd? && ByMAC().kindOf.EventAdd? && ByBoth().kindOf.EventAdd?
    ensures ByName(source).at == 10 && ByMAC().at == 100 && ByBoth().at == 100
    ensures ByName(source).source == source && ByMAC().source != SOURCE_STATIC && ByBoth().source != SOURCE_STATIC
    ensures source != SOURCE_STATIC ==> Scattered(ByName(source), ByMAC(), ByBoth())
    ensures ByName(source).endpoint.key == ByMAC().endpoint.key != ByBoth().endpoint.key
    ensures ByName(source).endpoint.addr == HOME
  {
    hide MAC, FOO, BAR;
  }

  /** There are such observations: "foo" by name, "bar" with a MAC, "foo" with that MAC. */
  lemma Example(source: string)
    ensures Told(CFG, ByName(source), ByMAC(), ByBoth(), WEAK, STRONG, PREFIX_NAME + BAR)
  {
    hide *;
    IDsDiffer();
    TellsOf(source);
    Plainly(source);
    Assembled(CFG, ByName(source), ByMAC(), ByBoth(), WEAK, STRONG, PREFIX_NAME + BAR);
  }

  /** The stale merge, word for word: seen at 10, 100 and 100, ticked at 101 under TTLs of 50. */
  lemma StaleMergeExample(o1: Orders, o2: Orders, o3: Orders, o4: Orders)
    ensures var run, tick := Conversation(ByName("avahi"), ByMAC(), ByBoth(), o1, o2, o3), ExpiryTick(101, o4.tick);
            var s2, s4 := Exec(CFG, EMPTY, run[..2]), Exec(CFG, EMPTY, run + [tick]);
            && STRONG in s2.devices && Unmap(HOME) in s2.devices[STRONG].pub.addrs
            && STRONG in s4.devices && Unmap(HOME) !in s4.devices[STRONG].pub.addrs
  {
    assert Usable(CFG.policy, HOME) && CFG.endpointTTL == CFG.removeGrace == CFG.deviceTTL == 50 && "avahi" != SOURCE_STATIC;
    assert Min(50, 50) == 50;
    hide *;
    Example("avahi");
    Plainly("avahi");
    StaleMergeEndsLease(CFG, ByName("avahi"), ByMAC(), ByBoth(), o1, o2, o3, o4, 101, WEAK, STRONG, PREFIX_NAME + BAR);
    HoldsAt(Exec(CFG, EMPTY, Conversation(ByName("avahi"), ByMAC(), ByBoth(), o1, o2, o3)[..2]),
            Lease(STRONG, ByMAC().endpoint.key, ByMAC().endpoint.addr, ByMAC().at));
    ScatteredOf(ByName("avahi"), ByMAC(), ByBoth());
  }

  lemma HoldsAt(s: State, l: Lease)
    requires Holds(s, l)
    ensures l.id in s.devices
  {
  }

  lemma StaticExample(o1: Orders, o2: Orders, o3: Orders)
    ensures var run := Conversation(ByName(SOURCE_STATIC), ByMAC(), ByBoth(), o1, o2, o3);
            && WEAK in Exec(CFG, EMPTY, run[..2]).devices && Exec(CFG, EMPTY, run[..2]).devices[WEAK].pub.isStatic
            && Exec(CFG, EMPTY, run).devices.Keys == {STRONG} && !Exec(CFG, EMPTY, run).devices[STRONG].pub.isStatic
  {
    hide *;
    Example(SOURCE_STATIC);
    Plainly(SOURCE_STATIC);
    StaticLostInMerge(CFG, ByName(SOURCE_STATIC), ByMAC(), ByBoth(), o1, o2, o3, WEAK, STRONG, PREFIX_NAME + BAR);
  }

  // ---- One device, by its own identifier ----------------------------------------------

  const NODE := "node"

  function Of(source: string, slot: EndpointKey, port: nat, at: int): Event {
    Announce(source, NODE, "", map[], slot, HOME, port, at)
  }

  lemma OwnChoice(cfg: Config, s: State, ev: Event, o: Orders)
    requires ev.deviceID != ""
    ensures Resolve(cfg, s, ev) == Resolution(ev.deviceID, None) && Resolved(cfg, s, ev, o.merge) == s
  {
    hide EventHandles, DerivedOf, Promote;
  }

  lemma NextIsApply(cfg: Config, s: State, ev: Event, o: Orders)
    requires ev.kindOf.EventAdd? && ev.at != 0
    ensures Next(cfg, s, Hear(ev, o)) == ApplyAdd(cfg, s, ev, ev.at, ev.at, o.merge, o.add).0
  {
    hide ApplyAdd;
  }

  /** An announcement under an identifier of its own: the first of it, or a later one. */
  lemma OwnAdd(cfg: Config, s: State, ev: Event, o: Orders)
    requires Inv(cfg, s) && ev.deviceID != "" && ev.kindOf.EventAdd? && ev.at != 0
    ensures var t, id := Next(cfg, s, Hear(ev, o)), ev.deviceID;
            var before := if id in s.devices then s.devices[id].endpoints else map[];
            && id in t.devices && Inv(cfg, t) && t.devices.Keys == s.devices.Keys + {id}
            && t.devices[id].pub.lastSeen >= ev.at && Shows(cfg, t.devices[id], ev, ev.at)
            && Has(t.devices[id], before[ev.endpoint.key := Slot(ev)],
                   (id in s.devices && s.devices[id].pub.isStatic) || ev.source == SOURCE_STATIC)
  {
    hide *;
    OwnChoice(cfg, s, ev, o);
    StepKeepsInv(cfg, s, Hear(ev, o));
    PlainAdd(cfg, s, ev, o, ev.deviceID);
    NextIsApply(cfg, s, ev, o);
    AddShows(cfg, s, ev, ev.at, ev.at, o.merge, o.add);
  }

  lemma OwnAddIs(cfg: Config, s: State, ev: Event, o: Orders)
    requires ev.deviceID != "" && ev.kindOf.EventAdd? && ev.at != 0
    ensures var t := Next(cfg, s, Hear(ev, o));
            ev.deviceID in t.devices && t.devices[ev.deviceID] == Observed(cfg, s, ev.deviceID, ev, ev.at, ev.at, o.add)
  {
    OwnChoice(cfg, s, ev, o);
    NextIsAdd(cfg, s, ev, o);
    hide Next, Resolve, Resolved, Observed, BindAliases, EventHandles;
  }

  lemma NothingHeard(cfg: Config)
    ensures Inv(cfg, EMPTY) && EMPTY.devices == map[] && EMPTY.aliases == map[]
  {
  }

  /** A device announced on port 80 and again, all else alike, on port 8080: its port has
      moved, its epoch and addresses have not. */
  lemma PortExample(o1: Orders, o2: Orders)
    ensures var e1, e2 := Of("avahi", SLOT, 80, 1), Of("avahi", SLOT, 8080, 2);
            var s1 := Next(CFG, EMPTY, Hear(e1, o1));
            var s2 := Next(CFG, s1, Hear(e2, o2));
            && s1.devices.Keys == s2.devices.Keys == {NODE}
            && s1.devices[NODE].pub.port == 80 && s2.devices[NODE].pub.port == 8080
            && s1.devices[NODE].pub.epoch == s2.devices[NODE].pub.epoch
            && s1.devices[NODE].pub.addrs == s2.devices[NODE].pub.addrs && Unmap(HOME) in s1.devices[NODE].pub.addrs
  {
    var e1, e2 := Of("avahi", SLOT, 80, 1), Of("avahi", SLOT, 8080, 2);
    assert NODE != "" && Usable(CFG.policy, HOME);
    NothingHeard(CFG);
    hide *;
    assert e1.deviceID == e2.deviceID == NODE by { OfIs("avahi", SLOT, 80, 1); OfIs("avahi", SLOT, 8080, 2); }
    OfIs("avahi", SLOT, 80, 1);
    OfIs("avahi", SLOT, 8080, 2);
    PortMoves(CFG, EMPTY, e1, e2, o1, o2);
  }

  lemma OfIs(source: string, slot: EndpointKey, port: nat, at: int)
    ensures var e := Of(source, slot, port, at);
            && e.deviceID == NODE && e.kindOf.EventAdd? && e.at == at && e.source == source
            && e.endpoint == Endpoint(slot, "", HOME, port, map[], false, at)
  {
    hide NODE;
  }

  lemma PortMoves(cfg: Config, s: State, e1: Event, e2: Event, o1: Orders, o2: Orders)
    requires Inv(cfg, s) && s.devices == map[] && e1.deviceID == e2.deviceID != "" && e1.kindOf.EventAdd? && e2.kindOf.EventAdd?
    requires e1.at != 0 && e2.at != 0 && e1.endpoint.port != 0 && e2.endpoint.port != 0
    requires e2.endpoint.key == e1.endpoint.key && e2.endpoint.addr == e1.endpoint.addr && e2.endpoint.trusted == e1.endpoint.trusted
    requires Usable(cfg.policy, e1.endpoint.addr)
    ensures var s1 := Next(cfg, s, Hear(e1, o1));
            var s2 := Next(cfg, s1, Hear(e2, o2));
            var id := e1.deviceID;
            && s1.devices.Keys == s2.devices.Keys == {id}
            && s1.devices[id].pub.port == e1.endpoint.port && s2.devices[id].pub.port == e2.endpoint.port
            && s1.devices[id].pub.epoch == s2.devices[id].pub.epoch
            && s1.devices[id].pub.addrs == s2.devices[id].pub.addrs && Unmap(e1.endpoint.addr) in s1.devices[id].pub.addrs
  {
    hide *;
    var s1, id := Next(cfg, s, Hear(e1, o1)), e1.deviceID;
    OwnAdd(cfg, s, e1, o1);
    ShowsAddr(cfg, s1.devices[id], e1, e1.at);
    HasIs(s1.devices[id], map[e1.endpoint.key := Slot(e1)], e1.source == SOURCE_STATIC);
    SingleTrusted(s1.devices[id].endpoints, e1, e2);
    OwnAdd(cfg, s1, e2, o2);
    OwnAddIs(cfg, s1, e2, o2);
    RecordIsCurrent(cfg, s1, id);
    PortMovesWithoutEpoch(cfg, s1, id, e2, e2.at, e2.at, o2.add);
  }

  lemma ShowsAddr(cfg: Config, d: DeviceState, ev: Event, at: int)
    requires Shows(cfg, d, ev, at) && Usable(cfg.policy, ev.endpoint.addr)
    ensures Unmap(ev.endpoint.addr) in d.pub.addrs && (ev.endpoint.port != 0 ==> d.pub.port == ev.endpoint.port)
  {
    hide Usable, Unmap;
  }

  lemma SingleTrusted(eps: Endpoints, e1: Event, e2: Event)
    requires eps == map[e1.endpoint.key := Slot(e1)] && e2.endpoint.key == e1.endpoint.key
    requires e2.endpoint.addr == e1.endpoint.addr && e2.endpoint.trusted == e1.endpoint.trusted
    ensures SameAddress(eps, e2.endpoint) && OneTrustedAddr(eps)
  {
    hide Unmap;
  }

  /** A device with one endpoint from each of two sources, the younger in doubt after a reset
      of its source: the tick that drops the older leaves only the doubtful one, and the
      device still counts as verified. */
  lemma FlagExample(o1: Orders, o2: Orders, o3: Orders, o4: Orders)
    ensures var e1, e2 := Of("avahi", SLOT, 80, 10), Of("mdns", OTHER_SLOT, 80, 90);
            var s2 := Next(CFG, Next(CFG, EMPTY, Hear(e1, o1)), Hear(e2, o2));
            var s3 := Next(CFG, s2, Hear(ResetOf("mdns", 100), o3));
            var s4 := Next(CFG, s3, ExpiryTick(101, o4.tick));
            NODE in s4.devices && AllUnverified(s4.devices[NODE].endpoints) && !s4.devices[NODE].pub.unverified
  {
    var e1, e2 := Of("avahi", SLOT, 80, 10), Of("mdns", OTHER_SLOT, 80, 90);
    assert NODE != "" && "avahi" != "mdns" && "avahi" != SOURCE_STATIC && "mdns" != SOURCE_STATIC && SLOT != OTHER_SLOT;
    assert CFG.endpointTTL == CFG.deviceTTL == CFG.removeGrace == 50;
    NothingHeard(CFG);
    hide *;
    OfIs("avahi", SLOT, 80, 10);
    OfIs("mdns", OTHER_SLOT, 80, 90);
    var s1 := Next(CFG, EMPTY, Hear(e1, o1));
    OwnAdd(CFG, EMPTY, e1, o1);
    HasIs(s1.devices[NODE], map[e1.endpoint.key := Slot(e1)], false);
    OwnAdd(CFG, s1, e2, o2);
    var s2 := Next(CFG, s1, Hear(e2, o2));
    ResetIs(CFG, s2, "mdns", 100, o3);
    DoubtOutlives(CFG, s2, NODE, e1, e2, 100, 101, o4.tick);
  }

  function ResetOf(source: string, at: int): Event {
    Event(EventSourceReset, source, "", "", false, Unknown, Endpoint(NO_KEY, "", NoAddr, 0, map[], false, 0), at)
  }

  lemma ResetIs(cfg: Config, s: State, source: string, at: int, o: Orders)
    requires at != 0
    ensures Next(cfg, s, Hear(ResetOf(source, at), o)) == MarkSourceUnverified(s, source, at).0
  {
    hide MarkSourceUnverified;
  }

  lemma DoubtOutlives(cfg: Config, s: State, id: string, e1: Event, e2: Event, reset: int, now: int, orders: map<string, seq<EndpointKey>>)
    requires Inv(cfg, s) && id in s.devices && e1.endpoint.key != e2.endpoint.key && e1.source != e2.source
    requires Has(s.devices[id], map[e1.endpoint.key := Slot(e1), e2.endpoint.key := Slot(e2)], false)
    requires now - e1.endpoint.observedAt > cfg.endpointTTL && now - e2.endpoint.observedAt <= cfg.endpointTTL
    requires now - reset <= cfg.removeGrace && now - s.devices[id].pub.lastSeen <= cfg.deviceTTL
    ensures var t := Next(cfg, MarkSourceUnverified(s, e2.source, reset).0, ExpiryTick(now, orders));
            id in t.devices && AllUnverified(t.devices[id].endpoints) && !t.devices[id].pub.unverified
  {
    var s1 := MarkSourceUnverified(s, e2.source, reset).0;
    SourceResetKeepsInv(cfg, s, e2.source, reset);
    Doubted(s.devices[id], e1, e2, reset);
    TickIs(cfg, s1, now, orders);
    var d := s1.devices[id];
    assert d == HintDevice(s.devices[id], e2.source, NO_KEY, reset).0;
    hide *;
    ExpiryVerdict(cfg, s1, now, orders, id, e1.endpoint.key);
    ExpiryVerdict(cfg, s1, now, orders, id, e2.endpoint.key);
    TickShrinks(cfg, s1, now, orders, id);
    TickKeepsFlag(cfg, s1, now, orders, id);
    OnlyDoubtful(d.endpoints, Expire(cfg, s1, now, orders).0.devices[id].endpoints, e1, e2, reset);
  }

  lemma Doubted(d: DeviceState, e1: Event, e2: Event, reset: int)
    requires e1.endpoint.key != e2.endpoint.key && e1.source != e2.source
    requires Has(d, map[e1.endpoint.key := Slot(e1), e2.endpoint.key := Slot(e2)], false)
    ensures var e := HintDevice(d, e2.source, NO_KEY, reset).0;
            && e.endpoints == map[e1.endpoint.key := Slot(e1), e2.endpoint.key := EndpointState(e2.endpoint, true, reset, e2.source)]
            && e1.endpoint.key in e.endpoints && e2.endpoint.key in e.endpoints
            && e.endpoints[e1.endpoint.key] == Slot(e1) && e.endpoints[e1.endpoint.key].ep == e1.endpoint
            && e.endpoints[e2.endpoint.key].ep == e2.endpoint && e.endpoints[e2.endpoint.key].removeHintAt == reset
            && !e.pub.unverified && !e.pub.isStatic && e.pub.lastSeen == d.pub.lastSeen
  {
    var e := HintDevice(d, e2.source, NO_KEY, reset).0;
    assert Hinted(e2.endpoint.key, d.endpoints[e2.endpoint.key], e2.source, NO_KEY);
    assert !e.endpoints[e1.endpoint.key].unverified;
  }

  lemma TickKeepsFlag(cfg: Config, s: State, now: int, orders: map<string, seq<EndpointKey>>, id: string)
    requires id in s.devices && id in Expire(cfg, s, now, orders).0.devices
    ensures Expire(cfg, s, now, orders).0.devices[id].pub.unverified == s.devices[id].pub.unverified
  {
    hide Recompute, Forgotten, Lapsed, AddrsCurrent;
    RecomputeFacts(cfg, s.devices[id].(endpoints := Surviving(cfg, s.devices[id], now)), OrderFor(orders, id));
  }

  lemma OnlyDoubtful(before: Endpoints, after: Endpoints, e1: Event, e2: Event, reset: int)
    requires before == map[e1.endpoint.key := Slot(e1), e2.endpoint.key := EndpointState(e2.endpoint, true, reset, e2.source)]
    requires e1.endpoint.key !in after && e2.endpoint.key in after
    requires forall k :: k in after ==> k in before && after[k] == before[k]
    ensures AllUnverified(after)
  {
    hide Slot;
  }

  /** A device known by its MAC loses its own identifier as a handle to another, announced
      under an identifier of its own with the same MAC; both stay registered. */
  lemma HandleExample(o1: Orders, o2: Orders)
    ensures var e1, e2 := ByMAC(), Announce("static", NODE, FOO, map["mac" := MAC], SLOT, AWAY, 80, 200);
            var s1 := Next(CFG, EMPTY, Hear(e1, o1));
            var s2 := Next(CFG, s1, Hear(e2, o2));
            && STRONG in s1.aliases && s1.aliases[STRONG] == STRONG
            && STRONG in s2.devices && NODE in s2.devices && STRONG in s2.aliases && s2.aliases[STRONG] == NODE
  {
    var e1, e2 := ByMAC(), Announce("static", NODE, FOO, map["mac" := MAC], SLOT, AWAY, 80, 200);
    IDsDiffer();
    HandlesByMAC(e1);
    HandlesByMAC(e2);
    assert NODE != "" && e1.deviceID == "" && e2.deviceID == NODE && e1.kindOf.EventAdd? && e2.kindOf.EventAdd? && e1.at != 0 && e2.at != 0;
    assert e2.instance == FOO && e1.instance == BAR;
    assert NODE[0] == 'n' && STRONG[0] == 'm';
    hide *;
    HandleTaken(CFG, e1, e2, o1, o2, PREFIX_NAME + BAR, PREFIX_NAME + FOO, STRONG);
  }

  lemma HandleTaken(cfg: Config, e1: Event, e2: Event, o1: Orders, o2: Orders, n1: string, n2: string, strong: string)
    requires EventHandles(cfg, e1) == [n1, strong, strong] && DerivedOf(cfg, e1) == strong && e1.deviceID == ""
    requires EventHandles(cfg, e2) == [n2, strong, strong] && e2.deviceID != "" && e2.deviceID != strong
    requires !IsShortID(strong) && strong != "" && n1 != strong
    requires e1.kindOf.EventAdd? && e2.kindOf.EventAdd? && e1.at != 0 && e2.at != 0
    ensures var s1 := Next(cfg, EMPTY, Hear(e1, o1));
            var s2 := Next(cfg, s1, Hear(e2, o2));
            && strong in s1.aliases && s1.aliases[strong] == strong
            && strong in s2.devices && e2.deviceID in s2.devices && strong in s2.aliases && s2.aliases[strong] == e2.deviceID
  {
    hide Next, EventHandles, DerivedOf, IsShortID, Has;
    ResolvesFresh(cfg, EMPTY, e1);
    assert Resolve(cfg, Next(cfg, EMPTY, Hear(e1, o1)), e2) == Resolution(e2.deviceID, None);
    hide Resolve;
    PlainAdd(cfg, EMPTY, e1, o1, strong);
    PlainAdd(cfg, Next(cfg, EMPTY, Hear(e1, o1)), e2, o2, e2.deviceID);
  }
}
