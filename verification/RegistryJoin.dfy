/** A Gen1 Shelly seen under both its identities: mDNS names it by its last three MAC bytes,
    the cloud by its full MAC. Whichever is heard first they become one device, exactly if
    their identifiers match or they share a handle. */
module RegistryJoin {
  import opened Common
  import opened Identity
  import opened Address
  import opened RegistryModel
  import opened RegistryInvariants

  function LabelOf(ev: Event): string { InstanceLabel(ev.instance) }

  /** An mDNS Add naming a Shelly by three MAC bytes, and an unnamed cloud Add giving it a
      full MAC that ends in them. */
  predicate OneDevice(cfg: Config, m: Event, c: Event) {
    && m.deviceID == "" && m.kind.Shelly? && !m.unnamed && IsShortID(DerivedOf(cfg, m))
    && c.deviceID == "" && c.kind.Shelly? && c.unnamed && IsMACID(DerivedOf(cfg, c))
    && HasSuffix(DerivedOf(cfg, c), MacFromName(cfg.fold, LabelOf(m)))
  }

  /** The announced name stops at the three bytes, so the short identifier ends in them. */
  predicate EndsInTail(m: Event) { EndsInDashHex(LabelOf(m), 6) }

  ghost predicate ShareHandle(cfg: Config, m: Event, c: Event) {
    exists h :: h in EventHandles(cfg, m) && h in EventHandles(cfg, c)
  }

  /** When the registry can tell that the two are one device. */
  ghost predicate Tells(cfg: Config, m: Event, c: Event) { EndsInTail(m) || ShareHandle(cfg, m, c) }

  /** What a short identifier is matched by. */
  function AfterDash(id: string): string {
    match LastIndex(id, '-')
    case None => id
    case Some(i) => id[i + 1..]
  }

  /** What a full identifier is matched by. */
  function DashTail(mac: string): string
    requires IsMACID(mac) && |mac| == 16
  {
    "-" + MACOfID(mac)[6..]
  }

  /** Neither identity is registered, and neither is matched by another device's. */
  ghost predicate Absent(s: State, short: string, mac: string)
    requires IsMACID(mac) && |mac| == 16
  {
    && short !in s.devices && mac !in s.devices
    && ShortMatches(s.devices, DashTail(mac)) == {} && MACMatches(s.devices, AfterDash(short)) == {}
  }

  /** Neither event has been heard of, and no other Shelly could be meant. */
  ghost predicate Unheard(cfg: Config, s: State, m: Event, c: Event)
    requires OneDevice(cfg, m, c)
  {
    && Unbound(cfg, s, m) && Unbound(cfg, s, c)
    && Absent(s, DerivedOf(cfg, m), DerivedOf(cfg, c))
  }

  /** The two events under the names they resolve by, and whether those match. */
  ghost predicate Named(cfg: Config, m: Event, c: Event, short: string, mac: string) {
    && m.deviceID == "" && m.kind.Shelly? && DerivedOf(cfg, m) == short
    && c.deviceID == "" && c.kind.Shelly? && DerivedOf(cfg, c) == mac
    && Fits(short, mac, EndsInTail(m))
  }

  ghost predicate Fits(short: string, mac: string, alike: bool) {
    && IsShortID(short) && !IsMACID(short) && '-' in short
    && IsMACID(mac) && !IsShortID(mac) && |mac| == 16
    && (HasSuffix(mac, AfterDash(short)) <==> alike) && (HasSuffix(short, DashTail(mac)) <==> alike)
  }

  // ---- What the names tell --------------------------------------------------------------

  lemma {:induction false} IndexIsFirst(s: string, p: string, j: nat)
    requires j + |p| <= |s| && s[j..j + |p|] == p
    ensures Index(s, p).Some? && Index(s, p).value <= j
  {
    if !(p <= s) {
      assert j > 0 && s[1..][j - 1..j - 1 + |p|] == p;
      IndexIsFirst(s[1..], p, j - 1);
    }
  }

  /** Stripping a label again cuts no more at a service suffix. */
  lemma LabelAgain(instance: string)
    ensures var bare := InstanceLabel(instance);
            InstanceLabel(bare) == TrimSuffix(TrimSuffix(bare, "."), ".local")
  {
    var bare := InstanceLabel(instance);
    assert bare <= instance;
    HeadStays(instance, bare);
    if Index(bare, "._").Some? && Index(bare, "._").value > 0 {
      var j := Index(bare, "._").value;
      assert instance[j..j + 2] == bare[j..j + 2] == "._";
      IndexIsFirst(instance, "._", j);
    }
  }

  lemma HeadStays(s: string, t: string)
    requires t <= s
    ensures |t| >= 2 && "._" <= s ==> "._" <= t
  {
    assert |t| >= 2 ==> t[0] == s[0] && t[1] == s[1];
  }

  /** A label whose three bytes are found only on stripping it again ends in what is stripped. */
  lemma StrippedAgain(instance: string)
    requires var bare := InstanceLabel(instance);
             !EndsInDashHex(bare, 6) && EndsInDashHex(InstanceLabel(bare), 6)
    ensures var bare := InstanceLabel(instance);
            bare != "" && (bare[|bare| - 1] == '.' || bare[|bare| - 1] == 'l') && '-' in bare
  {
    var bare := InstanceLabel(instance);
    LabelAgain(instance);
    assert HasSuffix(bare, ".") || HasSuffix(bare, ".local");
    var inner := InstanceLabel(bare);
    assert inner <= bare && inner[|inner| - 7] in bare;
  }

  lemma ShortTail(fold: char -> char, instance: string, txt: Txt)
    requires IsShortID(DeriveID(fold, instance, txt))
    ensures EndsInDashHex(InstanceLabel(InstanceLabel(instance)), 6)
    ensures var name := InstanceLabel(InstanceLabel(instance));
            MacFromName(fold, InstanceLabel(instance)) == MapChars(fold, name[|name| - 6..])
  {
    hide MapChars, InstanceLabel, NormaliseMAC;
    var bare := InstanceLabel(instance);
    assert (PREFIX_NAME + MapChars(fold, bare))[0] == 'n';
    assert DeriveID(fold, instance, txt)[0] == 's';
  }

  lemma LastOf(short: string, mac: string)
    requires IsShortID(short) && !IsMACID(short) && '-' in short && short[|short| - 1] != '-'
    requires IsFullMACID(mac) && !IsShortID(mac) && !IsHexDigit(short[|short| - 1])
    ensures Fits(short, mac, false)
  {
    var after, tail := AfterDash(short), DashTail(mac);
    assert after != [] && after[|after| - 1] == short[|short| - 1];
    assert IsHexDigit(mac[15]) && tail[|tail| - 1] == mac[15];
    SameEnd(mac, after);
    SameEnd(short, tail);
  }

  lemma SameEnd(s: string, suffix: string)
    requires suffix != "" && s != ""
    ensures HasSuffix(s, suffix) ==> suffix[|suffix| - 1] == s[|s| - 1]
  {
    if HasSuffix(s, suffix) { assert s[|s| - |suffix|..][|suffix| - 1] == s[|s| - 1]; }
  }

  lemma FitsWhenBare(short: string, mac: string, hex: string)
    requires ShareTail(short, mac, hex)
    ensures Fits(short, mac, true)
  {
    assert AfterDash(short) == hex && DashTail(mac) == "-" + hex;
    assert short[|short| - 7] == '-';
  }

  lemma KindOfID(fold: char -> char, name: string, mac: string)
    requires IsMACID(mac)
    ensures !IsMACID(PREFIX_SHORT_ID + MapChars(fold, name)) && !IsShortID(mac)
  {
    assert (PREFIX_SHORT_ID + MapChars(fold, name))[0] == 's' && mac[0] == 'm';
  }

  lemma StaysBare(instance: string)
    requires EndsInDashHex(InstanceLabel(instance), 6)
    ensures InstanceLabel(InstanceLabel(instance)) == InstanceLabel(instance)
  {
    var bare := InstanceLabel(instance);
    LabelAgain(instance);
    assert IsHexAnyCase(bare[|bare| - 1]);
    SameEnd(bare, ".");
    SameEnd(bare, ".local");
    hide InstanceLabel;
  }

  lemma SixFolded(fold: char -> char, bare: string)
    requires FoldsAscii(fold) && EndsInDashHex(bare, 6)
    ensures |bare| >= 6 && MapChars(fold, bare[|bare| - 6..]) == Lower(bare[|bare| - 6..])
  {
    FoldedHex(fold, bare[|bare| - 6..]);
  }

  lemma BareFits(fold: char -> char, instance: string, txt: Txt, mac: string)
    requires FoldsAscii(fold) && IsShortID(DeriveID(fold, instance, txt)) && IsMACID(mac) && |mac| == 16
    requires EndsInDashHex(InstanceLabel(instance), 6) && HasSuffix(mac, MacFromName(fold, InstanceLabel(instance)))
    ensures Fits(DeriveID(fold, instance, txt), mac, true)
  {
    var bare := InstanceLabel(instance);
    hide *;
    StaysBare(instance);
    ShortTail(fold, instance, txt);
    SixFolded(fold, bare);
    DerivedShareTail(fold, instance, txt, mac);
    FitsWhenBare(DeriveID(fold, instance, txt), mac, Lower(bare[|bare| - 6..]));
  }

  lemma FoldedEnd(fold: char -> char, bare: string)
    requires FoldsAscii(fold) && bare != "" && (bare[|bare| - 1] == '.' || bare[|bare| - 1] == 'l') && '-' in bare
    ensures var short := PREFIX_SHORT_ID + MapChars(fold, bare);
            short[|short| - 1] == bare[|bare| - 1] && '-' in short
  {
    var short := PREFIX_SHORT_ID + MapChars(fold, bare);
    var i :| 0 <= i < |bare| && bare[i] == '-';
    assert short[|PREFIX_SHORT_ID| + i] == '-';
  }

  lemma TrailedFits(fold: char -> char, instance: string, txt: Txt, mac: string)
    requires FoldsAscii(fold) && IsShortID(DeriveID(fold, instance, txt)) && IsFullMACID(mac)
    requires !EndsInDashHex(InstanceLabel(instance), 6)
    ensures Fits(DeriveID(fold, instance, txt), mac, false)
  {
    var bare := InstanceLabel(instance);
    hide DeriveID, InstanceLabel, MacFromName, MapChars, Fits, EndsInDashHex;
    ShortTail(fold, instance, txt);
    StrippedAgain(instance);
    ShortIDForm(fold, instance, txt);
    FoldedEnd(fold, bare);
    KindOfID(fold, bare, mac);
    LastOf(DeriveID(fold, instance, txt), mac);
  }

  lemma OneDeviceNamed(cfg: Config, m: Event, c: Event)
    requires FoldsAscii(cfg.fold) && OneDevice(cfg, m, c)
    ensures Named(cfg, m, c, DerivedOf(cfg, m), DerivedOf(cfg, c))
  {
    DerivedForms(cfg.fold, c.instance, c.endpoint.txt);
    hide DeriveID, InstanceLabel, IsShortID, IsMACID, HasSuffix, EndsInDashHex, Fits, MacFromName;
    if EndsInTail(m) {
      BareFits(cfg.fold, m.instance, m.endpoint.txt, DerivedOf(cfg, c));
    } else {
      TrailedFits(cfg.fold, m.instance, m.endpoint.txt, DerivedOf(cfg, c));
    }
  }

  // ---- Resolution in either order ---------------------------------------------------

  /** No handle of the event is bound. */
  ghost predicate Unbound(cfg: Config, s: State, ev: Event) {
    forall h :: h in EventHandles(cfg, ev) ==> h !in s.aliases
  }

  /** Any handle of the event bound by now leads to `id`. */
  ghost predicate LeadsOnlyTo(cfg: Config, s: State, ev: Event, id: string) {
    forall h :: h in EventHandles(cfg, ev) && h in s.aliases ==> s.aliases[h] == id
  }

  function If(found: bool, id: string): set<string> { if found then {id} else {} }

  lemma ShortMatch(s: State, short: string, mac: string, found: bool)
    requires IsShortID(short) && !IsMACID(short) && '-' in short && MACMatches(s.devices, AfterDash(short)) == If(found, mac)
    ensures MatchShortID(s, Shelly, short) == if found then Some(Resolution(mac, None)) else None
  {
    hide IsShortID, HasSuffix, MACMatches, ShortMatches;
  }

  lemma MACMatch(s: State, short: string, mac: string, found: bool)
    requires IsMACID(mac) && |mac| == 16 && ShortMatches(s.devices, DashTail(mac)) == If(found, short)
    ensures MatchShortID(s, Shelly, mac) == if found then Some(Resolution(mac, Some(short))) else None
  {
    hide IsShortID, HasSuffix, MACMatches, ShortMatches;
  }

  lemma ResolveShort(cfg: Config, s: State, m: Event, c: Event, short: string, mac: string, found: bool)
    requires Named(cfg, m, c, short, mac) && LeadsOnlyTo(cfg, s, m, mac)
    requires MACMatches(s.devices, AfterDash(short)) == If(found, mac)
    ensures Resolve(cfg, s, m) == Resolution(if found || !Unbound(cfg, s, m) then mac else short, None)
  {
    hide AfterDash, HasSuffix, MatchShortID, EventHandles, DerivedOf, MACMatches, IsMACID, IsShortID;
    ShortMatch(s, short, mac, found);
  }

  lemma ResolveMAC(cfg: Config, s: State, m: Event, c: Event, short: string, mac: string, found: bool)
    requires Named(cfg, m, c, short, mac) && LeadsOnlyTo(cfg, s, c, short)
    requires ShortMatches(s.devices, DashTail(mac)) == If(found, short)
    ensures Resolve(cfg, s, c) == Resolution(mac, if found || !Unbound(cfg, s, c) then Some(short) else None)
  {
    hide AfterDash, HasSuffix, MatchShortID, EventHandles, DerivedOf, ShortMatches, IsMACID, IsShortID, DashTail;
    MACMatch(s, short, mac, found);
  }

  /** The registered Shelly could be meant by this identity: one of them is a full MAC that
      ends in what follows the last dash of the other, a short name. */
  ghost predicate CouldBe(s: State, derived: string, id: string) {
    && id in s.devices && s.devices[id].pub.kind.Shelly?
    && if IsMACID(derived) then IsShortID(id) && |derived| == 16 && HasSuffix(id, DashTail(derived))
       else IsShortID(derived) && '-' in derived && IsMACID(id) && HasSuffix(id, AfterDash(derived))
  }

  ghost predicate IsTheOne(s: State, derived: string, id: string) {
    CouldBe(s, derived, id) && forall other :: CouldBe(s, derived, other) ==> other == id
  }

  lemma CouldBeMatches(s: State, derived: string)
    ensures IsMACID(derived) && |derived| == 16 ==> forall id :: CouldBe(s, derived, id) <==> id in ShortMatches(s.devices, DashTail(derived))
    ensures !IsMACID(derived) && IsShortID(derived) && '-' in derived ==>
              forall id :: CouldBe(s, derived, id) <==> id in MACMatches(s.devices, AfterDash(derived))
  {
    hide IsMACID, IsShortID, HasSuffix, DashTail, AfterDash;
  }

  lemma TheOneIs(ids: set<string>)
    ensures forall id :: Only(ids) == Some(id) <==> ids == {id}
  {
  }

  /** Matching by three bytes is for Shellies, and guesses nothing. An unheard-of event of a
      Shelly joins the one registered Shelly that could be meant, if there is exactly one:
      a short name is promoted to the full MAC, or gives way to it. With none, or more than
      one, or of any other kind, it keeps to the identity it derives. */
  lemma MatchedExactlyWhen(cfg: Config, s: State, ev: Event, id: string)
    requires ev.deviceID == "" && Unbound(cfg, s, ev)
    ensures var derived, r := DerivedOf(cfg, ev), Resolve(cfg, s, ev);
            && (ev.kind.Shelly? && IsTheOne(s, derived, id) ==>
                  r == if IsMACID(derived) then Resolution(derived, Some(id)) else Resolution(id, None))
            && ((!ev.kind.Shelly? || forall x :: !IsTheOne(s, derived, x)) ==> r == Resolution(derived, None))
  {
    var derived := DerivedOf(cfg, ev);
    UnboundResolves(cfg, s, ev);
    hide Resolve, Unbound, DerivedOf, EventHandles;
    if ev.kind.Shelly? { MatchedAs(s, derived, id); }
  }

  lemma UnboundResolves(cfg: Config, s: State, ev: Event)
    requires ev.deviceID == "" && Unbound(cfg, s, ev)
    ensures Resolve(cfg, s, ev) == match MatchShortID(s, ev.kind, DerivedOf(cfg, ev))
                                   case Some(r) => r
                                   case None => Resolution(DerivedOf(cfg, ev), None)
    ensures !ev.kind.Shelly? ==> MatchShortID(s, ev.kind, DerivedOf(cfg, ev)) == None
  {
    hide DerivedOf, EventHandles, ShortMatches, MACMatches, IsMACID, IsShortID;
  }

  lemma MatchedAs(s: State, derived: string, id: string)
    requires IsMACID(derived) ==> |derived| == 16
    ensures IsTheOne(s, derived, id) ==>
              MatchShortID(s, Shelly, derived) == Some(if IsMACID(derived) then Resolution(derived, Some(id)) else Resolution(id, None))
    ensures (forall x :: !IsTheOne(s, derived, x)) ==> MatchShortID(s, Shelly, derived) == None
  {
    CouldBeMatches(s, derived);
    var dashed := IsShortID(derived) && '-' in derived;
    var ids := if IsMACID(derived) then ShortMatches(s.devices, DashTail(derived)) else if dashed then MACMatches(s.devices, AfterDash(derived)) else {};
    TheOneIs(ids);
    NeverMeant(s, derived);
    hide ShortMatches, MACMatches, IsMACID, IsShortID, HasSuffix, Only, CouldBe;
    forall x ensures IsTheOne(s, derived, x) <==> ids == {x} {
      assert forall y :: CouldBe(s, derived, y) <==> y in ids;
    }
  }

  lemma NeverMeant(s: State, derived: string)
    ensures !IsMACID(derived) && !(IsShortID(derived) && '-' in derived) ==> forall id :: !CouldBe(s, derived, id)
  {
    hide IsMACID, IsShortID;
  }

  // ---- Records ----------------------------------------------------------------------

  /** The parts of a record the two orders are compared on. */
  predicate Looks(d: DeviceState, name: string, provisional: bool, eps: Endpoints) {
    && d.pub.name == name && d.provisionalName == provisional
    && d.endpoints == eps && !d.hasPinned && d.pub.kind.Shelly?
  }

  function EndpointOf(ev: Event): EndpointState {
    EndpointState(ev.endpoint, false, 0, ev.source)
  }

  lemma FirstLooks(cfg: Config, s: State, id: string, ev: Event, at: int, now: int, order: seq<EndpointKey>)
    requires id !in s.devices && ev.kind.Shelly?
    ensures Looks(Observed(cfg, s, id, ev, at, now, order), LabelOf(ev), ev.unnamed, map[ev.endpoint.key := EndpointOf(ev)])
  {
    RecomputeFacts(cfg, Absorb(NewDevice(id, ev, now), ev, at), order);
    hide Recompute;
  }

  lemma ThenLooks(cfg: Config, s: State, id: string, ev: Event, at: int, now: int, order: seq<EndpointKey>,
                  name: string, provisional: bool, eps: Endpoints)
    requires id in s.devices && Looks(s.devices[id], name, provisional, eps)
    ensures var takes := provisional && !ev.unnamed && LabelOf(ev) != "";
            Looks(Observed(cfg, s, id, ev, at, now, order), if takes then LabelOf(ev) else name,
                  provisional && !takes, eps[ev.endpoint.key := EndpointOf(ev)])
  {
    RecomputeFacts(cfg, Absorb(Renamed(s.devices[id], ev), ev, at), order);
    hide Recompute;
  }

  lemma RenameLooks(cfg: Config, s: State, oldID: string, newID: string, order: seq<EndpointKey>,
                    name: string, provisional: bool, eps: Endpoints)
    requires oldID != newID && oldID in s.devices && newID !in s.devices
    requires Looks(s.devices[oldID], name, provisional, eps)
    ensures Looks(Promote(cfg, s, oldID, newID, order).devices[newID], name, provisional, eps)
  {
    var weak := s.devices[oldID];
    RecomputeFacts(cfg, weak.(pub := weak.pub.(id := newID)), order);
    hide Recompute;
  }

  // ---- The two orders ---------------------------------------------------------------

  /** When each Add was handled and the map orders taken. */
  datatype Timing = Timing(at: int, now: int, mergeOrder: seq<EndpointKey>, order: seq<EndpointKey>)

  ghost function Add(cfg: Config, s: State, ev: Event, t: Timing): State {
    ApplyAdd(cfg, s, ev, t.at, t.now, t.mergeOrder, t.order).0
  }

  ghost predicate Joined(s: State, t: State, mac: string, name: string, eps: Endpoints) {
    && t.devices.Keys == s.devices.Keys + {mac}
    && (forall id :: id in s.devices ==> t.devices[id] == s.devices[id])
    && Looks(t.devices[mac], name, false, eps)
  }

  /** A first Add at a new identity. */
  lemma FirstAdd(cfg: Config, s: State, ev: Event, t: Timing, id: string)
    requires Resolve(cfg, s, ev) == Resolution(id, None) && id != "" && id !in s.devices && ev.kind.Shelly?
    ensures var s1 := Add(cfg, s, ev, t);
            && s1.devices.Keys == s.devices.Keys + {id}
            && (forall x :: x in s.devices ==> s1.devices[x] == s.devices[x])
            && Looks(s1.devices[id], LabelOf(ev), ev.unnamed, map[ev.endpoint.key := EndpointOf(ev)])
            && s1.aliases == BindAliases(s.aliases, id, EventHandles(cfg, ev))
  {
    hide Resolve, Observed, EventHandles, BindAliases, DerivedOf, LabelOf, Looks;
    FirstLooks(cfg, s, id, ev, t.at, t.now, t.order);
  }

  lemma FirstBinds(cfg: Config, s: State, t: State, ev: Event, other: Event, id: string)
    requires t.aliases == BindAliases(s.aliases, id, EventHandles(cfg, ev)) && id == DerivedOf(cfg, ev)
    requires Unbound(cfg, s, other)
    ensures LeadsOnlyTo(cfg, t, other, id) && (Unbound(cfg, t, other) <==> !ShareHandle(cfg, ev, other))
  {
    BindAliasesBinds(s.aliases, id, EventHandles(cfg, ev));
    BindsOnly(s.aliases, id, EventHandles(cfg, ev));
    assert id in EventHandles(cfg, ev);
    hide EventHandles, BindAliases, DerivedOf;
  }

  /** A later Add that resolves to a registered identity without promoting. */
  lemma LaterAdd(cfg: Config, s: State, ev: Event, t: Timing, id: string, name: string, provisional: bool, eps: Endpoints)
    requires Resolve(cfg, s, ev) == Resolution(id, None) && id != "" && id in s.devices
    requires Looks(s.devices[id], name, provisional, eps)
    ensures var s1 := Add(cfg, s, ev, t);
            var takes := provisional && !ev.unnamed && LabelOf(ev) != "";
            && s1.devices.Keys == s.devices.Keys
            && (forall x :: x in s.devices && x != id ==> s1.devices[x] == s.devices[x])
            && Looks(s1.devices[id], if takes then LabelOf(ev) else name, provisional && !takes,
                     eps[ev.endpoint.key := EndpointOf(ev)])
  {
    hide Resolve, Observed, EventHandles, BindAliases, DerivedOf, LabelOf, Looks;
    ThenLooks(cfg, s, id, ev, t.at, t.now, t.order, name, provisional, eps);
  }

  /** A later Add that renames a registered identity to the one it derives. */
  lemma PromotingAdd(cfg: Config, s: State, ev: Event, t: Timing, short: string, mac: string, name: string, eps: Endpoints)
    requires Resolve(cfg, s, ev) == Resolution(mac, Some(short)) && mac != "" && short != mac
    requires short in s.devices && mac !in s.devices && Looks(s.devices[short], name, false, eps)
    ensures var s1 := Add(cfg, s, ev, t);
            && s1.devices.Keys == s.devices.Keys - {short} + {mac}
            && (forall x :: x in s.devices && x != short ==> s1.devices[x] == s.devices[x])
            && Looks(s1.devices[mac], name, false, eps[ev.endpoint.key := EndpointOf(ev)])
  {
    hide Resolve, Observed, EventHandles, BindAliases, Promote, DerivedOf, LabelOf, Looks;
    RenameLooks(cfg, s, short, mac, t.mergeOrder, name, false, eps);
    PromoteDevices(cfg, s, short, mac, t.mergeOrder);
    ThenLooks(cfg, Promote(cfg, s, short, mac, t.mergeOrder), mac, ev, t.at, t.now, t.order, name, false, eps);
  }

  lemma PromoteDevices(cfg: Config, s: State, oldID: string, newID: string, order: seq<EndpointKey>)
    requires oldID != newID && oldID in s.devices
    ensures var t := Promote(cfg, s, oldID, newID, order);
            && t.devices.Keys == s.devices.Keys - {oldID} + {newID}
            && (forall id :: id in t.devices && id != newID ==> t.devices[id] == s.devices[id])
  {
    hide Recompute, Merge;
  }

  lemma OneMoreShort(s: State, t: State, id: string, suffix: string)
    requires t.devices.Keys == s.devices.Keys + {id} && t.devices[id].pub.kind.Shelly?
    requires forall x :: x in s.devices ==> t.devices[x] == s.devices[x]
    requires ShortMatches(s.devices, suffix) == {} && IsShortID(id)
    ensures ShortMatches(t.devices, suffix) == If(HasSuffix(id, suffix), id)
  {
    hide IsShortID, HasSuffix;
    assert forall x :: x in s.devices ==> x !in ShortMatches(s.devices, suffix);
  }

  lemma OneMoreMAC(s: State, t: State, id: string, suffix: string)
    requires t.devices.Keys == s.devices.Keys + {id} && t.devices[id].pub.kind.Shelly?
    requires forall x :: x in s.devices ==> t.devices[x] == s.devices[x]
    requires MACMatches(s.devices, suffix) == {} && IsMACID(id)
    ensures MACMatches(t.devices, suffix) == If(HasSuffix(id, suffix), id)
  {
    hide IsMACID, HasSuffix;
    assert forall x :: x in s.devices ==> x !in MACMatches(s.devices, suffix);
  }

  /** `t` is `s` and one more device, as its first event leaves it. */
  ghost predicate OneMore(s: State, t: State, id: string, ev: Event) {
    && t.devices.Keys == s.devices.Keys + {id}
    && (forall x :: x in s.devices ==> t.devices[x] == s.devices[x])
    && Looks(t.devices[id], LabelOf(ev), ev.unnamed, map[ev.endpoint.key := EndpointOf(ev)])
  }

  /** The short name is heard first: how the full one then resolves. */
  lemma ThenMAC(cfg: Config, s: State, m: Event, c: Event, t: Timing, short: string, mac: string)
    requires Named(cfg, m, c, short, mac) && Absent(s, short, mac) && Unbound(cfg, s, m) && Unbound(cfg, s, c)
    ensures var s1 := Add(cfg, s, m, t);
            OneMore(s, s1, short, m) && Resolve(cfg, s1, c) == Resolution(mac, if Tells(cfg, m, c) then Some(short) else None)
  {
    var s1 := Add(cfg, s, m, t);
    assert Fits(short, mac, EndsInTail(m)) && short != "" && m.kind.Shelly?;
    assert If(false, mac) == {};
    hide Add, Resolve, AfterDash, DashTail, DerivedOf, EventHandles, HasSuffix, ShortMatches, MACMatches, LabelOf, BindAliases;
    hide EndsInTail, ShareHandle, LeadsOnlyTo, EndpointOf;
    assert LeadsOnlyTo(cfg, s, m, mac) by { LeadsNowhere(cfg, s, m, mac); }
    ResolveShort(cfg, s, m, c, short, mac, false);
    FirstAdd(cfg, s, m, t, short);
    FirstBinds(cfg, s, s1, m, c, short);
    OneMoreShort(s, s1, short, DashTail(mac));
    ResolveMAC(cfg, s1, m, c, short, mac, EndsInTail(m));
  }

  lemma LeadsNowhere(cfg: Config, s: State, ev: Event, id: string)
    requires Unbound(cfg, s, ev)
    ensures LeadsOnlyTo(cfg, s, ev, id)
  {
    hide EventHandles;
  }

  /** The full name is heard first: how the short one then resolves. */
  lemma ThenShort(cfg: Config, s: State, m: Event, c: Event, t: Timing, short: string, mac: string)
    requires Named(cfg, m, c, short, mac) && Absent(s, short, mac) && Unbound(cfg, s, m) && Unbound(cfg, s, c)
    ensures var s1 := Add(cfg, s, c, t);
            OneMore(s, s1, mac, c) && Resolve(cfg, s1, m) == Resolution(if Tells(cfg, m, c) then mac else short, None)
  {
    var s1 := Add(cfg, s, c, t);
    assert Fits(short, mac, EndsInTail(m)) && mac != "" && c.kind.Shelly?;
    assert If(false, short) == {};
    hide Add, Resolve, AfterDash, DashTail, DerivedOf, EventHandles, HasSuffix, ShortMatches, MACMatches, LabelOf, BindAliases;
    hide EndsInTail, LeadsOnlyTo, EndpointOf;
    assert LeadsOnlyTo(cfg, s, c, short) by { LeadsNowhere(cfg, s, c, short); }
    ResolveMAC(cfg, s, m, c, short, mac, false);
    FirstAdd(cfg, s, c, t, mac);
    FirstBinds(cfg, s, s1, c, m, mac);
    OneMoreMAC(s, s1, mac, AfterDash(short));
    ResolveShort(cfg, s1, m, c, short, mac, EndsInTail(m));
  }

  lemma ReplacedIsJoined(s: State, s1: State, t: State, short: string, mac: string, name: string, eps: Endpoints)
    requires short !in s.devices && mac !in s.devices && short != mac
    requires s1.devices.Keys == s.devices.Keys + {short} && t.devices.Keys == s1.devices.Keys - {short} + {mac}
    requires forall x :: x in s.devices ==> s1.devices[x] == s.devices[x]
    requires forall x :: x in s1.devices && x != short ==> t.devices[x] == s1.devices[x]
    requires Looks(t.devices[mac], name, false, eps)
    ensures Joined(s, t, mac, name, eps)
  {
    hide Looks;
  }

  /** Given how the two Adds resolve, what they leave. */
  lemma ShortFirst(cfg: Config, s: State, m: Event, c: Event, tm: Timing, tc: Timing, short: string, mac: string)
    requires short !in s.devices && mac !in s.devices && short != mac && mac != "" && !m.unnamed
    requires var s1 := Add(cfg, s, m, tm);
             OneMore(s, s1, short, m) && Resolve(cfg, s1, c) == Resolution(mac, Some(short))
    ensures Joined(s, Add(cfg, Add(cfg, s, m, tm), c, tc), mac, LabelOf(m),
                   map[m.endpoint.key := EndpointOf(m)][c.endpoint.key := EndpointOf(c)])
  {
    hide Add, Resolve, LabelOf, Looks, Joined;
    var s1 := Add(cfg, s, m, tm);
    PromotingAdd(cfg, s1, c, tc, short, mac, LabelOf(m), map[m.endpoint.key := EndpointOf(m)]);
    ReplacedIsJoined(s, s1, Add(cfg, s1, c, tc), short, mac, LabelOf(m),
                     map[m.endpoint.key := EndpointOf(m)][c.endpoint.key := EndpointOf(c)]);
  }

  lemma MACFirst(cfg: Config, s: State, m: Event, c: Event, tc: Timing, tm: Timing, mac: string)
    requires mac !in s.devices && mac != "" && !m.unnamed && c.unnamed && LabelOf(m) != ""
    requires var s1 := Add(cfg, s, c, tc);
             OneMore(s, s1, mac, c) && Resolve(cfg, s1, m) == Resolution(mac, None)
    ensures Joined(s, Add(cfg, Add(cfg, s, c, tc), m, tm), mac, LabelOf(m),
                   map[c.endpoint.key := EndpointOf(c)][m.endpoint.key := EndpointOf(m)])
  {
    hide Add, Resolve, LabelOf, Looks;
    LaterAdd(cfg, Add(cfg, s, c, tc), m, tm, mac, LabelOf(c), true, map[c.endpoint.key := EndpointOf(c)]);
  }

  /** `t` is `s` and two devices more, each as its own event leaves it. */
  ghost predicate Apart(cfg: Config, s: State, t: State, m: Event, c: Event) {
    var short, mac := DerivedOf(cfg, m), DerivedOf(cfg, c);
    && t.devices.Keys == s.devices.Keys + {short, mac}
    && (forall id :: id in s.devices ==> t.devices[id] == s.devices[id])
    && Looks(t.devices[short], LabelOf(m), m.unnamed, map[m.endpoint.key := EndpointOf(m)])
    && Looks(t.devices[mac], LabelOf(c), c.unnamed, map[c.endpoint.key := EndpointOf(c)])
  }

  /** Two Adds that resolve each to its own identity. */
  lemma EachItsOwn(cfg: Config, s: State, first: Event, second: Event, t: Timing, u: Timing, id: string, other: string)
    requires id !in s.devices && other !in s.devices && id != other && other != "" && second.kind.Shelly?
    requires var s1 := Add(cfg, s, first, t);
             OneMore(s, s1, id, first) && Resolve(cfg, s1, second) == Resolution(other, None)
    ensures var v := Add(cfg, Add(cfg, s, first, t), second, u);
            && v.devices.Keys == s.devices.Keys + {id, other}
            && (forall x :: x in s.devices ==> v.devices[x] == s.devices[x])
            && Looks(v.devices[id], LabelOf(first), first.unnamed, map[first.endpoint.key := EndpointOf(first)])
            && Looks(v.devices[other], LabelOf(second), second.unnamed, map[second.endpoint.key := EndpointOf(second)])
  {
    hide Add, Resolve, LabelOf, Looks, BindAliases, EventHandles;
    FirstAdd(cfg, Add(cfg, s, first, t), second, u, other);
  }

  /** Two up-to-date records with the same endpoints, no pin and at most one distinct
      vouched-for address publish the same addresses. */
  lemma SameEndpointsSameAddrs(cfg: Config, d: DeviceState, e: DeviceState)
    requires AddrsCurrent(cfg, d) && AddrsCurrent(cfg, e)
    requires d.endpoints == e.endpoints && !d.hasPinned && !e.hasPinned
    requires forall k, l :: k in d.endpoints && l in d.endpoints && d.endpoints[k].ep.trusted && d.endpoints[l].ep.trusted
               ==> Unmap(d.endpoints[k].ep.addr) == Unmap(d.endpoints[l].ep.addr)
    ensures d.pub.addrs == e.pub.addrs
  {
    var ks := SomeEnumeration(d.endpoints.Keys);
    AddrsForced(cfg, d, ks);
    AddrsForced(cfg, e, ks);
    assert RankedBy(cfg, d, ks) == RankedBy(cfg, e, ks) by { hide OrderCandidates; }
  }

  /** What the premises come to. */
  lemma Given(cfg: Config, s: State, m: Event, c: Event)
    requires FoldsAscii(cfg.fold) && OneDevice(cfg, m, c) && Unheard(cfg, s, m, c)
    ensures var short, mac := DerivedOf(cfg, m), DerivedOf(cfg, c);
            && Named(cfg, m, c, short, mac) && IsMACID(mac) && |mac| == 16 && Absent(s, short, mac)
            && short !in s.devices && mac !in s.devices && short != mac && short != "" && mac != ""
    ensures Unbound(cfg, s, m) && Unbound(cfg, s, c)
    ensures m.kind.Shelly? && c.kind.Shelly? && !m.unnamed && c.unnamed && LabelOf(m) != ""
  {
    OneDeviceNamed(cfg, m, c);
    HasALabel(cfg, m);
    hide EventHandles, LabelOf, HasSuffix, MacFromName;
  }

  lemma BothJoin(cfg: Config, s: State, m: Event, c: Event, t1: Timing, t2: Timing, t3: Timing, t4: Timing)
    requires FoldsAscii(cfg.fold) && OneDevice(cfg, m, c) && Unheard(cfg, s, m, c) && Tells(cfg, m, c)
    ensures var eps, eps' := map[m.endpoint.key := EndpointOf(m)], map[c.endpoint.key := EndpointOf(c)];
            && Joined(s, Add(cfg, Add(cfg, s, m, t1), c, t2), DerivedOf(cfg, c), LabelOf(m), eps[c.endpoint.key := EndpointOf(c)])
            && Joined(s, Add(cfg, Add(cfg, s, c, t3), m, t4), DerivedOf(cfg, c), LabelOf(m), eps'[m.endpoint.key := EndpointOf(m)])
  {
    hide *;
    var short, mac := DerivedOf(cfg, m), DerivedOf(cfg, c);
    Given(cfg, s, m, c);
    ThenMAC(cfg, s, m, c, t1, short, mac);
    ShortFirst(cfg, s, m, c, t1, t2, short, mac);
    ThenShort(cfg, s, m, c, t3, short, mac);
    MACFirst(cfg, s, m, c, t3, t4, mac);
  }

  lemma HasALabel(cfg: Config, m: Event)
    requires IsShortID(DerivedOf(cfg, m))
    ensures LabelOf(m) != ""
  {
    ShortTail(cfg.fold, m.instance, m.endpoint.txt);
    hide DeriveID, MacFromName;
  }

  lemma BothApart(cfg: Config, s: State, m: Event, c: Event, t1: Timing, t2: Timing, t3: Timing, t4: Timing)
    requires FoldsAscii(cfg.fold) && OneDevice(cfg, m, c) && Unheard(cfg, s, m, c) && !Tells(cfg, m, c)
    ensures Apart(cfg, s, Add(cfg, Add(cfg, s, m, t1), c, t2), m, c)
    ensures Apart(cfg, s, Add(cfg, Add(cfg, s, c, t3), m, t4), m, c)
  {
    hide *;
    var short, mac := DerivedOf(cfg, m), DerivedOf(cfg, c);
    Given(cfg, s, m, c);
    ThenMAC(cfg, s, m, c, t1, short, mac);
    EachItsOwn(cfg, s, m, c, t1, t2, short, mac);
    ThenShort(cfg, s, m, c, t3, short, mac);
    EachItsOwn(cfg, s, c, m, t3, t4, mac, short);
    AreApart(cfg, s, Add(cfg, Add(cfg, s, m, t1), c, t2), m, c);
    AreApart(cfg, s, Add(cfg, Add(cfg, s, c, t3), m, t4), m, c);
  }

  lemma AreApart(cfg: Config, s: State, t: State, m: Event, c: Event)
    requires t.devices.Keys == s.devices.Keys + {DerivedOf(cfg, m), DerivedOf(cfg, c)}
    requires forall id :: id in s.devices ==> t.devices[id] == s.devices[id]
    requires Looks(t.devices[DerivedOf(cfg, m)], LabelOf(m), m.unnamed, map[m.endpoint.key := EndpointOf(m)])
    requires Looks(t.devices[DerivedOf(cfg, c)], LabelOf(c), c.unnamed, map[c.endpoint.key := EndpointOf(c)])
    ensures Apart(cfg, s, t, m, c)
  {
    hide DerivedOf, LabelOf, Looks, EndpointOf;
  }

  /** Order-independent joining. From any registry that has heard of neither and has no
      other Shelly that could be meant, the two Adds applied in either order, at any
      times, leave the rest of the registry alone and exactly one device for the pair: the
      mac: identity, the announced name, the same endpoint slots, and, for distinct slots
      that are not both vouched for, the same addresses. So it is exactly if the announced
      name stops at the three bytes or the two events share a handle; otherwise either order
      leaves two devices. */
  lemma JoinsInEitherOrder(cfg: Config, s: State, m: Event, c: Event, t1: Timing, t2: Timing, t3: Timing, t4: Timing)
    requires FoldsAscii(cfg.fold) && OneDevice(cfg, m, c) && Unheard(cfg, s, m, c) && Inv(cfg, s)
    ensures var short, mac := DerivedOf(cfg, m), DerivedOf(cfg, c);
            var a := Add(cfg, Add(cfg, s, m, t1), c, t2);
            var b := Add(cfg, Add(cfg, s, c, t3), m, t4);
            && short !in s.devices && mac !in s.devices && short != mac
            && (Tells(cfg, m, c) <==> SameJoin(cfg, s, a, b, mac, m, c))
            && (!Tells(cfg, m, c) <==> Apart(cfg, s, a, m, c) && Apart(cfg, s, b, m, c))
  {
    var short, mac := DerivedOf(cfg, m), DerivedOf(cfg, c);
    var a, b := Add(cfg, Add(cfg, s, m, t1), c, t2), Add(cfg, Add(cfg, s, c, t3), m, t4);
    hide *;
    Given(cfg, s, m, c);
    if Tells(cfg, m, c) {
      BothJoin(cfg, s, m, c, t1, t2, t3, t4);
      BothKeepInv(cfg, s, m, c, t1, t2);
      BothKeepInv(cfg, s, c, m, t3, t4);
      JoinedAlike(cfg, s, a, b, mac, m, c);
    } else {
      BothApart(cfg, s, m, c, t1, t2, t3, t4);
    }
    NotBoth(cfg, s, a, b, m, c);
  }

  lemma NotBoth(cfg: Config, s: State, a: State, b: State, m: Event, c: Event)
    requires DerivedOf(cfg, m) !in s.devices && DerivedOf(cfg, m) != DerivedOf(cfg, c)
    ensures !(SameJoin(cfg, s, a, b, DerivedOf(cfg, c), m, c) && Apart(cfg, s, a, m, c))
  {
    hide DerivedOf, SameRecord, Looks;
  }

  /** Two registries that extend `s` by one and the same device for the pair of events. */
  ghost predicate SameJoin(cfg: Config, s: State, a: State, b: State, mac: string, m: Event, c: Event) {
    && a.devices.Keys == b.devices.Keys == s.devices.Keys + {mac}
    && (forall id :: id in s.devices ==> a.devices[id] == b.devices[id] == s.devices[id])
    && SameRecord(a.devices[mac], b.devices[mac], mac, m, c)
  }

  ghost predicate SameRecord(d: DeviceState, e: DeviceState, mac: string, m: Event, c: Event) {
    && d.pub.id == e.pub.id == mac
    && d.pub.name == e.pub.name == LabelOf(m)
    && d.endpoints.Keys == e.endpoints.Keys == {m.endpoint.key, c.endpoint.key}
    && (m.endpoint.key != c.endpoint.key && !(m.endpoint.trusted && c.endpoint.trusted) ==>
          d.endpoints == e.endpoints && d.pub.addrs == e.pub.addrs)
  }

  lemma JoinedAlike(cfg: Config, s: State, a: State, b: State, mac: string, m: Event, c: Event)
    requires Inv(cfg, a) && Inv(cfg, b) && mac !in s.devices
    requires Joined(s, a, mac, LabelOf(m), map[m.endpoint.key := EndpointOf(m)][c.endpoint.key := EndpointOf(c)])
    requires Joined(s, b, mac, LabelOf(m), map[c.endpoint.key := EndpointOf(c)][m.endpoint.key := EndpointOf(m)])
    ensures SameJoin(cfg, s, a, b, mac, m, c)
  {
    hide LabelOf, Inv, AddrsCurrent, Looks, SameRecord, EndpointOf;
    RecordCurrent(cfg, a, mac);
    RecordCurrent(cfg, b, mac);
    RecordsAlike(cfg, a.devices[mac], b.devices[mac], mac, m, c);
  }

  lemma RecordsAlike(cfg: Config, d: DeviceState, e: DeviceState, mac: string, m: Event, c: Event)
    requires AddrsCurrent(cfg, d) && AddrsCurrent(cfg, e) && d.pub.id == e.pub.id == mac
    requires Looks(d, LabelOf(m), false, map[m.endpoint.key := EndpointOf(m)][c.endpoint.key := EndpointOf(c)])
    requires Looks(e, LabelOf(m), false, map[c.endpoint.key := EndpointOf(c)][m.endpoint.key := EndpointOf(m)])
    ensures SameRecord(d, e, mac, m, c)
  {
    hide AddrsCurrent, LabelOf;
    if m.endpoint.key != c.endpoint.key && !(m.endpoint.trusted && c.endpoint.trusted) {
      UpdatesCommute(m.endpoint.key, EndpointOf(m), c.endpoint.key, EndpointOf(c));
      SameEndpointsSameAddrs(cfg, d, e);
    }
  }

  lemma UpdatesCommute<K, V>(k: K, v: V, l: K, w: V)
    requires k != l
    ensures map[k := v][l := w] == map[l := w][k := v]
  {
  }

  lemma RecordCurrent(cfg: Config, s: State, id: string)
    requires Inv(cfg, s) && id in s.devices
    ensures AddrsCurrent(cfg, s.devices[id]) && s.devices[id].pub.id == id
  {
    hide AddrsCurrent;
    assert RecordOK(cfg, id, s.devices[id]);
  }

  lemma BothKeepInv(cfg: Config, s: State, first: Event, second: Event, t1: Timing, t2: Timing)
    requires Inv(cfg, s)
    ensures Inv(cfg, Add(cfg, Add(cfg, s, first, t1), second, t2))
  {
    AddKeepsInv(cfg, s, first, t1.at, t1.now, t1.mergeOrder, t1.order);
    AddKeepsInv(cfg, Add(cfg, s, first, t1), second, t2.at, t2.now, t2.mergeOrder, t2.order);
    hide ApplyAdd, Inv;
  }

  // ---- A name with a suffix left on -------------------------------------------------------

  lemma {:induction false} HexOnlyKeepsHex(s: string)
    requires forall c :: c in s ==> IsHexDigit(c)
    ensures HexOnly(s) == s
  {
    if s != [] { HexOnlyKeepsHex(s[1..]); }
  }

  lemma SuffixOnce(name: string, suffix: string)
    requires suffix == ".local" && name != "" && name[|name| - 1] != '.'
    ensures TrimSuffix(TrimSuffix(name + suffix, "."), suffix) == name
  {
    var once := name + suffix;
    assert once[|once| - 1] == 'l';
    assert once[|name|..] == suffix && once[..|name|] == name;
  }

  lemma NoService(instance: string)
    requires '_' !in instance
    ensures InstanceLabel(instance) == TrimSuffix(TrimSuffix(instance, "."), ".local")
  {
    HoldsUnderscore(instance);
  }

  lemma HoldsUnderscore(s: string)
    ensures Index(s, "._").Some? ==> '_' in s
  {
    if Index(s, "._").Some? {
      var i := Index(s, "._").value;
      assert s[i..i + 2][1] == '_';
    }
  }

  /** One domain suffix goes. */
  lemma Stripped(name: string, suffix: string)
    requires suffix == ".local" && name != "" && name[|name| - 1] != '.' && '_' !in name
    ensures InstanceLabel(name + suffix) == name
    ensures var once := name + suffix; once != "" && once[|once| - 1] != '.' && '_' !in once
  {
    assert (name + suffix)[|name| + 5] == 'l';
    NoService(name + suffix);
    SuffixOnce(name, suffix);
    hide InstanceLabel, TrimSuffix;
  }

  lemma NoDotAtEnd(name: string)
    requires EndsInDashHex(name, 6)
    ensures name != "" && name[|name| - 1] != '.'
  {
    assert IsHexAnyCase(name[|name| - 1]);
  }

  /** A name that carries three bytes, with one domain suffix too many. */
  lemma OneTooMany(name: string)
    requires EndsInDashHex(name, 6) && '_' !in name
    ensures InstanceLabel(name + ".local" + ".local") == name + ".local" && InstanceLabel(name + ".local") == name
  {
    hide *;
    NoDotAtEnd(name);
    Stripped(name, ".local");
    Stripped(name + ".local", ".local");
  }

  lemma OfTheCloud(cfg: Config, c: Event, mac: string)
    requires FoldsAscii(cfg.fold) && |mac| == 12 && forall i :: 0 <= i < 12 ==> IsHexDigit(mac[i])
    requires c.instance == "" && c.endpoint.txt == map["mac" := mac]
    ensures DerivedOf(cfg, c) == PREFIX_MAC + mac && EventHandles(cfg, c) == [PREFIX_MAC + mac, PREFIX_MAC + mac]
  {
    assert MapChars(cfg.fold, mac) == mac;
    HexOnlyKeepsHex(mac);
    hide MacFromName;
  }

  lemma OfTheNetwork(cfg: Config, m: Event, name: string)
    requires FoldsAscii(cfg.fold) && EndsInDashHex(name, 6) && !EndsInDashHex(name, 12) && '_' !in name
    requires m.instance == name + ".local" + ".local" && m.endpoint.txt == map[]
    ensures LabelOf(m) == name + ".local" && DerivedOf(cfg, m) == PREFIX_SHORT_ID + MapChars(cfg.fold, name + ".local")
    ensures EventHandles(cfg, m) == [PREFIX_NAME + Lower(name + ".local"), DerivedOf(cfg, m)]
    ensures MacFromName(cfg.fold, LabelOf(m)) == Lower(name[|name| - 6..])
  {
    hide *;
    OneTooMany(name);
    SixFolded(cfg.fold, name);
    TailOf(cfg.fold, name + ".local", name);
    NamedBy(m, name + ".local");
    EndsOtherwise(name);
    HandlesOf(cfg, m, name + ".local");
  }

  lemma NamedBy(m: Event, name: string)
    requires InstanceLabel(m.instance) == name
    ensures LabelOf(m) == name
  {
  }

  lemma TailOf(fold: char -> char, once: string, name: string)
    requires InstanceLabel(once) == name && EndsInDashHex(name, 6) && !EndsInDashHex(name, 12)
    ensures |name| >= 6 && MacFromName(fold, once) == MapChars(fold, name[|name| - 6..])
    ensures |MacFromName(fold, once)| == 6
  {
    hide InstanceLabel, MapChars;
  }

  lemma HandlesOf(cfg: Config, m: Event, once: string)
    requires InstanceLabel(m.instance) == once && |MacFromName(cfg.fold, once)| == 6 && m.endpoint.txt == map[] && once != ""
    ensures DerivedOf(cfg, m) == PREFIX_SHORT_ID + MapChars(cfg.fold, once)
    ensures EventHandles(cfg, m) == [PREFIX_NAME + Lower(once), DerivedOf(cfg, m)]
  {
    NoEvidence(cfg.fold);
    hide InstanceLabel, MapChars, MacFromName, NormaliseMAC, Lower;
  }

  /** A device whose mDNS name keeps a domain suffix stays apart from its cloud record. */
  lemma SuffixKeepsApart(cfg: Config, m: Event, c: Event, name: string, mac: string, t1: Timing, t2: Timing)
    requires FoldsAscii(cfg.fold) && EndsInDashHex(name, 6) && !EndsInDashHex(name, 12) && '_' !in name
    requires m.deviceID == "" && m.kind.Shelly? && !m.unnamed
    requires m.instance == name + ".local" + ".local" && m.endpoint.txt == map[]
    requires |mac| == 12 && (forall i :: 0 <= i < 12 ==> IsHexDigit(mac[i])) && mac[6..] == Lower(name[|name| - 6..])
    requires c.deviceID == "" && c.kind.Shelly? && c.unnamed && c.instance == "" && c.endpoint.txt == map["mac" := mac]
    ensures OneDevice(cfg, m, c) && !Tells(cfg, m, c)
    ensures Apart(cfg, EMPTY, Add(cfg, Add(cfg, EMPTY, m, t1), c, t2), m, c)
  {
    hide *;
    OfTheCloud(cfg, c, mac);
    OfTheNetwork(cfg, m, name);
    NamesDiffer(PREFIX_NAME + Lower(name + ".local"), PREFIX_SHORT_ID + MapChars(cfg.fold, name + ".local"), PREFIX_MAC + mac);
    EndsOtherwise(name);
    HexEnd(mac);
    AreUntold(cfg, m, c, name + ".local", mac);
    NothingHeard(cfg, m, c);
    BothApart(cfg, EMPTY, m, c, t1, t2, t1, t2);
  }

  lemma AreUntold(cfg: Config, m: Event, c: Event, name: string, mac: string)
    requires m.deviceID == "" && m.kind.Shelly? && !m.unnamed && c.deviceID == "" && c.kind.Shelly? && c.unnamed
    requires LabelOf(m) == name && !EndsInDashHex(name, 6)
    requires DerivedOf(cfg, m) == PREFIX_SHORT_ID + MapChars(cfg.fold, name) && DerivedOf(cfg, c) == PREFIX_MAC + mac
    requires EventHandles(cfg, m) == [PREFIX_NAME + Lower(name), DerivedOf(cfg, m)]
    requires EventHandles(cfg, c) == [PREFIX_MAC + mac, PREFIX_MAC + mac]
    requires MacFromName(cfg.fold, LabelOf(m)) == mac[6..] && HasSuffix(PREFIX_MAC + mac, mac[6..])
    requires PREFIX_NAME + Lower(name) != PREFIX_MAC + mac && DerivedOf(cfg, m) != PREFIX_MAC + mac
    ensures OneDevice(cfg, m, c) && !Tells(cfg, m, c)
  {
    hide DerivedOf, EventHandles, LabelOf, MacFromName, MapChars, Lower, HasSuffix, EndsInDashHex;
  }

  lemma HexEnd(mac: string)
    requires |mac| == 12
    ensures |PREFIX_MAC + mac| == 16 && HasSuffix(PREFIX_MAC + mac, mac[6..])
  {
    assert (PREFIX_MAC + mac)[10..] == mac[6..];
  }

  lemma EndsOtherwise(name: string)
    ensures !EndsInDashHex(name + ".local", 6) && name + ".local" != ""
  {
    assert (name + ".local")[|name| + 5] == 'l';
  }

  lemma NothingHeard(cfg: Config, m: Event, c: Event)
    requires OneDevice(cfg, m, c) && |DerivedOf(cfg, c)| == 16
    ensures Unheard(cfg, EMPTY, m, c)
  {
    hide OneDevice;
  }

  lemma NamesDiffer(a: string, b: string, c: string)
    requires PREFIX_NAME <= a && PREFIX_SHORT_ID <= b && PREFIX_MAC <= c
    ensures a != c && b != c
  {
    assert a[0] == 'n' && b[0] == 's' && c[0] == 'm';
  }

  /** For one: shelly1-b1c2d3 and the cloud's a8032ab1c2d3. */
  lemma SuffixKeepsApartExample(cfg: Config, m: Event, c: Event, t1: Timing, t2: Timing)
    requires FoldsAscii(cfg.fold) && m.deviceID == "" && m.kind.Shelly? && !m.unnamed
    requires m.instance == "shelly1-b1c2d3" + ".local" + ".local" && m.endpoint.txt == map[]
    requires c.deviceID == "" && c.kind.Shelly? && c.unnamed && c.instance == "" && c.endpoint.txt == map["mac" := "a8032ab1c2d3"]
    ensures OneDevice(cfg, m, c) && DerivedOf(cfg, m) !in EMPTY.devices
    ensures Apart(cfg, EMPTY, Add(cfg, Add(cfg, EMPTY, m, t1), c, t2), m, c)
  {
    var name := "shelly1-b1c2d3";
    assert name[|name| - 6..] == "b1c2d3";
    assert Lower("b1c2d3") == "b1c2d3";
    assert "a8032ab1c2d3"[6..] == "b1c2d3";
    hide OneDevice, DerivedOf, Add, Apart, Lower, Tells;
    SuffixKeepsApart(cfg, m, c, name, "a8032ab1c2d3", t1, t2);
  }
}
