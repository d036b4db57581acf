/** Discovery by polling a Shelly Cloud account (internal/discovery/shellycloud/shellycloud.go):
    which devices are announced and how, the health it reports, and its retry ladder. */
module CloudPolling {
  import opened Common
  import opened Identity
  import opened Address
  import opened Ladders
  import opened RegistryModel
  import opened RegistryInvariants
  import opened RegistryMeaning

  const NAME := "shelly_cloud"
  const IPV4 := "ipv4"
  const IPV6 := "ipv6"

  datatype DeviceStatus = DeviceStatus(id: string, gen: int, mac: string, code: string, online: bool, addr: Addr)

  /** What the cloud answers to a poll, whether the context ended before it did, and how many
      events were taken before the context ended, if it did while they were handed over. */
  datatype Answer = Answer(result: Option<seq<DeviceStatus>>, error: string, cancelled: bool, stopped: Option<nat>, at: int)

  datatype Health = Health(up: bool, reason: string, lastEventAt: Option<int>, reconnects: nat)

  function Itoa(n: nat): string {
    if n < 10 then [n as char + '0'] else Itoa(n / 10) + [(n % 10) as char + '0']
  }

  function Reported(dev: DeviceStatus): string { if dev.mac == "" then dev.id else dev.mac }

  function TxtOf(dev: DeviceStatus): Txt {
    var txt := map["mac" := Reported(dev)];
    var withGen := if dev.gen > 0 then txt["gen" := Itoa(dev.gen)] else txt;
    if dev.code != "" then withGen["model" := dev.code] else withGen
  }

  /** One cloud device as an observation. */
  function EventOf(dev: DeviceStatus, now: int): Event {
    var key := EndpointKey(NAME, 0, if dev.addr.V6? then IPV6 else IPV4);
    Event(EventAdd, NAME, "", dev.id, true, Shelly, Endpoint(key, "", dev.addr, 80, TxtOf(dev), false, now), now)
  }

  /** A device the cloud reports under a full MAC derives exactly that MAC's identity, and so
      does any observation of it that carries the same MAC in its TXT record or its name:
      the two land on one device. */
  lemma CloudAndLocalAgree(fold: char -> char, dev: DeviceStatus, now: int, instance: string, txt: Txt)
    requires |NormaliseMAC(fold, Reported(dev))| == 12
    ensures var mac, e := NormaliseMAC(fold, Reported(dev)), EventOf(dev, now);
            && DeriveID(fold, e.instance, e.endpoint.txt) == PREFIX_MAC + mac
            && (NormaliseMAC(fold, Get(txt, "mac")) == mac ==> DeriveID(fold, instance, txt) == PREFIX_MAC + mac)
            && ("mac" !in txt && "id" !in txt && MacFromName(fold, InstanceLabel(instance)) == mac ==>
                  DeriveID(fold, instance, txt) == PREFIX_MAC + mac)
  {
    hide MacFromName, MapChars;
    assert NormaliseMAC(fold, "") == "" && |MacFromName(fold, "")| == 0 by { NoEvidence(fold); }
  }

  /** The number a decimal text denotes. */
  function Reads(s: string): int {
    if s == "" then 0 else 10 * Reads(s[..|s| - 1]) + (s[|s| - 1] as int - '0' as int)
  }

  lemma {:induction false} ItoaReads(n: nat)
    ensures Reads(Itoa(n)) == n && Itoa(n) != "" && (n > 0 ==> Itoa(n)[0] != '0')
    ensures forall i :: 0 <= i < |Itoa(n)| ==> '0' <= Itoa(n)[i] <= '9'
  {
    if n >= 10 { ItoaReads(n / 10); }
    assert Itoa(n)[..|Itoa(n)| - 1] == if n < 10 then "" else Itoa(n / 10);
  }

  /** What one cloud device says of itself: an unnamed Shelly, under its cloud identifier, to be
      reached at the address and on port 80, seen now; its MAC, or its identifier for want of
      one, and its generation and model if it has them, as TXT entries. */
  lemma EventSays(dev: DeviceStatus, now: int)
    ensures var e := EventOf(dev, now);
            && e.kindOf.EventAdd? && e.source == "shelly_cloud" && e.deviceID == "" && e.instance == dev.id
            && e.unnamed && e.kind.Shelly? && e.at == now
            && e.endpoint.addr == dev.addr && e.endpoint.port == 80 && !e.endpoint.trusted && e.endpoint.observedAt == now
            && e.endpoint.key == EndpointKey("shelly_cloud", 0, if dev.addr.V6? then "ipv6" else "ipv4")
            && Get(e.endpoint.txt, "mac") == (if dev.mac != "" then dev.mac else dev.id)
            && ("gen" in e.endpoint.txt <==> dev.gen > 0) && (dev.gen > 0 ==> Reads(e.endpoint.txt["gen"]) == dev.gen)
            && ("model" in e.endpoint.txt <==> dev.code != "") && (dev.code != "" ==> e.endpoint.txt["model"] == dev.code)
  {
    if dev.gen > 0 { ItoaReads(dev.gen); }
    hide Itoa;
  }

  /** What announcing a cloud device comes to: the registry has it under a full MAC identity,
      shows port 80 and its MAC, holds the address in the cloud's own slot as verified and
      observed now, and publishes it if it may be dialled. */
  lemma AnnouncedIsShown(cfg: Config, s: State, dev: DeviceStatus, now: int, mo: seq<EndpointKey>, o: seq<EndpointKey>)
    requires Inv(cfg, s) && |NormaliseMAC(cfg.fold, Reported(dev))| == 12
    ensures var id, t := Resolve(cfg, s, EventOf(dev, now)).id, Next(cfg, s, Observe(EventOf(dev, now), now, mo, o));
            && IsMACID(id) && id in t.devices
            && t.devices[id].pub.port == 80 && t.devices[id].pub.lastSeen >= now
            && "mac" in t.devices[id].pub.txt && t.devices[id].pub.txt["mac"] == Reported(dev)
            && var key := EndpointKey("shelly_cloud", 0, if dev.addr.V6? then "ipv6" else "ipv4");
            && key in t.devices[id].endpoints && !t.devices[id].endpoints[key].unverified
            && t.devices[id].endpoints[key].ep.addr == dev.addr && t.devices[id].endpoints[key].ep.observedAt == now
            && (Usable(cfg.policy, dev.addr) ==> Unmap(dev.addr) in t.devices[id].pub.addrs)
  {
    hide *;
    var ev := EventOf(dev, now);
    InvAliases(cfg, s);
    AddShows(cfg, s, ev, now, now, mo, o);
    ResolveFacts(cfg, s, ev);
    CloudDerives(cfg, dev, now);
    ObservedNow(cfg, s, dev, now, mo, o);
    EventShows(cfg, ApplyAdd(cfg, s, ev, now, now, mo, o).0.devices[Resolve(cfg, s, ev).id], dev, now);
  }

  lemma CloudDerives(cfg: Config, dev: DeviceStatus, now: int)
    requires |NormaliseMAC(cfg.fold, Reported(dev))| == 12
    ensures IsMACID(DerivedOf(cfg, EventOf(dev, now))) && EventOf(dev, now).deviceID == ""
  {
    CloudAndLocalAgree(cfg.fold, dev, now, "", map[]);
    hide NormaliseMAC, DeriveID;
  }

  lemma ObservedNow(cfg: Config, s: State, dev: DeviceStatus, now: int, mo: seq<EndpointKey>, o: seq<EndpointKey>)
    ensures Next(cfg, s, Observe(EventOf(dev, now), now, mo, o)) == ApplyAdd(cfg, s, EventOf(dev, now), now, now, mo, o).0
  {
    hide ApplyAdd;
  }

  lemma EventShows(cfg: Config, d: DeviceState, dev: DeviceStatus, now: int)
    requires Shows(cfg, d, EventOf(dev, now), now)
    ensures d.pub.port == 80 && d.pub.lastSeen >= now && "mac" in d.pub.txt && d.pub.txt["mac"] == Reported(dev)
    ensures var key := EndpointKey("shelly_cloud", 0, if dev.addr.V6? then "ipv6" else "ipv4");
            && key in d.endpoints && !d.endpoints[key].unverified
            && d.endpoints[key].ep.addr == dev.addr && d.endpoints[key].ep.observedAt == now
            && (Usable(cfg.policy, dev.addr) ==> Unmap(dev.addr) in d.pub.addrs)
  {
    EventSays(dev, now);
    hide Usable, Unmap, Reads;
  }

  // ---- What is announced -------------------------------------------------------------

  predicate Announced(dev: DeviceStatus, includeOffline: bool) {
    dev.addr.IsValid() && (dev.online || includeOffline)
  }

  /** The devices to announce, in the account's order. */
  function Chosen(devices: seq<DeviceStatus>, includeOffline: bool): seq<DeviceStatus> {
    if devices == [] then []
    else
      var last := devices[|devices| - 1];
      Chosen(devices[..|devices| - 1], includeOffline) + (if Announced(last, includeOffline) then [last] else [])
  }

  /** Exactly the reachable ones: every one of them, nobody else, nobody twice more. */
  lemma {:induction false} ChosenIsExact(devices: seq<DeviceStatus>, includeOffline: bool)
    ensures forall d :: multiset(Chosen(devices, includeOffline))[d] ==
                        if d.addr.IsValid() && (d.online || includeOffline) then multiset(devices)[d] else 0
  {
    if devices != [] {
      var init, last := devices[..|devices| - 1], devices[|devices| - 1];
      ChosenIsExact(init, includeOffline);
      assert devices == init + [last];
    }
  }

  /** The events that announces: one for each of them, in order. */
  function Announcements(devices: seq<DeviceStatus>, includeOffline: bool, now: int): seq<Event> {
    if devices == [] then []
    else
      var last := devices[|devices| - 1];
      Announcements(devices[..|devices| - 1], includeOffline, now)
      + (if Announced(last, includeOffline) then [EventOf(last, now)] else [])
  }

  lemma {:induction false} AnnouncementsAre(devices: seq<DeviceStatus>, includeOffline: bool, now: int)
    ensures var events, chosen := Announcements(devices, includeOffline, now), Chosen(devices, includeOffline);
            |events| == |chosen| && forall i :: 0 <= i < |events| ==> events[i] == EventOf(chosen[i], now)
  {
    hide EventOf;
    if devices != [] { AnnouncementsAre(devices[..|devices| - 1], includeOffline, now); }
  }

  /** How often a success followed a failure. */
  function Recoveries(ok: seq<bool>): nat {
    if |ok| < 2 then 0
    else Recoveries(ok[..|ok| - 1]) + (if ok[|ok| - 1] && !ok[|ok| - 2] then 1 else 0)
  }

  predicate Recovers(ok: seq<bool>, i: int) { 0 < i < |ok| && ok[i] && !ok[i - 1] }

  /** Counted one by one: each success right after a failure. */
  lemma {:induction false} RecoveriesCount(ok: seq<bool>)
    ensures Recoveries(ok) == |set i | 0 < i < |ok| && Recovers(ok, i)|
  {
    var all := set i | 0 < i < |ok| && Recovers(ok, i);
    if |ok| < 2 {
      assert all == {};
    } else {
      var init := ok[..|ok| - 1];
      RecoveriesCount(init);
      var before := set i | 0 < i < |init| && Recovers(init, i);
      assert forall i :: 0 < i < |init| ==> (Recovers(init, i) <==> Recovers(ok, i));
      assert all == if Recovers(ok, |ok| - 1) then before + {|ok| - 1} else before;
    }
  }

  predicate Ok(a: Answer) { a.result.Some? }

  /** The context ended while the events of this poll were being handed over. */
  predicate CutShort(a: Answer, includeOffline: bool) {
    a.result.Some? && a.stopped.Some? && a.stopped.value < |Announcements(a.result.value, includeOffline, a.at)|
  }

  lemma {:induction false} AnnouncementsGrow(devices: seq<DeviceStatus>, n: nat, includeOffline: bool, now: int)
    requires n <= |devices|
    ensures Announcements(devices[..n], includeOffline, now) <= Announcements(devices, includeOffline, now)
  {
    hide EventOf;
    if n == |devices| {
      assert devices[..n] == devices;
    } else {
      AnnouncementsGrow(devices[..|devices| - 1], n, includeOffline, now);
      assert devices[..|devices| - 1][..n] == devices[..n];
    }
  }

  lemma AnnouncementsEnds(devices: seq<DeviceStatus>, includeOffline: bool, now: int)
    ensures Announcements(devices[..0], includeOffline, now) == []
    ensures Announcements(devices[..|devices|], includeOffline, now) == Announcements(devices, includeOffline, now)
  {
    assert devices[..|devices|] == devices;
  }

  lemma AnnouncementsTurn(devices: seq<DeviceStatus>, i: nat, includeOffline: bool, now: int)
    requires i < |devices|
    ensures Announcements(devices[..i + 1], includeOffline, now) ==
            Announcements(devices[..i], includeOffline, now)
            + (if devices[i].addr.IsValid() && (devices[i].online || includeOffline) then [EventOf(devices[i], now)] else [])
    ensures |Announcements(devices[..i], includeOffline, now)| <= |Announcements(devices[..i + 1], includeOffline, now)|
            <= |Announcements(devices, includeOffline, now)|
    ensures Announcements(devices[..i], includeOffline, now) <= Announcements(devices, includeOffline, now)
  {
    hide EventOf;
    assert devices[..i + 1][..i] == devices[..i];
    AnnouncementsGrow(devices, i, includeOffline, now);
    AnnouncementsGrow(devices, i + 1, includeOffline, now);
  }

  function Outcomes(history: seq<Answer>): (ok: seq<bool>)
    ensures |ok| == |history| && forall i :: 0 <= i < |history| ==> ok[i] == Ok(history[i])
  {
    seq(|history|, i requires 0 <= i < |history| => Ok(history[i]))
  }

  lemma OutcomesTurn(answers: seq<Answer>, n: nat, ok: bool)
    requires n < |answers| && ok == Ok(answers[n])
    ensures answers[..n] + [answers[n]] == answers[..n + 1]
    ensures Outcomes(answers[..n + 1]) == Outcomes(answers[..n]) + [ok]
  {
  }

  class Discoverer {
    const interval: int
    const includeOffline: bool
    var health: Health
    var attempted: bool
    ghost var history: seq<Answer>
    ghost var abandoned: bool

    /** Health is up exactly when the last poll succeeded, and counts the recoveries. */
    ghost predicate Valid() reads this {
      && interval > 0
      && attempted == (history != [] || abandoned)
      && health.up == (history != [] && Ok(history[|history| - 1]))
      && health.reconnects == Recoveries(Outcomes(history))
      && (history != [] && history[|history| - 1].result.None? ==> health.reason == history[|history| - 1].error)
      && (health.up ==> health.reason == "" && health.lastEventAt == Some(history[|history| - 1].at))
    }

    constructor (interval: int, includeOffline: bool)
      ensures Valid() && history == [] && !abandoned && this.includeOffline == includeOffline
      ensures this.interval == if interval <= 0 then 300 * SECOND else interval
    {
      this.interval := if interval <= 0 then 300 * SECOND else interval;
      this.includeOffline := includeOffline;
      health, attempted, history, abandoned := Health(false, "not yet polled", None, 0), false, [], false;
    }

    /** One poll: what it announces, and the health it leaves. One cut short while handing
        its events over leaves the health alone and is not part of the history. */
    method Poll(a: Answer) returns (ok: bool, published: seq<Event>, ended: bool)
      requires Valid() && !abandoned
      modifies this
      ensures Valid() && abandoned == CutShort(a, includeOffline) && ok == (Ok(a) && !abandoned)
      ensures history == if abandoned then old(history) else old(history) + [a]
      ensures ended == (abandoned || (a.result.None? && a.cancelled))
      ensures abandoned ==> health == old(health)
      ensures a.result.None? ==> published == []
      ensures ok ==> published == Announcements(a.result.value, includeOffline, a.at)
      ensures abandoned ==> published == Announcements(a.result.value, includeOffline, a.at)[..a.stopped.value]
    {
      hide Announcements;
      ghost var before := history;
      var first := !attempted;
      attempted := true;
      published := [];
      ok, ended := false, false;
      if a.result.Some? {
        published, ok := Publish(a.result.value, a.at, a.stopped);
        if !ok {
          abandoned, ended := true, true;
          return;
        }
      }
      history := history + [a];
      assert Outcomes(history)[..|before|] == Outcomes(before);
      if !ok {
        health := health.(up := false, reason := a.error);
        ended := a.cancelled;
        return;
      }
      if !health.up && !first { health := health.(reconnects := health.reconnects + 1); }
      health := health.(up := true, reason := "", lastEventAt := Some(a.at));
    }

    /** Hands the devices over one by one, until the context ends. */
    method Publish(devices: seq<DeviceStatus>, now: int, stopped: Option<nat>) returns (published: seq<Event>, finished: bool)
      ensures finished <==> stopped.None? || stopped.value >= |Announcements(devices, includeOffline, now)|
      ensures published == if finished then Announcements(devices, includeOffline, now)
                           else Announcements(devices, includeOffline, now)[..stopped.value]
    {
      published := [];
      var offline, addressless := 0, 0;
      hide *;
      AnnouncementsEnds(devices, includeOffline, now);
      for i := 0 to |devices|
        invariant published == Announcements(devices[..i], includeOffline, now)
        invariant stopped.Some? ==> |published| <= stopped.value
        invariant |published| + offline + addressless == i
      {
        AnnouncementsTurn(devices, i, includeOffline, now);
        if !devices[i].addr.IsValid() {
          addressless := addressless + 1;
        } else if !devices[i].online && !includeOffline {
          offline := offline + 1;
        } else if stopped == Some(|published|) {
          return published, false;
        } else {
          published := published + [EventOf(devices[i], now)];
        }
      }
      return published, true;
    }

    /** Polls until the context ends, at the latest where the answers run out. */
    method Run(answers: seq<Answer>) returns (waits: seq<int>)
      requires Valid() && history == [] && !abandoned
      modifies this
      ensures Valid() && history <= answers
      ensures waits <= WaitsAfter(interval, Outcomes(history)) && |history| <= |waits| + 1
      ensures |waits| < |history| ==> history[|waits|].result.None? && history[|waits|].cancelled
      ensures |history| < |answers| ==> abandoned || |waits| < |history|
      ensures health.reconnects == Recoveries(Outcomes(history))
    {
      var retry := RETRY_INITIAL;
      waits := [];
      for n := 0 to |answers|
        invariant Valid() && history == answers[..n] && !abandoned
        invariant waits == WaitsAfter(interval, Outcomes(history))
        invariant retry == Climb(RETRY_INITIAL, interval, Streak(Outcomes(history)))
      {
        hide *;
        ghost var before := Outcomes(history);
        var wait := interval;
        var ok, events, ended := Poll(answers[n]);
        if !abandoned { OutcomesTurn(answers, n, ok); }
        LadderTurn(interval, before, ok);
        if !ok {
          if ended { return; }
          wait := Min(retry, interval);
          retry := Min(retry * 2, interval);
        } else {
          retry := RETRY_INITIAL;
        }
        waits := waits + [wait];
      }
      assert answers[..|answers|] == answers;
    }
  }
}
