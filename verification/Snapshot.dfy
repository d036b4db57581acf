/** The immutable view readers hold (internal/registry/snapshot.go), and when it agrees with
    the live registry: the coalescing machine of the actor's loop. */
module Snapshots {
  import opened Common
  import opened RegistryModel
  import opened RegistryInvariants

  datatype Snapshot = Snapshot(at: int, devices: seq<Device>, byID: map<string, nat>)

  function ByID(): (Device, Device) -> bool {
    (a: Device, b: Device) => StrLess(a.id, b.id)
  }

  lemma ByIDIsStrict()
    ensures StrictOrder(ByID())
  {
    var lt := ByID();
    forall a: Device ensures !lt(a, a) { StrLessTotal(a.id, a.id); }
    forall a: Device, b: Device, c: Device | lt(a, b) && lt(b, c) ensures lt(a, c) {
      StrLessTransitive(a.id, b.id, c.id);
    }
  }

  ghost predicate UniqueIDs(ds: seq<Device>) {
    forall i, j :: 0 <= i < j < |ds| ==> ds[i].id != ds[j].id
  }

  /** What newSnapshot guarantees: sorted by unique identifier, and indexed by it. */
  ghost predicate WellFormed(s: Snapshot) {
    && SortedBy(ByID(), s.devices)
    && (forall i :: 0 <= i < |s.devices| ==> s.devices[i].id in s.byID && s.byID[s.devices[i].id] == i)
    && (forall id :: id in s.byID ==> s.byID[id] < |s.devices| && s.devices[s.byID[id]].id == id)
  }

  /** newSnapshot: sorts, then fills the index in a loop. */
  method NewSnapshot(at: int, devices: seq<Device>) returns (s: Snapshot)
    requires UniqueIDs(devices)
    ensures WellFormed(s) && s.at == at
    ensures Elements(s.devices) == Elements(devices)
  {
    SortedDevices(devices);
    var sorted := Sort(ByID(), devices);
    var byID: map<string, nat> := map[];
    for i := 0 to |sorted|
      invariant forall j :: 0 <= j < i ==> sorted[j].id in byID && byID[sorted[j].id] == j
      invariant forall id :: id in byID ==> byID[id] < i && sorted[byID[id]].id == id
    {
      byID := byID[sorted[i].id := i];
    }
    s := Snapshot(at, sorted, byID);
  }

  lemma SortedDevices(ds: seq<Device>)
    requires UniqueIDs(ds)
    ensures SortedBy(ByID(), Sort(ByID(), ds)) && Elements(Sort(ByID(), ds)) == Elements(ds)
    ensures UniqueIDs(Sort(ByID(), ds))
  {
    ByIDIsStrict();
    forall a, b | a in ds && b in ds && a != b ensures ByID()(a, b) || ByID()(b, a) {
      var i :| 0 <= i < |ds| && ds[i] == a;
      var j :| 0 <= j < |ds| && ds[j] == b;
      StrLessTotal(a.id, b.id);
    }
    SortIsSorted(ByID(), ds);
    var r := Sort(ByID(), ds);
    forall i, j | 0 <= i < j < |r| ensures r[i].id != r[j].id {
      assert ByID()(r[i], r[j]);
      StrLessTotal(r[i].id, r[i].id);
    }
  }

  function Get(s: Snapshot, id: string): Option<Device> {
    if id in s.byID && s.byID[id] < |s.devices| then Some(s.devices[s.byID[id]]) else None
  }

  /** The first device with the identifier, by linear search. */
  function Search(ds: seq<Device>, id: string): Option<Device> {
    if ds == [] then None
    else if ds[0].id == id then Some(ds[0])
    else Search(ds[1..], id)
  }

  /** The index is only an index: Get finds exactly what a linear search finds. */
  lemma GetIsSearch(s: Snapshot, id: string)
    requires WellFormed(s)
    ensures Get(s, id) == Search(s.devices, id)
  {
    if id in s.byID {
      SearchAt(s.devices, id, s.byID[id]);
    } else {
      SearchMisses(s.devices, id);
    }
  }

  lemma {:induction false} SearchAt(ds: seq<Device>, id: string, at: nat)
    requires at < |ds| && ds[at].id == id && SortedBy(ByID(), ds)
    ensures Search(ds, id) == Some(ds[at])
  {
    if at > 0 {
      assert ByID()(ds[0], ds[at]);
      StrLessTotal(id, id);
      SearchAt(ds[1..], id, at - 1);
    }
  }

  lemma {:induction false} SearchMisses(ds: seq<Device>, id: string)
    requires forall i :: 0 <= i < |ds| ==> ds[i].id != id
    ensures Search(ds, id) == None
  {
    if ds != [] { SearchMisses(ds[1..], id); }
  }

  /** The devices of a kind, in snapshot order. */
  function OfKind(ds: seq<Device>, kind: Kind): (r: seq<Device>)
    ensures forall d :: d in r <==> d in ds && d.kind == kind
  {
    if ds == [] then []
    else
      var r := OfKind(ds[..|ds| - 1], kind);
      var last := ds[|ds| - 1];
      assert ds == ds[..|ds| - 1] + [last];
      if last.kind == kind then r + [last] else r
  }

  /** List: every device of the kind, or all of them when none is asked for. */
  method List(s: Snapshot, kind: Option<Kind>) returns (out: seq<Device>)
    ensures out == if kind.None? then s.devices else OfKind(s.devices, kind.value)
  {
    if kind.None? { return s.devices; }
    out := [];
    for i := 0 to |s.devices|
      invariant out == OfKind(s.devices[..i], kind.value)
    {
      assert s.devices[..i + 1][..i] == s.devices[..i];
      if s.devices[i].kind == kind.value {
        out := out + [s.devices[i]];
      }
    }
    assert s.devices[..|s.devices|] == s.devices;
  }

  lemma {:induction false} OfKindStaysSorted(ds: seq<Device>, kind: Kind)
    requires SortedBy(ByID(), ds)
    ensures SortedBy(ByID(), OfKind(ds, kind))
  {
    if ds != [] {
      var init, last := ds[..|ds| - 1], ds[|ds| - 1];
      OfKindStaysSorted(init, kind);
      forall d | d in init ensures ByID()(d, last) {
        var i :| 0 <= i < |init| && init[i] == d;
        assert ds[i] == d;
      }
    }
  }

  // ---- Agreement with the live registry ---------------------------------------------

  ghost function Views(s: State): set<Device> {
    set id | id in s.devices :: s.devices[id].pub
  }

  /** The snapshot is a fresh copy of every device: publishing now would change nothing but
      its timestamp. */
  ghost predicate IsCopyOf(snap: Snapshot, s: State) {
    WellFormed(snap) && Elements(snap.devices) == Views(s)
  }

  /** There is only one such copy. */
  lemma CopyIsUnique(a: Snapshot, b: Snapshot, s: State)
    requires IsCopyOf(a, s) && IsCopyOf(b, s)
    ensures a.devices == b.devices && a.byID == b.byID
  {
    ByIDIsStrict();
    SortedUnique(ByID(), a.devices, b.devices);
    assert forall id :: id in a.byID <==> id in b.byID;
  }

  // ---- The actor's loop -------------------------------------------------------------

  /** The loop's state: the registry, whether a change awaits publication, whether the
      coalescing timer is armed, and what readers see. */
  datatype Loop = Loop(reg: State, dirty: bool, armed: bool, snapshot: Snapshot)

  datatype Input =
    | Handle(step: Step)
    | RefreshTick
    | TimerFires(now: int)

  ghost predicate LoopInv(cfg: Config, l: Loop) {
    && Inv(cfg, l.reg)
    && l.dirty == l.armed
    && (!l.dirty ==> IsCopyOf(l.snapshot, l.reg))
    && WellFormed(l.snapshot)
  }

  /** The loop before its first input: New publishes an empty snapshot. */
  ghost predicate Initial(l: Loop) {
    l.reg == EMPTY && !l.dirty && !l.armed && l.snapshot.devices == [] && l.snapshot.byID == map[]
  }

  function MarkDirty(l: Loop): Loop {
    if l.dirty then l else l.(dirty := true, armed := true)
  }

  /** One turn of the loop. A timer that is not armed cannot fire. */
  ghost predicate Turn(cfg: Config, l: Loop, input: Input, m: Loop) {
    match input
    case Handle(step) =>
      var (reg, changed) := Apply(cfg, l.reg, step);
      m == if changed then MarkDirty(l.(reg := reg)) else l.(reg := reg)
    case RefreshTick => m == MarkDirty(l)
    case TimerFires(now) =>
      l.armed && m.reg == l.reg && !m.dirty && !m.armed && IsCopyOf(m.snapshot, l.reg) && m.snapshot.at == now
  }

  lemma TurnKeepsInv(cfg: Config, l: Loop, input: Input, m: Loop)
    requires LoopInv(cfg, l) && Turn(cfg, l, input, m)
    ensures LoopInv(cfg, m)
  {
    if input.Handle? {
      StepKeepsInv(cfg, l.reg, input.step);
    }
    hide Inv, Apply;
  }

  ghost predicate Execution(cfg: Config, ls: seq<Loop>, inputs: seq<Input>) {
    && |ls| == |inputs| + 1
    && Initial(ls[0])
    && forall i :: 0 <= i < |inputs| ==> Turn(cfg, ls[i], inputs[i], ls[i + 1])
  }

  /** Snapshot coherence in every execution of the actor's loop, at every turn: a change
      awaits publication exactly when the timer is armed, and whenever none does, readers see
      an exact, sorted, indexed copy of the live registry. */
  lemma {:induction false} SnapshotCoherent(cfg: Config, ls: seq<Loop>, inputs: seq<Input>, n: nat)
    requires Execution(cfg, ls, inputs) && n < |ls|
    ensures LoopInv(cfg, ls[n])
  {
    hide LoopInv, Turn, Initial;
    if n == 0 {
      InitialInv(cfg, ls[0]);
    } else {
      SnapshotCoherent(cfg, ls, inputs, n - 1);
      assert Turn(cfg, ls[n - 1], inputs[n - 1], ls[n - 1 + 1]);
      TurnKeepsInv(cfg, ls[n - 1], inputs[n - 1], ls[n]);
    }
  }

  lemma InitialInv(cfg: Config, l: Loop)
    requires Initial(l)
    ensures LoopInv(cfg, l)
  {
    assert Elements(l.snapshot.devices) == Views(l.reg);
  }

  /** How many turns ago the timer fired last does not matter; that it fired does. When it
      fires, readers get an exact copy of the registry as it is, stamped then, and nothing
      awaits publication any more; no other turn changes what readers see; a turn that
      changes the registry, or a tick of the refresher, leaves the timer armed, and only its
      firing disarms it. */
  lemma PublishedExactlyWhenFired(cfg: Config, ls: seq<Loop>, inputs: seq<Input>, n: nat)
    requires Execution(cfg, ls, inputs) && n < |inputs|
    ensures inputs[n].TimerFires? ==>
              ls[n].armed && !ls[n + 1].armed && IsCopyOf(ls[n + 1].snapshot, ls[n].reg) && ls[n + 1].snapshot.at == inputs[n].now
    ensures !inputs[n].TimerFires? ==> ls[n + 1].snapshot == ls[n].snapshot && (ls[n].armed ==> ls[n + 1].armed)
    ensures inputs[n].RefreshTick? || ls[n + 1].reg != ls[n].reg ==> ls[n + 1].armed
  {
    SnapshotCoherent(cfg, ls, inputs, n);
    assert Turn(cfg, ls[n], inputs[n], ls[n + 1]);
    if inputs[n].Handle? { StepKeepsInv(cfg, ls[n].reg, inputs[n].step); }
    hide Inv, Apply, Execution;
  }
}
