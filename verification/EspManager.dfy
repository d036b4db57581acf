/** Who may own a connection to an ESPHome node (internal/esphome/manager.go): Sync stops,
    waits for and replaces device goroutines while Run may tear everything down and the
    goroutines themselves dial, serve and exit. One Sync runs at a time; everything else
    interleaves freely, one atomic section a step. */
module EspManagers {
  import opened Common

  /** What the registry asks for: the epoch of its addresses and the preferred one. */
  datatype Target = Target(epoch: nat, addr: string)

  /** A map entry: the number of the device goroutine and what it was started for. */
  datatype Managed = Managed(instance: nat, target: Target)

  type Devices = map<string, Managed>

  // ---- The sections under the mutex --------------------------------------------------

  function InstancesOf(devices: Devices): set<nat> { set id | id in devices :: devices[id].instance }

  function Wanted(devices: Devices, wanted: map<string, Target>): Devices {
    map id | id in devices && id in wanted :: devices[id]
  }

  function Unwanted(devices: Devices, wanted: map<string, Target>): Devices {
    map id | id in devices && id !in wanted :: devices[id]
  }

  /** What ensure finds under the lock: whether the entry is up to date, and if not, whose
      place the new one takes and the map without it. */
  datatype Claimed = UpToDate | Vacant | Moved(former: nat, rest: Devices)

  function ClaimOf(devices: Devices, id: string, target: Target): Claimed {
    if id !in devices then Vacant
    else if devices[id].target == target then UpToDate
    else Moved(devices[id].instance, devices - {id})
  }

  class Manager {
    var devices: Devices

    constructor ()
      ensures devices == map[]
    {
      devices := map[];
    }

    /** Run's last act under the lock: everything is taken for teardown. */
    method TakeAll() returns (taken: set<nat>)
      modifies this
      ensures devices == map[] && taken == InstancesOf(old(devices))
    {
      taken := {};
      var rest := devices.Keys;
      while rest != {}
        invariant rest <= devices.Keys && devices == old(devices)
        invariant taken == set id | id in devices && id !in rest :: devices[id].instance
        decreases rest
      {
        var id :| id in rest;
        rest := rest - {id};
        taken := taken + {devices[id].instance};
      }
      devices := map[];
    }

    /** Sync's first: what is not wanted any more leaves the map, to be stopped. */
    method Prune(wanted: map<string, Target>) returns (toStop: set<nat>)
      modifies this
      ensures devices == Wanted(old(devices), wanted)
      ensures toStop == InstancesOf(Unwanted(old(devices), wanted))
    {
      toStop := {};
      ghost var was := devices;
      var rest := devices.Keys;
      while rest != {}
        invariant rest <= devices.Keys <= was.Keys
        invariant forall id :: id in devices ==> devices[id] == was[id]
        invariant forall id :: id in was ==> (id in devices <==> id in rest || id in wanted)
        invariant forall i :: i in toStop <==> exists id :: id in was && id !in rest && id !in wanted && was[id].instance == i
        decreases rest
      {
        var id :| id in rest;
        rest := rest - {id};
        if id !in wanted {
          toStop := toStop + {devices[id].instance};
          devices := devices - {id};
        }
      }
      assert forall id :: id in Unwanted(was, wanted) <==> id in was && id !in wanted;
      assert forall i :: i in toStop <==> i in InstancesOf(Unwanted(was, wanted));
    }

    /** ensure's: an entry that is up to date is left alone, one that moved is taken out. */
    method Claim(id: string, target: Target) returns (claimed: Claimed)
      modifies this
      ensures claimed == ClaimOf(old(devices), id, target)
      ensures claimed.UpToDate? <==> id in old(devices) && old(devices)[id].target == target
      ensures claimed.Moved? <==> id in old(devices) && old(devices)[id].target != target
      ensures devices == if claimed.Moved? then claimed.rest else old(devices)
      ensures claimed.Moved? ==> claimed.former == old(devices)[id].instance && claimed.rest == old(devices) - {id}
    {
      if id in devices && devices[id].target == target { return UpToDate; }
      if id in devices {
        claimed := Moved(devices[id].instance, devices - {id});
        devices := devices - {id};
        return;
      }
      return Vacant;
    }
  }

  // ---- The machine -------------------------------------------------------------------

  /** Where a device goroutine is. It holds a dial token exactly while it dials. */
  datatype Phase = Unstarted | Idle | Queued | Dialling | Connected | Exited

  /** A device goroutine. It is stillborn if the manager's context had already ended when it
      was made. */
  datatype Instance = Instance(id: string, stillborn: bool, cancelled: bool, phase: Phase, opens: nat, closes: nat)

  /** Where Sync is. */
  datatype Work =
    | Resting
    | Pruning(wanted: map<string, Target>)
    | Stopping(left: set<nat>, todo: map<string, Target>)
    | AwaitingStop(stopped: nat, left: set<nat>, todo: map<string, Target>)
    | Ensuring(todo: map<string, Target>)
    | Replacing(former: nat, id: string, todo: map<string, Target>)
    | AwaitingFormer(former: nat, id: string, todo: map<string, Target>)
    | Creating(id: string, todo: map<string, Target>)
    | Launching(fresh_: nat, todo: map<string, Target>)

  /** Where Run is. */
  datatype Runner = NotYet | Serving | Tearing(left: set<nat>) | AwaitingTorn(torn: nat, left: set<nat>) | Done

  datatype State = State(
    cancelled: bool, devices: Devices, instances: seq<Instance>, tokens: nat, sync: Work, run: Runner)

  const START := State(false, map[], [], 0, Resting, NotYet)

  datatype Step =
    | Serve | Cancel | Grab | Tear(i: nat) | Torn | Return
    | Begin(wanted: map<string, Target>) | Prune | Stop(i: nat) | Stopped | StopsDone
    | Ensure(id: string) | CancelFormer | FormerGone | Create | Launch | End
    | Wake(i: nat) | Admit(i: nat) | TurnAway(i: nat) | Open(i: nat) | Fail(i: nat) | Close(i: nat)
    | GiveUpOnStopped | GiveUpOnFormer | GiveUpOnTorn

  predicate In(s: State, i: nat, phase: Phase) { i < |s.instances| && s.instances[i].phase == phase }

  predicate Gone(s: State, i: nat) { In(s, i, Exited) }

  predicate Ended(s: State, i: nat) requires i < |s.instances| { s.cancelled || s.instances[i].cancelled }

  predicate Enabled(limit: nat, s: State, step: Step) {
    match step
    case Serve => s.run.NotYet?
    case Cancel => true
    case Grab => s.run.Serving? && s.cancelled
    case Tear(i) => s.run.Tearing? && i in s.run.left && i < |s.instances|
    case Torn => s.run.AwaitingTorn? && Gone(s, s.run.torn)
    case Return => s.run.Tearing? && s.run.left == {}
    case Begin(_) => s.sync.Resting?
    case Prune => s.sync.Pruning?
    case Stop(i) => s.sync.Stopping? && i in s.sync.left && i < |s.instances|
    case Stopped => s.sync.AwaitingStop? && Gone(s, s.sync.stopped)
    case StopsDone => s.sync.Stopping? && s.sync.left == {}
    case Ensure(id) => s.sync.Ensuring? && id in s.sync.todo
    case CancelFormer => s.sync.Replacing? && s.sync.former < |s.instances|
    case FormerGone => s.sync.AwaitingFormer? && Gone(s, s.sync.former)
    case Create => s.sync.Creating? && s.sync.id in s.sync.todo
    case Launch => s.sync.Launching? && In(s, s.sync.fresh_, Unstarted)
    case End => s.sync.Ensuring? && s.sync.todo == map[]
    case Wake(i) => In(s, i, Idle)
    case Admit(i) => In(s, i, Queued) && s.tokens < limit
    case TurnAway(i) => In(s, i, Queued)
    case Open(i) => In(s, i, Dialling) && s.tokens > 0
    case Fail(i) => In(s, i, Dialling) && s.tokens > 0
    case Close(i) => In(s, i, Connected)
    case GiveUpOnStopped => s.sync.AwaitingStop?
    case GiveUpOnFormer => s.sync.AwaitingFormer?
    case GiveUpOnTorn => s.run.AwaitingTorn?
  }

  function To(s: State, i: nat, phase: Phase): State
    requires i < |s.instances|
  {
    s.(instances := s.instances[i := s.instances[i].(phase := phase)])
  }

  function CancelOne(s: State, i: nat): State
    requires i < |s.instances|
  {
    s.(instances := s.instances[i := s.instances[i].(cancelled := true)])
  }

  function Next(limit: nat, s: State, step: Step): State
    requires Enabled(limit, s, step)
  {
    match step
    case Serve => s.(run := Serving)
    case Cancel => s.(cancelled := true)
    case Grab => s.(run := Tearing(InstancesOf(s.devices)), devices := map[])
    case Tear(i) => CancelOne(s, i).(run := AwaitingTorn(i, s.run.left - {i}))
    case Torn => s.(run := Tearing(s.run.left))
    case Return => s.(run := Done)
    case Begin(wanted) => if s.run.NotYet? || s.cancelled then s else s.(sync := Pruning(wanted))
    case Prune =>
      s.(sync := Stopping(InstancesOf(Unwanted(s.devices, s.sync.wanted)), s.sync.wanted),
         devices := Wanted(s.devices, s.sync.wanted))
    case Stop(i) => CancelOne(s, i).(sync := AwaitingStop(i, s.sync.left - {i}, s.sync.todo))
    case Stopped => s.(sync := Stopping(s.sync.left, s.sync.todo))
    case StopsDone => s.(sync := Ensuring(s.sync.todo))
    case Ensure(id) =>
      (match ClaimOf(s.devices, id, s.sync.todo[id])
       case UpToDate => s.(sync := Ensuring(s.sync.todo - {id}))
       case Moved(former, rest) => s.(sync := Replacing(former, id, s.sync.todo), devices := rest)
       case Vacant => s.(sync := Creating(id, s.sync.todo)))
    case CancelFormer =>
      CancelOne(s, s.sync.former).(sync := AwaitingFormer(s.sync.former, s.sync.id, s.sync.todo))
    case FormerGone => s.(sync := Creating(s.sync.id, s.sync.todo))
    case Create =>
      var i := |s.instances|;
      s.(instances := s.instances + [Instance(s.sync.id, s.cancelled, false, Unstarted, 0, 0)],
         devices := s.devices[s.sync.id := Managed(i, s.sync.todo[s.sync.id])],
         sync := Launching(i, s.sync.todo - {s.sync.id}))
    case Launch => To(s, s.sync.fresh_, Idle).(sync := Ensuring(s.sync.todo))
    case End => s.(sync := Resting)
    case Wake(i) => To(s, i, if Ended(s, i) then Exited else Queued)
    case Admit(i) => To(s, i, Dialling).(tokens := s.tokens + 1)
    case TurnAway(i) => To(s, i, Idle)
    case Open(i) =>
      var t := To(s, i, Connected);
      t.(instances := t.instances[i := t.instances[i].(opens := t.instances[i].opens + 1)], tokens := s.tokens - 1)
    case Fail(i) => To(s, i, Idle).(tokens := s.tokens - 1)
    case Close(i) =>
      var t := To(s, i, Idle);
      t.(instances := t.instances[i := t.instances[i].(closes := t.instances[i].closes + 1)])
    case GiveUpOnStopped => s.(sync := Stopping(s.sync.left, s.sync.todo))
    case GiveUpOnFormer => s.(sync := Creating(s.sync.id, s.sync.todo))
    case GiveUpOnTorn => s.(run := Tearing(s.run.left))
  }

  /** A goroutine that will not dial again: it has exited, or, told to stop, it sleeps and will
      exit on waking. */
  predicate Over(inst: Instance) { inst.phase.Exited? || (inst.phase.Idle? && inst.cancelled) }

  /** A wait that runs into its timeout does no harm if the goroutine is over, if the manager's
      own context has ended, so that nothing new can dial, or if it is Run's own. The strict
      reading allows no timeout at all. */
  predicate Harmless(strict: bool, s: State, step: Step) {
    match step
    case GiveUpOnStopped => !strict && s.sync.AwaitingStop? && GivenUpSafely(s, s.sync.stopped)
    case GiveUpOnFormer => !strict && s.sync.AwaitingFormer? && GivenUpSafely(s, s.sync.former)
    case GiveUpOnTorn => !strict
    case _ => true
  }

  predicate GivenUpSafely(s: State, i: nat) { s.cancelled || (i < |s.instances| && Over(s.instances[i])) }

  // ---- The invariant -----------------------------------------------------------------

  /** The goroutines Sync has taken out of the map and not yet seen exit. */
  function InSyncsHands(w: Work): set<nat> {
    match w
    case Stopping(left, _) => left
    case AwaitingStop(i, left, _) => left + {i}
    case Replacing(i, _, _) => {i}
    case AwaitingFormer(i, _, _) => {i}
    case _ => {}
  }

  function InRunsHands(r: Runner): set<nat> {
    match r
    case Tearing(left) => left
    case AwaitingTorn(i, left) => left + {i}
    case _ => {}
  }

  predicate Listed(devices: Devices, id: string, i: nat) { id in devices && devices[id].instance == i }

  predicate InHand(s: State, i: nat, id: string) {
    i in InSyncsHands(s.sync) || i in InRunsHands(s.run) || Listed(s.devices, id, i)
  }

  /** What counts as finished: under the strict reading, exited; else over. */
  predicate Finished(strict: bool, inst: Instance) { inst.phase.Exited? || (!strict && Over(inst)) }

  /** Every goroutine that has not finished is accounted for: somebody can stop it. */
  predicate InstanceOK(strict: bool, s: State, i: nat, inst: Instance) {
    && (inst.stillborn ==> s.cancelled && (inst.phase.Unstarted? || inst.phase.Idle? || inst.phase.Exited?))
    && (Finished(strict, inst) || inst.stillborn || (!strict && s.cancelled) || InHand(s, i, inst.id))
    && inst.opens - inst.closes == One(inst.phase.Connected?)
  }

  /** All of a device's goroutines but the last one that can ever dial have finished. */
  ghost predicate Succession(strict: bool, instances: seq<Instance>) {
    forall i, j :: 0 <= i < j < |instances| && instances[i].id == instances[j].id && !instances[j].stillborn
                   ==> Finished(strict, instances[i])
  }

  /** Sync has taken this device's entry out and not yet put a new one in. */
  predicate Claims(w: Work) { w.Replacing? || w.AwaitingFormer? || w.Creating? }

  predicate TornDown(r: Runner) { r.Tearing? || r.AwaitingTorn? || r.Done? }

  ghost predicate Accounted(strict: bool, s: State) {
    && (forall i :: 0 <= i < |s.instances| ==> InstanceOK(strict, s, i, s.instances[i]))
    && (forall id :: id in s.devices ==>
          && s.devices[id].instance < |s.instances| && s.instances[s.devices[id].instance].id == id
          && (TornDown(s.run) ==> s.instances[s.devices[id].instance].stillborn))
    && (TornDown(s.run) ==> s.cancelled)
    && (Claims(s.sync) ==> s.sync.id in s.sync.todo && s.sync.id !in s.devices)
  }

  ghost function Diallers(instances: seq<Instance>): set<nat> {
    set i: nat | 0 <= i < |instances| && instances[i].phase.Dialling?
  }

  ghost predicate Inv(strict: bool, limit: nat, s: State) {
    Accounted(strict, s) && Succession(strict, s.instances) && s.tokens == |Diallers(s.instances)| <= limit
  }

  // ---- Preservation -----------------------------------------------------------------

  /** Goroutines keep their device and birth; those that exited, or are over, stay so. */
  ghost predicate Evolves(a: seq<Instance>, b: seq<Instance>) {
    && |a| <= |b|
    && forall i :: 0 <= i < |a| ==>
         && a[i].id == b[i].id && a[i].stillborn == b[i].stillborn
         && (a[i].phase.Exited? ==> b[i].phase.Exited?) && (Over(a[i]) ==> Over(b[i]))
  }

  predicate MovesGoroutine(step: Step) {
    step.Wake? || step.Admit? || step.TurnAway? || step.Open? || step.Fail? || step.Close?
  }

  lemma StepEvolves(limit: nat, s: State, step: Step)
    requires Enabled(limit, s, step)
    ensures var t := Next(limit, s, step);
            Evolves(s.instances, t.instances) && (!step.Create? ==> |t.instances| == |s.instances|)
  {
    if MovesGoroutine(step) {
      GoroutineEvolves(limit, s, step);
    } else {
      hide InstancesOf, Wanted, Unwanted, ClaimOf;
    }
  }

  lemma GoroutineEvolves(limit: nat, s: State, step: Step)
    requires Enabled(limit, s, step) && MovesGoroutine(step)
    ensures var t := Next(limit, s, step); Evolves(s.instances, t.instances) && |t.instances| == |s.instances|
  {
  }

  /** A goroutine's own step replaces its record and moves tokens, no more. */
  lemma GoroutineMoves(strict: bool, limit: nat, s: State, step: Step)
    requires MovesGoroutine(step) && Enabled(limit, s, step)
    requires InstanceOK(strict, s, step.i, s.instances[step.i])
    ensures step.i < |s.instances|
    ensures var t := Next(limit, s, step);
            && |t.instances| == |s.instances|
            && t == s.(instances := s.instances[step.i := t.instances[step.i]], tokens := t.tokens)
            && t.instances[step.i].id == s.instances[step.i].id && t.instances[step.i].stillborn == s.instances[step.i].stillborn
            && InstanceOK(strict, s, step.i, t.instances[step.i])
  {
    hide InHand;
  }

  lemma MovedKeepsAccounted(strict: bool, s: State, t: State, i: nat, inst: Instance)
    requires Accounted(strict, s) && i < |s.instances| && InstanceOK(strict, s, i, inst)
    requires t == s.(instances := s.instances[i := inst], tokens := t.tokens)
    requires inst.id == s.instances[i].id && inst.stillborn == s.instances[i].stillborn
    ensures Accounted(strict, t)
  {
    hide Finished;
    forall j | 0 <= j < |t.instances| ensures InstanceOK(strict, t, j, t.instances[j]) {
      assert InstanceOK(strict, s, j, t.instances[j]);
    }
  }

  lemma GoroutineKeepsAccounted(strict: bool, limit: nat, s: State, step: Step)
    requires Accounted(strict, s) && MovesGoroutine(step) && Enabled(limit, s, step)
    ensures Accounted(strict, Next(limit, s, step))
  {
    hide InstanceOK, Next;
    assert step.i < |s.instances|;
    GoroutineMoves(strict, limit, s, step);
    hide Accounted;
    MovedKeepsAccounted(strict, s, Next(limit, s, step), step.i, Next(limit, s, step).instances[step.i]);
  }

  /** Somebody must still be able to stop this goroutine. */
  predicate Wanting(strict: bool, s: State, inst: Instance) {
    !Finished(strict, inst) && !inst.stillborn && (strict || !s.cancelled)
  }

  /** A hand-over: the goroutines and the map stay, and nobody drops one that has not
      exited. */
  lemma HandOverKeepsAccounted(strict: bool, s: State, t: State)
    requires Accounted(strict, s) && Evolves(s.instances, t.instances) && |t.instances| == |s.instances|
    requires forall i :: 0 <= i < |s.instances| ==> t.instances[i] == s.instances[i].(cancelled := t.instances[i].cancelled)
    requires s.cancelled ==> t.cancelled
    requires TornDown(t.run) ==> t.cancelled && (TornDown(s.run) || t.devices == map[])
    requires forall id :: id in t.devices ==> id in s.devices && t.devices[id] == s.devices[id]
    requires forall i :: 0 <= i < |s.instances| && Wanting(strict, t, s.instances[i]) && InHand(s, i, s.instances[i].id)
                         ==> InHand(t, i, s.instances[i].id)
    requires Claims(t.sync) ==> t.sync.id in t.sync.todo && t.sync.id !in t.devices
    ensures Accounted(strict, t)
  {
    forall i | 0 <= i < |t.instances| ensures InstanceOK(strict, t, i, t.instances[i]) {
      assert InstanceOK(strict, s, i, s.instances[i]);
    }
  }

  lemma RunnerKeepsAccounted(strict: bool, limit: nat, s: State, step: Step)
    requires Accounted(strict, s) && Enabled(limit, s, step)
    requires step.Serve? || step.Cancel? || step.Grab? || step.Tear? || step.Torn? || step.Return?
    ensures Accounted(strict, Next(limit, s, step))
  {
    var t := Next(limit, s, step);
    assert step.Grab? ==> forall id :: id in s.devices ==> s.devices[id].instance in InRunsHands(t.run);
    HandOverKeepsAccounted(strict, s, t);
  }

  lemma SyncStopsKeepAccounted(strict: bool, limit: nat, s: State, step: Step)
    requires Accounted(strict, s) && Enabled(limit, s, step)
    requires step.Begin? || step.Prune? || step.Stop? || step.Stopped? || step.StopsDone?
    ensures Accounted(strict, Next(limit, s, step))
  {
    if step.Prune? {
      PruneKeepsAccounted(strict, limit, s);
    } else {
      hide Wanted, Unwanted, InstancesOf;
      HandOverKeepsAccounted(strict, s, Next(limit, s, step));
    }
  }

  lemma PruneKeepsAccounted(strict: bool, limit: nat, s: State)
    requires Accounted(strict, s) && Enabled(limit, s, Prune)
    ensures Accounted(strict, Next(limit, s, Prune))
  {
    var t := Next(limit, s, Prune);
    forall id | id in s.devices && id !in t.devices ensures s.devices[id].instance in InSyncsHands(t.sync) {
      assert id in Unwanted(s.devices, s.sync.wanted);
    }
    HandOverKeepsAccounted(strict, s, t);
  }

  lemma EnsureKeepsAccounted(strict: bool, limit: nat, s: State, id: string)
    requires Accounted(strict, s) && Enabled(limit, s, Ensure(id))
    ensures Accounted(strict, Next(limit, s, Ensure(id)))
  {
    var t := Next(limit, s, Ensure(id));
    assert t.instances == s.instances && t.run == s.run && t.cancelled == s.cancelled;
    forall i | 0 <= i < |s.instances| && InHand(s, i, s.instances[i].id) ensures InHand(t, i, s.instances[i].id) {
      assert InSyncsHands(s.sync) == {};
    }
    hide InstanceOK, Finished, InHand, Over, Next, Enabled, InSyncsHands;
    HandOverKeepsAccounted(strict, s, t);
  }

  lemma ReplaceKeepsAccounted(strict: bool, limit: nat, s: State, step: Step)
    requires Accounted(strict, s) && Enabled(limit, s, step) && (step.CancelFormer? || step.FormerGone? || step.End?)
    ensures Accounted(strict, Next(limit, s, step))
  {
    HandOverKeepsAccounted(strict, s, Next(limit, s, step));
  }

  lemma GivingUpKeepsAccounted(strict: bool, limit: nat, s: State, step: Step)
    requires Accounted(strict, s) && Enabled(limit, s, step) && Harmless(strict, s, step)
    requires step.GiveUpOnStopped? || step.GiveUpOnFormer? || step.GiveUpOnTorn?
    ensures Accounted(strict, Next(limit, s, step))
  {
    HandOverKeepsAccounted(strict, s, Next(limit, s, step));
  }

  lemma LaunchKeepsAccounted(strict: bool, limit: nat, s: State)
    requires Accounted(strict, s) && Enabled(limit, s, Launch)
    ensures Accounted(strict, Next(limit, s, Launch))
  {
    var t := Next(limit, s, Launch);
    forall i | 0 <= i < |t.instances| ensures InstanceOK(strict, t, i, t.instances[i]) {
      assert InstanceOK(strict, s, i, s.instances[i]);
    }
  }

  lemma CreateKeepsAccounted(strict: bool, limit: nat, s: State)
    requires Accounted(strict, s) && Enabled(limit, s, Create)
    ensures Accounted(strict, Next(limit, s, Create))
  {
    var t := Next(limit, s, Create);
    forall i | 0 <= i < |t.instances| ensures InstanceOK(strict, t, i, t.instances[i]) {
      if i < |s.instances| { assert InstanceOK(strict, s, i, s.instances[i]); }
    }
  }

  /** When Sync makes a live goroutine for a device, every earlier one has exited. */
  lemma CreateKeepsSuccession(strict: bool, limit: nat, s: State)
    requires Accounted(strict, s) && Succession(strict, s.instances) && Enabled(limit, s, Create)
    ensures Succession(strict, Next(limit, s, Create).instances)
  {
    if !s.cancelled {
      forall i | 0 <= i < |s.instances| && s.instances[i].id == s.sync.id ensures Finished(strict, s.instances[i]) {
        assert InstanceOK(strict, s, i, s.instances[i]);
      }
    }
  }

  lemma EvolvesKeepsSuccession(strict: bool, a: seq<Instance>, b: seq<Instance>)
    requires Succession(strict, a) && Evolves(a, b) && |a| == |b|
    ensures Succession(strict, b)
  {
  }

  predicate Dials(instances: seq<Instance>, i: nat) { i < |instances| && instances[i].phase.Dialling? }

  /** A token is taken and given back exactly as a goroutine starts and stops dialling. */
  lemma TokensMove(limit: nat, s: State, step: Step)
    requires Enabled(limit, s, step) && MovesGoroutine(step)
    ensures var t := Next(limit, s, step);
            && (forall d: nat :: d != step.i ==> (Dials(t.instances, d) <==> Dials(s.instances, d)))
            && t.tokens == s.tokens + One(Dials(t.instances, step.i)) - One(Dials(s.instances, step.i))
            && (t.tokens > s.tokens ==> t.tokens <= limit)
  {
    hide Ended;
  }

  lemma TokensStay(limit: nat, s: State, step: Step)
    requires Enabled(limit, s, step) && !MovesGoroutine(step)
    ensures var t := Next(limit, s, step);
            t.tokens == s.tokens && forall i: nat :: Dials(t.instances, i) <==> Dials(s.instances, i)
  {
    hide InstancesOf, Wanted, Unwanted;
  }

  lemma StepKeepsTokens(limit: nat, s: State, step: Step)
    requires Enabled(limit, s, step) && s.tokens == |Diallers(s.instances)| <= limit
    ensures var t := Next(limit, s, step); t.tokens == |Diallers(t.instances)| <= limit
  {
    hide Next, Enabled;
    var t := Next(limit, s, step);
    DiallersDial(s.instances);
    DiallersDial(t.instances);
    hide Diallers;
    if MovesGoroutine(step) {
      TokensMove(limit, s, step);
      DifferAtOne(Diallers(s.instances), Diallers(t.instances), step.i);
    } else {
      TokensStay(limit, s, step);
      assert Diallers(t.instances) == Diallers(s.instances);
    }
  }

  lemma DiallersDial(instances: seq<Instance>)
    ensures forall i: nat :: i in Diallers(instances) <==> Dials(instances, i)
  {
  }

  lemma StepKeepsInv(strict: bool, limit: nat, s: State, step: Step)
    requires Inv(strict, limit, s) && Enabled(limit, s, step) && Harmless(strict, s, step)
    ensures Inv(strict, limit, Next(limit, s, step))
  {
    hide Accounted, Succession, Next, Enabled, Diallers, Evolves, Harmless;
    StepKeepsTokens(limit, s, step);
    StepEvolves(limit, s, step);
    if step.Create? {
      CreateKeepsAccounted(strict, limit, s);
      CreateKeepsSuccession(strict, limit, s);
    } else {
      EvolvesKeepsSuccession(strict, s.instances, Next(limit, s, step).instances);
      if MovesGoroutine(step) {
        GoroutineKeepsAccounted(strict, limit, s, step);
      } else if step.Serve? || step.Cancel? || step.Grab? || step.Tear? || step.Torn? || step.Return? {
        RunnerKeepsAccounted(strict, limit, s, step);
      } else if step.Begin? || step.Prune? || step.Stop? || step.Stopped? || step.StopsDone? {
        SyncStopsKeepAccounted(strict, limit, s, step);
      } else if step.Ensure? {
        EnsureKeepsAccounted(strict, limit, s, step.id);
      } else if step.Launch? {
        LaunchKeepsAccounted(strict, limit, s);
      } else if step.GiveUpOnStopped? || step.GiveUpOnFormer? || step.GiveUpOnTorn? {
        GivingUpKeepsAccounted(strict, limit, s, step);
      } else {
        ReplaceKeepsAccounted(strict, limit, s, step);
      }
    }
  }

  // ---- Every interleaving -----------------------------------------------------------

  /** A run from the start without harm: strictly, without any timeout at all. */
  ghost predicate Execution(strict: bool, limit: nat, ss: seq<State>, steps: seq<Step>) {
    && |ss| == |steps| + 1 && ss[0] == START
    && forall i :: 0 <= i < |steps| ==>
         Enabled(limit, ss[i], steps[i]) && Harmless(strict, ss[i], steps[i]) && ss[i + 1] == Next(limit, ss[i], steps[i])
  }

  lemma StartInv(strict: bool, limit: nat)
    ensures Inv(strict, limit, START)
  {
    assert Diallers(START.instances) == {};
  }

  lemma {:induction false} ReachableInv(strict: bool, limit: nat, ss: seq<State>, steps: seq<Step>, n: nat)
    requires Execution(strict, limit, ss, steps) && n < |ss|
    ensures Inv(strict, limit, ss[n])
  {
    hide Inv, Next, Enabled, Harmless;
    if n == 0 {
      StartInv(strict, limit);
    } else {
      ReachableInv(strict, limit, ss, steps, n - 1);
      assert ss[n - 1 + 1] == Next(limit, ss[n - 1], steps[n - 1]);
      StepKeepsInv(strict, limit, ss[n - 1], steps[n - 1]);
    }
  }

  /** Connections a device's goroutines have opened and not closed. */
  function Live(instances: seq<Instance>, id: string): int {
    if instances == [] then 0 else
      var last := instances[|instances| - 1];
      Live(instances[..|instances| - 1], id) + (if last.id == id then last.opens - last.closes else 0)
  }

  lemma {:induction false} LiveCounts(instances: seq<Instance>, id: string)
    requires forall i :: 0 <= i < |instances| ==> instances[i].opens - instances[i].closes == One(instances[i].phase.Connected?)
    requires forall i, j :: 0 <= i < j < |instances| && instances[i].id == id == instances[j].id && instances[j].phase.Connected?
                            ==> !instances[i].phase.Connected?
    ensures Live(instances, id) == One(exists i :: 0 <= i < |instances| && instances[i].id == id && instances[i].phase.Connected?)
  {
    if instances != [] {
      var init, last := instances[..|instances| - 1], instances[|instances| - 1];
      LiveCounts(init, id);
      assert forall i :: 0 <= i < |init| ==> init[i] == instances[i];
    }
  }

  /** Where the invariant holds, a device has at most one connection, and whoever dials or is
      connected has only finished predecessors. */
  lemma AtMostOne(strict: bool, limit: nat, s: State, id: string)
    requires Inv(strict, limit, s)
    ensures 0 <= Live(s.instances, id) <= 1
    ensures forall i, j :: 0 <= i < j < |s.instances| && s.instances[i].id == s.instances[j].id
                           && (s.instances[j].phase.Dialling? || s.instances[j].phase.Connected?)
                           ==> Finished(strict, s.instances[i])
  {
    forall i | 0 <= i < |s.instances|
      ensures s.instances[i].opens - s.instances[i].closes == One(s.instances[i].phase.Connected?)
      ensures s.instances[i].phase.Dialling? || s.instances[i].phase.Connected? ==> !s.instances[i].stillborn
    {
      assert InstanceOK(strict, s, i, s.instances[i]);
    }
    hide Accounted;
    LiveCounts(s.instances, id);
  }

  /** One connection per device: in every interleaving of Sync, teardown and the goroutines,
      harmless timeouts included, a device has opened at most one connection more than it has
      closed; a goroutine that dials or is connected has seen every predecessor finish, which
      without timeouts is to exit; and no more goroutines dial at once than the limit. */
  lemma OneConnectionPerDevice(strict: bool, limit: nat, ss: seq<State>, steps: seq<Step>, n: nat, id: string)
    requires Execution(strict, limit, ss, steps) && n < |ss|
    ensures 0 <= Live(ss[n].instances, id) <= 1
    ensures var all := ss[n].instances;
            forall i, j :: 0 <= i < j < |all| && all[i].id == all[j].id && (all[j].phase.Dialling? || all[j].phase.Connected?)
                           ==> if strict then all[i].phase.Exited? else Over(all[i])
    ensures |Diallers(ss[n].instances)| <= limit
  {
    ReachableInv(strict, limit, ss, steps, n);
    hide Execution, Accounted, Succession;
    AtMostOne(strict, limit, ss[n], id);
  }

  /** Once Run has returned and no Sync is under way, no device has a connection, and none
      will ever dial again, provided no wait timed out. */
  lemma AllQuietAfterTeardown(limit: nat, ss: seq<State>, steps: seq<Step>, n: nat, id: string)
    requires Execution(true, limit, ss, steps) && n < |ss|
    requires ss[n].run.Done? && ss[n].sync.Resting?
    ensures Live(ss[n].instances, id) == 0
    ensures forall i :: 0 <= i < |ss[n].instances| ==> ss[n].instances[i].phase.Exited? || ss[n].instances[i].stillborn
  {
    ReachableInv(true, limit, ss, steps, n);
    var s := ss[n];
    forall i | 0 <= i < |s.instances|
      ensures s.instances[i].phase.Exited? || s.instances[i].stillborn
      ensures !s.instances[i].phase.Connected?
      ensures s.instances[i].opens - s.instances[i].closes == One(s.instances[i].phase.Connected?)
    {
      assert InstanceOK(true, s, i, s.instances[i]);
    }
    hide Execution, Accounted;
    LiveCounts(s.instances, id);
  }
}
