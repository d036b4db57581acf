/** What a Sync leaves behind (internal/esphome/manager.go): with goroutines dialling, serving
    and exiting all the while, and with any of its waits timing out, one that runs to its end
    leaves exactly the wanted devices listed, each for the target wanted, and has disturbed
    nothing that was up to date. */
module EspSync {
  import opened Common
  import opened EspManagers
  import opened EspTimeouts

  /** A run from the start, timeouts and all. */
  ghost predicate Path(limit: nat, ss: seq<State>, steps: seq<Step>) {
    && |ss| == |steps| + 1 && ss[0] == START
    && forall i :: 0 <= i < |steps| ==> Enabled(limit, ss[i], steps[i]) && ss[i + 1] == Next(limit, ss[i], steps[i])
  }

  lemma {:induction false} PathIsSound(limit: nat, ss: seq<State>, steps: seq<Step>, n: nat)
    requires Path(limit, ss, steps) && n < |ss|
    ensures Sound(limit, ss[n])
  {
    hide Sound, Next, Enabled;
    if n == 0 {
      StartIsSound(limit);
    } else {
      PathIsSound(limit, ss, steps, n - 1);
      assert ss[n - 1 + 1] == Next(limit, ss[n - 1], steps[n - 1]);
      StepKeepsSound(limit, ss[n - 1], steps[n - 1]);
    }
  }

  // ---- Where a Sync stands ---------------------------------------------------------------

  /** The device is listed for the target now wanted. */
  predicate Right(before: Devices, wanted: map<string, Target>, id: string) {
    id in before && id in wanted && before[id].target == wanted[id]
  }

  /** The goroutine is of a listed device that is wanted no more, or elsewhere. */
  ghost predicate Outdated(before: Devices, wanted: map<string, Target>, i: nat) {
    exists id :: id in before && before[id].instance == i && !Right(before, wanted, id)
  }

  /** The goroutine is of a listed device that is wanted no more. */
  ghost predicate Dropped(before: Devices, wanted: map<string, Target>, i: nat) {
    exists id :: id in before && before[id].instance == i && id !in wanted
  }

  /** Sync has still to create these, the one at hand among them. */
  predicate Creates(w: Work) { w.Ensuring? || w.Replacing? || w.AwaitingFormer? || w.Creating? || w.Launching? }

  /** An entry of a device Sync is done with. */
  predicate Settled(before: State, wanted: map<string, Target>, s: State, id: string) {
    && id in s.devices && id in wanted && s.devices[id].target == wanted[id]
    && (if Right(before.devices, wanted, id) then s.devices[id] == before.devices[id] else s.devices[id].instance >= |before.instances|)
  }

  /** The map, between what it was and what is wanted. */
  ghost predicate Mapped(before: State, wanted: map<string, Target>, s: State) {
    && (s.sync.Pruning? ==> s.sync.wanted == wanted && s.devices == before.devices)
    && (s.sync.Stopping? || s.sync.AwaitingStop? ==>
          && ToDo(s.sync) == wanted && s.devices == Wanted(before.devices, wanted)
          && forall i :: i in s.sync.left ==> Dropped(before.devices, wanted, i))
    && (Creates(s.sync) ==>
          && (forall id :: id in ToDo(s.sync) ==> id in wanted && ToDo(s.sync)[id] == wanted[id])
          && (forall id :: id in s.devices ==> id in wanted)
          && (forall id :: id in wanted && id !in ToDo(s.sync) ==> Settled(before, wanted, s, id))
          && (forall id :: id in ToDo(s.sync) && (Claims(s.sync) ==> id != s.sync.id) ==>
                (id in s.devices <==> id in before.devices) && (id in s.devices ==> s.devices[id] == before.devices[id])))
    && (Claims(s.sync) ==> !Right(before.devices, wanted, s.sync.id))
    && (s.sync.Replacing? || s.sync.AwaitingFormer? ==>
          s.sync.id in before.devices && before.devices[s.sync.id].instance == s.sync.former)
  }

  /** Sync is past telling this device's goroutine to stop. */
  predicate Past(s: State, id: string, i: nat) {
    match s.sync
    case Pruning(_) => false
    case Stopping(left, todo) => id !in todo && i !in left
    case AwaitingStop(_, left, todo) => id !in todo && i !in left
    case Replacing(_, at, todo) => id !in todo
    case AwaitingFormer(_, at, todo) => id == at || id !in todo
    case Creating(at, todo) => id == at || id !in todo
    case Ensuring(todo) => id !in todo
    case Launching(_, todo) => id !in todo
    case Resting => true
  }

  /** Of the goroutines there were, exactly outdated ones are told to stop, each in its turn. */
  ghost predicate Told(before: State, wanted: map<string, Target>, s: State) {
    && |s.instances| >= |before.instances|
    && (forall i :: 0 <= i < |before.instances| ==>
          && s.instances[i].id == before.instances[i].id
          && (before.instances[i].cancelled ==> s.instances[i].cancelled)
          && (s.instances[i].cancelled ==> before.instances[i].cancelled || Outdated(before.devices, wanted, i)))
    && (forall id :: id in before.devices && !Right(before.devices, wanted, id) && Past(s, id, before.devices[id].instance) ==>
          before.devices[id].instance < |s.instances| && s.instances[before.devices[id].instance].cancelled)
  }

  /** The goroutines that are new are those of the entries that are new. */
  ghost predicate New(before: State, s: State) {
    && (!Creates(s.sync) ==> |s.instances| == |before.instances|)
    && forall i :: |before.instances| <= i < |s.instances| ==>
      Listed(s.devices, s.instances[i].id, i) && !s.instances[i].cancelled && !s.instances[i].stillborn
  }

  ghost predicate UnderWay(before: State, wanted: map<string, Target>, s: State) {
    && s.run.Serving? && !s.cancelled && !s.sync.Resting?
    && Mapped(before, wanted, s) && Told(before, wanted, s) && New(before, s)
  }

  // ---- Every step on the way -------------------------------------------------------------

  lemma BeginsSo(limit: nat, s: State, wanted: map<string, Target>)
    requires Enabled(limit, s, Begin(wanted)) && s.run.Serving? && !s.cancelled
    ensures UnderWay(s, wanted, Next(limit, s, Begin(wanted)))
  {
  }

  /** Goroutines come and go without Sync's noticing. */
  lemma GoroutineKeepsUnderWay(limit: nat, before: State, wanted: map<string, Target>, s: State, step: Step)
    requires UnderWay(before, wanted, s) && Enabled(limit, s, step) && MovesGoroutine(step)
    ensures UnderWay(before, wanted, Next(limit, s, step))
  {
    hide Mapped, Told, New;
    var t := Next(limit, s, step);
    assert t.sync == s.sync && t.devices == s.devices && t.run == s.run && t.cancelled == s.cancelled;
    assert |t.instances| == |s.instances|
           && forall i :: 0 <= i < |s.instances| ==>
                t.instances[i].id == s.instances[i].id && t.instances[i].cancelled == s.instances[i].cancelled
                && t.instances[i].stillborn == s.instances[i].stillborn;
    hide Next, Enabled;
    SameMap(before, wanted, s, t);
    SameOrders(before, wanted, s, t);
  }

  lemma SameMap(before: State, wanted: map<string, Target>, s: State, t: State)
    requires Mapped(before, wanted, s) && t.sync == s.sync && t.devices == s.devices
    ensures Mapped(before, wanted, t)
  {
  }

  lemma SameOrders(before: State, wanted: map<string, Target>, s: State, t: State)
    requires Told(before, wanted, s) && New(before, s) && t.sync == s.sync && t.devices == s.devices
    requires |t.instances| == |s.instances|
    requires forall i :: 0 <= i < |s.instances| ==>
               t.instances[i].id == s.instances[i].id && t.instances[i].cancelled == s.instances[i].cancelled
               && t.instances[i].stillborn == s.instances[i].stillborn
    ensures Told(before, wanted, t) && New(before, t)
  {
  }

  /** Nobody new is told to stop, and Sync is past nobody new who has not been. */
  lemma ToldStays(before: State, wanted: map<string, Target>, s: State, t: State)
    requires Told(before, wanted, s) && |t.instances| >= |s.instances|
    requires forall i :: 0 <= i < |s.instances| ==>
               t.instances[i].id == s.instances[i].id && t.instances[i].cancelled == s.instances[i].cancelled
    requires forall id :: id in before.devices && !Right(before.devices, wanted, id) && Past(t, id, before.devices[id].instance) ==>
               Past(s, id, before.devices[id].instance)
    ensures Told(before, wanted, t)
  {
    hide Outdated, Right, Past;
  }

  /** An outdated goroutine is told to stop, and Sync is past nobody else new. */
  lemma ToldOne(before: State, wanted: map<string, Target>, s: State, t: State, i: nat)
    requires Told(before, wanted, s) && i < |s.instances| && Outdated(before.devices, wanted, i)
    requires t.instances == s.instances[i := s.instances[i].(cancelled := true)]
    requires forall id :: id in before.devices && !Right(before.devices, wanted, id) && Past(t, id, before.devices[id].instance) ==>
               Past(s, id, before.devices[id].instance) || before.devices[id].instance == i
    ensures Told(before, wanted, t)
  {
    hide Outdated, Right, Past;
  }

  lemma NewStays(before: State, s: State, t: State)
    requires New(before, s) && |t.instances| == |s.instances| && (Creates(s.sync) ==> Creates(t.sync))
    requires forall i :: |before.instances| <= i < |s.instances| ==>
               t.instances[i].id == s.instances[i].id && t.instances[i].cancelled == s.instances[i].cancelled
               && t.instances[i].stillborn == s.instances[i].stillborn
               && (Listed(s.devices, s.instances[i].id, i) ==> Listed(t.devices, s.instances[i].id, i))
    ensures New(before, t)
  {
    hide Listed;
  }

  lemma PruneKeepsUnderWay(limit: nat, before: State, wanted: map<string, Target>, s: State)
    requires UnderWay(before, wanted, s) && Enabled(limit, s, Prune)
    ensures UnderWay(before, wanted, Next(limit, s, Prune))
  {
    var t := Next(limit, s, Prune);
    hide Told, New, Outdated, Right;
    UnwantedAre(before.devices, wanted);
    hide Unwanted, InstancesOf;
    ToldStays(before, wanted, s, t) by { hide Wanted; }
    NewStays(before, s, t) by { SameSize(before, s); hide Wanted; }
  }

  lemma SameSize(before: State, s: State)
    requires New(before, s) && !Creates(s.sync)
    ensures |s.instances| == |before.instances|
  {
  }

  lemma UnwantedAre(before: Devices, wanted: map<string, Target>)
    ensures forall i :: i in InstancesOf(Unwanted(before, wanted)) <==> Dropped(before, wanted, i)
    ensures forall id :: id in before && id !in wanted ==> before[id].instance in InstancesOf(Unwanted(before, wanted))
  {
    assert forall id :: id in before && id !in wanted ==> id in Unwanted(before, wanted);
    forall i | i in InstancesOf(Unwanted(before, wanted)) ensures Dropped(before, wanted, i) {
      var id :| id in Unwanted(before, wanted) && before[id].instance == i;
    }
  }

  lemma StopKeepsUnderWay(limit: nat, before: State, wanted: map<string, Target>, s: State, i: nat)
    requires Waits(before) && UnderWay(before, wanted, s) && Enabled(limit, s, Stop(i))
    ensures UnderWay(before, wanted, Next(limit, s, Stop(i)))
  {
    var t := Next(limit, s, Stop(i));
    DroppedIsOutdated(before, wanted, i);
    hide Waits, Wanted, Told, New, Outdated, Right, Dropped;
    ToldOne(before, wanted, s, t, i);
    SameSize(before, s);
    NewStays(before, s, t);
  }

  lemma DroppedIsOutdated(before: State, wanted: map<string, Target>, i: nat)
    requires Waits(before) && Dropped(before.devices, wanted, i)
    ensures Outdated(before.devices, wanted, i) && i < |before.instances|
  {
    var id :| id in before.devices && before.devices[id].instance == i && id !in wanted;
    assert !Right(before.devices, wanted, id);
  }

  lemma WaitIsOver(limit: nat, before: State, wanted: map<string, Target>, s: State, step: Step)
    requires UnderWay(before, wanted, s) && Enabled(limit, s, step) && (step.Stopped? || step.GiveUpOnStopped?)
    ensures UnderWay(before, wanted, Next(limit, s, step))
  {
    hide Wanted, Told, New, Outdated, Right, Dropped;
    ToldStays(before, wanted, s, Next(limit, s, step));
    NewStays(before, s, Next(limit, s, step));
  }

  lemma StopsAreDone(limit: nat, before: State, wanted: map<string, Target>, s: State)
    requires UnderWay(before, wanted, s) && Enabled(limit, s, StopsDone)
    ensures UnderWay(before, wanted, Next(limit, s, StopsDone))
  {
    hide Told, New, Outdated, Right, Dropped;
    ToldStays(before, wanted, s, Next(limit, s, StopsDone));
    NewStays(before, s, Next(limit, s, StopsDone));
    assert forall id :: id in Wanted(before.devices, wanted) <==> id in before.devices && id in wanted;
  }

  lemma EnsureKeepsUnderWay(limit: nat, before: State, wanted: map<string, Target>, s: State, id: string)
    requires Waits(before) && UnderWay(before, wanted, s) && Enabled(limit, s, Ensure(id))
    ensures UnderWay(before, wanted, Next(limit, s, Ensure(id)))
  {
    if id in before.devices { ListedIsThere(before, id); }
    AtHand(before, wanted, s, id);
    EnsureKeepsMap(limit, before, wanted, s, id);
    hide Waits, Mapped, Told, New;
    EnsureKeepsOrders(limit, before, wanted, s, id);
  }

  lemma EnsureKeepsOrders(limit: nat, before: State, wanted: map<string, Target>, s: State, id: string)
    requires Told(before, wanted, s) && New(before, s) && Enabled(limit, s, Ensure(id)) && !s.cancelled && s.run.Serving?
    requires id in wanted && s.sync.todo[id] == wanted[id] && (id in s.devices <==> id in before.devices)
    requires id in s.devices ==> s.devices[id] == before.devices[id] && s.devices[id].instance < |before.instances|
    ensures var t := Next(limit, s, Ensure(id));
            Told(before, wanted, t) && New(before, t) && !t.cancelled && t.run.Serving? && !t.sync.Resting?
  {
    hide Told, New, Outdated;
    ToldStays(before, wanted, s, Next(limit, s, Ensure(id)));
    NewStays(before, s, Next(limit, s, Ensure(id)));
  }

  lemma AtHand(before: State, wanted: map<string, Target>, s: State, id: string)
    requires Mapped(before, wanted, s) && s.sync.Ensuring? && id in s.sync.todo
    ensures id in wanted && s.sync.todo[id] == wanted[id] && (id in s.devices <==> id in before.devices)
    ensures id in s.devices ==> s.devices[id] == before.devices[id]
  {
  }

  lemma EnsureKeepsMap(limit: nat, before: State, wanted: map<string, Target>, s: State, id: string)
    requires Mapped(before, wanted, s) && Enabled(limit, s, Ensure(id))
    ensures Mapped(before, wanted, Next(limit, s, Ensure(id)))
  {
    AtHand(before, wanted, s, id);
    hide Outdated, Dropped, Wanted;
    var t := Next(limit, s, Ensure(id));
    if t.sync.Ensuring? {
      UpToDateKeepsMap(before, wanted, s, t, id);
    } else {
      assert t.devices == s.devices - {id};
      TakenOutKeepsMap(before, wanted, s, t, id);
    }
  }

  lemma UpToDateKeepsMap(before: State, wanted: map<string, Target>, s: State, t: State, id: string)
    requires Mapped(before, wanted, s) && s.sync.Ensuring? && id in s.sync.todo
    requires id in s.devices && s.devices[id].target == s.sync.todo[id]
    requires t.devices == s.devices && t.sync == Ensuring(s.sync.todo - {id})
    ensures Mapped(before, wanted, t)
  {
    assert Settled(before, wanted, t, id);
    SettledStays(before, wanted, s, t);
    hide Settled;
  }

  lemma TakenOutKeepsMap(before: State, wanted: map<string, Target>, s: State, t: State, id: string)
    requires Mapped(before, wanted, s) && s.sync.Ensuring? && id in s.sync.todo && !Right(before.devices, wanted, id)
    requires t.devices == s.devices - {id} && (t.sync.Replacing? || t.sync.Creating?) && t.sync.id == id && t.sync.todo == s.sync.todo
    requires t.sync.Replacing? ==> id in before.devices && before.devices[id].instance == t.sync.former
    ensures Mapped(before, wanted, t)
  {
    assert forall other :: other != id ==> (Settled(before, wanted, s, other) <==> Settled(before, wanted, t, other));
    hide Settled, Right;
  }

  lemma CancelFormerKeepsUnderWay(limit: nat, before: State, wanted: map<string, Target>, s: State)
    requires Waits(before) && UnderWay(before, wanted, s) && Enabled(limit, s, CancelFormer)
    ensures UnderWay(before, wanted, Next(limit, s, CancelFormer))
  {
    var t := Next(limit, s, CancelFormer);
    var asked := s.(sync := AwaitingFormer(s.sync.former, s.sync.id, s.sync.todo));
    FormerIsOutdated(before, wanted, s);
    AskingKeepsMap(before, wanted, s);
    SameMap(before, wanted, asked, t);
    hide Waits, Mapped, Told, New, Outdated, Right;
    ToldOne(before, wanted, s, t, s.sync.former);
    NewStays(before, s, t);
  }

  lemma FormerIsOutdated(before: State, wanted: map<string, Target>, s: State)
    requires Waits(before) && Mapped(before, wanted, s) && (s.sync.Replacing? || s.sync.AwaitingFormer?)
    ensures Outdated(before.devices, wanted, s.sync.former) && s.sync.former < |before.instances|
    ensures before.devices[s.sync.id].instance == s.sync.former
  {
    ListedIsThere(before, s.sync.id);
  }

  lemma AskingKeepsMap(before: State, wanted: map<string, Target>, s: State)
    requires Mapped(before, wanted, s) && s.sync.Replacing?
    ensures Mapped(before, wanted, s.(sync := AwaitingFormer(s.sync.former, s.sync.id, s.sync.todo)))
  {
    hide Right, Settled;
    SettledStays(before, wanted, s, s.(sync := AwaitingFormer(s.sync.former, s.sync.id, s.sync.todo)));
  }

  lemma ListedIsThere(s: State, id: string)
    requires Waits(s) && id in s.devices
    ensures s.devices[id].instance < |s.instances| && s.instances[s.devices[id].instance].id == id
  {
  }

  lemma FormerIsOver(limit: nat, before: State, wanted: map<string, Target>, s: State, step: Step)
    requires UnderWay(before, wanted, s) && Enabled(limit, s, step) && (step.FormerGone? || step.GiveUpOnFormer?)
    ensures UnderWay(before, wanted, Next(limit, s, step))
  {
    hide Told, New, Outdated, Settled, Right;
    ToldStays(before, wanted, s, Next(limit, s, step));
    NewStays(before, s, Next(limit, s, step));
    SettledStays(before, wanted, s, Next(limit, s, step));
  }

  lemma SettledStays(before: State, wanted: map<string, Target>, s: State, t: State)
    requires t.devices == s.devices
    ensures forall id :: Settled(before, wanted, s, id) <==> Settled(before, wanted, t, id)
  {
  }

  lemma CreateKeepsUnderWay(limit: nat, before: State, wanted: map<string, Target>, s: State)
    requires Waits(s) && UnderWay(before, wanted, s) && Enabled(limit, s, Create)
    ensures UnderWay(before, wanted, Next(limit, s, Create))
  {
    var t := Next(limit, s, Create);
    CreateKeepsMap(limit, before, wanted, s);
    CreateAddsOne(limit, before, wanted, s);
    hide Waits, Mapped, Told, New, Outdated, Settled, Right;
    ToldStays(before, wanted, s, t);
  }

  lemma CreateKeepsMap(limit: nat, before: State, wanted: map<string, Target>, s: State)
    requires Waits(s) && Mapped(before, wanted, s) && |s.instances| >= |before.instances| && Enabled(limit, s, Create)
    ensures Mapped(before, wanted, Next(limit, s, Create))
  {
    hide Mapped, Waits;
    MadeKeepsMap(before, wanted, s, Next(limit, s, Create));
  }

  lemma MadeKeepsMap(before: State, wanted: map<string, Target>, s: State, t: State)
    requires Mapped(before, wanted, s) && |s.instances| >= |before.instances| && s.sync.Creating? && s.sync.id in s.sync.todo
    requires t.devices == s.devices[s.sync.id := Managed(|s.instances|, s.sync.todo[s.sync.id])]
    requires t.sync == Launching(|s.instances|, s.sync.todo - {s.sync.id})
    ensures Mapped(before, wanted, t)
  {
    SettledNow(before, wanted, s, t);
    hide Right, Settled;
  }

  lemma SettledNow(before: State, wanted: map<string, Target>, s: State, t: State)
    requires Mapped(before, wanted, s) && |s.instances| >= |before.instances| && s.sync.Creating? && s.sync.id in s.sync.todo
    requires t.devices == s.devices[s.sync.id := Managed(|s.instances|, s.sync.todo[s.sync.id])]
    ensures Settled(before, wanted, t, s.sync.id)
    ensures forall id :: id != s.sync.id ==> (Settled(before, wanted, s, id) <==> Settled(before, wanted, t, id))
  {
  }

  lemma CreateAddsOne(limit: nat, before: State, wanted: map<string, Target>, s: State)
    requires Waits(s) && New(before, s) && !s.cancelled && Enabled(limit, s, Create)
    ensures New(before, Next(limit, s, Create))
  {
  }

  lemma LaunchKeepsUnderWay(limit: nat, before: State, wanted: map<string, Target>, s: State)
    requires UnderWay(before, wanted, s) && Enabled(limit, s, Launch)
    ensures UnderWay(before, wanted, Next(limit, s, Launch))
  {
    hide Told, New, Outdated, Settled, Right;
    ToldStays(before, wanted, s, Next(limit, s, Launch));
    NewStays(before, s, Next(limit, s, Launch));
    SettledStays(before, wanted, s, Next(limit, s, Launch));
  }

  lemma StepKeepsUnderWay(limit: nat, before: State, wanted: map<string, Target>, s: State, step: Step)
    requires Waits(before) && Waits(s) && UnderWay(before, wanted, s) && Enabled(limit, s, step) && !step.Cancel? && !step.End?
    ensures UnderWay(before, wanted, Next(limit, s, step))
  {
    NothingElse(limit, before, wanted, s, step);
    hide Waits, UnderWay, Next, Enabled;
    if MovesGoroutine(step) {
      GoroutineKeepsUnderWay(limit, before, wanted, s, step);
    } else if step.Ensure? {
      EnsureKeepsUnderWay(limit, before, wanted, s, step.id);
    } else if step.CancelFormer? {
      CancelFormerKeepsUnderWay(limit, before, wanted, s);
    } else if step.FormerGone? || step.GiveUpOnFormer? {
      FormerIsOver(limit, before, wanted, s, step);
    } else if step.Create? {
      CreateKeepsUnderWay(limit, before, wanted, s);
    } else if step.Launch? {
      LaunchKeepsUnderWay(limit, before, wanted, s);
    } else if step.Prune? {
      PruneKeepsUnderWay(limit, before, wanted, s);
    } else if step.Stop? {
      StopKeepsUnderWay(limit, before, wanted, s, step.i);
    } else if step.StopsDone? {
      StopsAreDone(limit, before, wanted, s);
    } else {
      WaitIsOver(limit, before, wanted, s, step);
    }
  }

  /** While Run serves and a Sync is under way, no step of Run's but Cancel is possible. */
  lemma NothingElse(limit: nat, before: State, wanted: map<string, Target>, s: State, step: Step)
    requires UnderWay(before, wanted, s) && Enabled(limit, s, step) && !step.Cancel? && !step.End?
    ensures MovesGoroutine(step) || step.Ensure? || step.CancelFormer? || step.FormerGone? || step.GiveUpOnFormer?
            || step.Create? || step.Launch? || step.Prune? || step.Stop? || step.Stopped? || step.StopsDone? || step.GiveUpOnStopped?
  {
    hide Mapped, Told, New;
  }

  // ---- What it leaves --------------------------------------------------------------------

  /** What a Sync that ran from `before` to its end leaves. */
  ghost predicate Synced(before: State, wanted: map<string, Target>, after: State) {
    && after.devices.Keys == wanted.Keys
    && (forall id :: id in wanted ==>
          && after.devices[id].target == wanted[id]
          && (if Right(before.devices, wanted, id) then after.devices[id] == before.devices[id]
              else |before.instances| <= after.devices[id].instance < |after.instances|))
    && |before.instances| <= |after.instances|
    && (forall i :: 0 <= i < |before.instances| ==>
          && after.instances[i].id == before.instances[i].id
          && (after.instances[i].cancelled <==> before.instances[i].cancelled || Outdated(before.devices, wanted, i)))
    && (forall i :: |before.instances| <= i < |after.instances| ==>
          && Listed(after.devices, after.instances[i].id, i) && !after.instances[i].cancelled && !after.instances[i].stillborn
          && !after.instances[i].phase.Unstarted?)
  }

  lemma EndsSynced(limit: nat, before: State, wanted: map<string, Target>, s: State)
    requires Waits(before) && Waits(s) && UnderWay(before, wanted, s) && Enabled(limit, s, End)
    ensures Synced(before, wanted, Next(limit, s, End))
  {
    var t := Next(limit, s, End);
    forall i | 0 <= i < |before.instances| && Outdated(before.devices, wanted, i) ensures t.instances[i].cancelled {
      var id :| id in before.devices && before.devices[id].instance == i && !Right(before.devices, wanted, id);
      assert Past(s, id, i);
    }
  }

  /** What is listed and right has a goroutine nobody has told to stop on its account. */
  lemma RightIsNotOutdated(before: State, wanted: map<string, Target>, id: string)
    requires Waits(before) && Right(before.devices, wanted, id)
    ensures !Outdated(before.devices, wanted, before.devices[id].instance)
  {
  }

  lemma RightIsUndisturbed(before: State, wanted: map<string, Target>, after: State, id: string)
    requires Waits(before) && Synced(before, wanted, after) && Right(before.devices, wanted, id)
    ensures var i := before.devices[id].instance;
            i < |before.instances| <= |after.instances| && after.instances[i].cancelled == before.instances[i].cancelled
  {
    RightIsNotOutdated(before, wanted, id);
    ListedIsThere(before, id);
    hide Waits, Outdated;
  }

  /** From a Sync's beginning to its end the run has no Cancel and no other end. */
  ghost predicate Uninterrupted(steps: seq<Step>, b: nat, e: nat) {
    e <= |steps| && forall k :: b < k < e ==> !steps[k].Cancel? && !steps[k].End?
  }

  lemma {:induction false} StaysUnderWay(limit: nat, ss: seq<State>, steps: seq<Step>, b: nat, n: nat, wanted: map<string, Target>)
    requires Path(limit, ss, steps) && |ss| == |steps| + 1 && b < n <= |steps| && Uninterrupted(steps, b, n)
    requires steps[b] == Begin(wanted) && ss[b].run.Serving? && !ss[b].cancelled
    ensures UnderWay(ss[b], wanted, ss[n]) && Waits(ss[b]) && Waits(ss[n])
  {
    hide *;
    PathWaits(limit, ss, steps, b);
    PathWaits(limit, ss, steps, n);
    LinkAt(limit, ss, steps, n - 1);
    if n == b + 1 {
      BeginsSo(limit, ss[b], wanted);
    } else {
      NotYetOver(steps, b, n);
      StaysUnderWay(limit, ss, steps, b, n - 1, wanted);
      StepKeepsUnderWay(limit, ss[b], wanted, ss[n - 1], steps[n - 1]);
    }
  }

  lemma NotYetOver(steps: seq<Step>, b: nat, n: nat)
    requires Uninterrupted(steps, b, n) && b + 1 < n
    ensures Uninterrupted(steps, b, n - 1) && !steps[n - 1].Cancel? && !steps[n - 1].End?
  {
  }

  lemma PathWaits(limit: nat, ss: seq<State>, steps: seq<Step>, n: nat)
    requires Path(limit, ss, steps) && n < |ss|
    ensures Waits(ss[n])
  {
    PathIsSound(limit, ss, steps, n);
    hide Path, Waits;
  }

  lemma LinkAt(limit: nat, ss: seq<State>, steps: seq<Step>, i: nat)
    requires Path(limit, ss, steps) && i < |steps|
    ensures |ss| == |steps| + 1 && Enabled(limit, ss[i], steps[i]) && ss[i + 1] == Next(limit, ss[i], steps[i])
  {
    hide Enabled, Next;
  }

  /** What a Sync is for. On every run, whatever goroutines do meanwhile and whichever waits
      time out, a Sync that begins while Run serves and comes to its end uncancelled leaves
      exactly the wanted devices listed, each for the target wanted. A device that was listed
      for that target keeps its very goroutine; every other wanted device has a new one,
      started and not told to stop, and there are no other new ones. Of the goroutines there
      were, it has told exactly those to stop whose device is wanted no more or elsewhere. */
  lemma SyncLeavesTheWanted(limit: nat, ss: seq<State>, steps: seq<Step>, b: nat, e: nat, wanted: map<string, Target>)
    requires Path(limit, ss, steps) && b < e < |steps| && Uninterrupted(steps, b, e)
    requires steps[b] == Begin(wanted) && ss[b].run.Serving? && !ss[b].cancelled && steps[e].End?
    ensures Synced(ss[b], wanted, ss[e + 1])
    ensures forall id :: Right(ss[b].devices, wanted, id) ==>
              var i := ss[b].devices[id].instance;
              i < |ss[b].instances| <= |ss[e + 1].instances|
              && ss[e + 1].instances[i].cancelled == ss[b].instances[i].cancelled
  {
    StaysUnderWay(limit, ss, steps, b, e, wanted);
    assert Enabled(limit, ss[e], steps[e]) && ss[e + 1] == Next(limit, ss[e], steps[e]);
    hide Path, Waits, UnderWay, Next, Enabled, Synced;
    EndsSynced(limit, ss[b], wanted, ss[e]);
    forall id | Right(ss[b].devices, wanted, id)
      ensures var i := ss[b].devices[id].instance;
              i < |ss[b].instances| <= |ss[e + 1].instances|
              && ss[e + 1].instances[i].cancelled == ss[b].instances[i].cancelled
    {
      RightIsUndisturbed(ss[b], wanted, ss[e + 1], id);
    }
  }

  /** A Sync that comes before Run or after its end does nothing at all. */
  lemma SyncComesToNothing(limit: nat, s: State, wanted: map<string, Target>)
    requires Enabled(limit, s, Begin(wanted)) && (s.run.NotYet? || s.cancelled)
    ensures Next(limit, s, Begin(wanted)) == s
  {
  }

  /** So a Sync that wants what is there changes nothing: no entry, no goroutine more, and
      none told to stop. */
  lemma SyncAgainChangesNothing(limit: nat, ss: seq<State>, steps: seq<Step>, b: nat, e: nat, wanted: map<string, Target>)
    requires Path(limit, ss, steps) && b < e < |steps| && Uninterrupted(steps, b, e)
    requires steps[b] == Begin(wanted) && ss[b].run.Serving? && !ss[b].cancelled && steps[e].End?
    requires ss[b].devices.Keys == wanted.Keys && forall id :: id in wanted ==> ss[b].devices[id].target == wanted[id]
    ensures ss[e + 1].devices == ss[b].devices && |ss[e + 1].instances| == |ss[b].instances|
    ensures forall i :: 0 <= i < |ss[b].instances| ==> ss[e + 1].instances[i].cancelled == ss[b].instances[i].cancelled
  {
    SyncLeavesTheWanted(limit, ss, steps, b, e, wanted);
    StaysUnderWay(limit, ss, steps, b, b + 1, wanted);
    hide Path, UnderWay;
    NothingNew(ss[b], wanted, ss[e + 1]);
  }

  lemma NothingNew(before: State, wanted: map<string, Target>, after: State)
    requires Waits(before) && Synced(before, wanted, after) && before.devices.Keys == wanted.Keys
    requires forall id :: id in wanted ==> before.devices[id].target == wanted[id]
    ensures after.devices == before.devices && |after.instances| == |before.instances|
    ensures forall i :: 0 <= i < |before.instances| ==> after.instances[i].cancelled == before.instances[i].cancelled
  {
    assert forall id :: id in wanted ==> Right(before.devices, wanted, id);
    assert forall i: nat :: !Outdated(before.devices, wanted, i);
    if |after.instances| > |before.instances| {
      var i := |before.instances|;
      ListedIsThere(before, after.instances[i].id);
    }
  }
}
