/** What becomes of one connection per device when the manager stops waiting for a goroutine
    to exit (awaitExit in internal/esphome/manager.go): exactly which timeouts can cost it. */
module EspTimeouts {
  import opened Common
  import opened EspManagers

  // ---- What a wait is about ------------------------------------------------------------

  /** What Sync still has to create. */
  function ToDo(w: Work): map<string, Target> {
    match w
    case Stopping(_, todo) => todo
    case AwaitingStop(_, _, todo) => todo
    case Ensuring(todo) => todo
    case Replacing(_, _, todo) => todo
    case AwaitingFormer(_, _, todo) => todo
    case Creating(_, todo) => todo
    case Launching(_, todo) => todo
    case _ => map[]
  }

  /** A goroutine to be stopped is of a device neither wanted nor in the map. */
  ghost predicate Unclaimed(s: State) {
    s.sync.Stopping? || s.sync.AwaitingStop? ==>
      forall i :: i in InSyncsHands(s.sync) ==>
        i < |s.instances| && s.instances[i].id !in ToDo(s.sync) && s.instances[i].id !in s.devices
  }

  /** A goroutine waited for is of the device at hand and has been told to stop; only the one
      being launched has not started. */
  ghost predicate Waits(s: State) {
    && (s.sync.Replacing? || s.sync.AwaitingFormer? ==>
          s.sync.former < |s.instances| && s.instances[s.sync.former].id == s.sync.id)
    && (s.sync.AwaitingFormer? ==> s.instances[s.sync.former].cancelled)
    && (s.sync.AwaitingStop? ==>
          s.sync.stopped < |s.instances| && s.instances[s.sync.stopped].cancelled && s.sync.stopped !in s.sync.left)
    && (s.sync.Launching? ==> In(s, s.sync.fresh_, Unstarted))
    && (forall i :: 0 <= i < |s.instances| && s.instances[i].phase.Unstarted? ==> s.sync.Launching? && s.sync.fresh_ == i)
    && (s.run.NotYet? ==> s.sync.Resting?)
    && (s.run.AwaitingTorn? ==> s.run.torn < |s.instances|)
    && (Claims(s.sync) ==> s.sync.id in s.sync.todo && s.sync.id !in s.devices)
    && (forall id :: id in s.devices ==>
          s.devices[id].instance < |s.instances| && s.instances[s.devices[id].instance].id == id)
    && Unclaimed(s)
  }

  predicate OfSync(step: Step) {
    || step.Begin? || step.Prune? || step.Stop? || step.Stopped? || step.StopsDone? || step.Ensure? || step.CancelFormer?
    || step.FormerGone? || step.Create? || step.Launch? || step.End? || step.GiveUpOnStopped? || step.GiveUpOnFormer?
  }

  lemma StopsKeepWaits(limit: nat, s: State, step: Step)
    requires Waits(s) && Enabled(limit, s, step)
    requires step.Begin? || step.Stopped? || step.StopsDone? || step.GiveUpOnStopped?
    ensures Waits(Next(limit, s, step))
  {
    hide Waits, InstancesOf, Wanted, Unwanted;
    WaitsForLess(s, Next(limit, s, step).sync);
  }

  lemma WaitsForLess(s: State, w: Work)
    requires Waits(s) && (s.sync.Resting? || s.sync.Stopping? || s.sync.AwaitingStop?)
    requires w == s.sync || (w.Pruning? && !s.run.NotYet?) || (s.sync.Stopping? && w == Ensuring(s.sync.todo))
             || (s.sync.AwaitingStop? && w == Stopping(s.sync.left, s.sync.todo))
    ensures Waits(s.(sync := w))
  {
    var t := s.(sync := w);
    if w == s.sync {
      assert t == s;
    } else if w.Stopping? {
      forall i | i in InSyncsHands(w)
        ensures i < |s.instances| && s.instances[i].id !in ToDo(w) && s.instances[i].id !in s.devices
      {
        assert i in InSyncsHands(s.sync);
      }
      assert Unclaimed(t);
    }
  }

  lemma StopKeepsWaits(limit: nat, s: State, i: nat)
    requires Waits(s) && Enabled(limit, s, Stop(i))
    ensures Waits(Next(limit, s, Stop(i)))
  {
    hide Waits;
    var told := CancelOne(s, i);
    StandsBack(s, told);
    ThenAwaitsStop(told, i);
  }

  lemma ThenAwaitsStop(s: State, i: nat)
    requires Waits(s) && s.sync.Stopping? && i in s.sync.left && i < |s.instances| && s.instances[i].cancelled
    ensures Waits(s.(sync := AwaitingStop(i, s.sync.left - {i}, s.sync.todo)))
  {
    assert forall j :: j in InSyncsHands(AwaitingStop(i, s.sync.left - {i}, s.sync.todo)) ==> j in InSyncsHands(s.sync);
  }

  lemma ReplacesKeepWaits(limit: nat, s: State, step: Step)
    requires Waits(s) && Enabled(limit, s, step)
    requires step.FormerGone? || step.GiveUpOnFormer?
    ensures Waits(Next(limit, s, step))
  {
    hide InstancesOf, Wanted, Unwanted;
  }

  lemma CancelKeepsWaits(limit: nat, s: State)
    requires Waits(s) && Enabled(limit, s, CancelFormer)
    ensures Waits(Next(limit, s, CancelFormer))
  {
    hide Waits;
    var told := CancelOne(s, s.sync.former);
    StandsBack(s, told);
    ThenAwaits(told);
  }

  lemma ThenAwaits(s: State)
    requires Waits(s) && s.sync.Replacing? && s.sync.former < |s.instances| && s.instances[s.sync.former].cancelled
    ensures Waits(s.(sync := AwaitingFormer(s.sync.former, s.sync.id, s.sync.todo)))
  {
  }

  lemma EnsureKeepsWaits(limit: nat, s: State, id: string)
    requires Waits(s) && Enabled(limit, s, Ensure(id))
    ensures Waits(Next(limit, s, Ensure(id)))
  {
  }

  lemma CreatesKeepWaits(limit: nat, s: State, step: Step)
    requires Waits(s) && Enabled(limit, s, step) && (step.Create? || step.Launch? || step.End?)
    ensures Waits(Next(limit, s, step))
  {
    hide InstancesOf, Wanted, Unwanted;
  }

  lemma PruneKeepsWaits(limit: nat, s: State)
    requires Waits(s) && Enabled(limit, s, Prune)
    ensures Waits(Next(limit, s, Prune))
  {
    var t := Next(limit, s, Prune);
    forall i | i in InSyncsHands(t.sync)
      ensures i < |t.instances| && t.instances[i].id !in ToDo(t.sync) && t.instances[i].id !in t.devices
    {
      var id :| id in Unwanted(s.devices, s.sync.wanted) && s.devices[id].instance == i;
      assert s.instances[i].id == id;
    }
  }

  /** The rest of the state is Sync's own, and goroutines keep their device and their orders. */
  lemma OthersKeepWaits(limit: nat, s: State, step: Step)
    requires Waits(s) && Enabled(limit, s, step) && !OfSync(step)
    ensures Waits(Next(limit, s, step))
  {
    hide Waits;
    StepsAside(limit, s, step);
    var t := Next(limit, s, step);
    hide Next, Enabled;
    StandsBack(s, t);
  }

  ghost predicate StoodBack(s: State, t: State) {
    && t.sync == s.sync && |t.instances| == |s.instances| && (t.run.NotYet? ==> s.run.NotYet?)
    && (t.run.AwaitingTorn? && t.run != s.run ==> t.run.torn < |s.instances|)
    && (forall id :: id in t.devices ==> id in s.devices && t.devices[id] == s.devices[id])
    && forall i :: 0 <= i < |s.instances| ==>
         && t.instances[i].id == s.instances[i].id && (s.instances[i].cancelled ==> t.instances[i].cancelled)
         && (t.instances[i].phase.Unstarted? <==> s.instances[i].phase.Unstarted?)
  }

  lemma StepsAside(limit: nat, s: State, step: Step)
    requires Enabled(limit, s, step) && !OfSync(step)
    ensures StoodBack(s, Next(limit, s, step))
  {
    hide InstancesOf, Ended;
  }

  lemma StandsBack(s: State, t: State)
    requires Waits(s) && StoodBack(s, t)
    ensures Waits(t)
  {
  }

  ghost predicate TokensRight(limit: nat, s: State) { s.tokens == |Diallers(s.instances)| <= limit }

  /** What every run keeps, timeouts and all. */
  ghost predicate Sound(limit: nat, s: State) { Waits(s) && TokensRight(limit, s) }

  lemma StepKeepsSound(limit: nat, s: State, step: Step)
    requires Sound(limit, s) && Enabled(limit, s, step)
    ensures Sound(limit, Next(limit, s, step))
  {
    hide Waits, Next, Enabled;
    StepKeepsTokens(limit, s, step);
    if step.Prune? {
      PruneKeepsWaits(limit, s);
    } else if !OfSync(step) {
      OthersKeepWaits(limit, s, step);
    } else if step.Stop? {
      StopKeepsWaits(limit, s, step.i);
    } else if step.Begin? || step.Stopped? || step.StopsDone? || step.GiveUpOnStopped? {
      StopsKeepWaits(limit, s, step);
    } else if step.Ensure? {
      EnsureKeepsWaits(limit, s, step.id);
    } else if step.CancelFormer? {
      CancelKeepsWaits(limit, s);
    } else if step.Create? || step.Launch? || step.End? {
      CreatesKeepWaits(limit, s, step);
    } else {
      ReplacesKeepWaits(limit, s, step);
    }
  }

  lemma StartIsSound(limit: nat)
    ensures Sound(limit, START)
  {
    assert Diallers(START.instances) == {};
  }

  // ---- Where a state can lead ----------------------------------------------------------

  /** These steps, harmless all of them, lead from one state to the other. */
  ghost predicate Follows(limit: nat, s: State, steps: seq<Step>, t: State)
    decreases |steps|
  {
    if steps == [] then s == t
    else Enabled(limit, s, steps[0]) && Harmless(false, s, steps[0]) && Follows(limit, Next(limit, s, steps[0]), steps[1..], t)
  }

  ghost predicate Reaches(limit: nat, s: State, t: State) { exists steps :: Follows(limit, s, steps, t) }

  /** Two connections to one device. */
  ghost predicate Doubled(s: State) {
    exists i, j :: 0 <= i < j < |s.instances| && s.instances[i].id == s.instances[j].id
                   && s.instances[i].phase.Connected? && s.instances[j].phase.Connected?
  }

  /** Two connections to one device can come of this. */
  ghost predicate MayDouble(limit: nat, s: State) { exists t :: Reaches(limit, s, t) && Doubled(t) }

  lemma ReachesSelf(limit: nat, s: State)
    ensures Reaches(limit, s, s)
  {
    assert Follows(limit, s, [], s);
  }

  lemma StepThenReaches(limit: nat, s: State, step: Step, t: State)
    requires Enabled(limit, s, step) && Harmless(false, s, step) && Reaches(limit, Next(limit, s, step), t)
    ensures Reaches(limit, s, t)
  {
    hide Enabled, Harmless, Next;
    var steps :| Follows(limit, Next(limit, s, step), steps, t);
    assert ([step] + steps)[1..] == steps;
    assert Follows(limit, s, [step] + steps, t);
  }

  lemma {:induction false} FollowsOn(limit: nat, s: State, steps: seq<Step>, t: State, more: seq<Step>, u: State)
    requires Follows(limit, s, steps, t) && Follows(limit, t, more, u)
    ensures Follows(limit, s, steps + more, u)
    decreases |steps|
  {
    hide Enabled, Harmless, Next;
    if steps == [] {
      assert [] + more == more;
    } else {
      FollowsOn(limit, Next(limit, s, steps[0]), steps[1..], t, more, u);
      assert (steps + more)[1..] == steps[1..] + more;
    }
  }

  lemma ReachesOn(limit: nat, s: State, t: State, u: State)
    requires Reaches(limit, s, t) && Reaches(limit, t, u)
    ensures Reaches(limit, s, u)
  {
    hide Follows;
    var steps :| Follows(limit, s, steps, t);
    var more :| Follows(limit, t, more, u);
    FollowsOn(limit, s, steps, t, more, u);
  }

  lemma ReachesByStep(limit: nat, s: State, step: Step)
    requires Enabled(limit, s, step) && Harmless(false, s, step)
    ensures Reaches(limit, s, Next(limit, s, step))
  {
    hide Enabled, Harmless, Next, Reaches;
    ReachesSelf(limit, Next(limit, s, step));
    StepThenReaches(limit, s, step, Next(limit, s, step));
  }

  lemma {:induction false} FollowsKeepsSound(limit: nat, s: State, steps: seq<Step>, t: State)
    requires Sound(limit, s) && Follows(limit, s, steps, t)
    ensures Sound(limit, t)
    decreases |steps|
  {
    hide Sound, Enabled, Harmless, Next;
    if steps != [] {
      StepKeepsSound(limit, s, steps[0]);
      FollowsKeepsSound(limit, Next(limit, s, steps[0]), steps[1..], t);
    }
  }

  lemma ReachesKeepsSound(limit: nat, s: State, t: State)
    requires Sound(limit, s) && Reaches(limit, s, t)
    ensures Sound(limit, t)
  {
    hide Sound, Follows;
    var steps :| Follows(limit, s, steps, t);
    FollowsKeepsSound(limit, s, steps, t);
  }

  lemma {:induction false} FollowsKeepsInv(limit: nat, s: State, steps: seq<Step>, t: State)
    requires Inv(false, limit, s) && Follows(limit, s, steps, t)
    ensures Inv(false, limit, t)
    decreases |steps|
  {
    hide Inv, Enabled, Harmless, Next;
    if steps != [] {
      StepKeepsInv(false, limit, s, steps[0]);
      FollowsKeepsInv(limit, Next(limit, s, steps[0]), steps[1..], t);
    }
  }

  lemma NeverDoubled(limit: nat, s: State)
    requires Inv(false, limit, s)
    ensures !Doubled(s)
  {
    hide Inv;
    if i, j :| 0 <= i < j < |s.instances| && s.instances[i].id == s.instances[j].id
               && s.instances[i].phase.Connected? && s.instances[j].phase.Connected? {
      AtMostOne(false, limit, s, s.instances[i].id);
    }
  }

  // ---- Getting connected ---------------------------------------------------------------

  /** Nothing has changed but goroutine i, and others only from dialling to sleep. */
  ghost predicate Keeps(s: State, t: State, i: nat) {
    && t.sync == s.sync && t.run == s.run && t.cancelled == s.cancelled && t.devices == s.devices
    && |t.instances| == |s.instances|
    && forall j :: 0 <= j < |s.instances| ==>
         && t.instances[j].id == s.instances[j].id && t.instances[j].cancelled == s.instances[j].cancelled
         && (j != i && !s.instances[j].phase.Dialling? ==> t.instances[j] == s.instances[j])
  }

  lemma OpenNow(limit: nat, s: State, i: nat) returns (t: State)
    requires TokensRight(limit, s) && In(s, i, Dialling)
    ensures Reaches(limit, s, t) && Keeps(s, t, i) && TokensRight(limit, t) && In(t, i, Connected)
  {
    assert i in Diallers(s.instances);
    t := Next(limit, s, Open(i));
    StepKeepsTokens(limit, s, Open(i));
    hide Reaches, Diallers;
    ReachesByStep(limit, s, Open(i));
  }

  lemma AdmitNow(limit: nat, s: State, i: nat) returns (t: State)
    requires TokensRight(limit, s) && In(s, i, Queued) && s.tokens < limit
    ensures Reaches(limit, s, t) && Keeps(s, t, i) && TokensRight(limit, t) && In(t, i, Dialling)
  {
    t := Next(limit, s, Admit(i));
    StepKeepsTokens(limit, s, Admit(i));
    hide Reaches, Diallers;
    ReachesByStep(limit, s, Admit(i));
  }

  /** Somebody's dial fails, and there is room. */
  lemma MakeRoom(limit: nat, s: State, i: nat) returns (t: State)
    requires TokensRight(limit, s) && limit > 0 && In(s, i, Queued)
    ensures Reaches(limit, s, t) && Keeps(s, t, i) && TokensRight(limit, t) && In(t, i, Queued) && t.tokens < limit
  {
    if s.tokens < limit {
      t := s;
      ReachesSelf(limit, s);
    } else {
      assert Diallers(s.instances) != {};
      var j :| j in Diallers(s.instances);
      t := Next(limit, s, Fail(j));
      StepKeepsTokens(limit, s, Fail(j));
      hide Reaches, Diallers;
      ReachesByStep(limit, s, Fail(j));
    }
  }

  lemma KeepsOn(s: State, t: State, u: State, i: nat)
    requires Keeps(s, t, i) && Keeps(t, u, i)
    ensures Keeps(s, u, i)
  {
  }

  /** A goroutine on its way can get connected, and no other loses its connection over it. */
  lemma Connects(limit: nat, s: State, i: nat) returns (t: State)
    requires TokensRight(limit, s) && limit > 0 && i < |s.instances|
    requires s.instances[i].phase.Queued? || s.instances[i].phase.Dialling? || s.instances[i].phase.Connected?
    ensures Reaches(limit, s, t) && Keeps(s, t, i) && TokensRight(limit, t) && In(t, i, Connected)
  {
    hide Reaches, TokensRight;
    t := s;
    ReachesSelf(limit, s);
    if s.instances[i].phase.Queued? {
      var room := MakeRoom(limit, s, i);
      t := AdmitNow(limit, room, i);
      KeepsOn(s, room, t, i);
      ReachesOn(limit, s, room, t);
    }
    if t.instances[i].phase.Dialling? {
      var u := OpenNow(limit, t, i);
      KeepsOn(s, t, u, i);
      ReachesOn(limit, s, t, u);
      t := u;
    }
  }

  /** One goroutine of a device on its way or connected, another asleep and not told to stop:
      there can come to be two connections. */
  lemma BothConnect(limit: nat, s: State, i: nat, j: nat) returns (t: State)
    requires TokensRight(limit, s) && limit > 0 && i < j < |s.instances| && !s.cancelled
    requires s.instances[i].phase.Queued? || s.instances[i].phase.Dialling? || s.instances[i].phase.Connected?
    requires s.instances[j].phase.Idle? && !s.instances[j].cancelled && s.instances[i].id == s.instances[j].id
    ensures Reaches(limit, s, t) && Doubled(t)
  {
    hide Reaches, TokensRight;
    var a := Connects(limit, s, i);
    var b := WakeUp(limit, a, j);
    t := Connects(limit, b, j);
    ReachesOn(limit, s, a, b);
    ReachesOn(limit, s, b, t);
    assert t.instances[i].phase.Connected? && t.instances[j].phase.Connected? && t.instances[i].id == t.instances[j].id;
  }

  lemma WakeUp(limit: nat, s: State, j: nat) returns (t: State)
    requires TokensRight(limit, s) && In(s, j, Idle) && !s.instances[j].cancelled && !s.cancelled
    ensures Reaches(limit, s, t) && Keeps(s, t, j) && TokensRight(limit, t) && In(t, j, Queued)
  {
    t := Next(limit, s, Wake(j));
    StepKeepsTokens(limit, s, Wake(j));
    hide Reaches, Diallers;
    ReachesByStep(limit, s, Wake(j));
  }

  // ---- A goroutine and its successor -----------------------------------------------------

  predicate OnItsWay(p: Phase) { p.Queued? || p.Dialling? || p.Connected? }

  lemma FreshOne(limit: nat, s: State) returns (t: State)
    requires s.sync.Creating? && s.sync.id in s.sync.todo && !s.cancelled && TokensRight(limit, s)
    ensures Reaches(limit, s, t) && TokensRight(limit, t) && !t.cancelled
    ensures t.instances == s.instances + [Instance(s.sync.id, false, false, Idle, 0, 0)]
  {
    var made := Next(limit, s, Create);
    assert made.instances == s.instances + [Instance(s.sync.id, false, false, Unstarted, 0, 0)];
    t := Next(limit, made, Launch);
    StepKeepsTokens(limit, s, Create);
    StepKeepsTokens(limit, made, Launch);
    ReachesByStep(limit, s, Create);
    ReachesByStep(limit, made, Launch);
    hide Reaches, Diallers;
    ReachesOn(limit, s, made, t);
  }

  lemma ReachesSafely(limit: nat, s: State, t: State)
    requires Inv(false, limit, s) && Reaches(limit, s, t)
    ensures Inv(false, limit, t) && !Doubled(t)
  {
    hide Inv, Follows, Doubled;
    var steps :| Follows(limit, s, steps, t);
    FollowsKeepsInv(limit, s, steps, t);
    NeverDoubled(limit, t);
  }

  // ---- Sync can always come to its end ---------------------------------------------------

  /** Nothing has changed but goroutine i, which has exited. */
  ghost predicate Left(s: State, t: State, i: nat) {
    && t.sync == s.sync && t.run == s.run && t.cancelled == s.cancelled && t.devices == s.devices
    && |t.instances| == |s.instances| && In(t, i, Exited)
    && forall j :: 0 <= j < |s.instances| && j != i ==> t.instances[j] == s.instances[j]
  }

  lemma WakeToExit(limit: nat, s: State, i: nat) returns (t: State)
    requires In(s, i, Idle) && s.instances[i].cancelled
    ensures Reaches(limit, s, t) && Left(s, t, i)
  {
    t := Next(limit, s, Wake(i));
    hide Reaches;
    ReachesByStep(limit, s, Wake(i));
  }

  /** A goroutine told to stop can exit. */
  lemma Quits(limit: nat, s: State, i: nat) returns (t: State)
    requires TokensRight(limit, s) && i < |s.instances| && s.instances[i].cancelled && !s.instances[i].phase.Unstarted?
    ensures Reaches(limit, s, t) && Left(s, t, i)
  {
    var inst := s.instances[i];
    if inst.phase.Exited? {
      t := s;
      ReachesSelf(limit, s);
    } else if inst.phase.Idle? {
      t := WakeToExit(limit, s, i);
    } else {
      assert inst.phase.Dialling? ==> i in Diallers(s.instances);
      var step := if inst.phase.Queued? then TurnAway(i) else if inst.phase.Dialling? then Fail(i) else Close(i);
      var u := Next(limit, s, step);
      ReachesByStep(limit, s, step);
      hide Reaches, Diallers;
      t := WakeToExit(limit, u, i);
      ReachesOn(limit, s, u, t);
    }
  }

  /** Goroutine k belongs to a device that Sync, under way, has nothing to do with. */
  ghost predicate Aside(s: State, k: nat) {
    && !s.cancelled && !s.run.NotYet? && !s.sync.Pruning?
    && k < |s.instances| && !s.instances[k].phase.Unstarted? && s.instances[k].id !in s.devices && s.instances[k].id !in ToDo(s.sync)
    && k !in InSyncsHands(s.sync)
  }

  /** How far Sync is from its end. */
  function Rank(w: Work): int {
    match w
    case Resting => 0
    case Pruning(_) => 0
    case Stopping(left, todo) => 6 * |todo| + 2 + 2 * |left|
    case AwaitingStop(_, left, todo) => 6 * |todo| + 3 + 2 * |left|
    case Ensuring(todo) => 6 * |todo| + 1
    case Replacing(_, _, todo) => 6 * |todo| - 1
    case AwaitingFormer(_, _, todo) => 6 * |todo| - 2
    case Creating(_, todo) => 6 * |todo| - 3
    case Launching(_, todo) => 6 * |todo| + 2
  }

  lemma Fewer(m: map<string, Target>, id: string)
    requires id in m
    ensures |m - {id}| == |m| - 1
  {
    assert (m - {id}).Keys == m.Keys - {id};
  }

  /** What Sync does next where it has nobody to wait for. */
  lemma Turn(limit: nat, s: State) returns (step: Step)
    requires Waits(s) && !s.sync.Resting? && !s.sync.Pruning?
    ensures OfSync(step) && !step.Begin? && !step.Prune? && !step.GiveUpOnStopped? && !step.GiveUpOnFormer?
    ensures !s.sync.AwaitingStop? && !s.sync.AwaitingFormer? ==> Enabled(limit, s, step)
    ensures s.sync.AwaitingStop? ==> step.Stopped?
    ensures s.sync.AwaitingFormer? ==> step.FormerGone?
  {
    match s.sync
    case Stopping(left, _) =>
      if left == {} {
        step := StopsDone;
      } else {
        var i :| i in left;
        assert i in InSyncsHands(s.sync);
        step := Stop(i);
      }
    case AwaitingStop(_, _, _) => step := Stopped;
    case Ensuring(todo) =>
      if todo == map[] {
        step := End;
      } else {
        var id :| id in todo;
        step := Ensure(id);
      }
    case Replacing(_, _, _) => step := CancelFormer;
    case AwaitingFormer(_, _, _) => step := FormerGone;
    case Creating(_, _) => step := Create;
    case Launching(_, _) => step := Launch;
  }

  lemma TurnKeepsAside(limit: nat, s: State, step: Step, k: nat)
    requires Waits(s) && Aside(s, k) && Enabled(limit, s, step)
    requires OfSync(step) && !step.Begin? && !step.Prune?
    ensures var t := Next(limit, s, step);
            Aside(t, k) && t.instances[k] == s.instances[k]
  {
    hide InstancesOf, Wanted, Unwanted, Unclaimed;
    if step.Ensure? && step.id in s.devices { assert s.instances[s.devices[step.id].instance].id == step.id; }
  }

  lemma TurnComesNearer(limit: nat, s: State, step: Step)
    requires Enabled(limit, s, step) && OfSync(step) && !step.Begin? && !step.Prune?
    requires Claims(s.sync) ==> s.sync.id in s.sync.todo
    ensures 0 <= Rank(Next(limit, s, step).sync) < Rank(s.sync)
  {
    if step.Ensure? {
      EnsureComesNearer(limit, s, step.id);
    } else if step.Stop? {
      StopComesNearer(limit, s, step.i);
    } else {
      hide Rank;
      var t := Next(limit, s, step);
      MovesOn(limit, s, step);
      hide Next, Enabled;
      if Claims(s.sync) { Fewer(s.sync.todo, s.sync.id); }
      RankFalls(s.sync, t.sync);
    }
  }

  /** Where Sync goes when it neither picks a goroutine to stop nor a device. */
  predicate Onward(w: Work, v: Work) {
    match w
    case Stopping(_, todo) => v == Ensuring(todo)
    case AwaitingStop(_, left, todo) => v == Stopping(left, todo)
    case Ensuring(_) => v.Resting?
    case Replacing(i, id, todo) => v == AwaitingFormer(i, id, todo)
    case AwaitingFormer(_, id, todo) => v == Creating(id, todo)
    case Creating(id, todo) => v.Launching? && v.todo == todo - {id}
    case Launching(_, todo) => v == Ensuring(todo)
    case _ => false
  }

  lemma MovesOn(limit: nat, s: State, step: Step)
    requires Enabled(limit, s, step) && OfSync(step)
    requires !step.Begin? && !step.Prune? && !step.Ensure? && !step.Stop?
    ensures Onward(s.sync, Next(limit, s, step).sync)
  {
    hide InstancesOf, Wanted, Unwanted;
  }

  lemma RankFalls(w: Work, v: Work)
    requires Onward(w, v)
    requires Claims(w) ==> |w.todo| > 0 && |w.todo - {w.id}| == |w.todo| - 1
    ensures 0 <= Rank(v) < Rank(w)
  {
  }

  lemma EnsureComesNearer(limit: nat, s: State, id: string)
    requires Enabled(limit, s, Ensure(id))
    ensures 0 <= Rank(Next(limit, s, Ensure(id)).sync) < Rank(s.sync)
  {
    Fewer(s.sync.todo, id);
  }

  lemma StopComesNearer(limit: nat, s: State, i: nat)
    requires Enabled(limit, s, Stop(i))
    ensures 0 <= Rank(Next(limit, s, Stop(i)).sync) < Rank(s.sync)
  {
    assert |s.sync.left - {i}| == |s.sync.left| - 1;
  }

  lemma LeftKeepsAside(s: State, t: State, i: nat, k: nat)
    requires Left(s, t, i) && Aside(s, k) && k != i
    ensures Aside(t, k) && t.instances[k] == s.instances[k]
  {
  }

  /** Before a turn that waits for a goroutine, the goroutine exits. */
  lemma Prepare(limit: nat, s: State, k: nat) returns (t: State)
    requires Sound(limit, s) && Aside(s, k)
    ensures Reaches(limit, s, t) && Aside(t, k) && t.instances[k] == s.instances[k] && t.sync == s.sync
    ensures t.sync.AwaitingStop? ==> Gone(t, t.sync.stopped)
    ensures t.sync.AwaitingFormer? ==> Gone(t, t.sync.former)
  {
    if s.sync.AwaitingStop? || s.sync.AwaitingFormer? {
      var i := if s.sync.AwaitingStop? then s.sync.stopped else s.sync.former;
      assert i in InSyncsHands(s.sync);
      hide Reaches, TokensRight;
      t := Quits(limit, s, i);
      LeftKeepsAside(s, t, i, k);
    } else {
      t := s;
      ReachesSelf(limit, s);
    }
  }

  /** One turn of Sync. */
  lemma Advance(limit: nat, s: State, k: nat) returns (t: State)
    requires Sound(limit, s) && Aside(s, k) && !s.sync.Resting?
    ensures Reaches(limit, s, t) && Sound(limit, t) && Aside(t, k) && t.instances[k] == s.instances[k]
    ensures 0 <= Rank(t.sync) < Rank(s.sync)
  {
    var u := Prepare(limit, s, k);
    assert !u.sync.Pruning?;
    hide Reaches, Aside, Rank, Waits, TokensRight;
    ReachesKeepsSound(limit, s, u);
    var step := Turn(limit, u);
    assert Enabled(limit, u, step);
    TurnKeepsAside(limit, u, step, k);
    TurnComesNearer(limit, u, step);
    assert Harmless(false, u, step);
    hide Enabled, Harmless, Next;
    t := Next(limit, u, step);
    ReachesByStep(limit, u, step);
    StepKeepsSound(limit, u, step);
    ReachesOn(limit, s, u, t);
  }

  /** Sync can come to its end, and leave the goroutine as it is. */
  lemma {:induction false} ComesToRest(limit: nat, s: State, k: nat) returns (t: State)
    requires Sound(limit, s) && Aside(s, k)
    ensures Reaches(limit, s, t) && Sound(limit, t) && Aside(t, k) && t.sync.Resting? && t.instances[k] == s.instances[k]
    decreases Rank(s.sync)
  {
    if s.sync.Resting? {
      t := s;
      ReachesSelf(limit, s);
    } else {
      hide *;
      var u := Advance(limit, s, k);
      t := ComesToRest(limit, u, k);
      ReachesOn(limit, s, u, t);
    }
  }

  /** A Sync to come can want the device of goroutine k. */
  lemma SyncAgain(limit: nat, s: State, id: string) returns (t: State)
    requires s.sync.Resting? && id !in s.devices && !s.cancelled && !s.run.NotYet?
    ensures t.sync.Creating? && t.sync.id == id && id in t.sync.todo && t == s.(sync := t.sync)
    ensures Reaches(limit, s, t)
  {
    var w := (map x | x in s.devices :: s.devices[x].target)[id := Target(0, "")];
    assert Unwanted(s.devices, w) == map[] && Wanted(s.devices, w) == s.devices && InstancesOf(map[]) == {};
    var c := s.(sync := Pruning(w));
    var d := s.(sync := Stopping({}, w));
    var e := s.(sync := Ensuring(w));
    t := s.(sync := Creating(id, w));
    assert c == Next(limit, s, Begin(w)) && d == Next(limit, c, Prune) && e == Next(limit, d, StopsDone);
    assert t == Next(limit, e, Ensure(id));
    hide InstancesOf, Wanted, Unwanted, Reaches;
    ReachesByStep(limit, s, Begin(w));
    ReachesByStep(limit, c, Prune);
    ReachesByStep(limit, d, StopsDone);
    ReachesByStep(limit, e, Ensure(id));
    hide Next, Enabled;
    ReachesOn(limit, s, c, d);
    ReachesOn(limit, s, d, e);
    ReachesOn(limit, s, e, t);
  }

  // ---- Exactly which timeouts ------------------------------------------------------------

  predicate GivesUp(s: State, step: Step) {
    || (step.GiveUpOnStopped? && s.sync.AwaitingStop?)
    || (step.GiveUpOnFormer? && s.sync.AwaitingFormer?)
    || (step.GiveUpOnTorn? && s.run.AwaitingTorn?)
  }

  /** The goroutine whose exit a wait is for. */
  function Awaited(s: State, step: Step): (i: nat)
    requires GivesUp(s, step)
  {
    match step
    case GiveUpOnStopped => s.sync.stopped
    case GiveUpOnFormer => s.sync.former
    case GiveUpOnTorn => s.run.torn
  }

  lemma GivenUp(limit: nat, s: State, step: Step)
    requires Sound(limit, s) && GivesUp(s, step)
    requires !s.cancelled && !step.GiveUpOnTorn?
    ensures Awaited(s, step) < |s.instances| && s.instances[Awaited(s, step)].cancelled
    ensures !s.instances[Awaited(s, step)].phase.Unstarted?
    ensures var t := Next(limit, s, step);
            && t.instances == s.instances && !t.cancelled
            && if step.GiveUpOnFormer? then t.sync == Creating(s.sync.id, s.sync.todo) && s.instances[Awaited(s, step)].id == s.sync.id
               else Aside(t, Awaited(s, step))
  {
  }

  /** The device of the goroutine given up on can come to have another. */
  lemma AnotherComes(limit: nat, s: State, step: Step, k: nat) returns (t: State)
    requires Sound(limit, s) && GivesUp(s, step) && k == Awaited(s, step)
    requires !s.cancelled && !step.GiveUpOnTorn?
    ensures Reaches(limit, Next(limit, s, step), t) && TokensRight(limit, t) && !t.cancelled
    ensures k < |s.instances| && k < |t.instances| - 1 && t.instances[k] == s.instances[k]
    ensures t.instances[|t.instances| - 1] == Instance(s.instances[k].id, false, false, Idle, 0, 0)
  {
    GivenUp(limit, s, step);
    StepKeepsSound(limit, s, step);
    var given := Next(limit, s, step);
    hide Next, Enabled, Reaches, Waits, TokensRight;
    var ready := given;
    ReachesSelf(limit, given);
    if step.GiveUpOnStopped? {
      var rest := ComesToRest(limit, given, k);
      ready := SyncAgain(limit, rest, s.instances[k].id);
      ReachesOn(limit, given, rest, ready);
    }
    ReachesKeepsSound(limit, given, ready);
    t := FreshOne(limit, ready);
    ReachesOn(limit, given, ready, t);
  }

  /** Wherever a harmless run has the manager give up waiting for a goroutine, two connections
      to its device can come of it, by harmless steps from there on, exactly if the manager
      still runs and the goroutine was still queued for a dial, dialling or connected. */
  lemma TimeoutDoublesUpExactlyWhen(limit: nat, s: State, step: Step)
    requires Reaches(limit, START, s) && GivesUp(s, step) && limit > 0
    ensures Awaited(s, step) < |s.instances|
    ensures MayDouble(limit, Next(limit, s, step)) <==> !s.cancelled && OnItsWay(s.instances[Awaited(s, step)].phase)
  {
    StartInv(false, limit);
    StartIsSound(limit);
    hide Reaches, Inv, Sound, Doubled, Next;
    ReachesSafely(limit, START, s);
    ReachesKeepsSound(limit, START, s);
    if !s.cancelled && !step.GiveUpOnTorn? {
      GivenUp(limit, s, step);
      var k := Awaited(s, step);
      if OnItsWay(s.instances[k].phase) {
        var t := AnotherComes(limit, s, step, k);
        var u := BothConnect(limit, t, k, |t.instances| - 1);
        ReachesOn(limit, Next(limit, s, step), t, u);
      } else {
        HarmlessThen(limit, s, step);
        StaysSafe(limit, s, step);
      }
    } else {
      AwaitedIsKnown(limit, s, step);
      HarmlessThen(limit, s, step);
      StaysSafe(limit, s, step);
    }
  }

  lemma AwaitedIsKnown(limit: nat, s: State, step: Step)
    requires Sound(limit, s) && GivesUp(s, step)
    ensures Awaited(s, step) < |s.instances|
    ensures Inv(false, limit, s) && step.GiveUpOnTorn? ==> s.cancelled
  {
  }

  lemma HarmlessThen(limit: nat, s: State, step: Step)
    requires Sound(limit, s) && GivesUp(s, step) && Awaited(s, step) < |s.instances|
    requires s.cancelled || step.GiveUpOnTorn? || !OnItsWay(s.instances[Awaited(s, step)].phase)
    ensures Harmless(false, s, step) && Enabled(limit, s, step)
  {
  }

  /** A harmless timeout is as good as none. */
  lemma StaysSafe(limit: nat, s: State, step: Step)
    requires Inv(false, limit, s) && Enabled(limit, s, step) && Harmless(false, s, step)
    ensures !MayDouble(limit, Next(limit, s, step))
  {
    hide Reaches, Doubled, Inv, Next, Enabled, Harmless;
    StepKeepsInv(false, limit, s, step);
    forall t | Reaches(limit, Next(limit, s, step), t) ensures !Doubled(t) {
      ReachesSafely(limit, Next(limit, s, step), t);
    }
  }

  // ---- Two connections, from the start ---------------------------------------------------

  /** One goroutine, in some phase and perhaps told to stop, and what Sync and the map make of it. */
  function Only(devices: Devices, phase: Phase, id: string, cancelled: bool, sync: Work): State {
    State(false, devices, [Instance(id, false, cancelled, phase, One(phase.Connected?), 0)], One(phase.Dialling?), sync, Serving)
  }

  function Bare(sync: Work): State { State(false, map[], [], 0, sync, Serving) }

  function Entry(id: string, target: Target): Devices { map[id := Managed(0, target)] }

  lemma Two(limit: nat, s: State, one: Step, two: Step, t: State, u: State)
    requires Enabled(limit, s, one) && Harmless(false, s, one) && t == Next(limit, s, one)
    requires Enabled(limit, t, two) && Harmless(false, t, two) && u == Next(limit, t, two)
    ensures Reaches(limit, s, u)
  {
    hide *;
    ReachesByStep(limit, s, one);
    ReachesByStep(limit, t, two);
    ReachesOn(limit, s, t, u);
  }

  lemma Served(limit: nat, w: map<string, Target>)
    ensures Reaches(limit, START, Bare(Pruning(w)))
  {
    hide Reaches;
    Two(limit, START, Serve, Begin(w), Bare(Resting), Bare(Pruning(w)));
  }

  lemma NothingToStop(limit: nat, w: map<string, Target>)
    ensures Reaches(limit, Bare(Pruning(w)), Bare(Ensuring(w)))
  {
    assert Unwanted(map[], w) == map[] && Wanted(map[], w) == map[] && InstancesOf(map[]) == {};
    hide Reaches, Unwanted, Wanted, InstancesOf;
    Two(limit, Bare(Pruning(w)), Prune, StopsDone, Bare(Stopping({}, w)), Bare(Ensuring(w)));
  }

  lemma Made(limit: nat, id: string, at: Target)
    ensures Reaches(limit, Bare(Ensuring(map[id := at])), Only(Entry(id, at), Unstarted, id, false, Launching(0, map[])))
  {
    assert map[id := at] - {id} == map[];
    assert map[][id := Managed(0, at)] == Entry(id, at);
    hide Reaches;
    Two(limit, Bare(Ensuring(map[id := at])), Ensure(id), Create, Bare(Creating(id, map[id := at])),
        Only(Entry(id, at), Unstarted, id, false, Launching(0, map[])));
  }

  lemma Launched(limit: nat, id: string, d: Devices)
    ensures Reaches(limit, Only(d, Unstarted, id, false, Launching(0, map[])), Only(d, Idle, id, false, Resting))
  {
    hide Reaches;
    Two(limit, Only(d, Unstarted, id, false, Launching(0, map[])), Launch, End, Only(d, Idle, id, false, Ensuring(map[])),
        Only(d, Idle, id, false, Resting));
  }

  lemma Dialled(limit: nat, id: string, d: Devices)
    requires limit > 0
    ensures Reaches(limit, Only(d, Idle, id, false, Resting), Only(d, Dialling, id, false, Resting))
  {
    hide Reaches;
    Two(limit, Only(d, Idle, id, false, Resting), Wake(0), Admit(0), Only(d, Queued, id, false, Resting),
        Only(d, Dialling, id, false, Resting));
  }

  lemma OpenedThen(limit: nat, id: string, d: Devices, w: map<string, Target>)
    ensures Reaches(limit, Only(d, Dialling, id, false, Resting), Only(d, Connected, id, false, Pruning(w)))
  {
    hide Reaches;
    Two(limit, Only(d, Dialling, id, false, Resting), Open(0), Begin(w), Only(d, Connected, id, false, Resting),
        Only(d, Connected, id, false, Pruning(w)));
  }

  /** A device is added and connects, and the next Sync begins. */
  lemma ConnectedThen(limit: nat, id: string, at: Target, w: map<string, Target>)
    requires limit > 0
    ensures Reaches(limit, START, Only(Entry(id, at), Connected, id, false, Pruning(w)))
  {
    var d := Entry(id, at);
    var first := map[id := at];
    hide *;
    Served(limit, first);
    NothingToStop(limit, first);
    ReachesOn(limit, START, Bare(Pruning(first)), Bare(Ensuring(first)));
    Made(limit, id, at);
    ReachesOn(limit, START, Bare(Ensuring(first)), Only(d, Unstarted, id, false, Launching(0, map[])));
    Launched(limit, id, d);
    ReachesOn(limit, START, Only(d, Unstarted, id, false, Launching(0, map[])), Only(d, Idle, id, false, Resting));
    Dialled(limit, id, d);
    ReachesOn(limit, START, Only(d, Idle, id, false, Resting), Only(d, Dialling, id, false, Resting));
    OpenedThen(limit, id, d, w);
    ReachesOn(limit, START, Only(d, Dialling, id, false, Resting), Only(d, Connected, id, false, Pruning(w)));
  }

  lemma Unlisted(limit: nat, id: string, at: Target)
    ensures Reaches(limit, Only(Entry(id, at), Connected, id, false, Pruning(map[])),
                    Only(map[], Connected, id, true, AwaitingStop(0, {}, map[])))
  {
    var d := Entry(id, at);
    assert Unwanted(d, map[]) == d && Wanted(d, map[]) == map[];
    assert InstancesOf(d) == {0} by { assert id in d; }
    assert {0} - {0} == {};
    hide Reaches, Unwanted, Wanted, InstancesOf;
    Two(limit, Only(d, Connected, id, false, Pruning(map[])), Prune, Stop(0),
        Only(map[], Connected, id, false, Stopping({0}, map[])), Only(map[], Connected, id, true, AwaitingStop(0, {}, map[])));
  }

  lemma StillListed(limit: nat, id: string, at: Target, to: Target)
    ensures Reaches(limit, Only(Entry(id, at), Connected, id, false, Pruning(map[id := to])),
                    Only(Entry(id, at), Connected, id, false, Ensuring(map[id := to])))
  {
    var d, w := Entry(id, at), map[id := to];
    assert Unwanted(d, w) == map[] && Wanted(d, w) == d && InstancesOf(map[]) == {};
    hide Reaches, Unwanted, Wanted, InstancesOf;
    Two(limit, Only(d, Connected, id, false, Pruning(w)), Prune, StopsDone,
        Only(d, Connected, id, false, Stopping({}, w)), Only(d, Connected, id, false, Ensuring(w)));
  }

  lemma Replaced(limit: nat, id: string, at: Target, to: Target)
    requires at != to
    ensures Reaches(limit, Only(Entry(id, at), Connected, id, false, Ensuring(map[id := to])),
                    Only(map[], Connected, id, true, AwaitingFormer(0, id, map[id := to])))
  {
    var d, w := Entry(id, at), map[id := to];
    assert d - {id} == map[];
    hide Reaches;
    Two(limit, Only(d, Connected, id, false, Ensuring(w)), Ensure(id), CancelFormer,
        Only(map[], Connected, id, false, Replacing(0, id, w)), Only(map[], Connected, id, true, AwaitingFormer(0, id, w)));
  }

  lemma OnlyConnected(limit: nat, devices: Devices, id: string, sync: Work)
    ensures var s := Only(devices, Connected, id, true, sync);
            && !s.cancelled && |s.instances| == 1 && OnItsWay(s.instances[0].phase)
            && (sync.AwaitingFormer? ==>
                  GivesUp(s, GiveUpOnFormer) && Next(limit, s, GiveUpOnFormer) == s.(sync := Creating(sync.id, sync.todo)))
            && (sync.AwaitingStop? ==>
                  GivesUp(s, GiveUpOnStopped) && Next(limit, s, GiveUpOnStopped) == s.(sync := Stopping(sync.left, sync.todo)))
  {
  }

  /** From the start, for every device: its address changes, or it leaves the registry, while it
      is connected; waiting for its goroutine times out; and it ends up connected twice. */
  lemma ConnectedTwice(limit: nat, id: string, at: Target, to: Target)
    requires limit > 0 && at != to
    ensures var s := Only(map[], Connected, id, true, AwaitingFormer(0, id, map[id := to]));
            Reaches(limit, START, s) && MayDouble(limit, s.(sync := Creating(id, map[id := to])))
    ensures var s := Only(map[], Connected, id, true, AwaitingStop(0, {}, map[]));
            Reaches(limit, START, s) && MayDouble(limit, s.(sync := Stopping({}, map[])))
  {
    var d, w := Entry(id, at), map[id := to];
    var former, stopped := AwaitingFormer(0, id, w), AwaitingStop(0, {}, map[]);
    var a, b := Only(map[], Connected, id, true, former), Only(map[], Connected, id, true, stopped);
    hide *;
    ConnectedThen(limit, id, at, w);
    StillListed(limit, id, at, to);
    ReachesOn(limit, START, Only(d, Connected, id, false, Pruning(w)), Only(d, Connected, id, false, Ensuring(w)));
    Replaced(limit, id, at, to);
    ReachesOn(limit, START, Only(d, Connected, id, false, Ensuring(w)), a);
    ConnectedThen(limit, id, at, map[]);
    Unlisted(limit, id, at);
    ReachesOn(limit, START, Only(d, Connected, id, false, Pruning(map[])), b);
    OnlyConnected(limit, map[], id, former);
    OnlyConnected(limit, map[], id, stopped);
    CanDouble(limit, a, GiveUpOnFormer);
    CanDouble(limit, b, GiveUpOnStopped);
  }

  lemma CanDouble(limit: nat, s: State, step: Step)
    requires Reaches(limit, START, s) && GivesUp(s, step) && limit > 0 && !s.cancelled
    requires |s.instances| == 1 && OnItsWay(s.instances[0].phase)
    ensures MayDouble(limit, Next(limit, s, step))
  {
    hide Reaches, MayDouble, Next, OnItsWay;
    TimeoutDoublesUpExactlyWhen(limit, s, step);
    assert Awaited(s, step) == 0;
  }
}
