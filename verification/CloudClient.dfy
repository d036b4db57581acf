/** One Shelly Cloud account shared by any number of callers (internal/shellycloud/client.go):
    a slot and a time before which nobody may start serialise their requests. The class is
    one caller met by no other; the machine below interleaves any number of them. Times are
    in seconds; a timer fires no earlier than it was set for. */
module CloudClients {
  import opened Common

  const MIN_REQUEST_GAP := 2.0
  const RATE_LIMIT_PAUSE := 10.0
  const RATE_LIMIT_RETRIES := 2

  /** A request as the cloud sees it; limited once it has been refused with max_req. */
  datatype Request = Request(caller: nat, start: real, end: Option<real>, limited: bool)

  function PauseAfter(limited: bool): real { if limited then RATE_LIMIT_PAUSE else MIN_REQUEST_GAP }

  /** Every one of these requests is over, and its pause with it, by this time. */
  ghost predicate Quiet(rs: seq<Request>, at: real) {
    forall i :: 0 <= i < |rs| ==> rs[i].end.Some? && rs[i].end.value + PauseAfter(rs[i].limited) <= at
  }

  /** No two requests overlap, and each starts only after the pause of every earlier one. */
  ghost predicate Spaced(rs: seq<Request>) {
    forall i, j :: 0 <= i < j < |rs| ==>
      rs[i].end.Some? && rs[i].end.value + PauseAfter(rs[i].limited) <= rs[j].start
  }

  // ---- One caller alone --------------------------------------------------------------

  /** What the world does with one attempt: how long each wait takes, whether the caller is
      cancelled in it, and whether the cloud refuses. */
  datatype Attempt = Attempt(
    queueing: real, slotGiven: bool, overshoot: real, timerWaited: bool, latency: real, limited: bool, closing: real)

  predicate Elapses(a: Attempt) {
    a.queueing >= 0.0 && a.overshoot >= 0.0 && a.latency >= 0.0 && a.closing >= 0.0
  }

  /** These requests are one call's, each as its attempt went. */
  predicate WentAs(rs: seq<Request>, tries: seq<Attempt>, caller: nat, begin: real) {
    |rs| <= |tries| && forall i :: 0 <= i < |rs| ==>
      && rs[i].caller == caller && rs[i].start >= begin && rs[i].limited == tries[i].limited
      && rs[i].end == Some(rs[i].start + tries[i].latency)
  }

  predicate AllRefused(rs: seq<Request>, n: int) { n <= |rs| && forall i :: 0 <= i < n ==> rs[i].limited }

  lemma OneMoreWent(rs: seq<Request>, tries: seq<Attempt>, caller: nat, begin: real, r: Request)
    requires WentAs(rs, tries, caller, begin) && AllRefused(rs, |rs|) && |rs| < |tries| && r.caller == caller && r.start >= begin
    requires r.limited == tries[|rs|].limited && r.end == Some(r.start + tries[|rs|].latency)
    ensures WentAs(rs + [r], tries, caller, begin) && AllRefused(rs + [r], |rs|) && (r.limited ==> AllRefused(rs + [r], |rs| + 1))
  {
  }

  lemma NothingSent(at: real, tries: seq<Attempt>, caller: nat, begin: real)
    ensures Spaced([]) && Quiet([], at) && WentAs([], tries, caller, begin) && AllRefused([], 0) && AllRefused([], -1)
  {
  }

  lemma Fewer(rs: seq<Request>)
    ensures AllRefused(rs, |rs|) ==> AllRefused(rs, |rs| - 1)
  {
  }

  lemma OneMoreSent(rs: seq<Request>, r: Request, before: real, after: real)
    requires Spaced(rs) && Quiet(rs, before) && before <= r.start && r.end.Some? && r.start <= r.end.value
    requires r.end.value + PauseAfter(r.limited) <= after
    ensures Spaced(rs + [r]) && Quiet(rs + [r], after)
  {
  }

  class Client {
    var slot: bool
    var notBefore: real

    constructor ()
      ensures !slot && notBefore == 0.0
    {
      slot, notBefore := false, 0.0;
    }

    /** Waits for the slot, then for the pause after the previous request. */
    method Acquire(a: Attempt, now: real) returns (ok: bool, at: real)
      requires !slot && Elapses(a)
      modifies this`slot
      ensures at >= now && slot == ok && (ok ==> at >= notBefore)
      ensures ok <==> a.slotGiven && (now + a.queueing >= notBefore || a.timerWaited)
      ensures at == if ok && now + a.queueing < notBefore then notBefore + a.overshoot else now + a.queueing
    {
      at := now + a.queueing;
      if !a.slotGiven { return false, at; }
      slot := true;
      var d := notBefore - at;
      if d <= 0.0 { return true, at; }
      if !a.timerWaited {
        slot := false;
        return false, at;
      }
      return true, at + d + a.overshoot;
    }

    /** Frees the slot, holding the next request off for a pause from now. */
    method Release(pause: real, now: real)
      requires slot
      modifies this
      ensures !slot && notBefore == now + pause
    {
      notBefore := now + pause;
      slot := false;
    }

    /** Calls one endpoint, backing off and retrying while the account's limit is reached:
        at most three requests, another one only after a refusal, and the slot is given back
        whatever happens. */
    method Post(caller: nat, tries: seq<Attempt>, begin: real) returns (sent: seq<Request>, acquired: bool)
      requires !slot && |tries| > RATE_LIMIT_RETRIES && forall a :: a in tries ==> Elapses(a)
      modifies this
      ensures !slot && |sent| <= RATE_LIMIT_RETRIES + 1
      ensures Spaced(sent) && (sent != [] ==> sent[0].start >= old(notBefore) && Quiet(sent, notBefore))
      ensures WentAs(sent, tries, caller, begin) && AllRefused(sent, |sent| - 1)
      ensures acquired ==> sent != [] && (sent[|sent| - 1].limited ==> |sent| == RATE_LIMIT_RETRIES + 1)
      ensures sent == [] ==> !acquired && notBefore == old(notBefore)
      ensures sent != [] ==>
                var last := |sent| - 1;
                notBefore == sent[last].start + tries[last].latency + tries[last].closing + if sent[last].limited then 10.0 else 2.0
      ensures !acquired ==> |sent| <= RATE_LIMIT_RETRIES && (!tries[|sent|].slotGiven || !tries[|sent|].timerWaited)
    {
      hide Spaced, Quiet, WentAs, AllRefused;
      NothingSent(notBefore, tries, caller, begin);
      sent := [];
      var now := begin;
      var attempt := 0;
      while true
        invariant 0 <= attempt == |sent| <= RATE_LIMIT_RETRIES && now >= begin && !slot
        invariant Spaced(sent) && (sent == [] ==> notBefore == old(notBefore))
        invariant Quiet(sent, notBefore) && (sent != [] ==> sent[0].start >= old(notBefore))
        invariant WentAs(sent, tries, caller, begin) && AllRefused(sent, |sent|)
        invariant sent != [] ==>
                    var last := |sent| - 1;
                    notBefore == sent[last].start + tries[last].latency + tries[last].closing + if sent[last].limited then 10.0 else 2.0
        decreases RATE_LIMIT_RETRIES - attempt
      {
        var a := tries[attempt];
        var ok;
        ghost var before := notBefore;
        ok, now := Acquire(a, now);
        Fewer(sent);
        if !ok { return sent, false; }
        var r := Request(caller, now, Some(now + a.latency), a.limited);
        now := now + a.latency + a.closing;
        if a.limited { Release(RATE_LIMIT_PAUSE, now); } else { Release(MIN_REQUEST_GAP, now); }
        OneMoreSent(sent, r, before, notBefore);
        OneMoreWent(sent, tries, caller, begin, r);
        sent := sent + [r];
        if !a.limited || attempt >= RATE_LIMIT_RETRIES { return sent, true; }
        attempt := attempt + 1;
      }
    }
  }

  // ---- Any number of callers ---------------------------------------------------------

  /** Where a call of post is; from Pausing to Freeing it holds the slot. */
  datatype Phase =
    | Waiting
    | Pausing
    | Ready
    | Requesting
    | Releasing(limited: bool)
    | Freeing(limited: bool)
    | Done
  {
    predicate Holds() { Pausing? || Ready? || Requesting? || Releasing? || Freeing? }
    predicate HasSent() { Requesting? || Releasing? || Freeing? }
    predicate AboutToSend() { Waiting? || Pausing? || Ready? }
  }

  datatype Caller = Caller(phase: Phase, attempt: nat)

  /** The slot remembers who filled it. */
  datatype State = State(
    now: real, slot: Option<nat>, notBefore: real, callers: map<nat, Caller>, requests: seq<Request>)

  const START := State(0.0, None, 0.0, map[], [])

  datatype Step =
    | Tick(to: real) | Call(c: nat) | TakeSlot(c: nat) | TimerFires(c: nat) | CancelWaiting(c: nat) | CancelPausing(c: nat)
    | Send(c: nat) | Answer(c: nat, refused: bool) | HoldOff(c: nat) | Free(c: nat)

  predicate At(s: State, c: nat, p: Phase) { c in s.callers && s.callers[c].phase == p }

  predicate Enabled(s: State, step: Step) {
    match step
    case Tick(to) => to >= s.now
    case Call(c) => c !in s.callers
    case TakeSlot(c) => At(s, c, Waiting) && s.slot.None?
    case TimerFires(c) => At(s, c, Pausing) && s.now >= s.notBefore
    case CancelWaiting(c) => At(s, c, Waiting)
    case CancelPausing(c) => At(s, c, Pausing)
    case Send(c) => At(s, c, Ready)
    case Answer(c, _) => At(s, c, Requesting) && s.requests != []
    case HoldOff(c) => c in s.callers && s.callers[c].phase.Releasing?
    case Free(c) => c in s.callers && s.callers[c].phase.Freeing?
  }

  function To(s: State, c: nat, p: Phase): State
    requires c in s.callers
  {
    s.(callers := s.callers[c := s.callers[c].(phase := p)])
  }

  function Next(s: State, step: Step): State
    requires Enabled(s, step)
  {
    match step
    case Tick(to) => s.(now := to)
    case Call(c) => s.(callers := s.callers[c := Caller(Waiting, 0)])
    case TakeSlot(c) => To(s, c, if s.notBefore <= s.now then Ready else Pausing).(slot := Some(c))
    case TimerFires(c) => To(s, c, Ready)
    case CancelWaiting(c) => To(s, c, Done)
    case CancelPausing(c) => To(s, c, Done).(slot := None)
    case Send(c) => To(s, c, Requesting).(requests := s.requests + [Request(c, s.now, None, false)])
    case Answer(c, refused) =>
      var last := |s.requests| - 1;
      To(s, c, Releasing(refused)).(
        requests := s.requests[last := s.requests[last].(end := Some(s.now), limited := refused)])
    case HoldOff(c) =>
      var limited := s.callers[c].phase.limited;
      To(s, c, Freeing(limited)).(notBefore := s.now + PauseAfter(limited))
    case Free(c) =>
      var caller := s.callers[c];
      var over := !caller.phase.limited || caller.attempt >= RATE_LIMIT_RETRIES;
      s.(slot := None,
         callers := s.callers[c := if over then caller.(phase := Done) else Caller(Waiting, caller.attempt + 1)])
  }

  // ---- The invariant -----------------------------------------------------------------

  /** How many of these requests are a caller's. */
  function SentBy(rs: seq<Request>, c: nat): nat {
    if rs == [] then 0 else SentBy(rs[..|rs| - 1], c) + (if rs[|rs| - 1].caller == c then 1 else 0)
  }

  /** The last request is this caller's, and every earlier one was over and paused for when
      it was sent. */
  ghost predicate LastIs(s: State, c: nat) {
    && s.requests != []
    && var last := s.requests[|s.requests| - 1];
    && last.caller == c && last.start <= s.now
    && Quiet(s.requests[..|s.requests| - 1], last.start)
  }

  ghost predicate HolderOK(s: State, c: nat, p: Phase) {
    match p
    case Pausing => Quiet(s.requests, s.notBefore)
    case Ready => Quiet(s.requests, s.now)
    case Requesting => LastIs(s, c) && s.requests[|s.requests| - 1].end.None?
    case Releasing(limited) =>
      && LastIs(s, c) && s.requests[|s.requests| - 1].end.Some? && s.requests[|s.requests| - 1].end.value <= s.now
      && s.requests[|s.requests| - 1].limited == limited
    case Freeing(limited) => Quiet(s.requests, s.notBefore) && s.requests != [] && s.requests[|s.requests| - 1].limited == limited
                             && s.requests[|s.requests| - 1].caller == c
    case _ => false
  }

  ghost predicate Pacing(s: State) {
    && (forall c :: c in s.callers ==> (s.callers[c].phase.Holds() <==> s.slot == Some(c)))
    && (match s.slot
        case None => Quiet(s.requests, s.notBefore)
        case Some(c) => c in s.callers && HolderOK(s, c, s.callers[c].phase))
    && Spaced(s.requests)
  }

  /** What a call has sent so far: one request an attempt, and none beyond the last. */
  predicate CountOK(s: State, c: nat) {
    if c !in s.callers then SentBy(s.requests, c) == 0
    else
      && s.callers[c].attempt <= RATE_LIMIT_RETRIES
      && SentBy(s.requests, c) <= RATE_LIMIT_RETRIES + 1
      && (!s.callers[c].phase.Done? ==> SentBy(s.requests, c) == s.callers[c].attempt + One(s.callers[c].phase.HasSent()))
  }

  /** A call sends again only after a refusal. */
  ghost predicate Refused(s: State) {
    && (forall i, j :: 0 <= i < j < |s.requests| && s.requests[i].caller == s.requests[j].caller ==> s.requests[i].limited)
    && (forall i :: 0 <= i < |s.requests| ==> s.requests[i].caller in s.callers)
    && (forall i :: 0 <= i < |s.requests| && s.callers[s.requests[i].caller].phase.AboutToSend() ==> s.requests[i].limited)
  }

  ghost predicate Inv(s: State) {
    Pacing(s) && Refused(s) && forall c: nat :: CountOK(s, c)
  }

  // ---- Preservation -----------------------------------------------------------------

  lemma QuietLater(rs: seq<Request>, a: real, b: real)
    requires Quiet(rs, a) && a <= b
    ensures Quiet(rs, b)
  {
  }

  lemma WaitingKeepsPacing(s: State, step: Step)
    requires Pacing(s) && Enabled(s, step)
    requires step.Tick? || step.Call? || step.TakeSlot? || step.TimerFires? || step.CancelWaiting? || step.CancelPausing?
    ensures Pacing(Next(s, step))
  {
    hide Spaced;
    if s.slot.None? { assert Quiet(s.requests, s.notBefore); }
  }

  lemma SendKeepsPacing(s: State, c: nat)
    requires Pacing(s) && Enabled(s, Send(c))
    ensures Pacing(Next(s, Send(c)))
  {
    var t := Next(s, Send(c));
    assert t.requests[..|t.requests| - 1] == s.requests;
    assert HolderOK(s, c, s.callers[c].phase);
  }

  lemma AnswerKeepsPacing(s: State, c: nat, refused: bool)
    requires Pacing(s) && Enabled(s, Answer(c, refused))
    ensures Pacing(Next(s, Answer(c, refused)))
  {
    var t := Next(s, Answer(c, refused));
    assert HolderOK(s, c, s.callers[c].phase);
    assert t.requests[..|t.requests| - 1] == s.requests[..|s.requests| - 1];
  }

  /** Holding the next request off from the end of this one holds it off from every earlier
      one too. */
  lemma HoldOffKeepsPacing(s: State, c: nat)
    requires Pacing(s) && Enabled(s, HoldOff(c))
    ensures Pacing(Next(s, HoldOff(c)))
  {
    var t := Next(s, HoldOff(c));
    assert HolderOK(s, c, s.callers[c].phase);
    var earlier, last := s.requests[..|s.requests| - 1], s.requests[|s.requests| - 1];
    QuietLater(earlier, last.start, t.notBefore);
    forall i | 0 <= i < |s.requests|
      ensures s.requests[i].end.Some? && s.requests[i].end.value + PauseAfter(s.requests[i].limited) <= t.notBefore
    {
      if i < |earlier| { assert earlier[i] == s.requests[i]; }
    }
  }

  lemma FreeKeepsPacing(s: State, c: nat)
    requires Pacing(s) && Enabled(s, Free(c))
    ensures Pacing(Next(s, Free(c)))
  {
    hide Spaced;
    assert HolderOK(s, c, s.callers[c].phase);
  }

  lemma {:induction false} SameSenders(a: seq<Request>, b: seq<Request>, c: nat)
    requires |a| == |b| && forall i :: 0 <= i < |a| ==> a[i].caller == b[i].caller
    ensures SentBy(a, c) == SentBy(b, c)
  {
    if a != [] { SameSenders(a[..|a| - 1], b[..|b| - 1], c); }
  }

  lemma SentOneMore(rs: seq<Request>, r: Request, c: nat)
    ensures SentBy(rs + [r], c) == SentBy(rs, c) + One(r.caller == c)
  {
    assert (rs + [r])[..|rs|] == rs;
  }

  lemma StepKeepsCount(s: State, step: Step, c: nat)
    requires CountOK(s, c) && Enabled(s, step) && (step.Free? ==> Pacing(s))
    ensures CountOK(Next(s, step), c)
  {
    hide Pacing, Spaced, Quiet, HolderOK;
    var t := Next(s, step);
    if step.Send? {
      SentOneMore(s.requests, Request(step.c, s.now, None, false), c);
    } else {
      SameSenders(s.requests, t.requests, c);
    }
    hide SentBy;
  }

  lemma QuietStepKeepsRefused(s: State, step: Step)
    requires Refused(s) && Enabled(s, step) && !step.Send? && !step.Answer? && !step.Free? && !step.Call?
    ensures Refused(Next(s, step))
  {
  }

  lemma CallKeepsRefused(s: State, c: nat)
    requires Refused(s) && Enabled(s, Call(c))
    ensures Refused(Next(s, Call(c)))
  {
  }

  lemma SendKeepsRefused(s: State, c: nat)
    requires Refused(s) && Enabled(s, Send(c))
    ensures Refused(Next(s, Send(c)))
  {
  }

  lemma AnswerKeepsRefused(s: State, c: nat, refused: bool)
    requires Refused(s) && Pacing(s) && Enabled(s, Answer(c, refused))
    ensures Refused(Next(s, Answer(c, refused)))
  {
    assert HolderOK(s, c, s.callers[c].phase);
    hide Pacing, Spaced, Quiet;
  }

  lemma FreeKeepsRefused(s: State, c: nat)
    requires Refused(s) && Pacing(s) && Enabled(s, Free(c))
    ensures Refused(Next(s, Free(c)))
  {
    assert HolderOK(s, c, s.callers[c].phase);
    hide Pacing, Spaced, Quiet;
    var t := Next(s, Free(c));
    forall i | 0 <= i < |t.requests| && t.callers[t.requests[i].caller].phase.AboutToSend()
      ensures t.requests[i].limited
    {
      if t.requests[i].caller == c && i < |t.requests| - 1 {
        assert s.requests[i].caller == s.requests[|s.requests| - 1].caller;
      }
    }
  }

  lemma StepKeepsInv(s: State, step: Step)
    requires Inv(s) && Enabled(s, step)
    ensures Inv(Next(s, step))
  {
    hide Pacing, Refused, CountOK, Next, Enabled;
    forall c: nat ensures CountOK(Next(s, step), c) {
      assert CountOK(s, c);
      StepKeepsCount(s, step, c);
    }
    match step
    case Send(c) =>
      SendKeepsPacing(s, c);
      SendKeepsRefused(s, c);
    case Answer(c, refused) =>
      AnswerKeepsPacing(s, c, refused);
      AnswerKeepsRefused(s, c, refused);
    case HoldOff(c) =>
      HoldOffKeepsPacing(s, c);
      QuietStepKeepsRefused(s, step);
    case Free(c) =>
      FreeKeepsPacing(s, c);
      FreeKeepsRefused(s, c);
    case Call(c) =>
      WaitingKeepsPacing(s, step);
      CallKeepsRefused(s, c);
    case _ =>
      WaitingKeepsPacing(s, step);
      QuietStepKeepsRefused(s, step);
  }

  // ---- Every interleaving -----------------------------------------------------------

  ghost predicate Execution(ss: seq<State>, steps: seq<Step>) {
    && |ss| == |steps| + 1 && ss[0] == START
    && forall i :: 0 <= i < |steps| ==> Enabled(ss[i], steps[i]) && ss[i + 1] == Next(ss[i], steps[i])
  }

  lemma {:induction false} ReachableInv(ss: seq<State>, steps: seq<Step>, n: nat)
    requires Execution(ss, steps) && n < |ss|
    ensures Inv(ss[n])
  {
    hide Inv, Next, Enabled;
    if n == 0 {
      StartInv();
    } else {
      ReachableInv(ss, steps, n - 1);
      assert ss[n - 1 + 1] == Next(ss[n - 1], steps[n - 1]);
      StepKeepsInv(ss[n - 1], steps[n - 1]);
    }
  }

  lemma StartInv()
    ensures Inv(START)
  {
    assert forall c: nat :: SentBy(START.requests, c) == 0;
  }

  /** Cloud pacing, in every interleaving of callers, cancelled or not: no two requests
      overlap, and each starts at least two seconds after the end of every earlier one, ten
      if that one was refused. One call sends at most three, another one only after a
      refusal. */
  lemma CloudPacing(ss: seq<State>, steps: seq<Step>, n: nat)
    requires Execution(ss, steps) && n < |ss|
    ensures var rs := ss[n].requests;
            && (forall i, j :: 0 <= i < j < |rs| ==>
                  rs[i].end.Some? && rs[j].start - rs[i].end.value >= (if rs[i].limited then 10.0 else 2.0))
            && (forall c: nat :: SentBy(rs, c) <= 3)
            && (forall i, j :: 0 <= i < j < |rs| && rs[i].caller == rs[j].caller ==> rs[i].limited)
  {
    ReachableInv(ss, steps, n);
    hide Execution;
    forall c: nat ensures SentBy(ss[n].requests, c) <= 3 { assert CountOK(ss[n], c); }
  }

  /** The caller's context has ended while it waited. */
  ghost predicate WasCancelled(steps: seq<Step>, n: nat, c: nat) {
    exists j: nat :: j < n && j < |steps| && (steps[j] == CancelWaiting(c) || steps[j] == CancelPausing(c))
  }

  /** The account has taken one of this caller's requests. */
  ghost predicate WasTaken(rs: seq<Request>, c: nat) {
    exists i :: 0 <= i < |rs| && rs[i].caller == c && rs[i].end.Some? && !rs[i].limited
  }

  /** How a caller comes to be done. */
  lemma DoneBy(s: State, step: Step, c: nat)
    requires Enabled(s, step) && Pacing(s) && CountOK(s, c) && At(Next(s, step), c, Done)
    ensures At(s, c, Done) || step == CancelWaiting(c) || step == CancelPausing(c)
            || WasTaken(Next(s, step).requests, c) || SentBy(Next(s, step).requests, c) == 3
  {
    hide SentBy, Spaced;
    if step == Free(c) {
      assert HolderOK(s, c, s.callers[c].phase);
      var last := |s.requests| - 1;
      if !s.callers[c].phase.limited { TakenAt(s.requests, last, c); }
    }
  }

  lemma TakenAt(rs: seq<Request>, i: nat, c: nat)
    requires i < |rs| && rs[i].caller == c && rs[i].end.Some? && !rs[i].limited
    ensures WasTaken(rs, c)
  {
  }

  /** What a caller that is done has to its name stays. */
  lemma DoneStays(s: State, step: Step, c: nat)
    requires Enabled(s, step) && At(s, c, Done) && Pacing(s)
    ensures WasTaken(s.requests, c) ==> WasTaken(Next(s, step).requests, c)
    ensures SentBy(Next(s, step).requests, c) == SentBy(s.requests, c)
  {
    var t := Next(s, step);
    if step.Send? {
      SentOneMore(s.requests, Request(step.c, s.now, None, false), c);
    } else {
      if step.Answer? { assert HolderOK(s, step.c, s.callers[step.c].phase); }
      SameSenders(s.requests, t.requests, c);
    }
    hide Pacing, SentBy;
    if i :| 0 <= i < |s.requests| && s.requests[i].caller == c && s.requests[i].end.Some? && !s.requests[i].limited {
      assert t.requests[i] == s.requests[i];
      TakenAt(t.requests, i, c);
    }
  }

  /** Nobody gives up early: in every interleaving a caller that is done was cancelled while
      it waited, or has had a request that was not refused, or has had all its three. */
  lemma {:induction false} NobodyGivesUpEarly(ss: seq<State>, steps: seq<Step>, n: nat, c: nat)
    requires Execution(ss, steps) && n < |ss| && At(ss[n], c, Done)
    ensures WasCancelled(steps, n, c) || WasTaken(ss[n].requests, c) || SentBy(ss[n].requests, c) == 3
  {
    if n > 0 {
      var p := n - 1;
      assert Enabled(ss[p], steps[p]) && ss[p + 1] == Next(ss[p], steps[p]);
      ReachableInv(ss, steps, p);
      assert CountOK(ss[p], c);
      hide Execution, Next, Enabled, Pacing, Refused, CountOK, SentBy, WasTaken;
      DoneBy(ss[p], steps[p], c);
      if At(ss[p], c, Done) {
        NobodyGivesUpEarly(ss, steps, p, c);
        DoneStays(ss[p], steps[p], c);
      }
    }
  }

  /** Step k is the last to hold requests off. */
  ghost predicate LastHoldOff(steps: seq<Step>, k: nat, n: nat) {
    k < n <= |steps| && steps[k].HoldOff? && forall j :: k < j < n ==> !steps[j].HoldOff?
  }

  /** And nobody is held off any longer: in every interleaving the next request may start
      two seconds after the last holding off, ten after one for a refusal, and at once if
      there has been none. */
  lemma {:induction false} HeldOffNoLonger(ss: seq<State>, steps: seq<Step>, n: nat)
    requires Execution(ss, steps) && n < |ss|
    ensures (forall j :: 0 <= j < n ==> !steps[j].HoldOff?) ==> ss[n].notBefore == 0.0
    ensures forall k: nat :: LastHoldOff(steps, k, n) ==>
              steps[k].c in ss[k].callers && ss[k].callers[steps[k].c].phase.Releasing?
              && ss[n].notBefore == ss[k].now + if ss[k].callers[steps[k].c].phase.limited then 10.0 else 2.0
  {
    if n > 0 {
      var p := n - 1;
      assert Enabled(ss[p], steps[p]) && ss[p + 1] == Next(ss[p], steps[p]);
      HeldOffNoLonger(ss, steps, p);
      forall k: nat | LastHoldOff(steps, k, n) && k < p ensures LastHoldOff(steps, k, p) { }
    }
  }

  /** The slot is always given back: it is taken exactly while one caller is between taking
      and freeing it, so once every caller is waiting or done it is free for the next. */
  lemma SlotAlwaysReturned(ss: seq<State>, steps: seq<Step>, n: nat)
    requires Execution(ss, steps) && n < |ss|
    ensures var s := ss[n];
            && (s.slot.Some? <==> exists c :: c in s.callers && s.callers[c].phase.Holds())
            && (forall c, d :: c in s.callers && d in s.callers && s.callers[c].phase.Holds() && s.callers[d].phase.Holds() ==> c == d)
            && ((forall c :: c in s.callers ==> s.callers[c].phase.Waiting? || s.callers[c].phase.Done?) ==>
                  forall c :: c in s.callers && s.callers[c].phase.Waiting? ==> Enabled(s, TakeSlot(c)))
  {
    ReachableInv(ss, steps, n);
    hide Execution;
    var s := ss[n];
    if s.slot.Some? {
      assert HolderOK(s, s.slot.value, s.callers[s.slot.value].phase);
      assert s.callers[s.slot.value].phase.Holds();
    }
  }
}
