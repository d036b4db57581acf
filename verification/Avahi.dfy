/** The Avahi session supervisor (internal/discovery/avahi/avahi.go): when a session ends and
    why, how long the next one is put off, and when start-up is given up. */
module Avahi {
  import opened Common
  import opened Ladders

  const REBROWSE := "rebrowse"
  const BROWSER_FAILED := "browser_failed"
  const WATCHDOG := "watchdog"

  datatype Config = Config(
    serviceTypes: seq<string>, reconnectMin: int, reconnectMax: int, required: bool, startupTimeout: int)

  /** What a session's select can receive; a closed owner channel is None. */
  datatype Signal = ContextDone | OwnerChange(owner: Option<string>) | Probed(ok: bool) | RebrowseDue

  /** What one session meets: the connection, a browser per service type, the signals. */
  datatype Answer = Answer(connect: Option<string>, browsers: seq<Option<string>>, signals: seq<Signal>, elapsed: int)

  /** How a session went. */
  datatype Outcome = Outcome(failed: bool, reason: string, elapsed: int)

  // ---- One session -------------------------------------------------------------------

  /** The last of these signals ends the session: any but a probe does, and a failed probe
      does exactly when the signal before it was a failed probe too. */
  predicate Ends(signals: seq<Signal>) {
    signals != [] &&
    var last := signals[|signals| - 1];
    !last.Probed? || (!last.ok && |signals| >= 2 && signals[|signals| - 2] == Probed(false))
  }

  lemma EndsAt(signals: seq<Signal>, i: nat)
    requires i < |signals|
    ensures Ends(Upto(signals, i)) <==>
            (!signals[i].Probed? || (!signals[i].ok && i > 0 && signals[i - 1] == Probed(false)))
  {
    assert Upto(signals, i)[i] == signals[i] && (i > 0 ==> Upto(signals, i)[i - 1] == signals[i - 1]);
  }

  function ReasonOf(signal: Signal): string {
    match signal
    case ContextDone => ""
    case OwnerChange(owner) =>
      if owner.None? then "dbus_closed" else if owner.value == "" then "name_lost" else "name_changed"
    case Probed(_) => WATCHDOG
    case RebrowseDue => REBROWSE
  }

  /** The first signal that ends a session decides its reason; one that outlives its signals
      was cancelled. */
  ghost predicate EndsWith(signals: seq<Signal>, reason: string) {
    || (exists i :: 0 <= i < |signals| && Ends(Upto(signals, i)) && reason == ReasonOf(signals[i])
                    && forall j :: 0 <= j < i ==> !Ends(Upto(signals, j)))
    || (reason == "" && forall j :: 0 <= j < |signals| ==> !Ends(Upto(signals, j)))
  }

  predicate Fails(a: Answer) { a.connect.Some? || exists i :: 0 <= i < |a.browsers| && a.browsers[i].Some? }

  ghost predicate Corresponds(a: Answer, o: Outcome) {
    && o.elapsed == a.elapsed
    && o.failed == Fails(a)
    && (a.connect.Some? ==> o.reason == "")
    && (a.connect.None? && Fails(a) ==> o.reason == BROWSER_FAILED)
    && (!Fails(a) ==> EndsWith(a.signals, o.reason))
  }

  /** Every session in the log went as its answer says. */
  ghost predicate AllCorrespond(answers: seq<Answer>, log: seq<Outcome>) {
    |log| <= |answers| && forall i :: 0 <= i < |log| ==> Corresponds(answers[i], log[i])
  }

  lemma CorrespondTurns(answers: seq<Answer>, log: seq<Outcome>, o: Outcome)
    requires AllCorrespond(answers, log) && |log| < |answers| && Corresponds(answers[|log|], o)
    ensures AllCorrespond(answers, log + [o])
  {
    hide Corresponds;
  }

  // ---- A run of sessions -------------------------------------------------------------

  predicate Routine(o: Outcome) { !o.failed && o.reason == REBROWSE }

  /** Reconnect cycles since the last rebrowse, or since the start. */
  function Cycles(log: seq<Outcome>): nat {
    if |log| < 2 || Routine(log[|log| - 1]) then 0 else Cycles(log[..|log| - 1]) + 1
  }

  /** The pre-jitter waits after each of these sessions. */
  function Waits(cfg: Config, log: seq<Outcome>): (w: seq<int>)
    ensures |w| == |log|
  {
    if log == [] then [] else
      Waits(cfg, log[..|log| - 1]) + [Climb(cfg.reconnectMin, cfg.reconnectMax, Cycles(log))]
  }

  lemma {:induction false} WaitAfter(cfg: Config, log: seq<Outcome>, i: nat)
    requires i < |log|
    ensures Waits(cfg, log)[i] == Climb(cfg.reconnectMin, cfg.reconnectMax, Cycles(Upto(log, i)))
  {
    if i == |log| - 1 {
      assert Upto(log, i) == log;
    } else {
      WaitAfter(cfg, log[..|log| - 1], i);
      assert Upto(log[..|log| - 1], i) == Upto(log, i);
    }
  }

  /** With reconnect_min at most reconnect_max, and only then, every wait is reconnect_min
      doubled once a cycle since the last rebrowse or the start, capped at reconnect_max.
      Otherwise the first wait is above the cap. */
  lemma WaitsInClosedForm(cfg: Config)
    ensures (forall log: seq<Outcome>, i: nat :: i < |log| ==>
               Waits(cfg, log)[i] == Min(Doubled(cfg.reconnectMin, Cycles(Upto(log, i))), cfg.reconnectMax))
            <==> cfg.reconnectMin <= cfg.reconnectMax
  {
    ClimbIsCappedDoubling(cfg.reconnectMin, cfg.reconnectMax);
    if cfg.reconnectMin <= cfg.reconnectMax {
      forall log: seq<Outcome>, i: nat | i < |log|
        ensures Waits(cfg, log)[i] == Min(Doubled(cfg.reconnectMin, Cycles(Upto(log, i))), cfg.reconnectMax)
      {
        WaitAfter(cfg, log, i);
      }
    } else {
      var log := [Outcome(true, "", 0)];
      assert Upto(log, 0) == log && Waits(cfg, log)[0] == cfg.reconnectMin;
      assert Waits(cfg, log)[0] != Min(Doubled(cfg.reconnectMin, Cycles(Upto(log, 0))), cfg.reconnectMax);
    }
  }

  predicate NoneWorked(log: seq<Outcome>) { forall i :: 0 <= i < |log| ==> log[i].failed }

  /** Start-up has failed for good: nothing has ever worked, and the time for it is up. */
  predicate Doomed(cfg: Config, log: seq<Outcome>) {
    cfg.required && log != [] && log[|log| - 1].elapsed > cfg.startupTimeout && NoneWorked(log)
  }

  predicate NeverDoomed(cfg: Config, log: seq<Outcome>) { forall i :: 0 <= i < |log| ==> !Doomed(cfg, Upto(log, i)) }

  /** The sessions that were followed by a wait. */
  function WaitedAfter(fatal: bool, log: seq<Outcome>): seq<Outcome> {
    if fatal && log != [] then log[..|log| - 1] else log
  }

  /** Sessions that ended for a reason of their own. */
  function Reconnects(log: seq<Outcome>): nat {
    if log == [] then 0 else Reconnects(log[..|log| - 1]) + (if log[|log| - 1].reason != "" then 1 else 0)
  }

  /** What the loop variable holds when the next session starts. */
  function NextBackoff(cfg: Config, log: seq<Outcome>): int {
    if log == [] then cfg.reconnectMin else Min(2 * Climb(cfg.reconnectMin, cfg.reconnectMax, Cycles(log)), cfg.reconnectMax)
  }

  /** One more session, as the ladder sees it. */
  lemma LadderTurns(cfg: Config, before: seq<Outcome>, o: Outcome)
    ensures var now := before + [o];
            && Reconnects(now) == Reconnects(before) + (if o.reason != "" then 1 else 0)
            && Waits(cfg, now) == Waits(cfg, before) + [if !o.failed && o.reason == REBROWSE then cfg.reconnectMin else NextBackoff(cfg, before)]
            && var twice := 2 * (if !o.failed && o.reason == REBROWSE then cfg.reconnectMin else NextBackoff(cfg, before));
            NextBackoff(cfg, now) == if twice > cfg.reconnectMax then cfg.reconnectMax else twice
  {
    var now := before + [o];
    assert now[..|before|] == before;
    assert Cycles(now) == if before == [] || Routine(o) then 0 else Cycles(before) + 1;
    hide Cycles;
  }

  /** One more session, as the verdict on start-up sees it. */
  lemma VerdictTurns(cfg: Config, before: seq<Outcome>, o: Outcome)
    ensures var now := before + [o];
            && now[..|before|] == before
            && (NoneWorked(now) <==> NoneWorked(before) && o.failed)
            && (NeverDoomed(cfg, now) <==> NeverDoomed(cfg, before) && !Doomed(cfg, now))
            && (Doomed(cfg, now) <==> cfg.required && o.elapsed > cfg.startupTimeout && NoneWorked(now))
            && WaitedAfter(true, now) == before
  {
    var now := before + [o];
    assert now[..|before|] == before && Upto(now, |before|) == now && now[|before|] == o;
    assert forall i :: 0 <= i < |before| ==> before[i] == now[i];
    assert forall i :: 0 <= i < |before| ==> Upto(now, i) == Upto(before, i);
    hide Doomed;
  }

  lemma NothingYet(cfg: Config, answers: seq<Answer>)
    ensures AllCorrespond(answers, []) && NeverDoomed(cfg, []) && !Doomed(cfg, []) && NoneWorked([])
    ensures Waits(cfg, []) == [] && Reconnects([]) == 0 && NextBackoff(cfg, []) == cfg.reconnectMin
  {
  }

  lemma DoomedIs(cfg: Config, log: seq<Outcome>)
    ensures Doomed(cfg, log) <==>
            cfg.required && log != [] && log[|log| - 1].elapsed > cfg.startupTimeout && forall i :: 0 <= i < |log| ==> log[i].failed
  {
  }

  lemma NeverFatal(log: seq<Outcome>)
    ensures WaitedAfter(false, log) == log
  {
  }

  /** Every session is offered a browser per service type. */
  predicate Shaped(cfg: Config, answers: seq<Answer>) {
    forall i :: 0 <= i < |answers| ==> |answers[i].browsers| == |cfg.serviceTypes|
  }

  lemma ShapedAt(cfg: Config, answers: seq<Answer>, n: nat)
    requires Shaped(cfg, answers) && n < |answers|
    ensures |answers[n].browsers| == |cfg.serviceTypes|
  {
  }

  class Discoverer {
    const cfg: Config
    var up: bool
    var reconnects: nat

    constructor (cfg: Config)
      ensures !up && reconnects == 0 && this.cfg == cfg
    {
      this.cfg, up, reconnects := cfg, false, 0;
    }

    /** Blocks until something ends the session. */
    method Watch(signals: seq<Signal>) returns (reason: string)
      ensures EndsWith(signals, reason)
    {
      hide Ends;
      var consecutiveFailures := 0;
      for i := 0 to |signals|
        invariant forall j :: 0 <= j < i ==> !Ends(Upto(signals, j))
        invariant consecutiveFailures == if i > 0 && signals[i - 1] == Probed(false) then 1 else 0
      {
        EndsAt(signals, i);
        match signals[i] {
          case ContextDone => return "";
          case OwnerChange(owner) =>
            if owner.None? { return "dbus_closed"; }
            if owner.value == "" { return "name_lost"; }
            return "name_changed";
          case Probed(ok) =>
            if !ok {
              consecutiveFailures := consecutiveFailures + 1;
              if consecutiveFailures >= 2 { return WATCHDOG; }
            } else {
              consecutiveFailures := 0;
            }
          case RebrowseDue => return REBROWSE;
        }
      }
      return "";
    }

    /** One connection generation. */
    method Session(a: Answer) returns (reason: string, error: Option<string>)
      requires |a.browsers| == |cfg.serviceTypes|
      modifies this`up
      ensures Corresponds(a, Outcome(error.Some?, reason, a.elapsed))
      ensures error.None? <==> a.connect.None? && forall i :: 0 <= i < |a.browsers| ==> a.browsers[i].None?
      ensures a.connect.Some? ==> error == a.connect && reason == ""
      ensures a.connect.None? && error.Some? ==> reason == "browser_failed" && error in a.browsers
      ensures up == if error.Some? then old(up) else true
    {
      if a.connect.Some? { return "", a.connect; }
      for i := 0 to |cfg.serviceTypes|
        invariant forall j :: 0 <= j < i ==> a.browsers[j].None?
      {
        if a.browsers[i].Some? { return BROWSER_FAILED, a.browsers[i]; }
      }
      up := true;
      hide EndsWith;
      reason := Watch(a.signals);
      error := None;
    }

    /** Supervises sessions until the context ends, which is where the answers run out.
        Start-up is given up exactly when it is doomed, so never after a session that
        worked. */
    method Run(answers: seq<Answer>) returns (fatal: bool, ghost log: seq<Outcome>, waits: seq<int>)
      requires !up && reconnects == 0 && Shaped(cfg, answers)
      modifies this
      ensures AllCorrespond(answers, log)
      ensures NeverDoomed(cfg, WaitedAfter(fatal, log)) && (fatal <==> Doomed(cfg, log))
      ensures |log| < |answers| ==> fatal
      ensures waits == Waits(cfg, WaitedAfter(fatal, log))
      ensures reconnects == Reconnects(WaitedAfter(fatal, log))
      ensures up <==> log != [] && !log[|log| - 1].failed
      ensures fatal <==> cfg.required && log != [] && log[|log| - 1].elapsed > cfg.startupTimeout
                         && forall i :: 0 <= i < |log| ==> log[i].failed
    {
      var backoff := cfg.reconnectMin;
      var everConnected := false;
      waits, log := [], [];
      NothingYet(cfg, answers);
      hide *;
      for n := 0 to |answers|
        invariant |log| == n && AllCorrespond(answers, log)
        invariant NeverDoomed(cfg, log) && !Doomed(cfg, log)
        invariant everConnected <==> !NoneWorked(log)
        invariant waits == Waits(cfg, log) && reconnects == Reconnects(log) && backoff == NextBackoff(cfg, log)
        invariant up <==> log != [] && !log[|log| - 1].failed
      {
        ShapedAt(cfg, answers, n);
        var reason, error := Session(answers[n]);
        ghost var o := Outcome(error.Some?, reason, answers[n].elapsed);
        CorrespondTurns(answers, log, o);
        LadderTurns(cfg, log, o);
        VerdictTurns(cfg, log, o);
        log := log + [o];
        if error.None? {
          everConnected := true;
          if reason == REBROWSE { backoff := cfg.reconnectMin; }
        } else {
          up := false;
          if !everConnected && cfg.required && answers[n].elapsed > cfg.startupTimeout {
            DoomedIs(cfg, log);
            return true, log, waits;
          }
        }
        if reason != "" { reconnects := reconnects + 1; }
        waits := waits + [backoff];
        backoff := backoff * 2;
        if backoff > cfg.reconnectMax { backoff := cfg.reconnectMax; }
      }
      NeverFatal(log);
      DoomedIs(cfg, log);
      return false, log, waits;
    }
  }

  /** Giving up is only for start-up: a run in which any session worked never returns Fatal. */
  lemma FatalOnlyBeforeFirstSuccess(cfg: Config, log: seq<Outcome>, i: nat)
    requires i < |log| && !log[i].failed
    ensures forall n :: i <= n < |log| ==> !Doomed(cfg, Upto(log, n))
  {
    forall n | i <= n < |log| ensures !Doomed(cfg, Upto(log, n)) {
      assert Upto(log, n)[i] == log[i];
    }
  }

  // ---- Cases spelt out ----------------------------------------------------------------------

  /** Nothing up to here ends a session: only probes, no two in a row failed. */
  predicate Uneventful(signals: seq<Signal>, n: nat) {
    n <= |signals| && (forall i :: 0 <= i < n ==> signals[i].Probed?)
    && forall i :: 0 < i < n ==> signals[i] == Probed(true) || signals[i - 1] == Probed(true)
  }

  lemma {:induction false} UneventfulNeverEnds(signals: seq<Signal>, n: nat)
    requires n <= |signals|
    ensures Uneventful(signals, n) <==> forall j :: 0 <= j < n ==> !Ends(Upto(signals, j))
  {
    hide Ends;
    if Uneventful(signals, n) {
      forall j | 0 <= j < n ensures !Ends(Upto(signals, j)) {
        EndsAt(signals, j);
        assert j > 0 ==> signals[j] == Probed(true) || signals[j - 1] == Probed(true);
      }
    }
    if forall j :: 0 <= j < n ==> !Ends(Upto(signals, j)) {
      forall i | 0 <= i < n ensures signals[i].Probed? { EndsAt(signals, i); }
      forall i | 0 < i < n ensures signals[i] == Probed(true) || signals[i - 1] == Probed(true) { EndsAt(signals, i); }
    }
  }

  /** Why a session ended, by the first signal after an uneventful stretch: its context, the
      daemon's leaving or changing hands, the time to browse anew, or a second failed probe
      in a row. One whose signals run out uneventful was cancelled. */
  lemma WatchByCases(signals: seq<Signal>, reason: string, n: nat)
    requires EndsWith(signals, reason) && Uneventful(signals, n)
    ensures n == |signals| ==> reason == ""
    ensures n < |signals| && !Uneventful(signals, n + 1) ==>
              match signals[n]
              case ContextDone => reason == ""
              case OwnerChange(owner) =>
                reason == if owner == None then "dbus_closed" else if owner == Some("") then "name_lost" else "name_changed"
              case RebrowseDue => reason == "rebrowse"
              case Probed(ok) => !ok && n > 0 && signals[n - 1] == Probed(false) && reason == "watchdog"
  {
    UneventfulNeverEnds(signals, n);
    if n < |signals| { UneventfulNeverEnds(signals, n + 1); }
    hide Ends;
  }

  /** The cycles counted are the sessions after the last that ended to browse anew, or after
      the first. */
  lemma {:induction false} CyclesCount(log: seq<Outcome>, since: nat)
    requires since < |log| && (since == 0 || Routine(log[since]))
    requires forall k :: since < k < |log| ==> !Routine(log[k])
    ensures Cycles(log) == |log| - 1 - since
  {
    if since < |log| - 1 { CyclesCount(log[..|log| - 1], since); }
  }
}
