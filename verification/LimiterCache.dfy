/** Which outcomes callers of the limiter are given, over every interleaving
    (internal/probe/limiter.go): an answer from the cache is the last one stored for the
    device and no older than the TTL, every other answer is what a probe reported, and the
    breaker refuses exactly while the wait from the last fault lasts. */
module LimiterCaches {
  import opened Common
  import opened Backoffs
  import opened Limiters

  // ---- What the cache holds --------------------------------------------------------------

  /** Step k stores this outcome for the device at this reading of the clock. */
  ghost predicate Stores(ss: seq<State>, steps: seq<Step>, k: nat, id: string, out: Outcome, at: real) {
    && k < |steps| && k < |ss| && steps[k].StoreOutcome? && steps[k].now == at
    && steps[k].c in ss[k].callers && ss[k].callers[steps[k].c].id == id
    && ss[k].callers[steps[k].c].phase.Storing? && ss[k].callers[steps[k].c].phase.out == out
  }

  /** Step j stores something for the device, or has it forgotten. */
  ghost predicate Overwrites(ss: seq<State>, steps: seq<Step>, j: nat, id: string) {
    && j < |steps| && j < |ss|
    && (steps[j] == ForgetCached(id)
        || (steps[j].StoreOutcome? && steps[j].c in ss[j].callers && ss[j].callers[steps[j].c].id == id))
  }

  /** The last word on the device before state n, from step k. */
  ghost predicate LastStored(ss: seq<State>, steps: seq<Step>, k: nat, n: nat, id: string, out: Outcome, at: real) {
    k < n && Stores(ss, steps, k, id, out, at) && forall j: nat :: k < j < n ==> !Overwrites(ss, steps, j, id)
  }

  /** How one step changes what is cached for a device. */
  lemma CacheTurns(cfg: Settings, s: State, step: Step, id: string)
    requires Enabled(cfg, s, step)
    ensures var t := Next(cfg, s, step);
            if step == ForgetCached(id) then id !in t.cache
            else if cfg.cacheTTL > 0.0 && step.StoreOutcome? && s.callers[step.c].id == id then
              id in t.cache && t.cache[id] == Cached(s.callers[step.c].phase.out, step.now)
            else (id in t.cache <==> id in s.cache) && (id in t.cache ==> t.cache[id] == s.cache[id])
  {
    hide Recorded, Allows, LookedUp;
  }

  /** What is cached for a device is exactly the last outcome stored for it and not forgotten
      since; and nothing is, if nothing is to be. */
  lemma {:induction false} CacheHoldsExactly(cfg: Settings, ss: seq<State>, steps: seq<Step>, n: nat, id: string, out: Outcome, at: real)
    requires Execution(cfg, ss, steps) && n < |ss|
    ensures id in ss[n].cache && ss[n].cache[id] == Cached(out, at)
            <==> cfg.cacheTTL > 0.0 && exists k: nat :: LastStored(ss, steps, k, n, id, out, at)
  {
    if n > 0 {
      var p := n - 1;
      LinkAt(cfg, ss, steps, p);
      CacheHoldsExactly(cfg, ss, steps, p, id, out, at);
      assert |ss| == |steps| + 1;
      hide Execution, Next, Enabled, LastStored;
      CacheTurns(cfg, ss[p], steps[p], id);
      StoringCaller(cfg, ss[p], steps[p]);
      LastStoredTurns(ss, steps, p, n, id, out, at);
    }
  }

  lemma StoringCaller(cfg: Settings, s: State, step: Step)
    requires Enabled(cfg, s, step)
    ensures step.StoreOutcome? ==> step.c in s.callers && s.callers[step.c].phase.Storing?
  {
  }

  /** The last word, one step later. */
  lemma LastStoredTurns(ss: seq<State>, steps: seq<Step>, p: nat, n: nat, id: string, out: Outcome, at: real)
    requires |ss| == |steps| + 1 && p < |steps| && n == p + 1
    requires steps[p].StoreOutcome? ==> steps[p].c in ss[p].callers && ss[p].callers[steps[p].c].phase.Storing?
    ensures (exists k: nat :: LastStored(ss, steps, k, n, id, out, at)) <==>
              if Overwrites(ss, steps, p, id) then Stores(ss, steps, p, id, out, at)
              else exists k: nat :: LastStored(ss, steps, k, p, id, out, at)
  {
    if k: nat :| LastStored(ss, steps, k, n, id, out, at) {
      if k < p { assert LastStored(ss, steps, k, p, id, out, at); }
    }
    if k: nat :| LastStored(ss, steps, k, p, id, out, at) {
      if !Overwrites(ss, steps, p, id) { assert LastStored(ss, steps, k, n, id, out, at); }
    }
    if Stores(ss, steps, p, id, out, at) { assert LastStored(ss, steps, p, n, id, out, at); }
  }

  /** An answer from the cache is no older than the TTL. In every interleaving a caller that
      looks is answered by the cache exactly if caching is on and the last outcome stored for
      its device, not forgotten since, was stored no longer ago than the TTL, and then with
      that outcome; and otherwise it goes on to have the device probed. */
  lemma CachedAnswersAreFresh(cfg: Settings, ss: seq<State>, steps: seq<Step>, n: nat, c: nat, now: real)
    requires Execution(cfg, ss, steps) && n < |steps| && steps[n] == LookUp(c, now)
    ensures c in ss[n].callers && c in ss[n + 1].callers
    ensures var id, p := ss[n].callers[c].id, ss[n + 1].callers[c].phase;
            && (forall out :: (p.Returned? && p.how == ByCache(out)) <==>
                  cfg.cacheTTL > 0.0 && exists k: nat, at: real :: LastStored(ss, steps, k, n, id, out, at) && now - at <= cfg.cacheTTL)
            && (p.Joining? <==>
                  cfg.cacheTTL <= 0.0
                  || forall k: nat, at: real, out :: LastStored(ss, steps, k, n, id, out, at) ==> now - at > cfg.cacheTTL)
  {
    LinkAt(cfg, ss, steps, n);
    var s, id := ss[n], ss[n].callers[c].id;
    LookUpAnswers(cfg, s, c, now);
    hide Execution, Next, Enabled, LastStored;
    forall out, at | id in s.cache && s.cache[id] == Cached(out, at)
      ensures cfg.cacheTTL > 0.0 && exists k: nat :: LastStored(ss, steps, k, n, id, out, at)
    {
      CacheHoldsExactly(cfg, ss, steps, n, id, out, at);
    }
    forall k: nat, out, at | cfg.cacheTTL > 0.0 && LastStored(ss, steps, k, n, id, out, at)
      ensures id in s.cache && s.cache[id] == Cached(out, at)
    {
      CacheHoldsExactly(cfg, ss, steps, n, id, out, at);
    }
  }

  lemma LookUpAnswers(cfg: Settings, s: State, c: nat, now: real)
    requires Enabled(cfg, s, LookUp(c, now))
    ensures c in s.callers && c in Next(cfg, s, LookUp(c, now)).callers
    ensures var id, p := s.callers[c].id, Next(cfg, s, LookUp(c, now)).callers[c].phase;
            if cfg.cacheTTL > 0.0 && id in s.cache && now - s.cache[id].at <= cfg.cacheTTL then
              p.Returned? && p.how == ByCache(s.cache[id].outcome)
            else p.Joining?
  {
  }

  /** So every caller ever answered by the cache was given an outcome stored for its device
      by an earlier probe, no longer before it looked than the TTL. */
  lemma {:induction false} CachedAnswersWereStored(cfg: Settings, ss: seq<State>, steps: seq<Step>, n: nat, c: nat, out: Outcome)
    requires Execution(cfg, ss, steps) && n < |ss| && c in ss[n].callers
    requires ss[n].callers[c].phase.Returned? && ss[n].callers[c].phase.how == ByCache(out)
    ensures exists m: nat, k: nat, now: real, at: real ::
              m < n && steps[m] == LookUp(c, now) && LastStored(ss, steps, k, m, ss[n].callers[c].id, out, at) && now - at <= cfg.cacheTTL
  {
    if n > 0 {
      var p := n - 1;
      LinkAt(cfg, ss, steps, p);
      ByCacheComesFrom(cfg, ss[p], steps[p], c, out);
      if steps[p].LookUp? && steps[p].c == c {
        CachedAnswersAreFresh(cfg, ss, steps, p, c, steps[p].now);
        hide Execution, Next, Enabled, LastStored;
        var k: nat, at: real :| LastStored(ss, steps, k, p, ss[p].callers[c].id, out, at) && steps[p].now - at <= cfg.cacheTTL;
        assert steps[p] == LookUp(c, steps[p].now);
      } else {
        CachedAnswersWereStored(cfg, ss, steps, p, c, out);
      }
    }
  }

  lemma ByCacheComesFrom(cfg: Settings, s: State, step: Step, c: nat, out: Outcome)
    requires Enabled(cfg, s, step) && c in Next(cfg, s, step).callers
    requires Next(cfg, s, step).callers[c].phase.Returned? && Next(cfg, s, step).callers[c].phase.how == ByCache(out)
    ensures c in s.callers && Next(cfg, s, step).callers[c].id == s.callers[c].id
    ensures (step.LookUp? && step.c == c) || s.callers[c] == Next(cfg, s, step).callers[c]
  {
    hide Recorded, Stored, Allows, LookedUp;
  }

  // ---- What a flight lands with ------------------------------------------------------------

  /** At step j the caller's probe reported this outcome. */
  predicate Reported(steps: seq<Step>, j: nat, c: nat, out: Outcome) { j < |steps| && steps[j] == Finish(c, out) }

  /** The outcome a caller carries after its probe. */
  predicate Carries(p: Phase) { p.Recording? || p.Storing? || p.Uncounting? || p.Releasing? }

  ghost predicate WasReported(steps: seq<Step>, n: nat, c: nat, out: Outcome) {
    exists j: nat :: j < n && Reported(steps, j, c, out)
  }

  /** What a caller carries was reported by its own probe, and it carries nothing before. */
  ghost predicate CarriesReport(s: State, steps: seq<Step>, n: nat, c: nat) {
    c in s.callers ==>
      var p := s.callers[c].phase;
      && (Carries(p) ==> WasReported(steps, n, c, p.out))
      && (p.Acquiring? || p.Starting? ==> p.flight < |s.flights| ==> !s.flights[p.flight].ran)
      && (p.Landing? && p.flight < |s.flights| && s.flights[p.flight].ran ==> WasReported(steps, n, c, p.out))
  }

  /** A flight that ran its probe landed with what its leader's probe reported. */
  ghost predicate LandedReport(s: State, steps: seq<Step>, n: nat, f: nat) {
    f < |s.flights| && s.flights[f].landed.Some? && s.flights[f].ran ==>
      WasReported(steps, n, s.flights[f].leader, s.flights[f].landed.value.1)
  }

  ghost predicate AllReported(s: State, steps: seq<Step>, n: nat) {
    (forall c: nat :: CarriesReport(s, steps, n, c)) && (forall f: nat :: LandedReport(s, steps, n, f))
  }

  lemma ReportedLater(steps: seq<Step>, n: nat, c: nat, out: Outcome)
    requires WasReported(steps, n, c, out)
    ensures WasReported(steps, n + 1, c, out)
  {
    hide Reported;
  }

  lemma ReportedNow(steps: seq<Step>, n: nat, c: nat, out: Outcome)
    requires n < |steps| && steps[n] == Finish(c, out)
    ensures WasReported(steps, n + 1, c, out)
  {
    assert Reported(steps, n, c, out);
  }

  /** A caller that a step does not concern, on flights that change in no way that matters. */
  lemma OthersCarryOn(s: State, t: State, steps: seq<Step>, n: nat, d: nat)
    requires CarriesReport(s, steps, n, d) && (d in t.callers ==> d in s.callers && t.callers[d] == s.callers[d])
    requires |t.flights| >= |s.flights|
    requires d in s.callers && (s.callers[d].phase.Acquiring? || s.callers[d].phase.Starting? || s.callers[d].phase.Landing?) ==>
               s.callers[d].phase.flight < |s.flights|
               && t.flights[s.callers[d].phase.flight].ran == s.flights[s.callers[d].phase.flight].ran
    ensures CarriesReport(t, steps, n + 1, d)
  {
    hide WasReported, Carries;
    if d in t.callers {
      var p := t.callers[d].phase;
      if Carries(p) || (p.Landing? && t.flights[p.flight].ran) { CarriesOut(p); ReportedLater(steps, n, d, p.out); }
    }
  }

  lemma CarriesOut(p: Phase)
    requires Carries(p) || p.Landing?
    ensures p.Recording? || p.Storing? || p.Uncounting? || p.Releasing? || p.Landing?
  {
  }

  /** The flight of another leader is another flight. */
  lemma FlightsApart(s: State, c: nat, d: nat)
    requires Structure(s) && c in s.callers && d in s.callers && c != d && s.callers[c].phase.Leads() && s.callers[d].phase.Leads()
    ensures s.callers[c].phase.flight < |s.flights| && s.callers[d].phase.flight < |s.flights|
    ensures s.callers[c].phase.flight != s.callers[d].phase.flight
    ensures s.flights[s.callers[c].phase.flight].leader == c
  {
    assert CallerOK(s, c, s.callers[c]) && CallerOK(s, d, s.callers[d]);
  }

  lemma LeadsItsOwn(s: State, c: nat)
    requires Structure(s) && c in s.callers && s.callers[c].phase.Leads()
    ensures s.callers[c].phase.flight < |s.flights| && s.flights[s.callers[c].phase.flight].leader == c
    ensures s.flights[s.callers[c].phase.flight].landed.None?
  {
    assert CallerOK(s, c, s.callers[c]);
    assert FlightOK(s, s.callers[c].phase.flight, s.flights[s.callers[c].phase.flight]);
  }

  lemma EmptyHanded(cfg: Settings, s: State, steps: seq<Step>, n: nat)
    requires n < |steps| && Enabled(cfg, s, steps[n])
    requires steps[n].Call? || steps[n].AskBackoff? || steps[n].LookUp? || steps[n].Receive? || steps[n].Land?
    ensures CarriesReport(Next(cfg, s, steps[n]), steps, n + 1, steps[n].c)
  {
    hide WasReported, Stored, Recorded, Allows, LookedUp;
  }

  lemma TakesOff(cfg: Settings, s: State, steps: seq<Step>, n: nat)
    requires n < |steps| && Enabled(cfg, s, steps[n]) && steps[n].Join?
    ensures CarriesReport(Next(cfg, s, steps[n]), steps, n + 1, steps[n].c)
  {
    hide WasReported;
  }

  lemma Takes(cfg: Settings, s: State, steps: seq<Step>, n: nat)
    requires n < |steps| && Enabled(cfg, s, steps[n]) && (steps[n].Acquire? || steps[n].GiveUp? || steps[n].Count?)
    requires CarriesReport(s, steps, n, steps[n].c)
    ensures CarriesReport(Next(cfg, s, steps[n]), steps, n + 1, steps[n].c)
  {
    hide WasReported;
  }

  lemma CarriesOn(cfg: Settings, s: State, steps: seq<Step>, n: nat)
    requires n < |steps| && Enabled(cfg, s, steps[n])
    requires steps[n].Finish? || steps[n].RecordOutcome? || steps[n].StoreOutcome? || steps[n].Uncount? || steps[n].Release?
    requires CarriesReport(s, steps, n, steps[n].c)
    ensures CarriesReport(Next(cfg, s, steps[n]), steps, n + 1, steps[n].c)
  {
    var p := s.callers[steps[n].c].phase;
    if Carries(p) { ReportedLater(steps, n, steps[n].c, p.out); }
    if steps[n].Finish? { ReportedNow(steps, n, steps[n].c, steps[n].out); }
    hide WasReported, Recorded, Stored;
  }

  /** What a step does to its own caller's report. */
  lemma OwnReport(cfg: Settings, s: State, steps: seq<Step>, n: nat)
    requires n < |steps| && Enabled(cfg, s, steps[n]) && !steps[n].ForgetCached? && !steps[n].ForgetBackoff?
    requires CarriesReport(s, steps, n, steps[n].c)
    ensures CarriesReport(Next(cfg, s, steps[n]), steps, n + 1, steps[n].c)
  {
    hide CarriesReport, Next, Enabled;
    match steps[n]
    case Join(_) => TakesOff(cfg, s, steps, n);
    case Acquire(_) => Takes(cfg, s, steps, n);
    case GiveUp(_) => Takes(cfg, s, steps, n);
    case Count(_) => Takes(cfg, s, steps, n);
    case Call(_, _) => EmptyHanded(cfg, s, steps, n);
    case AskBackoff(_, _) => EmptyHanded(cfg, s, steps, n);
    case LookUp(_, _) => EmptyHanded(cfg, s, steps, n);
    case Receive(_) => EmptyHanded(cfg, s, steps, n);
    case Land(_) => EmptyHanded(cfg, s, steps, n);
    case _ => CarriesOn(cfg, s, steps, n);
  }

  /** A step leaves other callers alone, and of the flights only its own caller's moves. */
  lemma StepElsewhere(cfg: Settings, s: State, step: Step, d: nat)
    requires Enabled(cfg, s, step) && (step.ForgetCached? || step.ForgetBackoff? || step.c != d)
    ensures var t := Next(cfg, s, step);
            && (d in t.callers <==> d in s.callers) && (d in s.callers ==> t.callers[d] == s.callers[d])
            && |t.flights| >= |s.flights|
            && forall f :: 0 <= f < |s.flights| ==>
                 t.flights[f].ran == s.flights[f].ran
                 || (step.Count? && s.callers[step.c].phase.Leads() && s.callers[step.c].phase.flight == f)
  {
    hide Recorded, Stored, Allows, LookedUp;
  }

  lemma OtherReport(cfg: Settings, s: State, steps: seq<Step>, n: nat, d: nat)
    requires n < |steps| && Enabled(cfg, s, steps[n]) && (steps[n].ForgetCached? || steps[n].ForgetBackoff? || steps[n].c != d)
    requires Structure(s) && CarriesReport(s, steps, n, d)
    ensures CarriesReport(Next(cfg, s, steps[n]), steps, n + 1, d)
  {
    StepElsewhere(cfg, s, steps[n], d);
    if d in s.callers && s.callers[d].phase.Leads() {
      LeadsItsOwn(s, d);
      if steps[n].Count? { FlightsApart(s, steps[n].c, d); }
    }
    hide Structure, CarriesReport, Next;
    OthersCarryOn(s, Next(cfg, s, steps[n]), steps, n, d);
  }

  /** How a flight comes to have landed: it had, or its leader lands it now. */
  lemma LandsBy(cfg: Settings, s: State, step: Step, f: nat)
    requires Enabled(cfg, s, step) && Structure(s)
    requires f < |Next(cfg, s, step).flights| && Next(cfg, s, step).flights[f].landed.Some?
    ensures var t := Next(cfg, s, step);
            || (f < |s.flights| && t.flights[f] == s.flights[f])
            || (step.Land? && f < |s.flights| && s.callers[step.c].phase.flight == f && t.flights[f].leader == step.c
                && t.flights[f].ran == s.flights[f].ran && t.flights[f].landed.value.1 == s.callers[step.c].phase.out)
  {
    if step.Count? || step.Land? { LeadsItsOwn(s, step.c); }
    hide Structure, Recorded, Stored, Allows, LookedUp;
  }

  lemma LandedStays(cfg: Settings, s: State, steps: seq<Step>, n: nat, f: nat)
    requires n < |steps| && Enabled(cfg, s, steps[n]) && Structure(s) && AllReported(s, steps, n)
    ensures LandedReport(Next(cfg, s, steps[n]), steps, n + 1, f)
  {
    var t := Next(cfg, s, steps[n]);
    if f < |t.flights| && t.flights[f].landed.Some? && t.flights[f].ran {
      LandsBy(cfg, s, steps[n], f);
      hide Structure, Next, WasReported;
      assert LandedReport(s, steps, n, f);
      if f < |s.flights| && t.flights[f] == s.flights[f] {
        ReportedLater(steps, n, t.flights[f].leader, t.flights[f].landed.value.1);
      } else {
        assert CarriesReport(s, steps, n, steps[n].c);
        ReportedLater(steps, n, steps[n].c, s.callers[steps[n].c].phase.out);
      }
    }
  }

  lemma {:induction false} EverythingIsReported(cfg: Settings, ss: seq<State>, steps: seq<Step>, n: nat)
    requires Execution(cfg, ss, steps) && n < |ss|
    ensures AllReported(ss[n], steps, n) && Structure(ss[n])
  {
    hide Structure, Counts, Next, Enabled, CarriesReport, LandedReport;
    ReachableInv(cfg, ss, steps, n);
    if n == 0 {
      NothingReported(steps);
    } else {
      var p := n - 1;
      LinkAt(cfg, ss, steps, p);
      EverythingIsReported(cfg, ss, steps, p);
      forall c: nat ensures CarriesReport(ss[n], steps, n, c) {
        assert CarriesReport(ss[p], steps, p, c);
        if steps[p].ForgetCached? || steps[p].ForgetBackoff? || steps[p].c != c {
          OtherReport(cfg, ss[p], steps, p, c);
        } else {
          OwnReport(cfg, ss[p], steps, p);
        }
      }
      forall f: nat ensures LandedReport(ss[n], steps, n, f) { LandedStays(cfg, ss[p], steps, p, f); }
    }
  }

  lemma NothingReported(steps: seq<Step>)
    ensures AllReported(START, steps, 0)
  {
  }

  /** Nobody is told, and nothing is recorded or stored, but what a probe reported. In every
      interleaving a caller that came by a flight returns the very outcome the probe of that
      flight's leader reported, if it ever ran, and in_flight_limit if it did not; and an
      outcome held against the device, or cached for it, is one the probe of the caller doing
      so reported. */
  lemma AnswersAreReports(cfg: Settings, ss: seq<State>, steps: seq<Step>, n: nat, c: nat)
    requires Execution(cfg, ss, steps) && n < |ss| && c in ss[n].callers
    ensures var p, s := ss[n].callers[c].phase, ss[n];
            && (p.Returned? && p.how.ByFlight? ==>
                  && p.how.flight < |s.flights| && s.flights[p.how.flight].id == s.callers[c].id
                  && if s.flights[p.how.flight].ran then WasReported(steps, n, s.flights[p.how.flight].leader, p.how.outcome)
                     else p.how.outcome == TOO_BUSY)
            && (p.Recording? || p.Storing? ==> WasReported(steps, n, c, p.out))
  {
    EverythingIsReported(cfg, ss, steps, n);
    var s, p := ss[n], ss[n].callers[c].phase;
    assert CallerOK(s, c, s.callers[c]) && CarriesReport(s, steps, n, c);
    if p.Returned? && p.how.ByFlight? {
      assert LandedReport(s, steps, n, p.how.flight);
      assert FlightOK(s, p.how.flight, s.flights[p.how.flight]);
    }
    hide Execution, Structure, WasReported;
  }

  // ---- What the breaker holds --------------------------------------------------------------

  /** Step j records an outcome for the device. */
  predicate Records(ss: seq<State>, steps: seq<Step>, j: nat, id: string) {
    && j < |steps| && j < |ss| && steps[j].RecordOutcome?
    && steps[j].c in ss[j].callers && ss[j].callers[steps[j].c].id == id && ss[j].callers[steps[j].c].phase.Recording?
  }

  /** The outcome is held against the device. */
  predicate IsFault(ss: seq<State>, steps: seq<Step>, j: nat, id: string) {
    Records(ss, steps, j, id) &&
    var result := ss[j].callers[steps[j].c].phase.out.result;
    !result.success && result.reason != NoReason && result.reason != BackoffReason && result.reason != InFlightLimit
  }

  /** A success, or being forgotten, wipes the slate. */
  predicate IsClean(ss: seq<State>, steps: seq<Step>, j: nat, id: string) {
    || (j < |steps| && steps[j] == ForgetBackoff(id))
    || (Records(ss, steps, j, id) && ss[j].callers[steps[j].c].phase.out.result.success)
  }

  /** Faults of the device before state n, since the slate was last clean. */
  function Faults(ss: seq<State>, steps: seq<Step>, n: nat, id: string): nat {
    if n == 0 || IsClean(ss, steps, n - 1, id) then 0
    else Faults(ss, steps, n - 1, id) + One(IsFault(ss, steps, n - 1, id))
  }

  lemma FaultTurns(cfg: Settings, s: State, step: Step, id: string)
    requires Enabled(cfg, s, step)
    ensures var t := Next(cfg, s, step);
            if step == ForgetBackoff(id) then id !in t.backoff
            else if step.RecordOutcome? && s.callers[step.c].id == id then
              t.backoff == Recorded(cfg.backoff, s.backoff, id, s.callers[step.c].phase.out.result, step.now, step.draw)
            else RecordOf(t.backoff, id) == RecordOf(s.backoff, id)
  {
    hide Recorded, Allows, LookedUp, Stored;
    if step.RecordOutcome? && s.callers[step.c].id != id { OthersRecordsStay(cfg, s, step, id); }
  }

  lemma OthersRecordsStay(cfg: Settings, s: State, step: Step, id: string)
    requires Enabled(cfg, s, step) && step.RecordOutcome? && s.callers[step.c].id != id
    ensures RecordOf(Next(cfg, s, step).backoff, id) == RecordOf(s.backoff, id)
  {
    hide Wait;
  }

  /** The failures the breaker counts are exactly those. */
  lemma {:induction false} FailuresAreFaults(cfg: Settings, ss: seq<State>, steps: seq<Step>, n: nat, id: string)
    requires Execution(cfg, ss, steps) && n < |ss|
    ensures FailuresOf(ss[n].backoff, id) == Faults(ss, steps, n, id)
  {
    if n > 0 {
      var p := n - 1;
      LinkAt(cfg, ss, steps, p);
      FailuresAreFaults(cfg, ss, steps, p, id);
      RecordingCaller(cfg, ss[p], steps[p]);
      RecordTurns(cfg, ss, steps, p, id);
      hide Execution, Next, Enabled, IsFault, IsClean;
      FailuresOfRecord(ss[p].backoff, id);
      FailuresOfRecord(ss[n].backoff, id);
    }
  }

  lemma FailuresOfRecord(b: Records, id: string)
    ensures FailuresOf(b, id) == match RecordOf(b, id) case None => 0 case Some(r) => r.failures
  {
  }

  /** What the breaker keeps of a device, after a fault. */
  function FaultRecord(cfg: Settings, failures: nat, reason: Reason, now: real, draw: real): DeviceBackoff {
    DeviceBackoff(failures,
                  if failures < cfg.backoff.failuresBeforeOpen then None else Some(now + Wait(cfg.backoff, failures, reason, draw)),
                  reason)
  }

  lemma RecordedIs(cfg: Settings, b: Records, id: string, res: Result, now: real, draw: real)
    ensures RecordOf(Recorded(cfg.backoff, b, id, res, now, draw), id) ==
            if res.success then None
            else if res.reason == NoReason || res.reason == BackoffReason || res.reason == InFlightLimit then RecordOf(b, id)
            else Some(FaultRecord(cfg, FailuresOf(b, id) + 1, res.reason, now, draw))
  {
    hide Wait;
  }

  /** How one step changes what the breaker keeps of a device. */
  lemma RecordTurns(cfg: Settings, ss: seq<State>, steps: seq<Step>, p: nat, id: string)
    requires p < |steps| && |ss| == |steps| + 1 && Enabled(cfg, ss[p], steps[p]) && ss[p + 1] == Next(cfg, ss[p], steps[p])
    ensures var before, after := ss[p].backoff, ss[p + 1].backoff;
            RecordOf(after, id) ==
            if IsClean(ss, steps, p, id) then None
            else if IsFault(ss, steps, p, id) then
              Some(FaultRecord(cfg, FailuresOf(before, id) + 1, ss[p].callers[steps[p].c].phase.out.result.reason, steps[p].now, steps[p].draw))
            else RecordOf(before, id)
  {
    RecordingCaller(cfg, ss[p], steps[p]);
    FaultTurns(cfg, ss[p], steps[p], id);
    if Records(ss, steps, p, id) {
      RecordedIs(cfg, ss[p].backoff, id, ss[p].callers[steps[p].c].phase.out.result, steps[p].now, steps[p].draw);
    }
    hide Next, Recorded, FaultRecord, Enabled;
  }

  lemma RecordingCaller(cfg: Settings, s: State, step: Step)
    requires Enabled(cfg, s, step)
    ensures step.RecordOutcome? ==> step.c in s.callers && s.callers[step.c].phase.Recording?
  {
  }

  /** Step k recorded a fault of the device, and nothing has changed its record since. */
  ghost predicate LastFault(ss: seq<State>, steps: seq<Step>, k: nat, n: nat, id: string) {
    k < n && IsFault(ss, steps, k, id) && forall j: nat :: k < j < n ==> !IsFault(ss, steps, j, id) && !IsClean(ss, steps, j, id)
  }

  /** The wait from that fault is not over. */
  predicate StillWaiting(cfg: Settings, ss: seq<State>, steps: seq<Step>, k: nat, id: string, now: real)
    requires IsFault(ss, steps, k, id)
  {
    var failures := Faults(ss, steps, k + 1, id);
    failures >= cfg.backoff.failuresBeforeOpen
    && now < steps[k].now + Wait(cfg.backoff, failures, ss[k].callers[steps[k].c].phase.out.result.reason, steps[k].draw)
  }

  lemma LastFaultTurns(ss: seq<State>, steps: seq<Step>, p: nat, n: nat, id: string)
    requires n == p + 1
    ensures IsFault(ss, steps, p, id) ==> forall k: nat :: LastFault(ss, steps, k, n, id) <==> k == p
    ensures IsClean(ss, steps, p, id) && !IsFault(ss, steps, p, id) ==> forall k: nat :: !LastFault(ss, steps, k, n, id)
    ensures !IsClean(ss, steps, p, id) && !IsFault(ss, steps, p, id) ==>
              forall k: nat :: LastFault(ss, steps, k, n, id) <==> LastFault(ss, steps, k, p, id)
  {
    hide IsFault, IsClean;
  }

  lemma NotBoth(ss: seq<State>, steps: seq<Step>, j: nat, id: string)
    ensures !(IsFault(ss, steps, j, id) && IsClean(ss, steps, j, id))
  {
  }

  lemma RefusesBy(b: Records, id: string, now: real)
    ensures !Allows(b, id, now) <==>
              match RecordOf(b, id) case None => false case Some(r) => r.nextAttempt.Some? && now < r.nextAttempt.value
  {
  }

  lemma WaitsOn(cfg: Settings, failures: nat, reason: Reason, at: real, draw: real, now: real)
    ensures var next := FaultRecord(cfg, failures, reason, at, draw).nextAttempt;
            next.Some? && now < next.value
            <==> failures >= cfg.backoff.failuresBeforeOpen && now < at + Wait(cfg.backoff, failures, reason, draw)
  {
    hide Wait;
  }

  ghost predicate SomeWait(cfg: Settings, ss: seq<State>, steps: seq<Step>, n: nat, id: string, now: real) {
    exists k: nat :: LastFault(ss, steps, k, n, id) && StillWaiting(cfg, ss, steps, k, id, now)
  }

  lemma SomeWaitTurns(cfg: Settings, ss: seq<State>, steps: seq<Step>, p: nat, n: nat, id: string, now: real)
    requires n == p + 1
    ensures IsFault(ss, steps, p, id) ==> (SomeWait(cfg, ss, steps, n, id, now) <==> StillWaiting(cfg, ss, steps, p, id, now))
    ensures !IsFault(ss, steps, p, id) ==>
              (SomeWait(cfg, ss, steps, n, id, now) <==> !IsClean(ss, steps, p, id) && SomeWait(cfg, ss, steps, p, id, now))
  {
    LastFaultTurns(ss, steps, p, n, id);
    NotBoth(ss, steps, p, id);
    hide LastFault, IsFault, IsClean, StillWaiting;
    if SomeWait(cfg, ss, steps, n, id, now) {
      var k: nat :| LastFault(ss, steps, k, n, id) && StillWaiting(cfg, ss, steps, k, id, now);
    }
    if !IsFault(ss, steps, p, id) && !IsClean(ss, steps, p, id) && SomeWait(cfg, ss, steps, p, id, now) {
      var k: nat :| LastFault(ss, steps, k, p, id) && StillWaiting(cfg, ss, steps, k, id, now);
      assert LastFault(ss, steps, k, n, id);
    }
    if IsFault(ss, steps, p, id) && StillWaiting(cfg, ss, steps, p, id, now) {
      assert LastFault(ss, steps, p, n, id);
    }
  }

  /** What the record says after a fault is what the wait says. */
  lemma FaultWaits(cfg: Settings, ss: seq<State>, steps: seq<Step>, p: nat, n: nat, id: string, now: real)
    requires Execution(cfg, ss, steps) && n == p + 1 && n < |ss| && IsFault(ss, steps, p, id)
    ensures !Allows(ss[n].backoff, id, now) <==> StillWaiting(cfg, ss, steps, p, id, now)
  {
    LinkAt(cfg, ss, steps, p);
    RecordTurns(cfg, ss, steps, p, id);
    FailuresAreFaults(cfg, ss, steps, p, id);
    NotBoth(ss, steps, p, id);
    RefusesBy(ss[n].backoff, id, now);
    hide Execution, Next, Enabled, IsClean, Allows, FaultRecord;
    WaitsOn(cfg, Faults(ss, steps, n, id), ss[p].callers[steps[p].c].phase.out.result.reason, steps[p].now, steps[p].draw, now);
  }

  lemma AllowsAsBefore(cfg: Settings, ss: seq<State>, steps: seq<Step>, p: nat, n: nat, id: string, now: real)
    requires Execution(cfg, ss, steps) && n == p + 1 && n < |ss| && !IsFault(ss, steps, p, id)
    ensures !Allows(ss[n].backoff, id, now) <==> !IsClean(ss, steps, p, id) && !Allows(ss[p].backoff, id, now)
  {
    LinkAt(cfg, ss, steps, p);
    RecordTurns(cfg, ss, steps, p, id);
    RefusesBy(ss[n].backoff, id, now);
    RefusesBy(ss[p].backoff, id, now);
    hide Execution, Next, Enabled, IsClean, IsFault, Allows;
  }

  lemma NoWaitYet(cfg: Settings, ss: seq<State>, steps: seq<Step>, id: string, now: real)
    requires Execution(cfg, ss, steps)
    ensures Allows(ss[0].backoff, id, now) && !SomeWait(cfg, ss, steps, 0, id, now)
  {
  }

  /** The breaker, told by the clock alone. In every execution it refuses a device exactly if
      the last fault recorded for it, with no success and no forgetting since, brought the
      count of faults since the last of those to the threshold, and the wait that count and
      that fault's reason call for, from the moment it was recorded, is not over. */
  lemma {:induction false} RefusesExactlyWhile(cfg: Settings, ss: seq<State>, steps: seq<Step>, n: nat, id: string, now: real)
    requires Execution(cfg, ss, steps) && n < |ss|
    ensures !Allows(ss[n].backoff, id, now) <==> SomeWait(cfg, ss, steps, n, id, now)
  {
    hide *;
    if n == 0 {
      NoWaitYet(cfg, ss, steps, id, now);
    } else {
      var p := n - 1;
      RefusesExactlyWhile(cfg, ss, steps, p, id, now);
      SomeWaitTurns(cfg, ss, steps, p, n, id, now);
      if IsFault(ss, steps, p, id) {
        FaultWaits(cfg, ss, steps, p, n, id, now);
      } else {
        AllowsAsBefore(cfg, ss, steps, p, n, id, now);
      }
    }
  }
}
