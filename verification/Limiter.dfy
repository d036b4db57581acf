/** Every probe passes the backoff breaker, a very short result cache, single-flight and a
    concurrency semaphore, in that order (internal/probe/limiter.go). Callers interleave
    freely: each atomic step any of them takes is a step of this state machine. The
    single-flight group and the semaphore are foreign code, taken at their word: a call
    joins the open flight for its key if there is one, and a token is granted only while one
    is free. */
module Limiters {
  import opened Common
  import opened Backoffs

  type Metrics = seq<string>

  datatype Outcome = Outcome(metrics: Metrics, result: Result)

  const TOO_BUSY := Outcome([], Result(false, InFlightLimit))

  datatype Cached = Cached(outcome: Outcome, at: real)

  type Cache = map<string, Cached>

  datatype Settings = Settings(maxConcurrent: nat, cacheTTL: real, backoff: Config)

  // ---- The sections that run under the mutex ----------------------------------------

  function LookedUp(ttl: real, cache: Cache, id: string, now: real): Option<Outcome> {
    if ttl > 0.0 && id in cache && now - cache[id].at <= ttl then Some(cache[id].outcome) else None
  }

  function Stored(ttl: real, cache: Cache, id: string, out: Outcome, now: real): Cache {
    if ttl > 0.0 then cache[id := Cached(out, now)] else cache
  }

  class Limiter {
    const maxConcurrent: nat
    const cacheTTL: real
    const backoff: Backoff
    var cache: Cache
    var held: nat
    var inFlight: int

    constructor (settings: Settings)
      ensures cache == map[] && held == 0 && inFlight == 0 && fresh(backoff)
      ensures maxConcurrent == settings.maxConcurrent && cacheTTL == settings.cacheTTL
      ensures backoff.state == map[] && backoff.cfg == settings.backoff
    {
      maxConcurrent, cacheTTL, cache := settings.maxConcurrent, settings.cacheTTL, map[];
      held, inFlight := 0, 0;
      backoff := new Backoff(settings.backoff);
    }

    /** A call met by no other caller: the gates in their order, then the probe. Whether the
        caller's patience outlasts a full house, what the probe reports, the clock readings
        and the random draw are inputs. Tokens and the in-flight count come back to where
        they were on every path, and only a probe that ran leaves a mark. */
    method Do(id: string, patient: bool, probed: Outcome, asked: real, looked: real,
              recorded: real, draw: real, stored: real) returns (out: Outcome, remaining: real)
      requires held <= maxConcurrent
      modifies this`cache, this`held, this`inFlight, backoff`state
      ensures held == old(held) && inFlight == old(inFlight)
      ensures Allows(old(backoff.state), id, asked) <==> remaining == 0.0
      ensures var before := old((backoff.state, cache));
              if !Allows(before.0, id, asked) then
                (backoff.state, cache) == before && out.result == Result(false, BackoffReason)
                && remaining > 0.0 && Allows(before.0, id, asked + remaining)
              else if cacheTTL > 0.0 && id in before.1 && looked - before.1[id].at <= cacheTTL then
                (backoff.state, cache) == before && out == before.1[id].outcome
              else if !patient || old(held) == maxConcurrent then
                (backoff.state, cache) == before && out == TOO_BUSY
              else
                backoff.state == Recorded(backoff.cfg, before.0, id, probed.result, recorded, draw)
                && cache == (if cacheTTL > 0.0 then before.1[id := Cached(probed, stored)] else before.1) && out == probed
    {
      var allowed, wait := backoff.Allow(id, asked);
      if !allowed { return Outcome([], Result(false, BackoffReason)), wait; }
      remaining := 0.0;
      var cached := Lookup(id, looked);
      if cached.Some? { return cached.value, 0.0; }
      if !patient || held == maxConcurrent { return TOO_BUSY, 0.0; }
      held := held + 1;
      inFlight := inFlight + 1;
      out := probed;
      hide Recorded;
      backoff.Record(id, out.result, recorded, draw);
      Store(id, out, stored);
      inFlight := inFlight - 1;
      held := held - 1;
    }

    method Lookup(id: string, now: real) returns (out: Option<Outcome>)
      ensures out == LookedUp(cacheTTL, cache, id, now)
    {
      if cacheTTL <= 0.0 { return None; }
      if id !in cache || now - cache[id].at > cacheTTL { return None; }
      return Some(cache[id].outcome);
    }

    method Store(id: string, out: Outcome, now: real)
      modifies this`cache
      ensures cache == Stored(cacheTTL, old(cache), id, out, now)
    {
      if cacheTTL <= 0.0 { return; }
      cache := cache[id := Cached(out, now)];
    }

    /** Drops a device's cached result and backoff. */
    method Forget(id: string)
      modifies this`cache, backoff`state
      ensures cache == old(cache) - {id} && backoff.state == old(backoff.state) - {id}
      ensures forall now :: Allows(backoff.state, id, now) && LookedUp(cacheTTL, cache, id, now) == None
    {
      cache := cache - {id};
      backoff.Reset(id);
    }
  }

  // ---- Callers and flights ----------------------------------------------------------

  /** How a call of Do ended. */
  datatype Return =
    | ByBackoff(remaining: real)
    | ByCache(cached: Outcome)
    | ByFlight(flight: nat, outcome: Outcome)

  /** Where a caller of Do is. From Acquiring to Landing it leads a flight; from Starting to
      Releasing it holds a token; from Running to Uncounting it is counted in flight. */
  datatype Phase =
    | Entering | Looking | Joining
    | Waiting(awaited: nat)
    | Acquiring(flight: nat)
    | Starting(flight: nat)
    | Running(flight: nat)
    | Recording(flight: nat, out: Outcome)
    | Storing(flight: nat, out: Outcome)
    | Uncounting(flight: nat, out: Outcome)
    | Releasing(flight: nat, out: Outcome)
    | Landing(flight: nat, out: Outcome)
    | Returned(how: Return, at: nat)
  {
    predicate Leads() { Acquiring? || Starting? || Running? || Recording? || Storing? || Uncounting? || Releasing? || Landing? }
    predicate HoldsToken() { Starting? || Running? || Recording? || Storing? || Uncounting? || Releasing? }
    predicate Counted() { Running? || Recording? || Storing? || Uncounting? }
  }

  datatype Caller = Caller(id: string, enteredAt: nat, phase: Phase)

  /** A flight of the single-flight group, with its history: who led it, when it took off,
      whether the probe was ever run, and when and how it landed. */
  datatype Flight = Flight(id: string, leader: nat, startedAt: nat, ran: bool, landed: Option<(nat, Outcome)>)

  datatype State = State(
    backoff: Records, cache: Cache, held: nat, inFlight: int,
    open: map<string, nat>, flights: seq<Flight>, callers: map<nat, Caller>, time: nat)

  const START := State(map[], map[], 0, 0, map[], [], map[], 0)

  datatype Step =
    | Call(c: nat, id: string)
    | AskBackoff(c: nat, now: real)
    | LookUp(c: nat, now: real)
    | Join(c: nat)
    | Acquire(c: nat)
    | GiveUp(c: nat)
    | Count(c: nat)
    | Finish(c: nat, out: Outcome)
    | RecordOutcome(c: nat, now: real, draw: real)
    | StoreOutcome(c: nat, now: real)
    | Uncount(c: nat)
    | Release(c: nat)
    | Land(c: nat)
    | Receive(c: nat)
    | ForgetCached(id: string)
    | ForgetBackoff(id: string)

  predicate Enabled(cfg: Settings, s: State, step: Step) {
    match step
    case Call(c, _) => c !in s.callers
    case AskBackoff(c, _) => c in s.callers && s.callers[c].phase.Entering?
    case LookUp(c, _) => c in s.callers && s.callers[c].phase.Looking?
    case Join(c) => c in s.callers && s.callers[c].phase.Joining?
    case Acquire(c) => c in s.callers && s.callers[c].phase.Acquiring? && s.held < cfg.maxConcurrent
    case GiveUp(c) => c in s.callers && s.callers[c].phase.Acquiring?
    case Count(c) => c in s.callers && s.callers[c].phase.Starting? && s.callers[c].phase.flight < |s.flights|
    case Finish(c, _) => c in s.callers && s.callers[c].phase.Running?
    case RecordOutcome(c, _, _) => c in s.callers && s.callers[c].phase.Recording?
    case StoreOutcome(c, _) => c in s.callers && s.callers[c].phase.Storing?
    case Uncount(c) => c in s.callers && s.callers[c].phase.Uncounting?
    case Release(c) => c in s.callers && s.callers[c].phase.Releasing? && s.held > 0
    case Land(c) => c in s.callers && s.callers[c].phase.Landing? && s.callers[c].phase.flight < |s.flights|
    case Receive(c) =>
      && c in s.callers && s.callers[c].phase.Waiting? && s.callers[c].phase.awaited < |s.flights|
      && s.flights[s.callers[c].phase.awaited].landed.Some?
    case ForgetCached(_) => true
    case ForgetBackoff(_) => true
  }

  function Goes(s: State, c: nat, phase: Phase): State
    requires c in s.callers
  {
    s.(callers := s.callers[c := s.callers[c].(phase := phase)], time := s.time + 1)
  }

  function Next(cfg: Settings, s: State, step: Step): State
    requires Enabled(cfg, s, step)
  {
    match step
    case Call(c, id) => s.(callers := s.callers[c := Caller(id, s.time, Entering)], time := s.time + 1)
    case AskBackoff(c, now) =>
      var id := s.callers[c].id;
      if Allows(s.backoff, id, now) then Goes(s, c, Looking)
      else Goes(s, c, Returned(ByBackoff(s.backoff[id].nextAttempt.value - now), s.time))
    case LookUp(c, now) =>
      (match LookedUp(cfg.cacheTTL, s.cache, s.callers[c].id, now)
       case Some(out) => Goes(s, c, Returned(ByCache(out), s.time))
       case None => Goes(s, c, Joining))
    case Join(c) =>
      var id := s.callers[c].id;
      if id in s.open then Goes(s, c, Waiting(s.open[id]))
      else Goes(s, c, Acquiring(|s.flights|)).(
             open := s.open[id := |s.flights|], flights := s.flights + [Flight(id, c, s.time, false, None)])
    case Acquire(c) => Goes(s, c, Starting(s.callers[c].phase.flight)).(held := s.held + 1)
    case GiveUp(c) => Goes(s, c, Landing(s.callers[c].phase.flight, TOO_BUSY))
    case Count(c) =>
      var f := s.callers[c].phase.flight;
      Goes(s, c, Running(f)).(inFlight := s.inFlight + 1, flights := s.flights[f := s.flights[f].(ran := true)])
    case Finish(c, out) => Goes(s, c, Recording(s.callers[c].phase.flight, out))
    case RecordOutcome(c, now, draw) =>
      var p := s.callers[c].phase;
      Goes(s, c, Storing(p.flight, p.out)).(
        backoff := Recorded(cfg.backoff, s.backoff, s.callers[c].id, p.out.result, now, draw))
    case StoreOutcome(c, now) =>
      var p := s.callers[c].phase;
      Goes(s, c, Uncounting(p.flight, p.out)).(cache := Stored(cfg.cacheTTL, s.cache, s.callers[c].id, p.out, now))
    case Uncount(c) =>
      var p := s.callers[c].phase;
      Goes(s, c, Releasing(p.flight, p.out)).(inFlight := s.inFlight - 1)
    case Release(c) =>
      var p := s.callers[c].phase;
      Goes(s, c, Landing(p.flight, p.out)).(held := s.held - 1)
    case Land(c) =>
      var p := s.callers[c].phase;
      Goes(s, c, Returned(ByFlight(p.flight, p.out), s.time)).(
        open := s.open - {s.callers[c].id},
        flights := s.flights[p.flight := s.flights[p.flight].(landed := Some((s.time, p.out)))])
    case Receive(c) =>
      var f := s.callers[c].phase.awaited;
      Goes(s, c, Returned(ByFlight(f, s.flights[f].landed.value.1), s.time))
    case ForgetCached(id) => s.(cache := s.cache - {id}, time := s.time + 1)
    case ForgetBackoff(id) => s.(backoff := s.backoff - {id}, time := s.time + 1)
  }

  // ---- The invariant ----------------------------------------------------------------

  ghost function TokenHolders(callers: map<nat, Caller>): set<nat> {
    set c | c in callers && callers[c].phase.HoldsToken()
  }

  ghost function InFlightCallers(callers: map<nat, Caller>): set<nat> {
    set c | c in callers && callers[c].phase.Counted()
  }

  ghost function ProbeRunners(callers: map<nat, Caller>): set<nat> {
    set c | c in callers && callers[c].phase.Running?
  }

  /** Callers holding a token without being counted in flight: just before and just after. */
  ghost function OffCount(callers: map<nat, Caller>): set<nat> {
    set c | c in callers && (callers[c].phase.Starting? || callers[c].phase.Releasing?)
  }

  /** The flight a caller got its outcome from, or waits for, was open during its call. */
  predicate Overlaps(f: Flight, enteredAt: nat) {
    f.landed.Some? ==> enteredAt <= f.landed.value.0
  }

  predicate CallerOK(s: State, c: nat, caller: Caller) {
    var p := caller.phase;
    && caller.enteredAt <= s.time
    && (p.Leads() ==>
          && p.flight < |s.flights| && s.flights[p.flight].leader == c && s.flights[p.flight].id == caller.id
          && caller.id in s.open && s.open[caller.id] == p.flight)
    && (p.Counted() || p.Releasing? ==> s.flights[p.flight].ran)
    && (p.Landing? && !s.flights[p.flight].ran ==> p.out == TOO_BUSY)
    && (p.Waiting? ==>
          && p.awaited < |s.flights| && s.flights[p.awaited].id == caller.id
          && Overlaps(s.flights[p.awaited], caller.enteredAt))
    && (p.Returned? && p.how.ByFlight? ==>
          && p.how.flight < |s.flights| && s.flights[p.how.flight].id == caller.id
          && s.flights[p.how.flight].landed.Some? && s.flights[p.how.flight].landed.value.1 == p.how.outcome
          && s.flights[p.how.flight].startedAt <= p.at
          && Overlaps(s.flights[p.how.flight], caller.enteredAt))
  }

  predicate FlightOK(s: State, f: nat, flight: Flight) {
    && flight.startedAt <= s.time
    && (flight.landed.None? <==> flight.id in s.open && s.open[flight.id] == f)
    && (flight.landed.Some? && !flight.ran ==> flight.landed.value.1 == TOO_BUSY)
  }

  ghost predicate Structure(s: State) {
    && (forall c :: c in s.callers ==> CallerOK(s, c, s.callers[c]))
    && (forall f :: 0 <= f < |s.flights| ==> FlightOK(s, f, s.flights[f]))
    && (forall id :: id in s.open ==> s.open[id] < |s.flights| && s.flights[s.open[id]].id == id)
  }

  ghost predicate Counts(cfg: Settings, s: State) {
    && s.held == |TokenHolders(s.callers)| <= cfg.maxConcurrent
    && s.inFlight == |InFlightCallers(s.callers)|
  }

  ghost predicate Inv(cfg: Settings, s: State) {
    Structure(s) && Counts(cfg, s)
  }

  // ---- Preservation -----------------------------------------------------------------

  predicate Holding(callers: map<nat, Caller>, c: nat) { c in callers && callers[c].phase.HoldsToken() }

  predicate Counting(callers: map<nat, Caller>, c: nat) { c in callers && callers[c].phase.Counted() }

  lemma MoveCounts(callers: map<nat, Caller>, c: nat, caller: Caller)
    ensures var next := callers[c := caller];
            && |TokenHolders(next)| == |TokenHolders(callers)| + One(caller.phase.HoldsToken()) - One(Holding(callers, c))
            && |InFlightCallers(next)| == |InFlightCallers(callers)| + One(caller.phase.Counted()) - One(Counting(callers, c))
  {
    var next := callers[c := caller];
    hide Phase.HoldsToken, Phase.Counted, One;
    DifferAtOne(TokenHolders(callers), TokenHolders(next), c);
    DifferAtOne(InFlightCallers(callers), InFlightCallers(next), c);
  }

  /** Tokens and the in-flight count have moved exactly with this caller. */
  predicate MovedWith(cfg: Settings, s: State, t: State, c: nat) {
    && c in t.callers && t.callers == s.callers[c := t.callers[c]]
    && t.held == s.held + One(t.callers[c].phase.HoldsToken()) - One(Holding(s.callers, c))
    && t.inFlight == s.inFlight + One(t.callers[c].phase.Counted()) - One(Counting(s.callers, c))
    && (t.held > s.held ==> t.held <= cfg.maxConcurrent)
  }

  lemma GatesMove(cfg: Settings, s: State, step: Step)
    requires Enabled(cfg, s, step) && (step.Call? || step.AskBackoff? || step.LookUp? || step.Join? || step.Receive?)
    ensures MovedWith(cfg, s, Next(cfg, s, step), step.c)
  {
    hide LookedUp, Allows, Stored, Recorded;
  }

  lemma TokensMove(cfg: Settings, s: State, step: Step)
    requires Enabled(cfg, s, step) && (step.Acquire? || step.GiveUp? || step.Count? || step.Uncount? || step.Release? || step.Land?)
    ensures MovedWith(cfg, s, Next(cfg, s, step), step.c)
  {
    hide LookedUp, Allows, Stored, Recorded;
  }

  lemma OutcomeMoves(cfg: Settings, s: State, step: Step)
    requires Enabled(cfg, s, step) && (step.Finish? || step.RecordOutcome? || step.StoreOutcome?)
    ensures MovedWith(cfg, s, Next(cfg, s, step), step.c)
  {
    hide LookedUp, Allows, Stored, Recorded;
  }

  lemma StepKeepsCounts(cfg: Settings, s: State, step: Step)
    requires Counts(cfg, s) && Enabled(cfg, s, step)
    ensures Counts(cfg, Next(cfg, s, step))
  {
    if !step.ForgetCached? && !step.ForgetBackoff? {
      hide Next, Enabled, TokenHolders, InFlightCallers, Holding, Counting;
      if step.Call? || step.AskBackoff? || step.LookUp? || step.Join? || step.Receive? {
        GatesMove(cfg, s, step);
      } else if step.Finish? || step.RecordOutcome? || step.StoreOutcome? {
        OutcomeMoves(cfg, s, step);
      } else {
        TokensMove(cfg, s, step);
      }
      MoveCounts(s.callers, step.c, Next(cfg, s, step).callers[step.c]);
    }
  }

  /** A caller that moves on its own, leaving the flights alone, disturbs no other. */
  lemma SoloKeepsStructure(s: State, t: State, c: nat)
    requires Structure(s) && t.flights == s.flights && t.open == s.open && t.time >= s.time
    requires c in t.callers && t.callers.Keys == s.callers.Keys + {c}
    requires forall d :: d in s.callers && d != c ==> t.callers[d] == s.callers[d]
    requires CallerOK(s, c, t.callers[c].(enteredAt := 0)) && t.callers[c].enteredAt <= t.time
    requires var p := t.callers[c].phase;
             && (p.Waiting? ==> Overlaps(s.flights[p.awaited], t.callers[c].enteredAt))
             && (p.Returned? && p.how.ByFlight? ==> Overlaps(s.flights[p.how.flight], t.callers[c].enteredAt))
    ensures Structure(t)
  {
    forall d | d in t.callers ensures CallerOK(t, d, t.callers[d]) {
      if d != c { assert CallerOK(s, d, s.callers[d]); }
    }
    forall f | 0 <= f < |t.flights| ensures FlightOK(t, f, t.flights[f]) {
      assert FlightOK(s, f, s.flights[f]);
    }
  }

  lemma JoinKeepsStructure(cfg: Settings, s: State, c: nat)
    requires Structure(s) && Enabled(cfg, s, Join(c))
    ensures Structure(Next(cfg, s, Join(c)))
  {
    if s.callers[c].id in s.open {
      assert CallerOK(s, c, s.callers[c]);
      assert FlightOK(s, s.open[s.callers[c].id], s.flights[s.open[s.callers[c].id]]);
      hide Structure;
      SoloKeepsStructure(s, Next(cfg, s, Join(c)), c);
    } else {
      TakeOffKeepsStructure(cfg, s, c);
    }
  }

  lemma TakeOffKeepsStructure(cfg: Settings, s: State, c: nat)
    requires Structure(s) && Enabled(cfg, s, Join(c)) && s.callers[c].id !in s.open
    ensures Structure(Next(cfg, s, Join(c)))
  {
    var t := Next(cfg, s, Join(c));
    forall d | d in t.callers ensures CallerOK(t, d, t.callers[d]) {
      assert CallerOK(s, d, s.callers[d]);
    }
    hide CallerOK;
    forall f | 0 <= f < |t.flights| ensures FlightOK(t, f, t.flights[f]) {
      if f < |s.flights| { assert FlightOK(s, f, s.flights[f]); }
    }
  }

  lemma CountKeepsStructure(cfg: Settings, s: State, c: nat)
    requires Structure(s) && Enabled(cfg, s, Count(c))
    ensures Structure(Next(cfg, s, Count(c)))
  {
    var t := Next(cfg, s, Count(c));
    forall d | d in t.callers ensures CallerOK(t, d, t.callers[d]) {
      assert CallerOK(s, d, s.callers[d]);
    }
    forall f | 0 <= f < |t.flights| ensures FlightOK(t, f, t.flights[f]) {
      assert FlightOK(s, f, s.flights[f]);
    }
  }

  lemma LandKeepsStructure(cfg: Settings, s: State, c: nat)
    requires Structure(s) && Enabled(cfg, s, Land(c))
    ensures Structure(Next(cfg, s, Land(c)))
  {
    var t := Next(cfg, s, Land(c));
    assert CallerOK(s, c, s.callers[c]);
    var landing := s.callers[c].phase.flight;
    assert FlightOK(s, landing, s.flights[landing]);
    forall d | d in t.callers ensures CallerOK(t, d, t.callers[d]) {
      assert CallerOK(s, d, s.callers[d]);
    }
    hide CallerOK;
    forall f | 0 <= f < |t.flights| ensures FlightOK(t, f, t.flights[f]) {
      assert FlightOK(s, f, s.flights[f]);
    }
  }

  /** A leader moving on within its flight. */
  lemma LeaderKeepsStructure(s: State, t: State, c: nat)
    requires Structure(s) && t.flights == s.flights && t.open == s.open && t.time >= s.time
    requires c in s.callers && c in t.callers && t.callers == s.callers[c := s.callers[c].(phase := t.callers[c].phase)]
    requires var p, q := s.callers[c].phase, t.callers[c].phase;
             && p.Leads() && q.Leads() && q.flight == p.flight && !q.Running?
             && (q.Counted() || q.Releasing? ==> p.Counted() || p.Releasing?)
             && (q.Landing? ==> q.out == TOO_BUSY || p.Releasing?)
    ensures Structure(t)
  {
    assert CallerOK(s, c, s.callers[c]);
    SoloKeepsStructure(s, t, c);
  }

  /** Phases in which a caller has nothing to do with any flight. */
  predicate Apart(p: Phase) {
    p.Entering? || p.Looking? || p.Joining? || (p.Returned? && !p.how.ByFlight?)
  }

  lemma ApartKeepsStructure(s: State, t: State, c: nat)
    requires Structure(s) && t.flights == s.flights && t.open == s.open && t.time >= s.time
    requires c in t.callers && Apart(t.callers[c].phase) && t.callers == s.callers[c := t.callers[c]]
    requires t.callers[c].enteredAt <= t.time
    ensures Structure(t)
  {
    hide Structure;
    SoloKeepsStructure(s, t, c);
  }

  lemma EnteredInPast(s: State, c: nat)
    requires Structure(s) && c in s.callers
    ensures s.callers[c].enteredAt <= s.time
  {
    assert CallerOK(s, c, s.callers[c]);
  }

  lemma EarlyStepKeepsStructure(cfg: Settings, s: State, step: Step)
    requires Structure(s) && Enabled(cfg, s, step) && (step.Call? || step.AskBackoff? || step.LookUp?)
    ensures Structure(Next(cfg, s, step))
  {
    hide Structure, Allows, LookedUp;
    if !step.Call? { EnteredInPast(s, step.c); }
    ApartKeepsStructure(s, Next(cfg, s, step), step.c);
  }

  lemma ReceiveKeepsStructure(cfg: Settings, s: State, c: nat)
    requires Structure(s) && Enabled(cfg, s, Receive(c))
    ensures Structure(Next(cfg, s, Receive(c)))
  {
    assert CallerOK(s, c, s.callers[c]);
    assert FlightOK(s, s.callers[c].phase.awaited, s.flights[s.callers[c].phase.awaited]);
    hide Structure;
    SoloKeepsStructure(s, Next(cfg, s, Receive(c)), c);
  }

  lemma StepKeepsStructure(cfg: Settings, s: State, step: Step)
    requires Structure(s) && Enabled(cfg, s, step)
    ensures Structure(Next(cfg, s, step))
  {
    hide Structure, CallerOK, Allows, LookedUp, Stored, Recorded;
    match step
    case Join(c) => JoinKeepsStructure(cfg, s, c);
    case Count(c) => CountKeepsStructure(cfg, s, c);
    case Land(c) => LandKeepsStructure(cfg, s, c);
    case Receive(c) => ReceiveKeepsStructure(cfg, s, c);
    case ForgetCached(_) => IdleKeepsStructure(s, Next(cfg, s, step));
    case ForgetBackoff(_) => IdleKeepsStructure(s, Next(cfg, s, step));
    case Call(_, _) => EarlyStepKeepsStructure(cfg, s, step);
    case AskBackoff(_, _) => EarlyStepKeepsStructure(cfg, s, step);
    case LookUp(_, _) => EarlyStepKeepsStructure(cfg, s, step);
    case _ => LeaderKeepsStructure(s, Next(cfg, s, step), step.c);
  }

  lemma IdleKeepsStructure(s: State, t: State)
    requires Structure(s) && t.flights == s.flights && t.open == s.open && t.callers == s.callers && t.time >= s.time
    ensures Structure(t)
  {
    forall d | d in t.callers ensures CallerOK(t, d, t.callers[d]) { assert CallerOK(s, d, s.callers[d]); }
    forall f | 0 <= f < |t.flights| ensures FlightOK(t, f, t.flights[f]) { assert FlightOK(s, f, s.flights[f]); }
  }

  // ---- Every interleaving -----------------------------------------------------------

  ghost predicate Execution(cfg: Settings, ss: seq<State>, steps: seq<Step>) {
    && |ss| == |steps| + 1 && ss[0] == START
    && forall i :: 0 <= i < |steps| ==> Enabled(cfg, ss[i], steps[i]) && ss[i + 1] == Next(cfg, ss[i], steps[i])
  }

  lemma {:induction false} ReachableInv(cfg: Settings, ss: seq<State>, steps: seq<Step>, n: nat)
    requires Execution(cfg, ss, steps) && n < |ss|
    ensures Inv(cfg, ss[n])
  {
    hide Structure, Counts, Next, Enabled;
    if n == 0 {
      StartInv(cfg);
    } else {
      ReachableInv(cfg, ss, steps, n - 1);
      assert ss[n - 1 + 1] == Next(cfg, ss[n - 1], steps[n - 1]);
      StepKeepsStructure(cfg, ss[n - 1], steps[n - 1]);
      StepKeepsCounts(cfg, ss[n - 1], steps[n - 1]);
    }
  }

  lemma StartInv(cfg: Settings)
    ensures Inv(cfg, START)
  {
    assert TokenHolders(START.callers) == {} && InFlightCallers(START.callers) == {};
  }

  ghost predicate RunsProbe(s: State, c: nat) {
    c in s.callers && s.callers[c].phase.Running?
  }

  /** Limiter safety, in every interleaving of calls: at most MaxConcurrent probes run, at
      most one of them per device; every probe counted in flight holds a token, and the two
      counts differ only by the callers between taking a token and counting, or between
      uncounting and giving it back. */
  lemma LimiterSafety(cfg: Settings, ss: seq<State>, steps: seq<Step>, n: nat)
    requires Execution(cfg, ss, steps) && n < |ss|
    ensures var s := ss[n];
            && |ProbeRunners(s.callers)| <= cfg.maxConcurrent
            && (forall c, d :: RunsProbe(s, c) && RunsProbe(s, d) && s.callers[c].id == s.callers[d].id ==> c == d)
            && s.held - s.inFlight == |OffCount(s.callers)|
            && 0 <= s.inFlight <= s.held <= cfg.maxConcurrent
  {
    ReachableInv(cfg, ss, steps, n);
    var s := ss[n];
    forall c, d | RunsProbe(s, c) && RunsProbe(s, d) && s.callers[c].id == s.callers[d].id ensures c == d {
      assert CallerOK(s, c, s.callers[c]) && CallerOK(s, d, s.callers[d]);
    }
    hide Structure, Execution;
    TokensSplit(s.callers);
  }

  lemma TokensSplit(callers: map<nat, Caller>)
    ensures |TokenHolders(callers)| == |InFlightCallers(callers)| + |OffCount(callers)|
    ensures |ProbeRunners(callers)| <= |TokenHolders(callers)|
  {
    SubsetIsNoLarger(ProbeRunners(callers), TokenHolders(callers));
    assert TokenHolders(callers) == InFlightCallers(callers) + OffCount(callers);
    assert InFlightCallers(callers) !! OffCount(callers);
  }

  /** A caller neither backed off nor served from the cache returns the outcome of a flight
      for its own device that overlapped its call: it had not landed when the caller
      entered, and had taken off when the caller returned. */
  lemma OutcomeOfOverlappingFlight(cfg: Settings, ss: seq<State>, steps: seq<Step>, n: nat, c: nat)
    requires Execution(cfg, ss, steps) && n < |ss|
    requires c in ss[n].callers && ss[n].callers[c].phase.Returned?
    requires !ss[n].callers[c].phase.how.ByBackoff? && !ss[n].callers[c].phase.how.ByCache?
    ensures var s, caller := ss[n], ss[n].callers[c];
            exists f :: 0 <= f < |s.flights| && s.flights[f].id == caller.id && s.flights[f].landed.Some?
                        && s.flights[f].landed.value.1 == caller.phase.how.outcome
                        && caller.enteredAt <= s.flights[f].landed.value.0
                        && s.flights[f].startedAt <= caller.phase.at
  {
    ReachableInv(cfg, ss, steps, n);
    assert CallerOK(ss[n], c, ss[n].callers[c]);
  }

  /** Being too busy is never held against the device. A flight whose probe never ran lands
      as in_flight_limit, and, Forget aside, only a step of a caller whose flight did run its
      probe ever changes a failure record or the cache. */
  lemma TooBusyLeavesNoTrace(cfg: Settings, ss: seq<State>, steps: seq<Step>, n: nat)
    requires Execution(cfg, ss, steps) && n < |steps|
    ensures forall f :: 0 <= f < |ss[n].flights| && ss[n].flights[f].landed.Some? && !ss[n].flights[f].ran
                        ==> ss[n].flights[f].landed.value.1 == TOO_BUSY
    ensures !steps[n].ForgetCached? && !steps[n].ForgetBackoff?
            && (ss[n + 1].backoff != ss[n].backoff || ss[n + 1].cache != ss[n].cache) ==>
              var c := steps[n].c;
              c in ss[n].callers && ss[n].callers[c].phase.Leads() && ss[n].callers[c].phase.flight < |ss[n].flights|
              && ss[n].flights[ss[n].callers[c].phase.flight].ran
  {
    ReachableInv(cfg, ss, steps, n);
    var s, step := ss[n], steps[n];
    assert Enabled(cfg, s, step) && ss[n + 1] == Next(cfg, s, step);
    forall f | 0 <= f < |s.flights| && s.flights[f].landed.Some? && !s.flights[f].ran
      ensures s.flights[f].landed.value.1 == TOO_BUSY
    {
      assert FlightOK(s, f, s.flights[f]);
    }
    if step.RecordOutcome? || step.StoreOutcome? {
      assert CallerOK(s, step.c, s.callers[step.c]);
    }
  }

  // ---- Behind an open breaker ---------------------------------------------------------

  /** The caller has been let through the breaker. */
  predicate PastGate(p: Phase) { !p.Entering? && !(p.Returned? && p.how.ByBackoff?) }

  lemma OneStepOfCaller(cfg: Settings, s: State, step: Step, c: nat)
    requires Enabled(cfg, s, step) && c in Next(cfg, s, step).callers
    ensures var t := Next(cfg, s, step);
            if c !in s.callers then t.callers[c].phase.Entering?
            else
              && t.callers[c].id == s.callers[c].id
              && (PastGate(t.callers[c].phase) ==>
                    PastGate(s.callers[c].phase) || (step.AskBackoff? && step.c == c && Allows(s.backoff, s.callers[c].id, step.now)))
  {
    hide LookedUp, Stored, Recorded, Allows;
  }

  /** At step m the caller asked the breaker, and was let through. */
  ghost predicate LetThrough(ss: seq<State>, steps: seq<Step>, m: nat, c: nat, id: string) {
    && m < |ss| && m < |steps| && steps[m].AskBackoff? && steps[m].c == c
    && Allows(ss[m].backoff, id, steps[m].now)
  }

  /** Every caller past the gate asked at some earlier step, and was let through then. */
  lemma {:induction false} AskedFirst(cfg: Settings, ss: seq<State>, steps: seq<Step>, n: nat, c: nat)
    requires Execution(cfg, ss, steps) && n < |ss| && c in ss[n].callers && PastGate(ss[n].callers[c].phase)
    ensures exists m: nat :: m < n && LetThrough(ss, steps, m, c, ss[n].callers[c].id)
  {
    if n > 0 {
      LinkAt(cfg, ss, steps, n - 1);
      hide Execution, Next, Enabled, PastGate, Allows;
      OneStepOfCaller(cfg, ss[n - 1], steps[n - 1], c);
      if c in ss[n - 1].callers && PastGate(ss[n - 1].callers[c].phase) {
        AskedFirst(cfg, ss, steps, n - 1, c);
      } else {
        EnteringIsOutside(ss[n].callers[c].phase);
        assert LetThrough(ss, steps, n - 1, c, ss[n].callers[c].id);
      }
    }
  }

  lemma EnteringIsOutside(p: Phase)
    ensures p.Entering? ==> !PastGate(p)
  {
  }

  lemma LinkAt(cfg: Settings, ss: seq<State>, steps: seq<Step>, i: nat)
    requires Execution(cfg, ss, steps) && i < |steps|
    ensures Enabled(cfg, ss[i], steps[i]) && ss[i + 1] == Next(cfg, ss[i], steps[i])
  {
    hide Enabled, Next;
  }

  function RecordOf(b: Records, id: string): Option<DeviceBackoff> { if id in b then Some(b[id]) else None }

  /** Only an outcome of the device's own, or a forgetting, changes a device's record. */
  lemma RecordChanges(cfg: Settings, s: State, step: Step, id: string)
    requires Enabled(cfg, s, step) && RecordOf(Next(cfg, s, step).backoff, id) != RecordOf(s.backoff, id)
    ensures || (step.RecordOutcome? && s.callers[step.c].id == id)
            || (step == ForgetBackoff(id) && id !in Next(cfg, s, step).backoff)
  {
    hide LookedUp, Stored, Allows, Wait;
  }

  lemma AllowsByRecord(a: Records, b: Records, id: string, now: real)
    requires RecordOf(a, id) == RecordOf(b, id)
    ensures Allows(a, id, now) <==> Allows(b, id, now)
  {
  }

  lemma AllowsLater(b: Records, id: string, asked: real, now: real)
    requires asked <= now && Allows(b, id, asked)
    ensures Allows(b, id, now)
  {
  }

  /** Step k recorded an outcome of the device that puts its next attempt after `now`, and
      nothing has touched its record from then until state n. */
  ghost predicate Opened(ss: seq<State>, steps: seq<Step>, k: nat, n: nat, id: string, now: real) {
    && k < n < |ss| && |ss| == |steps| + 1
    && steps[k].RecordOutcome? && steps[k].c in ss[k].callers && ss[k].callers[steps[k].c].id == id
    && !Allows(ss[k + 1].backoff, id, now)
    && forall j :: k < j < n ==> RecordOf(ss[j + 1].backoff, id) == RecordOf(ss[j].backoff, id)
  }

  /** Since it let a caller through at state m, the breaker has come to refuse, at state n and
      a clock not run back, exactly if an outcome of the device recorded in between opened
      it and nothing has touched the record since. */
  lemma {:induction false} RefusesExactlyWhen(cfg: Settings, ss: seq<State>, steps: seq<Step>, m: nat, n: nat, id: string, asked: real, now: real)
    requires Execution(cfg, ss, steps) && m <= n < |ss| && asked <= now && Allows(ss[m].backoff, id, asked)
    ensures !Allows(ss[n].backoff, id, now) <==> exists k: nat :: m <= k && Opened(ss, steps, k, n, id, now)
    decreases n
  {
    if m == n {
      AllowsLater(ss[m].backoff, id, asked, now);
    } else {
      var p := n - 1;
      LinkAt(cfg, ss, steps, p);
      RefusesExactlyWhen(cfg, ss, steps, m, p, id, asked, now);
      assert |ss| == |steps| + 1;
      hide Execution, Next, Enabled, Allows, RecordOf, Opened;
      if RecordOf(ss[n].backoff, id) == RecordOf(ss[p].backoff, id) {
        AllowsByRecord(ss[n].backoff, ss[p].backoff, id, now);
        OpenedStays(ss, steps, p, n, id, now, m);
      } else {
        RecordChanges(cfg, ss[p], steps[p], id);
        OpenedJustNow(cfg, ss, steps, p, n, id, now, m);
      }
    }
  }

  lemma OpenedStays(ss: seq<State>, steps: seq<Step>, p: nat, n: nat, id: string, now: real, m: nat)
    requires p + 1 == n < |ss| && |ss| == |steps| + 1 && m <= p
    requires RecordOf(ss[n].backoff, id) == RecordOf(ss[p].backoff, id)
    requires !Allows(ss[p].backoff, id, now) <==> exists k: nat :: m <= k && Opened(ss, steps, k, p, id, now)
    requires Allows(ss[n].backoff, id, now) <==> Allows(ss[p].backoff, id, now)
    ensures !Allows(ss[n].backoff, id, now) <==> exists k: nat :: m <= k && Opened(ss, steps, k, n, id, now)
  {
    hide Allows, RecordOf;
    if k: nat :| m <= k && Opened(ss, steps, k, p, id, now) {
      assert Opened(ss, steps, k, n, id, now);
    }
    if k: nat :| m <= k && Opened(ss, steps, k, n, id, now) {
      if k < p { assert Opened(ss, steps, k, p, id, now); }
    }
  }

  lemma UntouchedSince(ss: seq<State>, steps: seq<Step>, k: nat, n: nat, id: string, now: real, j: nat)
    requires Opened(ss, steps, k, n, id, now) && j < n
    ensures k < j ==> RecordOf(ss[j + 1].backoff, id) == RecordOf(ss[j].backoff, id)
  {
    hide RecordOf;
  }

  lemma OpenedJustNow(cfg: Settings, ss: seq<State>, steps: seq<Step>, p: nat, n: nat, id: string, now: real, m: nat)
    requires p + 1 == n < |ss| && |ss| == |steps| + 1 && m <= p && Enabled(cfg, ss[p], steps[p])
    requires RecordOf(ss[n].backoff, id) != RecordOf(ss[p].backoff, id)
    requires (steps[p].RecordOutcome? && ss[p].callers[steps[p].c].id == id) || id !in ss[n].backoff
    ensures !Allows(ss[n].backoff, id, now) <==> exists k: nat :: m <= k && Opened(ss, steps, k, n, id, now)
  {
    hide RecordOf;
    if k: nat :| m <= k && Opened(ss, steps, k, n, id, now) {
      UntouchedSince(ss, steps, k, n, id, now, p);
      assert k == p;
    }
    if !Allows(ss[n].backoff, id, now) {
      assert Opened(ss, steps, p, n, id, now);
    }
  }

  /** A probe runs behind an open breaker exactly when the breaker opened after the probe's
      caller had asked it. In every execution, a running probe's caller asked the breaker
      first and was let through; and whenever it asked, at any later clock reading the
      breaker by now refuses newcomers exactly if an outcome of the device was recorded in
      between that opened it and still stands. */
  lemma ProbesBehindOpenBreaker(cfg: Settings, ss: seq<State>, steps: seq<Step>, n: nat, c: nat, now: real)
    requires Execution(cfg, ss, steps) && n < |ss| && RunsProbe(ss[n], c)
    ensures var id := ss[n].callers[c].id;
            && (exists m: nat :: m < n && LetThrough(ss, steps, m, c, id))
            && forall m: nat :: m < n && LetThrough(ss, steps, m, c, id) && steps[m].now <= now ==>
                 (!Allows(ss[n].backoff, id, now) <==> exists k: nat :: m <= k && Opened(ss, steps, k, n, id, now))
  {
    var id := ss[n].callers[c].id;
    AskedFirst(cfg, ss, steps, n, c);
    hide Execution, Allows, Opened;
    forall m: nat | m < n && LetThrough(ss, steps, m, c, id) && steps[m].now <= now
      ensures !Allows(ss[n].backoff, id, now) <==> exists k: nat :: m <= k && Opened(ss, steps, k, n, id, now)
    {
      RefusesExactlyWhen(cfg, ss, steps, m, n, id, steps[m].now, now);
    }
  }

  // ---- A run that gets there ----------------------------------------------------------

  /** One token, no cache, a breaker that opens at the first failure for one unit of time. */
  const TIGHT := Settings(1, 0.0, Config(1, 1.0, 1.0, 1.0, 1.0, 2.0, 0.0))

  const TIMED_OUT := Outcome([], Result(false, Timeout))

  /** Two callers of one device. */
  function Pair(id: string, p: Phase, q: Phase): map<nat, Caller> { map[0 := Caller(id, 0, p), 1 := Caller(id, 1, q)] }

  function Shut(id: string): Records { map[id := DeviceBackoff(1, Some(1.0), Timeout)] }

  function FirstFlight(id: string, ran: bool, landed: Option<(nat, Outcome)>): Flight { Flight(id, 0, 6, ran, landed) }

  function LandedFlight(id: string): Flight { FirstFlight(id, true, Some((14, TIMED_OUT))) }

  /** Both ask and are let through; the first leads a flight, fails and lands; the second,
      finding no flight to join, leads its own. */
  function OvertakenStep(id: string, i: int): Step {
    match i
    case 0 => Call(0, id)
    case 1 => Call(1, id)
    case 2 => AskBackoff(0, 0.0)
    case 3 => AskBackoff(1, 0.0)
    case 4 => LookUp(0, 0.0)
    case 5 => LookUp(1, 0.0)
    case 6 => Join(0)
    case 7 => Acquire(0)
    case 8 => Count(0)
    case 9 => Finish(0, TIMED_OUT)
    case 10 => RecordOutcome(0, 0.0, 0.0)
    case 11 => StoreOutcome(0, 0.0)
    case 12 => Uncount(0)
    case 13 => Release(0)
    case 14 => Land(0)
    case 15 => Join(1)
    case 16 => Acquire(1)
    case _ => Count(1)
  }

  function OvertakenState(id: string, i: int): State {
    var none: Records, empty: Cache, over := map[], map[], Returned(ByFlight(0, TIMED_OUT), 14);
    match i
    case 0 => START
    case 1 => State(none, empty, 0, 0, map[], [], map[0 := Caller(id, 0, Entering)], 1)
    case 2 => State(none, empty, 0, 0, map[], [], Pair(id, Entering, Entering), 2)
    case 3 => State(none, empty, 0, 0, map[], [], Pair(id, Looking, Entering), 3)
    case 4 => State(none, empty, 0, 0, map[], [], Pair(id, Looking, Looking), 4)
    case 5 => State(none, empty, 0, 0, map[], [], Pair(id, Joining, Looking), 5)
    case 6 => State(none, empty, 0, 0, map[], [], Pair(id, Joining, Joining), 6)
    case 7 => State(none, empty, 0, 0, map[id := 0], [FirstFlight(id, false, None)], Pair(id, Acquiring(0), Joining), 7)
    case 8 => State(none, empty, 1, 0, map[id := 0], [FirstFlight(id, false, None)], Pair(id, Starting(0), Joining), 8)
    case 9 => State(none, empty, 1, 1, map[id := 0], [FirstFlight(id, true, None)], Pair(id, Running(0), Joining), 9)
    case 10 => State(none, empty, 1, 1, map[id := 0], [FirstFlight(id, true, None)], Pair(id, Recording(0, TIMED_OUT), Joining), 10)
    case 11 => State(Shut(id), empty, 1, 1, map[id := 0], [FirstFlight(id, true, None)], Pair(id, Storing(0, TIMED_OUT), Joining), 11)
    case 12 => State(Shut(id), empty, 1, 1, map[id := 0], [FirstFlight(id, true, None)], Pair(id, Uncounting(0, TIMED_OUT), Joining), 12)
    case 13 => State(Shut(id), empty, 1, 0, map[id := 0], [FirstFlight(id, true, None)], Pair(id, Releasing(0, TIMED_OUT), Joining), 13)
    case 14 => State(Shut(id), empty, 0, 0, map[id := 0], [FirstFlight(id, true, None)], Pair(id, Landing(0, TIMED_OUT), Joining), 14)
    case 15 => State(Shut(id), empty, 0, 0, map[], [LandedFlight(id)], Pair(id, over, Joining), 15)
    case 16 => State(Shut(id), empty, 0, 0, map[id := 1], [LandedFlight(id), Flight(id, 1, 15, false, None)], Pair(id, over, Acquiring(1)), 16)
    case 17 => State(Shut(id), empty, 1, 0, map[id := 1], [LandedFlight(id), Flight(id, 1, 15, false, None)], Pair(id, over, Starting(1)), 17)
    case _ => State(Shut(id), empty, 1, 1, map[id := 1], [LandedFlight(id), Flight(id, 1, 15, true, None)], Pair(id, over, Running(1)), 18)
  }

  lemma PairMoves(id: string)
    ensures forall p, q, r :: Pair(id, p, q)[0 := Caller(id, 0, r)] == Pair(id, r, q)
    ensures forall p, q, r :: Pair(id, p, q)[1 := Caller(id, 1, r)] == Pair(id, p, r)
    ensures forall p, q :: 0 in Pair(id, p, q) && Pair(id, p, q)[0] == Caller(id, 0, p)
    ensures forall p, q :: 1 in Pair(id, p, q) && Pair(id, p, q)[1] == Caller(id, 1, q)
  {
  }

  lemma WaitsOne()
    ensures Wait(TIGHT.backoff, 1, Timeout, 0.0) == 1.0
  {
    hide Spread, Times;
    TimesUnit(1.0);
  }

  lemma ShutAfter(id: string)
    ensures Recorded(TIGHT.backoff, map[], id, TIMED_OUT.result, 0.0, 0.0) == Shut(id)
    ensures Allows(map[], id, 0.0) && !Allows(Shut(id), id, 0.5)
  {
    WaitsOne();
    hide Wait;
  }

  predicate Linked(id: string, i: int) {
    && Enabled(TIGHT, OvertakenState(id, i), OvertakenStep(id, i))
    && OvertakenState(id, i + 1) == Next(TIGHT, OvertakenState(id, i), OvertakenStep(id, i))
  }

  lemma FirstCalls(id: string)
    ensures Linked(id, 0) && Linked(id, 1)
  {
    ShutAfter(id);
    PairMoves(id);
    hide Recorded, Allows, Shut;
  }

  lemma BothAsk(id: string)
    ensures Linked(id, 2) && Linked(id, 3)
  {
    ShutAfter(id);
    PairMoves(id);
    hide Recorded, Allows, Pair, Shut;
  }

  lemma BothLookUp(id: string)
    ensures Linked(id, 4) && Linked(id, 5)
  {
    ShutAfter(id);
    PairMoves(id);
    hide Recorded, Allows, Pair, Shut;
  }

  lemma FirstJoins(id: string)
    ensures Linked(id, 6) && Linked(id, 7)
  {
    ShutAfter(id);
    PairMoves(id);
    hide Recorded, Allows, Pair, Shut;
  }

  lemma FirstRuns(id: string)
    ensures Linked(id, 8) && Linked(id, 9)
  {
    ShutAfter(id);
    PairMoves(id);
    hide Recorded, Allows, Pair, Shut;
  }

  lemma FirstFails(id: string)
    ensures Linked(id, 10) && Linked(id, 11)
  {
    ShutAfter(id);
    PairMoves(id);
    hide Recorded, Allows, Pair, Shut;
  }

  lemma FirstLetsGo(id: string)
    ensures Linked(id, 12) && Linked(id, 13)
  {
    ShutAfter(id);
    PairMoves(id);
    hide Recorded, Allows, Pair, Shut;
  }

  lemma SecondTakesOver(id: string)
    ensures Linked(id, 14) && Linked(id, 15)
  {
    ShutAfter(id);
    PairMoves(id);
    hide Recorded, Allows, Pair, Shut;
  }

  lemma SecondRuns(id: string)
    ensures Linked(id, 16) && Linked(id, 17)
  {
    ShutAfter(id);
    PairMoves(id);
    hide Recorded, Allows, Pair, Shut;
  }

  lemma OvertakenLinked(id: string, i: nat)
    requires i < 18
    ensures Linked(id, i)
  {
    hide Linked;
    FirstCalls(id);
    BothAsk(id);
    BothLookUp(id);
    FirstJoins(id);
    FirstRuns(id);
    FirstFails(id);
    FirstLetsGo(id);
    SecondTakesOver(id);
    SecondRuns(id);
  }

  /** The run, from the start: at its end the second caller's probe runs while the breaker
      turns newcomers away. */
  lemma ProbeOvertakenByFailure(id: string)
    ensures Execution(TIGHT, seq(19, i => OvertakenState(id, i)), seq(18, i => OvertakenStep(id, i)))
    ensures var s := OvertakenState(id, 18);
            RunsProbe(s, 1) && s.callers[1].id == id && !Allows(s.backoff, id, 0.5)
  {
    forall i | 0 <= i < 18
      ensures Enabled(TIGHT, OvertakenState(id, i), OvertakenStep(id, i))
      ensures OvertakenState(id, i + 1) == Next(TIGHT, OvertakenState(id, i), OvertakenStep(id, i))
    {
      OvertakenLinked(id, i);
      hide Enabled, Next, OvertakenState, OvertakenStep;
    }
    ShutAfter(id);
    assert OvertakenState(id, 0) == START && RunsProbe(OvertakenState(id, 18), 1);
    hide Enabled, Next, Allows, OvertakenState, OvertakenStep;
  }
}
