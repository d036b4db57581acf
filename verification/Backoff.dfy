/** The per-device breaker: after enough failures a device is left alone for a growing,
    capped and jittered while (internal/probe/backoff.go). Times and durations are reals. */
module Backoffs {
  import opened Common

  datatype Reason =
    | NoReason | Timeout | ConnRefused | NoRoute | NoAddress | Auth | HTTPStatus | Decode
    | MACMismatch | BackoffReason | InFlightLimit | NotConnected

  predicate IsDeviceFault(r: Reason) { !r.NoReason? && !r.InFlightLimit? && !r.BackoffReason? }

  predicate IsAuth(r: Reason) { r.Auth? }

  datatype Result = Result(success: bool, reason: Reason)

  /** The settings; Validate demands a factor above one and a jitter in [0, 1). */
  datatype Config = Config(
    failuresBeforeOpen: int, initial: real, max: real, authInitial: real, authMax: real,
    factor: real, jitter: real)

  /** What the configuration is checked for. */
  predicate Checked(c: Config) { c.factor > 1.0 && 0.0 <= c.jitter < 1.0 }

  /** What is kept of a failing device; no next attempt is Go's zero time. */
  datatype DeviceBackoff = DeviceBackoff(failures: nat, nextAttempt: Option<real>, lastReason: Reason)

  type Records = map<string, DeviceBackoff>

  function MinReal(a: real, b: real): real { if a < b then a else b }

  lemma MinRealMono(x: real, y: real, m: real)
    requires x <= y
    ensures MinReal(x, m) <= MinReal(y, m)
  {
  }

  /** Multiplication of reals, by name, so that proofs meet its laws one at a time. */
  function Times(a: real, b: real): real { a * b }

  lemma TimesMono(a: real, x: real, y: real)
    requires a >= 0.0 && x <= y
    ensures Times(a, x) <= Times(a, y) && Times(x, a) <= Times(y, a)
  {
  }

  lemma TimesUnit(a: real)
    ensures Times(a, 1.0) == a == Times(1.0, a) && Times(a, 0.0) == 0.0 == Times(0.0, a)
  {
  }

  lemma TimesPositive(a: real, b: real)
    requires a > 0.0 && b > 0.0
    ensures Times(a, b) > 0.0
  {
  }

  lemma TimesOneMore(n: real, a: real)
    ensures Times(n + 1.0, a) == Times(n, a) + a
  {
  }

  function Pow(b: real, n: nat): real {
    if n == 0 then 1.0 else Times(b, Pow(b, n - 1))
  }

  lemma {:induction false} PowAtLeastOne(b: real, n: nat)
    requires b > 1.0
    ensures Pow(b, n) >= 1.0
  {
    hide Times;
    if n > 0 {
      PowAtLeastOne(b, n - 1);
      TimesMono(Pow(b, n - 1), 1.0, b);
      TimesUnit(Pow(b, n - 1));
    }
  }

  function InitialOf(c: Config, r: Reason): real { if IsAuth(r) then c.authInitial else c.initial }

  function MaxOf(c: Config, r: Reason): real { if IsAuth(r) then c.authMax else c.max }

  /** The wait before jitter: an exponential ladder, capped. */
  function Ladder(c: Config, failures: nat, r: Reason): real
    requires failures >= c.failuresBeforeOpen
  {
    MinReal(Times(InitialOf(c, r), Pow(c.factor, failures - c.failuresBeforeOpen)), MaxOf(c, r))
  }

  /** The least the ladder for a reason ever waits before jitter. */
  function Floor(c: Config, r: Reason): real { MinReal(InitialOf(c, r), MaxOf(c, r)) }

  /** The ladder never passes its cap, and from a first rung above zero it never falls below
      the lesser of the two; from one below zero it stays below it. */
  lemma LadderBounds(c: Config, failures: nat, r: Reason)
    requires Checked(c) && failures >= c.failuresBeforeOpen
    ensures Ladder(c, failures, r) <= MaxOf(c, r)
    ensures InitialOf(c, r) >= 0.0 ==> Floor(c, r) <= Ladder(c, failures, r)
    ensures InitialOf(c, r) <= 0.0 ==> Ladder(c, failures, r) <= Floor(c, r)
  {
    hide Times, Pow;
    var p := Pow(c.factor, failures - c.failuresBeforeOpen);
    PowAtLeastOne(c.factor, failures - c.failuresBeforeOpen);
    TimesUnit(InitialOf(c, r));
    if InitialOf(c, r) >= 0.0 { TimesMono(InitialOf(c, r), 1.0, p); }
    if InitialOf(c, r) <= 0.0 { TimesTurn(InitialOf(c, r), 1.0, p); }
  }

  /** The ladder never falls as failures mount, unless its first rung is below zero; then it
      never climbs. */
  lemma LadderClimbs(c: Config, failures: nat, r: Reason)
    requires Checked(c) && failures >= c.failuresBeforeOpen
    ensures InitialOf(c, r) >= 0.0 ==> Ladder(c, failures, r) <= Ladder(c, failures + 1, r)
    ensures InitialOf(c, r) <= 0.0 ==> Ladder(c, failures + 1, r) <= Ladder(c, failures, r)
  {
    hide Times;
    var n := failures - c.failuresBeforeOpen;
    var p := Pow(c.factor, n);
    PowAtLeastOne(c.factor, n);
    TimesMono(p, 1.0, c.factor);
    TimesUnit(p);
    assert Pow(c.factor, n + 1) == Times(c.factor, p);
    var now, next := Times(InitialOf(c, r), p), Times(InitialOf(c, r), Times(c.factor, p));
    if InitialOf(c, r) >= 0.0 {
      TimesMono(InitialOf(c, r), p, Times(c.factor, p));
      MinRealMono(now, next, MaxOf(c, r));
    }
    if InitialOf(c, r) <= 0.0 {
      TimesTurn(InitialOf(c, r), p, Times(c.factor, p));
      MinRealMono(next, now, MaxOf(c, r));
    }
  }

  /** An authentication failure climbs a ladder of its own, and every other failure the common
      one. Either starts at the lesser of its first rung and its cap, and each failure more
      multiplies the wait by the factor, until the cap. */
  lemma LadderRungByRung(c: Config, failures: nat, r: Reason)
    requires Checked(c) && failures >= c.failuresBeforeOpen
    ensures var (first, cap) := if r == Auth then (c.authInitial, c.authMax) else (c.initial, c.max);
            && (failures == c.failuresBeforeOpen ==> Ladder(c, failures, r) == MinReal(first, cap))
            && (first >= 0.0 && cap >= 0.0 ==> Ladder(c, failures + 1, r) == MinReal(Times(c.factor, Ladder(c, failures, r)), cap))
  {
    var n := failures - c.failuresBeforeOpen;
    var first, cap, p := InitialOf(c, r), MaxOf(c, r), Pow(c.factor, n);
    TimesUnit(first);
    TimesUnit(cap);
    assert Pow(c.factor, n + 1) == Times(c.factor, p);
    Turned(first, c.factor, p);
    PowAtLeastOne(c.factor, n);
    if first >= 0.0 && cap >= 0.0 {
      TimesMono(cap, 1.0, c.factor);
      TimesMono(p, 1.0, c.factor);
      TimesUnit(p);
      TimesMono(first, p, Times(c.factor, p));
      TimesCommute(c.factor, cap);
    }
    hide Times, Pow;
  }

  lemma Turned(a: real, b: real, c: real)
    ensures Times(a, Times(b, c)) == Times(b, Times(a, c))
  {
  }

  /** The breaker as a table of records, updated in place. */
  class Backoff {
    const cfg: Config
    var state: Records

    constructor (cfg: Config)
      ensures this.cfg == cfg && state == map[]
    {
      this.cfg := cfg;
      state := map[];
    }

    /** Whether a probe may proceed and, if not, how long remains. */
    method Allow(id: string, now: real) returns (allowed: bool, remaining: real)
      ensures allowed == Allows(state, id, now)
      ensures !allowed ==> id in state && state[id].nextAttempt == Some(now + remaining) && remaining > 0.0
      ensures allowed ==> remaining == 0.0
    {
      if id !in state || state[id].nextAttempt.None? { return true, 0.0; }
      var next := state[id].nextAttempt.value;
      if now >= next { return true, 0.0; }
      return false, next - now;
    }

    /** Computes the next wait, from a random draw in [0, 1). The running value is updated as
        the source updates it. */
    method Delay(failures: nat, reason: Reason, draw: real) returns (d: real)
      requires failures >= cfg.failuresBeforeOpen
      ensures d == Wait(cfg, failures, reason, draw)
    {
      hide Times, Pow, Spread;
      var initial, maxDelay := cfg.initial, cfg.max;
      if IsAuth(reason) { initial, maxDelay := cfg.authInitial, cfg.authMax; }
      var steps := failures - cfg.failuresBeforeOpen;
      d := Times(initial, Pow(cfg.factor, steps));
      if d > maxDelay { d := maxDelay; }
      if cfg.jitter > 0.0 {
        d := Spread(d, cfg.jitter, draw);
      }
    }

    /** Folds an outcome into the device's record. */
    method Record(id: string, res: Result, now: real, draw: real)
      modifies this`state
      ensures state == Recorded(cfg, old(state), id, res, now, draw)
    {
      if res.success {
        state := state - {id};
        return;
      }
      if !IsDeviceFault(res.reason) { return; }
      var st := if id in state then state[id] else DeviceBackoff(0, None, NoReason);
      st := st.(failures := st.failures + 1, lastReason := res.reason);
      if st.failures < cfg.failuresBeforeOpen {
        st := st.(nextAttempt := None);
      } else {
        var d := Delay(st.failures, res.reason, draw);
        st := st.(nextAttempt := Some(now + d));
      }
      state := state[id := st];
    }

    method Reset(id: string)
      modifies this`state
      ensures state == old(state) - {id}
    {
      state := state - {id};
    }

    /** How many devices are being left alone. */
    method Open(now: real) returns (n: nat)
      ensures n == |set id | id in state && !Allows(state, id, now)|
    {
      n := 0;
      var rest := state.Keys;
      ghost var open: set<string> := {};
      while rest != {}
        invariant rest <= state.Keys && n == |open|
        invariant open == set id | id in state && id !in rest && !Allows(state, id, now)
        decreases rest
      {
        var id :| id in rest;
        rest := rest - {id};
        if state[id].nextAttempt.Some? && now < state[id].nextAttempt.value {
          n := n + 1;
          open := open + {id};
        }
      }
      assert open == set id | id in state && !Allows(state, id, now);
    }
  }

  predicate Allows(state: Records, id: string, now: real) {
    id in state && state[id].nextAttempt.Some? ==> state[id].nextAttempt.value <= now
  }

  function FailuresOf(state: Records, id: string): nat {
    if id in state then state[id].failures else 0
  }

  /** Equal jitter: a draw in [0, 1) moves the wait within a fraction either way. */
  function Spread(d: real, jitter: real, draw: real): real {
    Times(d, 1.0 - jitter + Times(2.0 * jitter, draw))
  }

  /** The jittered wait. */
  function Wait(c: Config, failures: nat, r: Reason, draw: real): real
    requires failures >= c.failuresBeforeOpen
  {
    if c.jitter > 0.0 then Spread(Ladder(c, failures, r), c.jitter, draw) else Ladder(c, failures, r)
  }

  /** Whatever the draw, the wait lies within the jitter of the ladder, on either side of zero. */
  lemma WaitBounds(c: Config, failures: nat, r: Reason, draw: real)
    requires Checked(c) && failures >= c.failuresBeforeOpen && 0.0 <= draw < 1.0
    ensures var l, w := Ladder(c, failures, r), Wait(c, failures, r, draw);
            if l >= 0.0 then Times(1.0 - c.jitter, l) <= w <= Times(1.0 + c.jitter, l)
            else Times(1.0 + c.jitter, l) <= w <= Times(1.0 - c.jitter, l)
  {
    var l := Ladder(c, failures, r);
    SpreadBounds(l, c.jitter, draw);
    TimesUnit(l);
    if c.jitter == 0.0 {
      assert 1.0 - c.jitter == 1.0 == 1.0 + c.jitter;
    }
    hide Times, Ladder, Spread;
  }

  /** The draws spread the wait evenly over that band. */
  lemma WaitIsSpread(c: Config, failures: nat, r: Reason, draw: real)
    requires Checked(c) && failures >= c.failuresBeforeOpen
    ensures Wait(c, failures, r, draw) ==
            Times(1.0 - c.jitter, Ladder(c, failures, r)) + Times(draw, Times(2.0 * c.jitter, Ladder(c, failures, r)))
  {
    var l := Ladder(c, failures, r);
    Distributes(l, 1.0 - c.jitter, Times(2.0 * c.jitter, draw));
    TimesCommute(l, 1.0 - c.jitter);
    Turned(l, 2.0 * c.jitter, draw);
    Turned(draw, 2.0 * c.jitter, l);
    TimesCommute(l, draw);
    TimesUnit(l);
    TimesUnit(draw);
    if c.jitter == 0.0 {
      assert 2.0 * c.jitter == 0.0 && 1.0 - c.jitter == 1.0;
      TimesUnit(l);
    }
    hide Times, Ladder;
  }

  lemma Distributes(a: real, b: real, c: real)
    ensures Times(a, b + c) == Times(a, b) + Times(a, c)
  {
  }

  lemma SpreadBounds(d: real, jitter: real, draw: real)
    requires 0.0 <= jitter < 1.0 && 0.0 <= draw < 1.0
    ensures d >= 0.0 ==> Times(1.0 - jitter, d) <= Spread(d, jitter, draw) <= Times(1.0 + jitter, d)
    ensures d < 0.0 ==> Times(1.0 + jitter, d) <= Spread(d, jitter, draw) <= Times(1.0 - jitter, d)
  {
    var turn := 1.0 - jitter + Times(2.0 * jitter, draw);
    TimesMono(2.0 * jitter, 0.0, draw);
    TimesMono(2.0 * jitter, draw, 1.0);
    TimesUnit(2.0 * jitter);
    TimesCommute(1.0 - jitter, d);
    TimesCommute(1.0 + jitter, d);
    if d >= 0.0 {
      TimesMono(d, 1.0 - jitter, turn);
      TimesMono(d, turn, 1.0 + jitter);
    } else {
      TimesTurn(d, 1.0 - jitter, turn);
      TimesTurn(d, turn, 1.0 + jitter);
    }
    hide Times;
  }

  lemma TimesTurn(d: real, x: real, y: real)
    requires d <= 0.0 && x <= y
    ensures Times(d, y) <= Times(d, x)
  {
    TimesMono(-d, x, y);
    assert Times(-d, x) == -Times(d, x) && Times(-d, y) == -Times(d, y);
  }

  lemma TimesCommute(a: real, b: real)
    ensures Times(a, b) == Times(b, a)
  {
  }

  function Recorded(c: Config, state: Records, id: string, res: Result, now: real, draw: real): Records {
    if res.success then state - {id}
    else if !IsDeviceFault(res.reason) then state
    else
      var failures := FailuresOf(state, id) + 1;
      state[id := DeviceBackoff(failures,
                                if failures < c.failuresBeforeOpen then None else Some(now + Wait(c, failures, res.reason, draw)),
                                res.reason)]
  }

  /** A reason that is not the device's fault leaves every record alone, and no outcome
      touches another device. */
  lemma RecordTouchesOnlyFaults(c: Config, state: Records, id: string, res: Result, now: real, draw: real)
    ensures !res.success && !IsDeviceFault(res.reason) ==> Recorded(c, state, id, res, now, draw) == state
    ensures res.success ==> FailuresOf(Recorded(c, state, id, res, now, draw), id) == 0
                            && Allows(Recorded(c, state, id, res, now, draw), id, now)
    ensures forall other :: other != id ==>
              FailuresOf(Recorded(c, state, id, res, now, draw), other) == FailuresOf(state, other)
              && (Allows(Recorded(c, state, id, res, now, draw), other, now) <==> Allows(state, other, now))
  {
  }

  /** Every failure but being backed off or too busy counts against the device, one each;
      with too few of them it is let alone at no time, and from then on until the wait from
      this one is over. */
  lemma FaultsCount(c: Config, state: Records, id: string, reason: Reason, now: real, draw: real)
    requires reason != NoReason && reason != BackoffReason && reason != InFlightLimit
    ensures var after, count := Recorded(c, state, id, Result(false, reason), now, draw), FailuresOf(state, id) + 1;
            && FailuresOf(after, id) == count
            && forall at :: Allows(after, id, at) <==> count < c.failuresBeforeOpen || now + Wait(c, count, reason, draw) <= at
  {
    hide Wait;
  }

  // ---- A device that always fails ---------------------------------------------------

  /** One sequential probe: admitted at `contact`, failing with `reason` at `end`. */
  datatype Probe = Probe(contact: real, end: real, reason: Reason, draw: real)

  /** The records after a run of probes. */
  function After(c: Config, state: Records, id: string, ps: seq<Probe>): Records {
    if ps == [] then state
    else
      var p := ps[|ps| - 1];
      Recorded(c, After(c, state, id, ps[..|ps| - 1]), id, Result(false, p.reason), p.end, p.draw)
  }

  /** The probes follow one another, each admitted by Allow, each failing through a fault of
      the device, its floor at least `least`. */
  predicate Failing(c: Config, state: Records, id: string, ps: seq<Probe>, least: real) {
    ps == [] ||
    var before, p := ps[..|ps| - 1], ps[|ps| - 1];
    && Failing(c, state, id, before, least)
    && Allows(After(c, state, id, before), id, p.contact)
    && p.contact <= p.end && 0.0 <= p.draw < 1.0
    && IsDeviceFault(p.reason) && Floor(c, p.reason) >= least
    && (before != [] ==> before[|before| - 1].end <= p.contact)
  }

  lemma {:induction false} FailuresCount(c: Config, state: Records, id: string, ps: seq<Probe>, least: real)
    requires Failing(c, state, id, ps, least)
    ensures FailuresOf(After(c, state, id, ps), id) == FailuresOf(state, id) + |ps|
  {
    if ps != [] { FailuresCount(c, state, id, ps[..|ps| - 1], least); }
  }

  lemma FailingPrefix(c: Config, state: Records, id: string, ps: seq<Probe>, least: real, n: nat)
    requires Failing(c, state, id, ps, least) && n <= |ps|
    ensures Failing(c, state, id, ps[..n], least)
  {
    if n == |ps| {
      assert ps[..n] == ps;
    } else {
      assert ps[..|ps| - 1][..n] == ps[..n];
      FailingPrefix(c, state, id, ps[..|ps| - 1], least, n);
    }
  }

  /** The i-th probe, seen on its own. */
  lemma FailingAt(c: Config, state: Records, id: string, ps: seq<Probe>, least: real, i: nat)
    requires Failing(c, state, id, ps, least) && i < |ps|
    ensures var p := ps[i];
            && Allows(After(c, state, id, ps[..i]), id, p.contact)
            && p.contact <= p.end && 0.0 <= p.draw < 1.0 && IsDeviceFault(p.reason) && Floor(c, p.reason) >= least
            && (i > 0 ==> ps[i - 1].end <= p.contact)
            && After(c, state, id, ps[..i + 1]) == Recorded(c, After(c, state, id, ps[..i]), id, Result(false, p.reason), p.end, p.draw)
            && FailuresOf(After(c, state, id, ps[..i]), id) == FailuresOf(state, id) + i
  {
    FailingPrefix(c, state, id, ps, least, i + 1);
    FailingPrefix(c, state, id, ps, least, i);
    assert ps[..i + 1][..i] == ps[..i];
    FailuresCount(c, state, id, ps[..i], least);
    hide Allows, Recorded, Floor;
  }

  lemma NextAttemptSet(c: Config, state: Records, id: string, p: Probe, k: nat)
    requires IsDeviceFault(p.reason) && k == FailuresOf(state, id) + 1 && k >= c.failuresBeforeOpen
    ensures forall now :: Allows(Recorded(c, state, id, Result(false, p.reason), p.end, p.draw), id, now)
                          <==> p.end + Wait(c, k, p.reason, p.draw) <= now
  {
    hide Wait;
  }

  /** The least two contacts can be apart: the floor, less the jitter. */
  function Gap(c: Config, least: real): real {
    Times(1.0 - c.jitter, least)
  }

  /** The longest a device is ever left alone: the cap, plus the jitter. */
  function Longest(c: Config, r: Reason): real {
    Times(1.0 + c.jitter, MaxOf(c, r))
  }

  lemma WaitIsWithin(c: Config, failures: nat, r: Reason, draw: real, least: real)
    requires Checked(c) && failures >= c.failuresBeforeOpen && 0.0 <= draw < 1.0 && 0.0 < least <= Floor(c, r)
    ensures Gap(c, least) <= Wait(c, failures, r, draw) <= Longest(c, r)
  {
    assert InitialOf(c, r) > 0.0;
    hide Times, Wait, Floor, MaxOf, Ladder;
    LadderBounds(c, failures, r);
    WaitBounds(c, failures, r, draw);
    TimesMono(1.0 - c.jitter, least, Ladder(c, failures, r));
    TimesMono(1.0 + c.jitter, Ladder(c, failures, r), MaxOf(c, r));
  }

  /** Once open, consecutive contacts with an always-failing device are at least the
      jittered floor apart; and Allow admits again within the jittered cap. */
  lemma ContactsApart(c: Config, state: Records, id: string, ps: seq<Probe>, least: real, i: nat)
    requires Checked(c) && Failing(c, state, id, ps, least) && 0.0 < least && i + 1 < |ps|
    requires FailuresOf(state, id) + i + 1 >= c.failuresBeforeOpen
    ensures ps[i + 1].contact - ps[i].contact >= Gap(c, least)
    ensures Allows(After(c, state, id, ps[..i + 1]), id, ps[i].end + Longest(c, ps[i].reason))
  {
    FailingAt(c, state, id, ps, least, i);
    FailingAt(c, state, id, ps, least, i + 1);
    hide Times, Wait, Floor, MaxOf, Gap, Longest, After, Failing, Allows, Recorded;
    var p, k := ps[i], FailuresOf(state, id) + i + 1;
    WaitIsWithin(c, k, p.reason, p.draw, least);
    NextAttemptSet(c, After(c, state, id, ps[..i]), id, p, k);
  }

  /** So contacts i..j, all made once open, take at least j - i such gaps. */
  lemma {:induction false} ContactsBounded(c: Config, state: Records, id: string, ps: seq<Probe>, least: real, i: nat, j: nat)
    requires Checked(c) && Failing(c, state, id, ps, least) && 0.0 < least && i <= j < |ps|
    requires FailuresOf(state, id) + i + 1 >= c.failuresBeforeOpen
    ensures ps[j].contact - ps[i].contact >= Times((j - i) as real, Gap(c, least))
    decreases j - i
  {
    hide Times, Gap, Failing, Longest;
    if i < j {
      ContactsBounded(c, state, id, ps, least, i, j - 1);
      ContactsApart(c, state, id, ps, least, j - 1);
      TimesOneMore((j - 1 - i) as real, Gap(c, least));
    } else {
      TimesUnit(Gap(c, least));
    }
  }

  /** In any window, an always-failing device is contacted at most once more often than the
      window holds gaps. */
  lemma ContactsInWindow(c: Config, state: Records, id: string, ps: seq<Probe>, least: real, i: nat, j: nat, window: real)
    requires Checked(c) && Failing(c, state, id, ps, least) && 0.0 < least && i <= j < |ps|
    requires FailuresOf(state, id) + i + 1 >= c.failuresBeforeOpen
    requires ps[j].contact - ps[i].contact <= window
    ensures Gap(c, least) > 0.0
    ensures (j - i + 1) as real <= 1.0 + window / Gap(c, least)
  {
    TimesPositive(1.0 - c.jitter, least);
    assert Gap(c, least) > 0.0;
    hide Times, Gap, Failing;
    ContactsBounded(c, state, id, ps, least, i, j);
    DivBound((j - i) as real, window, Gap(c, least));
  }

  lemma DivBound(n: real, total: real, gap: real)
    requires gap > 0.0 && Times(n, gap) <= total
    ensures n <= total / gap
  {
    assert total / gap * gap == total;
    if n > total / gap {
      TimesPositive(n - total / gap, gap);
      assert false;
    }
  }
}
