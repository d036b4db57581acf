/** One ESPHome node's goroutine (internal/esphome/device.go): it dials, negotiates the
    transport, serves one connection at a time and backs off between sessions. Everything
    the network, the clock and the random source answer is an input; what the goroutine does
    is recorded, in order, in a ghost trace. */
module EspDevices {
  import opened Common
  import opened Identity
  import opened Backoffs

  datatype Mode = Noise | Plaintext

  /** Durations in seconds. */
  datatype Config = Config(
    key: string, requireEncryption: bool, password: string,
    connectBudget: real, pingFailThreshold: int, readDeadline: real)

  // ---- What the world answers --------------------------------------------------------

  datatype AuthAnswer = SendFails(error: string) | Rejected | Silent | Welcome

  datatype DialAnswer = Refused(error: string) | Accepted(auth: AuthAnswer)

  /** What the select in pump receives, and the states the reader goroutine takes in between.
      An answered ping has three moments: the cache is touched, a state may arrive, and the
      time of the last message is compared with the clock. */
  datatype Tick =
    | Cancelled
    | PeerClosed
    | DisconnectRequest
    | StateArrived(at: real)
    | PingMissed(error: string)
    | PingAnswered(touched: real, arrival: Option<real>, checked: real)
    | Refresh(compiled: Option<string>, listing: Option<string>)

  datatype Cancel = Never | InSession | InSleep

  /** One session's worth of answers; an error is Some(text). */
  datatype Script = Script(
    noise: DialAnswer, plaintext: DialAnswer, info: Option<string>, compiled: string, listing: Option<string>,
    subscribing: Option<string>, ticks: seq<Tick>, long: bool, draw: real, cancel: Cancel)

  // ---- What the goroutine does -------------------------------------------------------

  datatype Event =
    | Dialled(mode: Mode, key: string)
    | Opened
    | Closed
    | Settled(mode: Mode)
    | Ended(long: bool, clean: bool, auth: bool)
    | Slept(wait: real)

  type Trace = seq<Event>

  /** Connections opened and not yet closed. */
  function Live(t: Trace): int {
    if t == [] then 0 else
      Live(t[..|t| - 1]) + (match t[|t| - 1] case Opened => 1 case Closed => -1 case _ => 0)
  }

  /** The transport settled on, if any. */
  function Transport(t: Trace): Option<Mode> {
    if t == [] then None
    else if t[|t| - 1].Settled? then Some(t[|t| - 1].mode)
    else Transport(t[..|t| - 1])
  }

  /** How often the goroutine has slept since a session last stayed up. */
  function Rung(t: Trace): nat {
    if t == [] then 0 else
      match t[|t| - 1]
      case Ended(long, _, _) => if long then 0 else Rung(t[..|t| - 1])
      case Slept(_) => Rung(t[..|t| - 1]) + 1
      case _ => Rung(t[..|t| - 1])
  }

  function KeyOf(cfg: Config, mode: Mode): string { if mode.Noise? then cfg.key else "" }

  function Last(t: Trace): Option<Event> { if t == [] then None else Some(t[|t| - 1]) }

  function Pow2(n: nat): real { if n == 0 then 1.0 else 2.0 * Pow2(n - 1) }

  function Cap(cfg: Config): real { if cfg.connectBudget < 300.0 then 300.0 else cfg.connectBudget }

  /** The wait before jitter: five seconds when the device took its leave, the cap for a
      wrong key or password, a doubling ladder from one second otherwise. */
  function Base(cfg: Config, rung: nat, clean: bool, auth: bool): real {
    if clean then 5.0
    else if auth then Cap(cfg)
    else if Pow2(rung) > Cap(cfg) then Cap(cfg)
    else Pow2(rung)
  }

  predicate Within(wait: real, base: real) { 0.8 * base <= wait < 1.2 * base }

  /** The connection was closed as soon as it was opened: the password handshake failed. */
  predicate TurnedAway(t: Trace) {
    |t| >= 2 && t[|t| - 2].Opened? && t[|t| - 1].Closed?
  }

  /** What may follow a trace. */
  predicate Next(cfg: Config, t: Trace, e: Event) {
    match e
    case Dialled(mode, key) =>
      && Live(t) == 0 && (t != [] ==> t[|t| - 1].Slept? || t[|t| - 1].Dialled?)
      && key == KeyOf(cfg, mode)
      && (match Transport(t)
          case Some(m) => mode == m
          case None =>
            if cfg.key == "" then mode.Plaintext?
            else mode.Noise? || (!cfg.requireEncryption && Last(t) == Some(Dialled(Noise, cfg.key))))
    case Opened => Live(t) == 0 && t != [] && t[|t| - 1].Dialled?
    case Closed => Live(t) == 1
    case Settled(mode) =>
      && Live(t) == 1 && |t| >= 2 && t[|t| - 1].Opened?
      && t[|t| - 2].Dialled? && t[|t| - 2].mode == mode
    case Ended(_, clean, auth) =>
      && Live(t) == 0 && t != [] && !t[|t| - 1].Ended? && !t[|t| - 1].Slept?
      && (TurnedAway(t) ==> !clean && auth)
    case Slept(wait) =>
      && Live(t) == 0 && t != [] && t[|t| - 1].Ended?
      && Within(wait, Base(cfg, Rung(t), t[|t| - 1].clean, t[|t| - 1].auth))
  }

  predicate Lawful(cfg: Config, t: Trace) {
    t == [] || (Lawful(cfg, t[..|t| - 1]) && Next(cfg, t[..|t| - 1], t[|t| - 1]))
  }

  lemma Extends(cfg: Config, t: Trace, e: Event)
    requires Lawful(cfg, t) && Next(cfg, t, e)
    ensures Lawful(cfg, t + [e]) && Last(t + [e]) == Some(e)
    ensures Live(t + [e]) == Live(t) + (match e case Opened => 1 case Closed => -1 case _ => 0)
    ensures Transport(t + [e]) == if e.Settled? then Some(e.mode) else Transport(t)
    ensures Rung(t + [e]) ==
            (match e case Ended(long, _, _) => if long then 0 else Rung(t) case Slept(_) => Rung(t) + 1 case _ => Rung(t))
  {
    assert (t + [e])[..|t|] == t;
  }

  // ---- Errors ------------------------------------------------------------------------

  predicate Contains(s: string, word: string) { Index(s, word).Some? }

  /** isAuthFailure, by the text of the error. */
  predicate IsAuthFailure(fold: char -> char, text: string) {
    var s := MapChars(fold, text);
    Contains(s, PASSWORD) || Contains(s, "handshake") || Contains(s, "mac failure") || Contains(s, "preamble")
  }

  const PASSWORD := "password"
  const SENDING := "sending legacy " + PASSWORD + ": "
  const REJECTED := "device rejected the configured API " + PASSWORD
  const UNANSWERED := "device did not answer the legacy " + PASSWORD + " handshake"

  /** The errors of the password handshake. */
  predicate PasswordError(text: string) { SENDING <= text || text == REJECTED || text == UNANSWERED }

  function Sharpened(d: real, draw: real): real { d * 0.8 + 0.4 * Times(d, draw) }

  lemma JitterWithin(d: real, draw: real)
    requires d > 0.0 && 0.0 <= draw < 1.0
    ensures Within(Sharpened(d, draw), d)
  {
    TimesMono(d, 0.0, draw);
    TimesUnit(d);
    TimesPositive(d, 1.0 - draw);
    assert Times(d, 1.0 - draw) == d - Times(d, draw);
  }

  lemma {:induction false} Pow2AtLeastOne(n: nat)
    ensures Pow2(n) >= 1.0
  {
    if n > 0 { Pow2AtLeastOne(n - 1); }
  }

  lemma BaseBounds(cfg: Config, rung: nat, clean: bool, auth: bool)
    ensures 1.0 <= Base(cfg, rung, clean, auth) <= Cap(cfg)
  {
    Pow2AtLeastOne(rung);
  }

  // ---- The life of a connection ------------------------------------------------------

  /** Pings missed since one was answered. */
  function Misses(ticks: seq<Tick>): nat {
    if ticks == [] then 0 else
      match ticks[|ticks| - 1]
      case PingMissed(_) => Misses(ticks[..|ticks| - 1]) + 1
      case PingAnswered(_, _, _) => 0
      case _ => Misses(ticks[..|ticks| - 1])
  }

  /** The firmware last reported. */
  function Firmware(first: string, ticks: seq<Tick>): string {
    if ticks == [] then first
    else if ticks[|ticks| - 1].Refresh? && ticks[|ticks| - 1].compiled.Some? then ticks[|ticks| - 1].compiled.value
    else Firmware(first, ticks[..|ticks| - 1])
  }

  /** When the cache last heard from the device: a state, or the touch of an answered ping. */
  function LastMessage(first: Option<real>, ticks: seq<Tick>): Option<real> {
    if ticks == [] then first else
      match ticks[|ticks| - 1]
      case StateArrived(at) => Some(at)
      case PingAnswered(touched, arrival, _) => if arrival.Some? then arrival else Some(touched)
      case _ => LastMessage(first, ticks[..|ticks| - 1])
  }

  /** What a session starts from: the firmware reported, and when the cache last heard from
      the device, in an earlier session perhaps. */
  datatype Start = Start(firmware: string, lastMessage: Option<real>)

  /** Whether the last of these ticks ends the session. */
  predicate Ends(cfg: Config, from: Start, ticks: seq<Tick>) {
    ticks != [] &&
    var before, tick := ticks[..|ticks| - 1], ticks[|ticks| - 1];
    match tick
    case Cancelled => true
    case PeerClosed => true
    case DisconnectRequest => true
    case StateArrived(_) => false
    case PingMissed(_) => Misses(ticks) >= cfg.pingFailThreshold
    case PingAnswered(_, _, checked) => Overdue(cfg, LastMessage(from.lastMessage, ticks), checked)
    case Refresh(compiled, listing) => compiled.Some? && compiled.value != Firmware(from.firmware, before) && listing.Some?
  }

  /** More than the read deadline has passed since the last message, if there was any. */
  predicate Overdue(cfg: Config, last: Option<real>, now: real) {
    last.Some? && now - last.value > cfg.readDeadline
  }

  // ---- What a session comes to, told from its script ----------------------------------

  function AnswerOf(s: Script, mode: Mode): DialAnswer { if mode.Noise? then s.noise else s.plaintext }

  /** The dial is answered, and so is the password handshake, if there is one. */
  predicate Welcomed(cfg: Config, a: DialAnswer) { a.Accepted? && (cfg.password == "" || a.auth.Welcome?) }

  /** An error wrapped in what was being done. */
  function Failed(doing: string, error: string): string { doing + ": " + error }

  /** What one dial leaves in the trace. */
  function Exchange(cfg: Config, mode: Mode, a: DialAnswer): Trace {
    [Dialled(mode, KeyOf(cfg, mode))] + (if a.Refused? then [] else if Welcomed(cfg, a) then [Opened] else [Opened, Closed])
  }

  /** The transport that decides a connect: the one settled on; with a key the encrypted one,
      unless that was refused and need not be had; else plaintext. */
  function Decider(cfg: Config, transport: Option<Mode>, s: Script): Mode {
    if transport.Some? then transport.value
    else if cfg.key == "" then Plaintext
    else if cfg.requireEncryption || s.noise.Accepted? then Noise
    else Plaintext
  }

  /** The plaintext that decides comes after a refusal of the encrypted dial. */
  predicate FellBack(cfg: Config, transport: Option<Mode>, s: Script) {
    transport.None? && cfg.key != "" && Decider(cfg, transport, s).Plaintext?
  }

  /** What a connect leaves in the trace. */
  function Dials(cfg: Config, transport: Option<Mode>, s: Script): Trace {
    var mode := Decider(cfg, transport, s);
    (if FellBack(cfg, transport, s) then [Dialled(Noise, cfg.key)] else []) + Exchange(cfg, mode, AnswerOf(s, mode))
  }

  /** The transport a session is served over, if it comes to that. */
  function ServedOver(cfg: Config, transport: Option<Mode>, s: Script): Option<Mode> {
    var mode := Decider(cfg, transport, s);
    if Welcomed(cfg, AnswerOf(s, mode)) then Some(mode) else None
  }

  /** What a session leaves in the trace. */
  function Acts(cfg: Config, transport: Option<Mode>, s: Script): Trace {
    Dials(cfg, transport, s)
    + match ServedOver(cfg, transport, s) case None => [] case Some(mode) => [Settled(mode), Closed]
  }

  /** The first of these ticks to end the session is the one before `at`, or there is none. */
  ghost predicate EndsAt(cfg: Config, firmware: string, ticks: seq<Tick>, at: nat) {
    && at <= |ticks| && (forall j :: 0 <= j < at ==> !Ends(cfg, Start(firmware, None), ticks[..j]))
    && (at < |ticks| ==> Ends(cfg, Start(firmware, None), ticks[..at]))
  }

  /** What a connection that lived until then is said to have died of. */
  ghost predicate DiedOf(cfg: Config, firmware: string, ticks: seq<Tick>, at: nat, clean: bool, error: Option<string>) {
    EndsAt(cfg, firmware, ticks, at) &&
    if !Ends(cfg, Start(firmware, None), ticks[..at]) then clean && error.None?
    else
      match ticks[at - 1]
      case Cancelled => clean && error.None?
      case DisconnectRequest => clean && error.None?
      case PeerClosed => !clean && error == Some("connection closed by peer")
      case StateArrived(_) => false
      case PingMissed(e) => !clean && error == Some("device stopped answering pings: " + e)
      case PingAnswered(_, _, _) => !clean && error == Some("no traffic within the read deadline")
      case Refresh(_, listing) => listing.Some? && !clean && error == Some(Failed("list entities", listing.value))
  }

  /** How a session ended and of what. */
  ghost predicate Verdict(cfg: Config, transport: Option<Mode>, s: Script, clean: bool, error: Option<string>) {
    if ServedOver(cfg, transport, s).None? then
      !clean && error.Some?
      && match AnswerOf(s, Decider(cfg, transport, s))
         case Refused(e) => error.value == e
         case Accepted(_) => PasswordError(error.value)
    else if s.info.Some? then !clean && error == Some(Failed("device info", s.info.value))
    else if s.listing.Some? then !clean && error == Some(Failed("list entities", s.listing.value))
    else if s.subscribing.Some? then !clean && error == Some(Failed("subscribe states", s.subscribing.value))
    else exists at :: DiedOf(cfg, s.compiled, s.ticks, at, clean, error)
  }

  /** When the cache was last written has no bearing on when a session ends. */
  lemma EndsWhateverCame(cfg: Config, from: Start, ticks: seq<Tick>)
    ensures Ends(cfg, from, ticks) <==> Ends(cfg, Start(from.firmware, None), ticks)
  {
  }

  lemma EndsWheneverCame(cfg: Config, from: Start, ticks: seq<Tick>)
    ensures forall j :: 0 <= j <= |ticks| ==> (Ends(cfg, from, ticks[..j]) <==> Ends(cfg, Start(from.firmware, None), ticks[..j]))
  {
    hide Ends;
    forall j | 0 <= j <= |ticks| ensures Ends(cfg, from, ticks[..j]) <==> Ends(cfg, Start(from.firmware, None), ticks[..j]) {
      EndsWhateverCame(cfg, from, ticks[..j]);
    }
  }

  lemma TurnedDown(cfg: Config, transport: Option<Mode>, s: Script, error: string)
    requires ServedOver(cfg, transport, s).None?
    requires match AnswerOf(s, Decider(cfg, transport, s)) case Refused(e) => error == e case Accepted(_) => PasswordError(error)
    ensures Verdict(cfg, transport, s, false, Some(error))
  {
    hide ServedOver, AnswerOf, Decider, PasswordError;
  }

  /** How a session that came to be served ended, by the first thing to go wrong. */
  lemma VerdictOf(cfg: Config, transport: Option<Mode>, s: Script, mode: Mode)
    requires ServedOver(cfg, transport, s) == Some(mode)
    ensures forall clean, error :: Verdict(cfg, transport, s, clean, error) <==>
              if s.info.Some? then !clean && error == Some(Failed("device info", s.info.value))
              else if s.listing.Some? then !clean && error == Some(Failed("list entities", s.listing.value))
              else if s.subscribing.Some? then !clean && error == Some(Failed("subscribe states", s.subscribing.value))
              else exists at :: DiedOf(cfg, s.compiled, s.ticks, at, clean, error)
  {
    hide ServedOver, DiedOf, Failed;
  }

  lemma FreshIsLive(t: Trace, mode: Mode)
    requires Fresh(t, mode)
    ensures Live(t) == 1
  {
  }

  lemma ClosedIs(t: Trace)
    ensures Busy(t + [Closed]) && (Last(t).Some? && !Last(t).value.Opened? ==> !TurnedAway(t + [Closed]))
  {
  }

  lemma ActsAre(cfg: Config, transport: Option<Mode>, s: Script)
    ensures Acts(cfg, transport, s) == match ServedOver(cfg, transport, s)
                                       case None => Dials(cfg, transport, s)
                                       case Some(mode) => Dials(cfg, transport, s) + ([Settled(mode)] + [Closed])
  {
    hide Dials, ServedOver;
  }

  /** What serving one script leaves in the trace. */
  ghost predicate Serves(cfg: Config, fold: char -> char, s: Script, before: Trace, events: Trace) {
    if s.cancel.InSession? then events == Acts(cfg, Transport(before), s)
    else exists clean, error, wait ::
           Verdict(cfg, Transport(before), s, clean, error)
           && events == Acts(cfg, Transport(before), s)
                        + [Ended(s.long, clean, error.Some? && IsAuthFailure(fold, error.value)), Slept(wait)]
  }

  /** The trace, cut where sessions start: each stretch serves one script, in order. */
  ghost predicate ServedSoFar(cfg: Config, fold: char -> char, scripts: seq<Script>, start: Trace, t: Trace, cuts: seq<nat>) {
    && 0 < |cuts| <= |scripts| + 1 && cuts[0] == |start| && cuts[|cuts| - 1] == |t| && start <= t
    && forall i :: 0 <= i < |cuts| - 1 ==> Stretch(cfg, fold, scripts[i], t, cuts[i], cuts[i + 1])
  }

  ghost predicate Stretch(cfg: Config, fold: char -> char, s: Script, t: Trace, from: nat, to: nat) {
    from <= to <= |t| && Serves(cfg, fold, s, t[..from], t[from..to])
  }

  lemma ServesOneMore(cfg: Config, fold: char -> char, scripts: seq<Script>, start: Trace, t: Trace, cuts: seq<nat>, u: Trace)
    requires ServedSoFar(cfg, fold, scripts, start, t, cuts) && |cuts| <= |scripts| && t <= u
    requires Serves(cfg, fold, scripts[|cuts| - 1], t, u[|t|..])
    ensures ServedSoFar(cfg, fold, scripts, start, u, cuts + [|u|])
  {
    var more := cuts + [|u|];
    forall i | 0 <= i < |more| - 1 ensures Stretch(cfg, fold, scripts[i], u, more[i], more[i + 1]) {
      if i < |cuts| - 1 {
        assert Stretch(cfg, fold, scripts[i], t, cuts[i], cuts[i + 1]);
        StretchStays(cfg, fold, scripts[i], t, u, cuts[i], cuts[i + 1]);
      } else {
        LastStretch(cfg, fold, scripts[i], t, u);
      }
    }
  }

  lemma StretchStays(cfg: Config, fold: char -> char, s: Script, t: Trace, u: Trace, from: nat, to: nat)
    requires Stretch(cfg, fold, s, t, from, to) && t <= u
    ensures Stretch(cfg, fold, s, u, from, to)
  {
    hide Serves;
    assert u[..from] == t[..from] && u[from..to] == t[from..to];
  }

  lemma LastStretch(cfg: Config, fold: char -> char, s: Script, t: Trace, u: Trace)
    requires t <= u && Serves(cfg, fold, s, t, u[|t|..])
    ensures Stretch(cfg, fold, s, u, |t|, |u|)
  {
    hide Serves;
    assert u[..|t|] == t && u[|t|..|u|] == u[|t|..];
  }

  class Device {
    const cfg: Config
    const fold: char -> char
    var transport: Option<Mode>
    var lastMessageAt: Option<real>
    ghost var trace: Trace

    ghost predicate Valid() reads this {
      Lawful(cfg, trace) && transport == Transport(trace) && (cfg.requireEncryption && cfg.key != "" ==> transport != Some(Plaintext))
    }

    constructor (cfg: Config, fold: char -> char)
      ensures Valid() && trace == [] && this.cfg == cfg && this.fold == fold
    {
      this.cfg, this.fold, transport, lastMessageAt, trace := cfg, fold, None, None, [];
    }

    ghost method Note(e: Event)
      requires Lawful(cfg, trace) && Next(cfg, trace, e)
      modifies this`trace
      ensures trace == old(trace) + [e] && Lawful(cfg, trace) && Last(trace) == Some(e)
      ensures Live(trace) == Live(old(trace)) + (match e case Opened => 1 case Closed => -1 case _ => 0)
      ensures Transport(trace) == if e.Settled? then Some(e.mode) else Transport(old(trace))
      ensures Rung(trace) ==
              (match e case Ended(long, _, _) => if long then 0 else Rung(old(trace)) case Slept(_) => Rung(old(trace)) + 1
               case _ => Rung(old(trace)))
    {
      Extends(cfg, trace, e);
      trace := trace + [e];
    }

    /** The legacy password handshake. Every way it fails reads as an authentication
        failure, so a wrong password always waits out the cap. */
    method Authenticate(answer: AuthAnswer) returns (error: Option<string>)
      ensures error.None? <==> cfg.password == "" || answer.Welcome?
      ensures error.Some? ==> PasswordError(error.value)
    {
      if cfg.password == "" { return None; }
      match answer {
        case SendFails(e) => return Some(SENDING + e);
        case Rejected => return Some(REJECTED);
        case Silent => return Some(UNANSWERED);
        case Welcome => return None;
      }
    }

    /** Dials, negotiating the transport: the one settled on if there is one; otherwise the
        encrypted one when there is a key, with plaintext as the second try unless encryption
        is required; otherwise plaintext. */
    method Connect(s: Script) returns (mode: Mode, error: Option<string>)
      requires Valid() && Ready(trace)
      modifies this`trace
      ensures Valid() && old(trace) < trace && Rung(trace) == Rung(old(trace))
      ensures error.Some? ==> Live(trace) == 0 && Busy(trace)
      ensures error.None? ==> Fresh(trace, mode)
      ensures TurnedAway(trace) ==> error.Some? && PasswordError(error.value)
      ensures trace == old(trace) + Dials(cfg, transport, s)
      ensures if error.None? then ServedOver(cfg, transport, s) == Some(mode) else ServedOver(cfg, transport, s).None?
      ensures error.Some? ==>
                match AnswerOf(s, Decider(cfg, transport, s))
                case Refused(e) => error.value == e
                case Accepted(_) => PasswordError(error.value)
    {
      hide Lawful, Next, Live, Transport, Rung, Last, Plan, Tried, RefusedSoFar, AnswerOf, Welcomed, Exchange, Decider, Dials;
      hide ServedOver, PasswordError, Fresh, Busy, Ready, TurnedAway, KeyOf, MayDialNow;
      PlanIs(cfg, transport);
      var attempts: seq<Mode>;
      if transport.Some? {
        attempts := [transport.value];
      } else if cfg.key != "" {
        attempts := [Noise];
        if !cfg.requireEncryption { attempts := attempts + [Plaintext]; }
      } else {
        attempts := [Plaintext];
      }
      mode := attempts[0];
      error := None;
      NoneTried(cfg, s, attempts);
      ReadyIsQuiet(trace);
      for i := 0 to |attempts|
        invariant Valid() && Live(trace) == 0 && Rung(trace) == Rung(old(trace))
        invariant i == 0 ==> trace == old(trace)
        invariant i > 0 ==> old(trace) < trace && Last(trace) == Some(Dialled(attempts[i - 1], KeyOf(cfg, attempts[i - 1])))
        invariant (error.Some? <==> i > 0) && attempts == Plan(cfg, transport)
        invariant trace == old(trace) + Tried(cfg, attempts, i) && RefusedSoFar(s, attempts, i)
        invariant i > 0 ==> error.Some? && AnswerOf(s, attempts[i - 1]) == Refused(error.value)
      {
        mode := attempts[i];
        MayDial(cfg, old(trace), trace, attempts, i);
        var answered;
        ghost var before := trace;
        answered, error := Dial(mode, if mode.Noise? then s.noise else s.plaintext);
        Dialling(cfg, transport, s, attempts, i);
        Regroup(old(trace), Tried(cfg, attempts, i), Exchange(cfg, mode, AnswerOf(s, mode)), before, trace);
        EndsIn(before, Dialled(mode, KeyOf(cfg, mode)));
        FreshIsOpen(trace, mode);
        if answered { return; }
      }
      AllRefused(cfg, transport, s, attempts);
      EndsInDial(trace);
    }

    /** One dial, and the password handshake if it is answered. */
    method Dial(mode: Mode, answer: DialAnswer) returns (answered: bool, error: Option<string>)
      requires Valid() && MayDialNow(cfg, trace, mode)
      modifies this`trace
      ensures Valid() && old(trace) < trace && Rung(trace) == Rung(old(trace))
      ensures answered <==> answer.Accepted?
      ensures error.None? <==> answer.Accepted? && (cfg.password == "" || answer.auth.Welcome?)
      ensures !answered ==> error == Some(answer.error) && trace == old(trace) + [Dialled(mode, KeyOf(cfg, mode))] && Live(trace) == 0
      ensures trace == old(trace) + Exchange(cfg, mode, answer)
      ensures answered && error.None? ==> Fresh(trace, mode)
      ensures answered && error.Some? ==> Live(trace) == 0 && TurnedAway(trace) && Busy(trace) && PasswordError(error.value)
    {
      hide Lawful, Next, PasswordError, Live, Transport, Rung, MayDialNow, KeyOf, Last, Exchange, Fresh, TurnedAway, Busy;
      ExchangeIs(cfg, mode, answer);
      CanDial(cfg, trace, mode);
      ghost var start := trace;
      Note(Dialled(mode, KeyOf(cfg, mode)));
      match answer {
        case Refused(e) => return false, Some(e);
        case Accepted(auth) =>
          CanOpenClose(cfg, trace);
          Note(Opened);
          JustOpened(start, mode, KeyOf(cfg, mode));
          error := Authenticate(auth);
          if error.Some? {
            CanOpenClose(cfg, trace);
            Note(Closed);
          }
          return true, error;
      }
    }

    /** Keeps the connection alive until the first tick that ends it, or cancellation, which
        is where the ticks run out. */
    method Pump(firmware: string, ticks: seq<Tick>) returns (clean: bool, error: Option<string>, ghost at: nat)
      modifies this`lastMessageAt
      ensures var from := Start(firmware, old(lastMessageAt));
              && at <= |ticks| && (forall j :: 0 <= j < at ==> !Ends(cfg, from, ticks[..j]))
              && (at < |ticks| ==> Ends(cfg, from, ticks[..at]))
              && (clean <==> !Ends(cfg, from, ticks[..at]) || ticks[at - 1].Cancelled? || ticks[at - 1].DisconnectRequest?)
              && lastMessageAt == LastMessage(from.lastMessage, ticks[..at])
      ensures clean <==> error.None?
      ensures DiedOf(cfg, firmware, ticks, at, clean, error)
    {
      EndsWheneverCame(cfg, Start(firmware, lastMessageAt), ticks);
      ghost var from := Start(firmware, lastMessageAt);
      var failures, current := 0, firmware;
      for i := 0 to |ticks|
        invariant failures == Misses(ticks[..i]) && current == Firmware(firmware, ticks[..i])
        invariant lastMessageAt == LastMessage(from.lastMessage, ticks[..i])
        invariant forall j :: 0 <= j <= i ==> !Ends(cfg, from, ticks[..j])
      {
        assert ticks[..i + 1][..i] == ticks[..i];
        at := i + 1;
        match ticks[i] {
          case Cancelled => return true, None, at;
          case PeerClosed => return false, Some("connection closed by peer"), at;
          case DisconnectRequest => return true, None, at;
          case StateArrived(now) => lastMessageAt := Some(now);
          case PingMissed(e) =>
            failures := failures + 1;
            if failures >= cfg.pingFailThreshold {
              return false, Some("device stopped answering pings: " + e), at;
            }
          case PingAnswered(touched, arrival, checked) =>
            failures := 0;
            lastMessageAt := Some(touched);
            if arrival.Some? { lastMessageAt := arrival; }
            if lastMessageAt.Some? && checked - lastMessageAt.value > cfg.readDeadline {
              return false, Some("no traffic within the read deadline"), at;
            }
          case Refresh(compiled, listing) =>
            if compiled.Some? && compiled.value != current {
              current := compiled.value;
              if listing.Some? { return false, Some(Failed("list entities", listing.value)), at; }
            }
        }
      }
      assert ticks[..|ticks|] == ticks;
      return true, None, |ticks|;
    }

    /** One connect-to-disconnect cycle: whatever happens, the connection it opened is closed
        by the time it returns. */
    method Session(s: Script) returns (clean: bool, error: Option<string>)
      requires Valid() && Ready(trace)
      modifies this`trace, this`transport, this`lastMessageAt
      ensures Valid() && Live(trace) == 0 && Busy(trace) && old(trace) < trace && Rung(trace) == Rung(old(trace))
      ensures clean ==> error.None? && transport.Some?
      ensures TurnedAway(trace) ==> error.Some? && PasswordError(error.value)
      ensures trace == old(trace) + Acts(cfg, old(transport), s) && Verdict(cfg, old(transport), s, clean, error)
      ensures transport == match ServedOver(cfg, old(transport), s) case None => old(transport) case Some(mode) => Some(mode)
    {
      hide Lawful, Next, Ends, Live, Transport, Rung, Last, DiedOf, Dials, Decider, AnswerOf, ServedOver, Acts;
      hide Verdict, PasswordError, TurnedAway, Busy, Fresh, Ready, Failed;
      var mode;
      ghost var start, before := trace, transport;
      mode, error := Connect(s);
      ActsAre(cfg, transport, s);
      if error.Some? { TurnedDown(cfg, transport, s, error.value); }
      if error.Some? { return false, error; }
      CanSettle(cfg, trace, mode);
      FreshIsLive(trace, mode);
      Note(Settled(mode));
      transport := Some(mode);
      if s.info.Some? {
        clean, error := false, Some(Failed("device info", s.info.value));
      } else if s.listing.Some? {
        clean, error := false, Some(Failed("list entities", s.listing.value));
      } else if s.subscribing.Some? {
        clean, error := false, Some(Failed("subscribe states", s.subscribing.value));
      } else {
        ghost var at;
        clean, error, at := Pump(s.compiled, s.ticks);
      }
      VerdictOf(cfg, before, s, mode);
      CanOpenClose(cfg, trace);
      ghost var settled := trace;
      Note(Closed);
      ClosedIs(settled);
      Regroup(start, Dials(cfg, before, s), [Settled(mode)] + [Closed], start + Dials(cfg, before, s), trace);
    }

    /** The delay before the next attempt. */
    method Delay(attempt: nat, clean: bool, error: Option<string>, draw: real) returns (wait: real)
      requires 0.0 <= draw < 1.0
      ensures Within(wait, Base(cfg, attempt, clean, error.Some? && IsAuthFailure(fold, error.value)))
      ensures var base := Base(cfg, attempt, clean, error.Some? && IsAuthFailure(fold, error.value));
              wait == base * 0.8 + 0.4 * Times(base, draw)
    {
      hide IsAuthFailure, Within;
      BaseBounds(cfg, attempt, clean, error.Some? && IsAuthFailure(fold, error.value));
      if clean {
        JitterWithin(5.0, draw);
        return Sharpened(5.0, draw);
      }
      var maxDelay := cfg.connectBudget;
      if maxDelay < 300.0 { maxDelay := 300.0; }
      if error.Some? && IsAuthFailure(fold, error.value) {
        JitterWithin(maxDelay, draw);
        return Sharpened(maxDelay, draw);
      }
      var d := Pow2(attempt);
      if d > maxDelay { d := maxDelay; }
      JitterWithin(d, draw);
      return Sharpened(d, draw);
    }

    /** The goroutine, until it is cancelled, at the latest where the scripts run out: one
        session per script, each with its ending and its wait, and nothing else. */
    method Run(scripts: seq<Script>) returns (ghost cuts: seq<nat>)
      requires Valid() && Ready(trace) && Rung(trace) == 0 && FoldsAscii(fold)
      requires forall s :: s in scripts ==> 0.0 <= s.draw < 1.0
      modifies this`trace, this`transport, this`lastMessageAt
      ensures Valid() && Live(trace) == 0
      ensures ServedSoFar(cfg, fold, scripts, old(trace), trace, cuts)
      ensures forall i :: 0 <= i < |cuts| - 2 ==> scripts[i].cancel.Never?
      ensures |cuts| <= |scripts| ==> |cuts| > 1 && !scripts[|cuts| - 2].cancel.Never?
    {
      hide Next, Lawful, Within, Base, IsAuthFailure, PasswordError, FoldsAscii, ServedSoFar, Serves, Acts, Verdict, ServedOver;
      hide Live, Transport, Rung, Last, TurnedAway, Ready, Busy;
      ReadyIsQuiet(trace);
      var attempt := 0;
      cuts := [|trace|];
      NoneServed(cfg, fold, scripts, trace);
      for i := 0 to |scripts|
        invariant Valid() && Ready(trace) && attempt == Rung(trace)
        invariant |cuts| == i + 1 && ServedSoFar(cfg, fold, scripts, old(trace), trace, cuts)
        invariant forall j :: 0 <= j < i ==> scripts[j].cancel.Never?
      {
        var s := scripts[i];
        ghost var before := trace;
        var clean, error := Session(s);
        if s.cancel.InSession? {
          ServedCut(cfg, fold, scripts, old(trace), before, cuts, trace);
          cuts := cuts + [|trace|];
          return;
        }
        if s.long { attempt := 0; }
        ghost var auth := error.Some? && IsAuthFailure(fold, error.value);
        if TurnedAway(trace) { PasswordErrorsAreAuthFailures(fold, error.value); }
        CanEnd(cfg, trace, Ended(s.long, clean, auth));
        Note(Ended(s.long, clean, auth));
        var wait := Delay(attempt, clean, error, s.draw);
        EndedIs(trace);
        CanSleep(cfg, trace, wait);
        Note(Slept(wait));
        SleptIsReady(trace);
        attempt := attempt + 1;
        ServedWhole(cfg, fold, scripts, old(trace), before, cuts, trace, clean, error, wait);
        cuts := cuts + [|trace|];
        if s.cancel.InSleep? { break; }
      }
      ReadyIsQuiet(trace);
    }
  }

  lemma EndedIs(t: Trace)
    ensures Last(t).Some? && Last(t).value.Ended? ==> t != [] && t[|t| - 1] == Last(t).value
  {
  }

  lemma SleptIsReady(t: Trace)
    ensures Live(t) == 0 && Last(t).Some? && Last(t).value.Slept? ==> Ready(t)
  {
  }

  lemma NoneServed(cfg: Config, fold: char -> char, scripts: seq<Script>, t: Trace)
    ensures ServedSoFar(cfg, fold, scripts, t, t, [|t|])
  {
    hide Serves;
  }

  lemma ServedCut(cfg: Config, fold: char -> char, scripts: seq<Script>, start: Trace, before: Trace, cuts: seq<nat>, t: Trace)
    requires ServedSoFar(cfg, fold, scripts, start, before, cuts) && 0 < |cuts| <= |scripts|
    requires var s := scripts[|cuts| - 1]; s.cancel.InSession? && t == before + Acts(cfg, Transport(before), s)
    ensures ServedSoFar(cfg, fold, scripts, start, t, cuts + [|t|])
  {
    hide Acts, Transport, ServedSoFar;
    ServesOneMore(cfg, fold, scripts, start, before, cuts, t);
  }

  lemma ServedWhole(cfg: Config, fold: char -> char, scripts: seq<Script>, start: Trace, before: Trace, cuts: seq<nat>, t: Trace,
                    clean: bool, error: Option<string>, wait: real)
    requires ServedSoFar(cfg, fold, scripts, start, before, cuts) && 0 < |cuts| <= |scripts|
    requires var s := scripts[|cuts| - 1];
             && !s.cancel.InSession? && Verdict(cfg, Transport(before), s, clean, error)
             && t == before + Acts(cfg, Transport(before), s)
                     + [Ended(s.long, clean, error.Some? && IsAuthFailure(fold, error.value))] + [Slept(wait)]
    ensures ServedSoFar(cfg, fold, scripts, start, t, cuts + [|t|])
  {
    hide Acts, Transport, Verdict, IsAuthFailure, ServedSoFar;
    var s := scripts[|cuts| - 1];
    After(before, Acts(cfg, Transport(before), s), Ended(s.long, clean, error.Some? && IsAuthFailure(fold, error.value)), Slept(wait), t);
    ServesOneMore(cfg, fold, scripts, start, before, cuts, t);
  }

  lemma After(before: Trace, acts: Trace, x: Event, y: Event, t: Trace)
    requires t == before + acts + [x] + [y]
    ensures before <= t && t[|before|..] == acts + [x, y]
  {
  }

  /** Where a session may start. */
  ghost predicate Ready(t: Trace) { Live(t) == 0 && (t == [] || t[|t| - 1].Slept?) }

  /** Where a session may end. */
  ghost predicate Busy(t: Trace) { t != [] && !t[|t| - 1].Ended? && !t[|t| - 1].Slept? }

  /** A connection has just been opened over this transport. */
  ghost predicate Fresh(t: Trace, mode: Mode) {
    Live(t) == 1 && |t| >= 2 && t[|t| - 1].Opened? && t[|t| - 2].Dialled? && t[|t| - 2].mode == mode
  }

  /** When a dial over this transport may follow. */
  ghost predicate MayDialNow(cfg: Config, t: Trace, mode: Mode) {
    && Live(t) == 0 && (t != [] ==> t[|t| - 1].Slept? || t[|t| - 1].Dialled?)
    && match Transport(t)
       case Some(m) => mode == m
       case None =>
         if cfg.key == "" then mode.Plaintext?
         else mode.Noise? || (!cfg.requireEncryption && Last(t) == Some(Dialled(Noise, cfg.key)))
  }

  /** What as many refused dials leave in the trace. */
  function Tried(cfg: Config, attempts: seq<Mode>, n: nat): Trace
    requires n <= |attempts|
  {
    if n == 0 then [] else Tried(cfg, attempts, n - 1) + [Dialled(attempts[n - 1], KeyOf(cfg, attempts[n - 1]))]
  }

  predicate RefusedSoFar(s: Script, attempts: seq<Mode>, n: nat) {
    n <= |attempts| && forall j :: 0 <= j < n ==> AnswerOf(s, attempts[j]).Refused?
  }

  lemma ExchangeIs(cfg: Config, mode: Mode, a: DialAnswer)
    ensures a.Refused? ==> Exchange(cfg, mode, a) == [Dialled(mode, KeyOf(cfg, mode))]
    ensures a.Accepted? && (cfg.password == "" || a.auth.Welcome?) ==>
              Exchange(cfg, mode, a) == [Dialled(mode, KeyOf(cfg, mode))] + [Opened]
    ensures a.Accepted? && !(cfg.password == "" || a.auth.Welcome?) ==>
              Exchange(cfg, mode, a) == [Dialled(mode, KeyOf(cfg, mode))] + [Opened] + [Closed]
  {
  }

  lemma JustOpened(start: Trace, mode: Mode, key: string)
    ensures var t := start + [Dialled(mode, key)] + [Opened];
            && t == start + ([Dialled(mode, key)] + [Opened])
            && t + [Closed] == start + ([Dialled(mode, key)] + [Opened] + [Closed])
            && (Live(t) == 1 ==> Fresh(t, mode)) && TurnedAway(t + [Closed]) && Busy(t + [Closed])
  {
  }

  lemma PlanIs(cfg: Config, transport: Option<Mode>)
    ensures Plan(cfg, transport) ==
            if transport.Some? then [transport.value]
            else if cfg.key == "" then [Plaintext]
            else [Noise] + if cfg.requireEncryption then [] else [Plaintext]
  {
  }

  lemma Regroup(a: Trace, b: Trace, c: Trace, t: Trace, u: Trace)
    requires t == a + b && u == t + c
    ensures u == a + (b + c)
  {
  }

  lemma ReadyIsQuiet(t: Trace)
    requires Ready(t)
    ensures Live(t) == 0
  {
  }

  lemma EndsIn(t: Trace, e: Event)
    ensures Last(t + [e]) == Some(e)
  {
  }

  lemma FreshIsOpen(t: Trace, mode: Mode)
    ensures Fresh(t, mode) ==> !TurnedAway(t)
  {
  }

  lemma EndsInDial(t: Trace)
    ensures Last(t).Some? && Last(t).value.Dialled? ==> Busy(t) && !TurnedAway(t)
  {
  }

  lemma NoneTried(cfg: Config, s: Script, attempts: seq<Mode>)
    ensures Tried(cfg, attempts, 0) == [] && RefusedSoFar(s, attempts, 0)
  {
  }

  /** One more dial of the plan: if it is answered it decides the connect. */
  lemma Dialling(cfg: Config, transport: Option<Mode>, s: Script, attempts: seq<Mode>, i: nat)
    requires attempts == Plan(cfg, transport) && i < |attempts| && RefusedSoFar(s, attempts, i)
    ensures var mode := attempts[i];
            && AnswerOf(s, mode) == (if mode.Noise? then s.noise else s.plaintext)
            && (AnswerOf(s, mode).Accepted? ==>
                  && mode == Decider(cfg, transport, s)
                  && Tried(cfg, attempts, i) + Exchange(cfg, mode, AnswerOf(s, mode)) == Dials(cfg, transport, s)
                  && (Welcomed(cfg, AnswerOf(s, mode)) <==> ServedOver(cfg, transport, s) == Some(mode))
                  && (!Welcomed(cfg, AnswerOf(s, mode)) <==> ServedOver(cfg, transport, s).None?))
            && (Welcomed(cfg, AnswerOf(s, mode)) <==>
                  AnswerOf(s, mode).Accepted? && (cfg.password == "" || AnswerOf(s, mode).auth.Welcome?))
            && (AnswerOf(s, mode).Refused? ==>
                  && Exchange(cfg, mode, AnswerOf(s, mode)) == [Dialled(mode, KeyOf(cfg, mode))]
                  && Tried(cfg, attempts, i + 1) == Tried(cfg, attempts, i) + [Dialled(mode, KeyOf(cfg, mode))]
                  && RefusedSoFar(s, attempts, i + 1))
  {
    assert i == 1 ==> Tried(cfg, attempts, i) == [Dialled(attempts[0], KeyOf(cfg, attempts[0]))];
  }

  lemma AllRefused(cfg: Config, transport: Option<Mode>, s: Script, attempts: seq<Mode>)
    requires attempts == Plan(cfg, transport) && RefusedSoFar(s, attempts, |attempts|)
    ensures attempts != [] && Decider(cfg, transport, s) == attempts[|attempts| - 1] && ServedOver(cfg, transport, s).None?
    ensures AnswerOf(s, Decider(cfg, transport, s)).Refused?
    ensures Tried(cfg, attempts, |attempts|) == Dials(cfg, transport, s)
  {
    assert Tried(cfg, attempts, 1) == [Dialled(attempts[0], KeyOf(cfg, attempts[0]))] by { NoneTried(cfg, s, attempts); }
    if |attempts| == 2 {
      assert Tried(cfg, attempts, 2) == [Dialled(attempts[0], KeyOf(cfg, attempts[0])), Dialled(attempts[1], KeyOf(cfg, attempts[1]))];
    }
  }

  /** The transports to try, in order. */
  function Plan(cfg: Config, transport: Option<Mode>): seq<Mode> {
    if transport.Some? then [transport.value]
    else if cfg.key == "" then [Plaintext]
    else if cfg.requireEncryption then [Noise] else [Noise, Plaintext]
  }

  lemma MayDial(cfg: Config, before: Trace, t: Trace, attempts: seq<Mode>, i: nat)
    requires Ready(before) && Live(t) == 0 && i < |attempts| && attempts == Plan(cfg, Transport(t))
    requires if i == 0 then t == before else Last(t) == Some(Dialled(attempts[i - 1], KeyOf(cfg, attempts[i - 1])))
    ensures MayDialNow(cfg, t, attempts[i])
  {
  }

  lemma CanDial(cfg: Config, t: Trace, mode: Mode)
    requires MayDialNow(cfg, t, mode)
    ensures Live(t) == 0
    ensures Next(cfg, t, Dialled(mode, KeyOf(cfg, mode)))
  {
  }

  lemma CanOpenClose(cfg: Config, t: Trace)
    ensures Live(t) == 0 && t != [] && t[|t| - 1].Dialled? ==> Next(cfg, t, Opened)
    ensures Live(t) == 1 ==> Next(cfg, t, Closed)
  {
  }

  /** A transport settled on is one that was dialled, so never plaintext where encryption is
      required. */
  lemma CanSettle(cfg: Config, t: Trace, mode: Mode)
    requires Lawful(cfg, t) && Fresh(t, mode)
    requires cfg.requireEncryption && cfg.key != "" ==> Transport(t) != Some(Plaintext)
    ensures Next(cfg, t, Settled(mode))
    ensures cfg.requireEncryption && cfg.key != "" ==> mode.Noise?
  {
    PrefixLawful(cfg, t, |t| - 2);
    assert Transport(t) == Transport(t[..|t| - 1]) == Transport(t[..|t| - 1][..|t| - 2]);
    assert t[..|t| - 1][..|t| - 2] == t[..|t| - 2];
  }

  lemma CanEnd(cfg: Config, t: Trace, e: Event)
    requires Live(t) == 0 && Busy(t) && e.Ended? && (TurnedAway(t) ==> !e.clean && e.auth)
    ensures Next(cfg, t, e)
  {
  }

  lemma CanSleep(cfg: Config, t: Trace, wait: real)
    requires Live(t) == 0 && t != [] && t[|t| - 1].Ended?
    requires Within(wait, Base(cfg, Rung(t), t[|t| - 1].clean, t[|t| - 1].auth))
    ensures Next(cfg, t, Slept(wait))
  {
  }

  // ---- What every lawful trace has ---------------------------------------------------

  lemma {:induction false} PrefixLawful(cfg: Config, t: Trace, n: nat)
    requires Lawful(cfg, t) && n <= |t|
    ensures Lawful(cfg, t[..n]) && (n < |t| ==> Next(cfg, t[..n], t[n]))
  {
    hide Next;
    if n == |t| {
      assert t[..n] == t;
    } else {
      var u := t[..|t| - 1];
      PrefixLawful(cfg, u, n);
      assert u[..n] == t[..n];
      if n == |u| { assert u == t[..n]; }
    }
  }

  /** At every moment the goroutine owns at most one connection, and none between sessions. */
  lemma {:induction false} OneConnectionAtATime(cfg: Config, t: Trace, n: nat)
    requires Lawful(cfg, t) && n <= |t|
    ensures 0 <= Live(t[..n]) <= 1
    ensures n > 0 && (t[n - 1].Ended? || t[n - 1].Slept?) ==> Live(t[..n]) == 0
    ensures n < |t| && t[n].Dialled? ==> Live(t[..n]) == 0
  {
    hide *;
    if n == 0 {
      assert t[..0] == [];
      NothingLive();
    } else {
      OneConnectionAtATime(cfg, t, n - 1);
      PrefixLawful(cfg, t, n - 1);
      OneStep(cfg, t[..n - 1], t[n - 1]);
      assert t[..n] == t[..n - 1] + [t[n - 1]];
    }
    if n < |t| {
      PrefixLawful(cfg, t, n);
      OneStep(cfg, t[..n], t[n]);
    }
  }

  lemma NothingLive()
    ensures Live([]) == 0
  {
  }

  lemma OneStep(cfg: Config, t: Trace, e: Event)
    requires Next(cfg, t, e) && 0 <= Live(t) <= 1
    ensures 0 <= Live(t + [e]) <= 1
    ensures e.Ended? || e.Slept? ==> Live(t + [e]) == 0
    ensures e.Dialled? ==> Live(t) == 0
  {
    hide Transport, Rung, Within, Base;
    assert (t + [e])[..|t|] == t;
  }

  /** With encryption required and a key, every dial carries the key. */
  lemma {:induction false} EveryDialCarriesTheKey(cfg: Config, t: Trace, n: nat)
    requires Lawful(cfg, t) && n <= |t| && cfg.requireEncryption && cfg.key != ""
    ensures Transport(t[..n]) != Some(Plaintext)
    ensures n < |t| && t[n].Dialled? ==> t[n] == Dialled(Noise, cfg.key)
  {
    hide *;
    if n == 0 {
      assert t[..0] == [];
      NothingSettled();
    } else {
      EveryDialCarriesTheKey(cfg, t, n - 1);
      PrefixLawful(cfg, t, n - 1);
      if n > 2 { EveryDialCarriesTheKey(cfg, t, n - 3); }
      EncryptedStep(cfg, t[..n - 1], t[n - 1]);
      assert t[..n] == t[..n - 1] + [t[n - 1]];
    }
    if n < |t| {
      PrefixLawful(cfg, t, n);
      EncryptedDial(cfg, t[..n], t[n]);
    }
  }

  lemma NothingSettled()
    ensures Transport([]) == None
  {
  }

  lemma EncryptedDial(cfg: Config, t: Trace, e: Event)
    requires Next(cfg, t, e) && cfg.requireEncryption && cfg.key != "" && Transport(t) != Some(Plaintext)
    ensures e.Dialled? ==> e == Dialled(Noise, cfg.key)
  {
    hide Transport, Live;
  }

  lemma EncryptedStep(cfg: Config, t: Trace, e: Event)
    requires Next(cfg, t, e) && Transport(t) != Some(Plaintext)
    requires |t| >= 1 && t[|t| - 1].Opened? && |t| >= 2 && t[|t| - 2].Dialled? ==> t[|t| - 2].mode.Noise?
    ensures Transport(t + [e]) != Some(Plaintext)
  {
    hide Live, Within, Base;
    assert (t + [e])[..|t|] == t;
  }

  /** Once a transport is settled on, every later dial and every later settling is of it. */
  lemma {:induction false} TransportSticks(cfg: Config, t: Trace, i: nat, j: nat)
    requires Lawful(cfg, t) && i < j <= |t| && t[i].Settled?
    ensures Transport(t[..j]) == Some(t[i].mode)
    ensures j < |t| && t[j].Dialled? ==> t[j].mode == t[i].mode
  {
    PrefixLawful(cfg, t, j);
    PrefixLawful(cfg, t, j - 1);
    assert t[..j] == t[..j - 1] + [t[j - 1]];
    hide Within, Base;
    Extends(cfg, t[..j - 1], t[j - 1]);
    if i < j - 1 {
      TransportSticks(cfg, t, i, j - 1);
      if t[j - 1].Settled? {
        SettledAsDialled(cfg, t, i, j - 1);
      }
    }
  }

  lemma SettledAsDialled(cfg: Config, t: Trace, i: nat, j: nat)
    requires Lawful(cfg, t) && i < j < |t| && t[i].Settled? && t[j].Settled?
    ensures j >= i + 3 && t[j - 2].Dialled? && t[j - 2].mode == t[j].mode
  {
    PrefixLawful(cfg, t, j);
  }

  /** With a key and no transport settled on yet, plaintext is dialled only on the heels of
      a failed encrypted dial of the same connect. */
  lemma PlaintextOnlyAfterNoise(cfg: Config, t: Trace, i: nat)
    requires Lawful(cfg, t) && i < |t| && t[i].Dialled? && t[i].mode.Plaintext?
    requires cfg.key != "" && Transport(t[..i]).None?
    ensures !cfg.requireEncryption && i > 0 && t[i - 1] == Dialled(Noise, cfg.key)
  {
    PrefixLawful(cfg, t, i);
  }

  /** After every session that ends, the goroutine waits before it dials again: at least
      0.8 s and less than 1.2 times the cap, and after an ordinary failure within a fifth of
      one second doubled once for each wait since a session last stayed up, capped. */
  lemma SessionsAreSpaced(cfg: Config, t: Trace, i: nat)
    requires Lawful(cfg, t) && i + 1 < |t| && t[i].Ended?
    ensures t[i + 1].Slept? && 0.8 <= t[i + 1].wait < 1.2 * Cap(cfg)
    ensures Cap(cfg) >= 300.0 && Cap(cfg) >= cfg.connectBudget && (Cap(cfg) == 300.0 || Cap(cfg) == cfg.connectBudget)
    ensures t[i].clean ==> 4.0 <= t[i + 1].wait < 6.0
    ensures !t[i].clean && t[i].auth ==> Within(t[i + 1].wait, Cap(cfg))
    ensures !t[i].clean && !t[i].auth ==>
              Within(t[i + 1].wait, MinReal(Pow2(Rung(t[..i + 1])), Cap(cfg)))
  {
    PrefixLawful(cfg, t, i);
    PrefixLawful(cfg, t, i + 1);
    assert t[..i + 1] == t[..i] + [t[i]];
    BaseBounds(cfg, Rung(t[..i + 1]), t[i].clean, t[i].auth);
    hide Within, Base;
    Extends(cfg, t[..i], t[i]);
    SleepFollows(cfg, t[..i + 1], t[i + 1]);
  }

  lemma SleepFollows(cfg: Config, t: Trace, e: Event)
    requires Next(cfg, t, e) && t != [] && t[|t| - 1].Ended? && Live(t) == 0
    requires 1.0 <= Base(cfg, Rung(t), t[|t| - 1].clean, t[|t| - 1].auth) <= Cap(cfg)
    ensures e.Slept? && Within(e.wait, Base(cfg, Rung(t), t[|t| - 1].clean, t[|t| - 1].auth))
    ensures 0.8 <= e.wait < 1.2 * Cap(cfg)
  {
  }

  function Sleeps(t: Trace): nat {
    if t == [] then 0 else Sleeps(t[..|t| - 1]) + (if t[|t| - 1].Slept? then 1 else 0)
  }

  /** The rung is the number of waits since a session last stayed up. */
  lemma {:induction false} RungCounts(t: Trace, since: nat)
    requires since <= |t| && (since > 0 ==> t[since - 1].Ended? && t[since - 1].long)
    requires forall k :: since <= k < |t| ==> !(t[k].Ended? && t[k].long)
    ensures Rung(t) == Sleeps(t[since..])
  {
    if since < |t| {
      RungCounts(t[..|t| - 1], since);
      assert t[since..][..|t| - since - 1] == t[..|t| - 1][since..];
    }
  }

  // ---- Authentication failures -------------------------------------------------------

  lemma {:induction false} IndexFinds(s: string, word: string, i: nat)
    requires i + |word| <= |s| && s[i..i + |word|] == word
    ensures Index(s, word).Some?
  {
    if !(word <= s) {
      assert i > 0;
      assert s[1..][i - 1..i - 1 + |word|] == s[i..i + |word|];
      IndexFinds(s[1..], word, i - 1);
    }
  }

  lemma NamesThePassword(fold: char -> char, before: string, after: string)
    requires FoldsAscii(fold)
    ensures IsAuthFailure(fold, before + PASSWORD + after)
  {
    hide Index;
    var folded := MapChars(fold, before + PASSWORD + after);
    forall k | 0 <= k < |PASSWORD| ensures folded[|before| + k] == PASSWORD[k] {
      assert (before + PASSWORD + after)[|before| + k] == PASSWORD[k];
    }
    assert folded[|before|..|before| + |PASSWORD|] == PASSWORD;
    IndexFinds(folded, PASSWORD, |before|);
  }

  /** Every way the password handshake can fail reads as an authentication failure. */
  lemma PasswordErrorsAreAuthFailures(fold: char -> char, text: string)
    requires FoldsAscii(fold)
    requires PasswordError(text)
    ensures IsAuthFailure(fold, text)
  {
    hide IsAuthFailure, PASSWORD;
    if SENDING <= text {
      var rest := text[|SENDING|..];
      assert text == "sending legacy " + PASSWORD + (": " + rest);
      NamesThePassword(fold, "sending legacy ", ": " + rest);
    } else if text == REJECTED {
      assert text == "device rejected the configured API " + PASSWORD + "";
      NamesThePassword(fold, "device rejected the configured API ", "");
    } else {
      NamesThePassword(fold, "device did not answer the legacy ", " handshake");
    }
  }

  /** A session whose connection the password handshake closed ends there, as a failure, and
      the wait after it is the cap: a wrong password never climbs the ladder, and nothing is
      dialled in between. */
  lemma WrongPasswordsWaitOutTheCap(cfg: Config, t: Trace, i: nat)
    requires Lawful(cfg, t) && i + 1 < |t| && t[i].Opened? && t[i + 1].Closed?
    ensures i + 2 < |t| ==> t[i + 2].Ended? && !t[i + 2].clean && t[i + 2].auth
    ensures i + 3 < |t| ==> t[i + 3].Slept? && Within(t[i + 3].wait, Cap(cfg))
  {
    if i + 2 < |t| {
      PrefixLawful(cfg, t, i + 2);
      assert TurnedAway(t[..i + 2]);
      ClosedAtOnce(cfg, t, i);
      AfterTurningAway(cfg, t[..i + 2], t[i + 2]);
      if i + 3 < |t| { SessionsAreSpaced(cfg, t, i + 2); }
    }
  }

  lemma ClosedAtOnce(cfg: Config, t: Trace, i: nat)
    requires Lawful(cfg, t) && i + 1 < |t| && t[i].Opened? && t[i + 1].Closed?
    ensures Live(t[..i + 2]) == 0
  {
    PrefixLawful(cfg, t, i + 1);
    assert t[..i + 2] == t[..i + 1] + [t[i + 1]];
    assert t[..i + 2][..i + 1] == t[..i + 1];
  }

  lemma AfterTurningAway(cfg: Config, t: Trace, e: Event)
    requires Next(cfg, t, e) && TurnedAway(t) && Live(t) == 0
    ensures e.Ended? && !e.clean && e.auth
  {
    hide Live, Within, Base;
  }

  // ---- Stalled streams ---------------------------------------------------------------

  /** When a state last arrived: what the read deadline is there to watch. */
  function LastState(first: Option<real>, ticks: seq<Tick>): Option<real> {
    if ticks == [] then first else
      match ticks[|ticks| - 1]
      case StateArrived(at) => Some(at)
      case PingAnswered(_, arrival, _) => if arrival.Some? then arrival else LastState(first, ticks[..|ticks| - 1])
      case _ => LastState(first, ticks[..|ticks| - 1])
  }

  /** An answered ping ends the session exactly when its own readings of the clock, the last
      before the check and the check's, are more than a read deadline apart. What went
      before, the time of the last state above all, has no say in it: the check looks at a
      time that has just been set to now. */
  lemma AnsweredPingEndsExactlyWhen(cfg: Config, from: Start, before: seq<Tick>, touched: real, arrival: Option<real>, checked: real)
    ensures Ends(cfg, from, before + [PingAnswered(touched, arrival, checked)])
            <==> checked - (if arrival.Some? then arrival.value else touched) > cfg.readDeadline
  {
    var ticks := before + [PingAnswered(touched, arrival, checked)];
    assert ticks[..|ticks| - 1] == before;
  }

  /** So the check does what it is for, ending the session exactly when no state has arrived
      within the deadline, only where an answered ping without an arrival of its own finds
      the two in agreement: the last state recent enough, or the two readings far apart. */
  lemma StalledStreamNoticedExactlyWhen(cfg: Config, from: Start, before: seq<Tick>, touched: real, checked: real)
    requires touched <= checked && (LastState(from.lastMessage, before).Some? ==> LastState(from.lastMessage, before).value <= touched)
    ensures var ticks := before + [PingAnswered(touched, None, checked)];
            var last := LastState(from.lastMessage, before);
            (Ends(cfg, from, ticks) <==> Overdue(cfg, LastState(from.lastMessage, ticks), checked))
            <==> if last.None? then checked - touched <= cfg.readDeadline
                 else checked - last.value <= cfg.readDeadline || checked - touched > cfg.readDeadline
  {
    var ticks := before + [PingAnswered(touched, None, checked)];
    assert ticks[..|ticks| - 1] == before;
    AnsweredPingEndsExactlyWhen(cfg, from, before, touched, None, checked);
  }

  /** A state at time 0, then a ping answered every twenty seconds. */
  function StalledStream(n: nat): seq<Tick> {
    if n == 0 then [StateArrived(0.0)]
    else StalledStream(n - 1) + [PingAnswered(20.0 * n as real, None, 20.0 * n as real)]
  }

  /** A stream that has been stalled for as long as one likes, under a deadline of a minute,
      and still stands. */
  lemma {:induction false} StalledStreamStands(cfg: Config, from: Start, n: nat)
    requires cfg.readDeadline == 60.0
    ensures LastState(from.lastMessage, StalledStream(n)) == Some(0.0)
    ensures n > 3 ==> Overdue(cfg, LastState(from.lastMessage, StalledStream(n)), 20.0 * n as real)
    ensures !Ends(cfg, from, StalledStream(n))
  {
    if n > 0 {
      var before, now := StalledStream(n - 1), 20.0 * n as real;
      StalledStreamStands(cfg, from, n - 1);
      assert (before + [PingAnswered(now, None, now)])[..|before|] == before;
      AnsweredPingEndsExactlyWhen(cfg, from, before, now, None, now);
    }
  }

  // ---- Cases spelt out ----------------------------------------------------------------------

  /** What a connect does, case by case: over the transport settled on and no other; without
      a key over plaintext; with a key encrypted first, and on a refusal of that, unless
      encryption is required, over plaintext and with no key. */
  lemma ConnectByCases(cfg: Config, transport: Option<Mode>, s: Script)
    ensures forall m :: transport == Some(m) ==>
              (ServedOver(cfg, transport, s) == Some(m) || ServedOver(cfg, transport, s) == None)
              && Dials(cfg, transport, s)[0] == Dialled(m, if m.Noise? then cfg.key else "")
              && forall i :: 0 < i < |Dials(cfg, transport, s)| ==> !Dials(cfg, transport, s)[i].Dialled?
    ensures transport.None? && cfg.key == "" ==>
              if s.plaintext.Refused? then Dials(cfg, transport, s) == [Dialled(Plaintext, "")] && ServedOver(cfg, transport, s) == None
              else if cfg.password == "" || s.plaintext.auth.Welcome? then
                Dials(cfg, transport, s) == [Dialled(Plaintext, ""), Opened] && ServedOver(cfg, transport, s) == Some(Plaintext)
              else Dials(cfg, transport, s) == [Dialled(Plaintext, ""), Opened, Closed] && ServedOver(cfg, transport, s) == None
    ensures transport.None? && cfg.key != "" && s.noise.Accepted? ==>
              if cfg.password == "" || s.noise.auth.Welcome? then
                Dials(cfg, transport, s) == [Dialled(Noise, cfg.key), Opened] && ServedOver(cfg, transport, s) == Some(Noise)
              else Dials(cfg, transport, s) == [Dialled(Noise, cfg.key), Opened, Closed] && ServedOver(cfg, transport, s) == None
    ensures transport.None? && cfg.key != "" && s.noise.Refused? && cfg.requireEncryption ==>
              Dials(cfg, transport, s) == [Dialled(Noise, cfg.key)] && ServedOver(cfg, transport, s) == None
    ensures transport.None? && cfg.key != "" && s.noise.Refused? && !cfg.requireEncryption ==>
              var fallback := [Dialled(Noise, cfg.key), Dialled(Plaintext, "")];
              if s.plaintext.Refused? then Dials(cfg, transport, s) == fallback && ServedOver(cfg, transport, s) == None
              else if cfg.password == "" || s.plaintext.auth.Welcome? then
                Dials(cfg, transport, s) == fallback + [Opened] && ServedOver(cfg, transport, s) == Some(Plaintext)
              else Dials(cfg, transport, s) == fallback + [Opened, Closed] && ServedOver(cfg, transport, s) == None
  {
  }

  /** The text has the word, in any case. */
  ghost predicate Mentions(fold: char -> char, text: string, word: string) {
    exists i :: MentionsAt(fold, text, word, i)
  }

  ghost predicate MentionsAt(fold: char -> char, text: string, word: string, i: int) {
    0 <= i <= |text| - |word| && forall k :: 0 <= k < |word| ==> fold(text[i + k]) == word[k]
  }

  lemma ContainsIsMention(fold: char -> char, text: string, word: string)
    ensures Contains(MapChars(fold, text), word) <==> Mentions(fold, text, word)
  {
    var s := MapChars(fold, text);
    if Contains(s, word) {
      var i := Index(s, word).value;
      forall k | 0 <= k < |word| ensures fold(text[i + k]) == word[k] {
        assert s[i..i + |word|][k] == word[k];
      }
      assert MentionsAt(fold, text, word, i);
    }
    if i :| MentionsAt(fold, text, word, i) {
      assert s[i..i + |word|] == word;
      IndexFinds(s, word, i);
    }
  }

  /** An error is an authentication failure exactly when it mentions a password, a handshake,
      a MAC failure or a preamble, in any case and anywhere. */
  lemma AuthFailureExactlyWhen(fold: char -> char, text: string)
    ensures IsAuthFailure(fold, text) <==>
              Mentions(fold, text, "password") || Mentions(fold, text, "handshake")
              || Mentions(fold, text, "mac failure") || Mentions(fold, text, "preamble")
  {
    ContainsIsMention(fold, text, "password");
    ContainsIsMention(fold, text, "handshake");
    ContainsIsMention(fold, text, "mac failure");
    ContainsIsMention(fold, text, "preamble");
    hide Contains, Mentions, MapChars;
  }

  function MissedOf(ticks: seq<Tick>): nat {
    if ticks == [] then 0 else MissedOf(ticks[..|ticks| - 1]) + One(ticks[|ticks| - 1].PingMissed?)
  }

  /** Pings missed since a point at or after the last answered one. */
  lemma {:induction false} MissesSince(ticks: seq<Tick>, since: nat)
    requires since <= |ticks| && (since > 0 ==> ticks[since - 1].PingAnswered?)
    requires forall k :: since <= k < |ticks| ==> !ticks[k].PingAnswered?
    ensures Misses(ticks) == MissedOf(ticks[since..])
  {
    if since < |ticks| {
      MissesSince(ticks[..|ticks| - 1], since);
      assert ticks[since..][..|ticks| - since - 1] == ticks[..|ticks| - 1][since..];
    }
  }

  /** A missed ping ends the session exactly when, with those missed since one was last
      answered, it makes up the threshold. */
  lemma MissedPingEndsExactlyWhen(cfg: Config, from: Start, before: seq<Tick>, e: string, since: nat)
    requires since <= |before| && (since > 0 ==> before[since - 1].PingAnswered?)
    requires forall k :: since <= k < |before| ==> !before[k].PingAnswered?
    ensures Ends(cfg, from, before + [PingMissed(e)]) <==> MissedOf(before[since..]) + 1 >= cfg.pingFailThreshold
  {
    var ticks := before + [PingMissed(e)];
    assert ticks[..|before|] == before;
    MissesSince(before, since);
  }

  /** A firmware check ends the session exactly when it was answered, the firmware is another
      than last reported, and the entities cannot be listed anew. */
  lemma RefreshEndsExactlyWhen(cfg: Config, from: Start, before: seq<Tick>, compiled: Option<string>, listing: Option<string>, since: nat)
    requires since <= |before| && (since > 0 ==> before[since - 1].Refresh? && before[since - 1].compiled.Some?)
    requires forall k :: since <= k < |before| ==> !(before[k].Refresh? && before[k].compiled.Some?)
    ensures Ends(cfg, from, before + [Refresh(compiled, listing)]) <==>
              compiled.Some? && listing.Some?
              && compiled.value != if since == 0 then from.firmware else before[since - 1].compiled.value
  {
    var ticks := before + [Refresh(compiled, listing)];
    assert ticks[..|before|] == before;
    FirmwareSince(from.firmware, before, since);
  }

  lemma {:induction false} FirmwareSince(first: string, ticks: seq<Tick>, since: nat)
    requires since <= |ticks| && (since > 0 ==> ticks[since - 1].Refresh? && ticks[since - 1].compiled.Some?)
    requires forall k :: since <= k < |ticks| ==> !(ticks[k].Refresh? && ticks[k].compiled.Some?)
    ensures Firmware(first, ticks) == if since == 0 then first else ticks[since - 1].compiled.value
  {
    if since < |ticks| { FirmwareSince(first, ticks[..|ticks| - 1], since); }
  }

  /** A cancellation, a closed connection and a disconnect request end the session wherever
      they come; a state never does. */
  lemma OtherTicks(cfg: Config, from: Start, before: seq<Tick>, tick: Tick)
    requires tick.Cancelled? || tick.PeerClosed? || tick.DisconnectRequest? || tick.StateArrived?
    ensures Ends(cfg, from, before + [tick]) <==> !tick.StateArrived?
  {
    assert (before + [tick])[..|before|] == before;
  }

  /** A script that is not cut short leaves exactly one ending, of the length it was, and one
      wait after it, at the end of its stretch of the trace. The ending is clean only of a
      session that came to be served and whose device could be asked, listed and subscribed
      to. */
  lemma SessionEndsAsScripted(cfg: Config, fold: char -> char, s: Script, before: Trace, events: Trace)
    requires Serves(cfg, fold, s, before, events) && !s.cancel.InSession?
    ensures |events| >= 3 && events[|events| - 1].Slept? && events[|events| - 2].Ended? && events[|events| - 2].long == s.long
    ensures forall i :: 0 <= i < |events| - 2 ==> !events[i].Ended? && !events[i].Slept?
    ensures events[|events| - 2].clean ==>
              ServedOver(cfg, Transport(before), s).Some? && s.info.None? && s.listing.None? && s.subscribing.None?
  {
    ActsAreActs(cfg, Transport(before), s);
    var clean, error, wait :| Verdict(cfg, Transport(before), s, clean, error)
                              && events == Acts(cfg, Transport(before), s)
                                           + [Ended(s.long, clean, error.Some? && IsAuthFailure(fold, error.value)), Slept(wait)];
    hide Acts, IsAuthFailure, Decider, AnswerOf, PasswordError, Failed, DiedOf, ServedOver;
  }

  lemma ActsAreActs(cfg: Config, transport: Option<Mode>, s: Script)
    ensures Acts(cfg, transport, s) != []
    ensures forall i :: 0 <= i < |Acts(cfg, transport, s)| ==> !Acts(cfg, transport, s)[i].Ended? && !Acts(cfg, transport, s)[i].Slept?
  {
  }
}
