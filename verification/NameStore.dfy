/** The account's names, kept in memory and refreshed in the background
    (internal/shellycloud/names.go). Decoding the cloud's JSON is a parameter. */
module NameStores {
  import opened Common
  import opened Ladders

  type Rooms = map<string, string>

  datatype Names = Names(device: string, room: string, channels: map<int, (string, string)>)

  type Directory = map<string, Names>

  type Decoder = (string, Rooms) -> Option<Directory>

  /** What the cloud answers to one refresh: the raw device list and the rooms, if they came,
      and whether the context ended meanwhile. */
  datatype Answer = Answer(devices: Option<string>, rooms: Option<Rooms>, cancelled: bool, at: int)

  // ---- The history a store should reflect --------------------------------------------

  /** The rooms last fetched; they are asked for only with a device list in hand. */
  function LastRooms(history: seq<Answer>): Rooms {
    if history == [] then map[] else
      var a := history[|history| - 1];
      if a.devices.Some? && a.rooms.Some? then a.rooms.value else LastRooms(history[..|history| - 1])
  }

  /** Whether the last of these refreshes succeeded. */
  predicate Succeeded(decode: Decoder, history: seq<Answer>) {
    history != [] &&
    var a := history[|history| - 1];
    !a.cancelled && a.devices.Some? && decode(a.devices.value, LastRooms(history)).Some?
  }

  /** Whether any of these refreshes ran to its end, for better or worse. */
  predicate AnyFinished(history: seq<Answer>) { exists i :: 0 <= i < |history| && !history[i].cancelled }

  /** The refresh whose names should be showing: the last that succeeded. */
  function LastGood(decode: Decoder, history: seq<Answer>): (r: Option<nat>)
    ensures r.Some? ==> r.value < |history| && history[r.value].devices.Some?
  {
    if history == [] then None
    else if Succeeded(decode, history) then Some(|history| - 1)
    else LastGood(decode, history[..|history| - 1])
  }

  /** The directory decoded then, with the rooms as they were then. */
  function Showing(decode: Decoder, history: seq<Answer>): Option<Directory> {
    match LastGood(decode, history)
    case None => None
    case Some(i) => decode(history[i].devices.value, LastRooms(Upto(history, i)))
  }

  function Outcomes(decode: Decoder, history: seq<Answer>): seq<bool> {
    if history == [] then [] else Outcomes(decode, history[..|history| - 1]) + [Succeeded(decode, history)]
  }

  lemma {:induction false} OutcomeAt(decode: Decoder, history: seq<Answer>, i: nat)
    requires i < |history|
    ensures |Outcomes(decode, history)| == |history| && Outcomes(decode, history)[i] == Succeeded(decode, Upto(history, i))
  {
    if i < |history| - 1 {
      OutcomeAt(decode, history[..|history| - 1], i);
      assert Upto(history[..|history| - 1], i) == Upto(history, i);
    } else {
      if i > 0 { OutcomeAt(decode, history[..|history| - 1], i - 1); }
      assert Upto(history, i) == history;
    }
  }

  /** The last success is a success, and nothing after it is. */
  lemma {:induction false} LastGoodIs(decode: Decoder, history: seq<Answer>)
    ensures match LastGood(decode, history)
            case None => forall i :: 0 <= i < |history| ==> !Succeeded(decode, Upto(history, i))
            case Some(i) => i < |history| && Succeeded(decode, Upto(history, i))
                            && forall j :: i < j < |history| ==> !Succeeded(decode, Upto(history, j))
  {
    if history != [] {
      assert Upto(history, |history| - 1) == history;
      var before := history[..|history| - 1];
      LastGoodIs(decode, before);
      assert forall i :: 0 <= i < |before| ==> Upto(before, i) == Upto(history, i);
    }
  }

  // ---- The store, updated in place ---------------------------------------------------

  class NameStore {
    const interval: int
    const decode: Decoder
    var rooms: Rooms
    var names: Option<Directory>
    var closes: nat
    var up: bool
    var attempted: bool
    var lastSuccess: Option<int>
    ghost var history: seq<Answer>

    /** The store reflects its history. A failed or abandoned refresh keeps the names, rooms
        survive their own failures, and the loaded channel is closed once and no more. */
    ghost predicate Valid() reads this {
      && interval > 0
      && rooms == LastRooms(history)
      && names == Showing(decode, history)
      && attempted == AnyFinished(history)
      && closes == One(attempted)
      && (up ==> names.Some? && lastSuccess.Some?)
      && (names.Some? <==> lastSuccess.Some?)
    }

    constructor (interval: int, decode: Decoder)
      ensures Valid() && history == [] && this.decode == decode
      ensures this.interval == if interval <= 0 then 900 * SECOND else interval
    {
      this.interval := if interval <= 0 then 900 * SECOND else interval;
      this.decode := decode;
      rooms, names, closes, up, attempted, lastSuccess, history := map[], None, 0, false, false, None, [];
    }

    /** One refresh. */
    method Refresh(a: Answer) returns (ok: bool)
      requires Valid()
      modifies this
      ensures Valid() && history == old(history) + [a] && ok == Succeeded(decode, history)
      ensures !ok ==> names == old(names) && lastSuccess == old(lastSuccess)
      ensures !a.cancelled ==> up == ok
      ensures ok ==> lastSuccess == Some(a.at)
      ensures rooms == if a.devices.Some? && a.rooms.Some? then a.rooms.value else old(rooms)
      ensures ok <==> !a.cancelled && a.devices.Some? && decode(a.devices.value, rooms).Some?
      ensures ok ==> names == decode(a.devices.value, rooms)
      ensures closes == if a.cancelled then old(closes) else 1
    {
      history := history + [a];
      Latest(decode, old(history), a);
      var decoded: Option<Directory> := None;
      if a.devices.Some? {
        if a.rooms.Some? { rooms := a.rooms.value; }
        decoded := decode(a.devices.value, rooms);
      }
      if a.cancelled { return false; }
      var first := !attempted;
      attempted := true;
      if first { closes := closes + 1; }
      if decoded.None? {
        up := false;
        return false;
      }
      names, up, lastSuccess := decoded, true, Some(a.at);
      return true;
    }

    /** Refreshes until the context ends, at the latest where the answers run out. Each wait
        is the whole interval after a success; after the k-th failure in a row it is thirty
        seconds doubled k - 1 times, or the interval if that is shorter. */
    method Run(answers: seq<Answer>) returns (waits: seq<int>)
      requires Valid() && history == []
      modifies this
      ensures Valid() && history <= answers && (history != answers ==> history != [] && history[|history| - 1].cancelled)
      ensures waits == WaitsAfter(interval, Outcomes(decode, history))
    {
      var retry := RETRY_INITIAL;
      waits := [];
      for n := 0 to |answers|
        invariant Valid() && history == answers[..n]
        invariant waits == WaitsAfter(interval, Outcomes(decode, history))
        invariant retry == Climb(RETRY_INITIAL, interval, Streak(Outcomes(decode, history)))
      {
        hide Succeeded, Showing, LastRooms, LastGood, AnyFinished, WaitsAfter, Streak, Climb;
        ghost var before := Outcomes(decode, history);
        var wait := interval;
        var ok := Refresh(answers[n]);
        assert history[..n] == answers[..n] && Outcomes(decode, history) == before + [ok];
        LadderTurn(interval, before, ok);
        if !ok {
          wait := Min(retry, interval);
          retry := Min(retry * 2, interval);
        } else {
          retry := RETRY_INITIAL;
        }
        waits := waits + [wait];
        assert history == answers[..n + 1];
        if answers[n].cancelled { return; }
      }
    }
  }

  /** How the reference changes with one more answer. */
  lemma Latest(decode: Decoder, history: seq<Answer>, a: Answer)
    ensures var now := history + [a];
            && LastRooms(now) == (if a.devices.Some? && a.rooms.Some? then a.rooms.value else LastRooms(history))
            && AnyFinished(now) == (AnyFinished(history) || !a.cancelled)
            && Showing(decode, now) ==
               (if Succeeded(decode, now) then decode(a.devices.value, LastRooms(now)) else Showing(decode, history))
            && (Succeeded(decode, now) ==> Showing(decode, now).Some?)
  {
    var now := history + [a];
    assert now[..|history|] == history && now[|history|] == a && Upto(now, |history|) == now;
    LastGoodIs(decode, history);
    assert forall i :: 0 <= i < |history| ==> Upto(now, i) == Upto(history, i);
  }
}
