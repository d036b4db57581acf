/** What is known of one ESPHome node (internal/esphome/cache.go): readings for the entities
    it has listed, and a bounded buffer of readings for keys it has not listed yet. Together
    the two refine one map. */
module EspCaches {
  import opened Common

  /** An entity key: a 32-bit hash of the object ID. */
  type Key = k: int | 0 <= k < 0x1_0000_0000

  datatype Entity = Entity(key: Key, domain: string, objectID: string)

  datatype Reading = Reading(value: real, text: string, isText: bool, missing: bool, updatedAt: int)

  type Entities = map<Key, Entity>

  type Readings = map<Key, Reading>

  datatype View = View(entities: Entities, states: Readings, generation: nat, truncated: bool, stateUpdates: nat, lastMessageAt: int)

  // ---- The simple form: one map of readings ------------------------------------------

  /** What the cache amounts to. */
  datatype Book = Book(known: set<Key>, readings: Readings)

  datatype Event =
    | Put(key: Key, reading: Reading)
    | Swap(next: Entities, truncated: bool)

  /** A reading is taken in unless its key is unknown and the buffer of strangers is full. */
  predicate TakenIn(b: Book, key: Key, maxOrphans: int) {
    key in b.known || |b.readings.Keys - b.known| < maxOrphans
  }

  /** A swap forgets exactly the keys leaving the entity set. */
  function Turned(b: Book, e: Event, maxOrphans: int): Book {
    match e
    case Put(key, r) => if TakenIn(b, key, maxOrphans) then b.(readings := b.readings[key := r]) else b
    case Swap(next, _) => Book(next.Keys, b.readings - (b.known - next.Keys))
  }

  function BookOf(entities: Entities, states: Readings, orphans: Readings): Book {
    Book(entities.Keys, states + orphans)
  }

  /** Readings lie within the entities, strangers outside them, and those are bounded. */
  ghost predicate Separate(entities: Entities, states: Readings, orphans: Readings, maxOrphans: int) {
    && states.Keys <= entities.Keys
    && orphans.Keys !! entities.Keys
    && |orphans| <= Max(0, maxOrphans)
  }

  lemma PutKnown(entities: Entities, states: Readings, orphans: Readings, key: Key, r: Reading, maxOrphans: int)
    requires Separate(entities, states, orphans, maxOrphans) && key in entities
    ensures Separate(entities, states[key := r], orphans, maxOrphans)
    ensures BookOf(entities, states[key := r], orphans) == Turned(BookOf(entities, states, orphans), Put(key, r), maxOrphans)
  {
    AddLeft(states, orphans, key, r);
  }

  lemma AddLeft<K, V>(left: map<K, V>, right: map<K, V>, key: K, v: V)
    requires key !in right
    ensures left[key := v] + right == (left + right)[key := v]
  {
  }

  lemma AddRight<K, V>(left: map<K, V>, right: map<K, V>, key: K, v: V)
    ensures left + right[key := v] == (left + right)[key := v]
    ensures key !in right ==> |right[key := v]| == |right| + 1
    ensures key in right ==> |right[key := v]| == |right|
  {
    assert right[key := v].Keys == right.Keys + {key};
  }

  lemma PutStranger(entities: Entities, states: Readings, orphans: Readings, key: Key, r: Reading, maxOrphans: int)
    requires Separate(entities, states, orphans, maxOrphans) && key !in entities
    ensures var after := if |orphans| < maxOrphans then orphans[key := r] else orphans;
            && Separate(entities, states, after, maxOrphans)
            && BookOf(entities, states, after) == Turned(BookOf(entities, states, orphans), Put(key, r), maxOrphans)
  {
    Strangers(states, orphans, entities.Keys);
    AddRight(states, orphans, key, r);
  }

  lemma Strangers<K, V>(states: map<K, V>, orphans: map<K, V>, known: set<K>)
    requires states.Keys <= known && orphans.Keys !! known
    ensures (states + orphans).Keys - known == orphans.Keys
  {
  }

  /** The strangers that stay. */
  function Without<K, V>(m: map<K, V>, gone: set<K>): map<K, V> { m - gone }

  /** The readings a swap carries into the new states for the keys gone through so far. */
  function Carried<K, V>(states: map<K, V>, orphans: map<K, V>, done: set<K>): map<K, V> {
    map k | k in done && (k in states || k in orphans) :: if k in orphans then orphans[k] else states[k]
  }

  lemma SwapTurns(entities: Entities, states: Readings, orphans: Readings, next: Entities, truncated: bool, maxOrphans: int)
    requires Separate(entities, states, orphans, maxOrphans)
    ensures Separate(next, Carried(states, orphans, next.Keys), Without(orphans, next.Keys), maxOrphans)
    ensures BookOf(next, Carried(states, orphans, next.Keys), Without(orphans, next.Keys))
            == Turned(BookOf(entities, states, orphans), Swap(next, truncated), maxOrphans)
  {
    CarryOver(entities.Keys, states, orphans, next.Keys);
    SubsetIsNoLarger(Without(orphans, next.Keys).Keys, orphans.Keys);
  }

  lemma CarryOver<K, V>(known: set<K>, states: map<K, V>, orphans: map<K, V>, next: set<K>)
    requires states.Keys <= known && orphans.Keys !! known
    ensures Carried(states, orphans, next) + (orphans - next) == (states + orphans) - (known - next)
  {
    var l, r := Carried(states, orphans, next) + (orphans - next), (states + orphans) - (known - next);
    forall k ensures k in l <==> k in r { CarryKey(known, states, orphans, next, k); }
    forall k | k in l ensures k in r && l[k] == r[k] { CarryKey(known, states, orphans, next, k); }
  }

  lemma CarryKey<K, V>(known: set<K>, states: map<K, V>, orphans: map<K, V>, next: set<K>, k: K)
    requires states.Keys <= known && orphans.Keys !! known
    ensures var l, r := Carried(states, orphans, next) + (orphans - next), (states + orphans) - (known - next);
            (k in l <==> k in r) && (k in l ==> k in r && l[k] == r[k])
  {
  }

  // ---- The cache, updated in place ---------------------------------------------------

  class DeviceCache {
    var entities: Entities
    var states: Readings
    var orphans: Readings
    const maxOrphans: int
    var generation: nat
    var truncated: bool
    var stateUpdates: nat
    var lastMessageAt: int

    ghost predicate Valid() reads this {
      Separate(entities, states, orphans, maxOrphans)
    }

    /** Both buffers as one map. */
    ghost function Contents(): Book reads this {
      BookOf(entities, states, orphans)
    }

    constructor (maxOrphans: int)
      ensures Valid() && Contents() == Book({}, map[]) && this.maxOrphans == maxOrphans
    {
      this.maxOrphans := maxOrphans;
      entities, states, orphans := map[], map[], map[];
      generation, truncated, stateUpdates, lastMessageAt := 0, false, 0, 0;
    }

    /** A copy for a probe: later updates do not show in it. */
    method Snapshot() returns (v: View)
      requires Valid()
      ensures v == View(entities, states, generation, truncated, stateUpdates, lastMessageAt)
      ensures v.states.Keys <= v.entities.Keys
      ensures forall k :: k in v.entities ==>
                (k in v.states <==> k in Contents().readings) && (k in v.states ==> v.states[k] == Contents().readings[k])
    {
      var copied: Readings := map[];
      var left := states.Keys;
      while left != {}
        invariant left <= states.Keys
        invariant forall k :: k in copied <==> k in states && k !in left
        invariant forall k :: k in copied ==> copied[k] == states[k]
        decreases left
      {
        var k :| k in left;
        copied := copied[k := states[k]];
        left := left - {k};
      }
      assert copied == states;
      v := View(entities, copied, generation, truncated, stateUpdates, lastMessageAt);
    }

    /** Replaces the entity map wholesale. Readings are carried forward for keys in both
        maps, and strangers that turn out to be known are taken over; since the two buffers
        share no key, that never overwrites a newer reading. */
    method SwapEntities(next: Entities, truncated: bool)
      requires Valid()
      modifies this
      ensures Valid() && entities == next && this.truncated == truncated && generation == old(generation) + 1
      ensures Contents() == Turned(old(Contents()), Swap(next, truncated), maxOrphans)
      ensures orphans == Without(old(orphans), next.Keys)
      ensures stateUpdates == old(stateUpdates) && lastMessageAt == old(lastMessageAt)
    {
      hide Separate, BookOf, Turned, Carried, Without;
      SwapTurns(entities, states, orphans, next, truncated, maxOrphans);
      var carried := CarryStates(next);
      entities, states, this.truncated := next, carried, truncated;
      generation := generation + 1;
    }

    method CarryStates(next: Entities) returns (carried: Readings)
      modifies this`orphans
      ensures carried == Carried(states, old(orphans), next.Keys)
      ensures orphans == Without(old(orphans), next.Keys)
    {
      carried := map[];
      ghost var was := orphans;
      var left := next.Keys;
      while left != {}
        invariant left <= next.Keys
        invariant forall k :: k in was ==> (k in orphans <==> k in left || k !in next)
        invariant forall k :: k in orphans ==> k in was && orphans[k] == was[k]
        invariant forall k :: k in carried <==> k in next && k !in left && (k in states || k in was)
        invariant forall k :: k in carried ==> carried[k] == if k in was then was[k] else states[k]
        decreases left
      {
        var key :| key in left;
        left := left - {key};
        if key in states { carried := carried[key := states[key]]; }
        if key in orphans {
          carried := carried[key := orphans[key]];
          orphans := orphans - {key};
        }
      }
    }

    /** Takes in one reading. */
    method PutState(key: Key, r: Reading)
      requires Valid()
      modifies this
      ensures Valid() && entities == old(entities) && generation == old(generation) && truncated == old(truncated)
      ensures Contents() == Turned(old(Contents()), Put(key, r), maxOrphans)
      ensures stateUpdates == old(stateUpdates) + 1 && lastMessageAt == r.updatedAt
    {
      hide Separate, Turned, BookOf;
      stateUpdates := stateUpdates + 1;
      lastMessageAt := r.updatedAt;
      if key in entities {
        PutKnown(entities, states, orphans, key, r, maxOrphans);
        states := states[key := r];
        return;
      }
      PutStranger(entities, states, orphans, key, r, maxOrphans);
      if |orphans| < maxOrphans {
        orphans := orphans[key := r];
      }
    }
  }

  // ---- Whole runs --------------------------------------------------------------------

  function After(events: seq<Event>, n: nat, maxOrphans: int): Book
    requires n <= |events|
  {
    if n == 0 then Book({}, map[]) else Turned(After(events, n - 1, maxOrphans), events[n - 1], maxOrphans)
  }

  /** Event i put a reading for this key, and it was taken in. */
  predicate PutTakenIn(events: seq<Event>, i: nat, key: Key, maxOrphans: int)
    requires i < |events|
  {
    events[i].Put? && events[i].key == key && TakenIn(After(events, i, maxOrphans), key, maxOrphans)
  }

  /** Event i was a swap in which this key left the entity set. */
  predicate LeftAt(events: seq<Event>, i: nat, key: Key, maxOrphans: int)
    requires i < |events|
  {
    events[i].Swap? && key in After(events, i, maxOrphans).known && key !in events[i].next
  }

  /** Event i is the last word on this key among the first n. */
  ghost predicate LastWord(events: seq<Event>, i: nat, n: nat, key: Key, maxOrphans: int)
    requires n <= |events|
  {
    && i < n && PutTakenIn(events, i, key, maxOrphans)
    && forall j :: i < j < n ==> !PutTakenIn(events, j, key, maxOrphans) && !LeftAt(events, j, key, maxOrphans)
  }

  /** This reading is the last word on this key. */
  ghost predicate Latest(events: seq<Event>, n: nat, key: Key, r: Reading, maxOrphans: int)
    requires n <= |events|
  {
    exists i: nat :: LastWord(events, i, n, key, maxOrphans) && events[i] == Put(key, r)
  }

  /** After any run the cache holds a reading for a key exactly when that reading was taken
      in, no other of the key was taken in after it, and the key has not left the entity set
      since: however often keys crossed between the two buffers. */
  lemma {:induction false} HoldsTheLastWord(events: seq<Event>, n: nat, key: Key, r: Reading, maxOrphans: int)
    requires n <= |events|
    ensures var held := After(events, n, maxOrphans).readings;
            key in held && held[key] == r <==> Latest(events, n, key, r, maxOrphans)
  {
    hide *;
    if n == 0 {
      NothingYet(events, key, r, maxOrphans);
    } else {
      var m := n - 1;
      HoldsTheLastWord(events, m, key, r, maxOrphans);
      LastStep(events, n, key, maxOrphans);
      if PutTakenIn(events, m, key, maxOrphans) {
        LatestNow(events, m, n, key, r, maxOrphans);
      } else if LeftAt(events, m, key, maxOrphans) {
        LatestGone(events, m, n, key, r, maxOrphans);
      } else {
        LatestStands(events, m, n, key, r, maxOrphans);
      }
    }
  }

  lemma NothingYet(events: seq<Event>, key: Key, r: Reading, maxOrphans: int)
    ensures key !in After(events, 0, maxOrphans).readings && !Latest(events, 0, key, r, maxOrphans)
  {
  }

  lemma LatestNow(events: seq<Event>, m: nat, n: nat, key: Key, r: Reading, maxOrphans: int)
    requires m + 1 == n <= |events| && PutTakenIn(events, m, key, maxOrphans)
    ensures Latest(events, n, key, r, maxOrphans) <==> events[m] == Put(key, r)
  {
    hide TakenIn, LeftAt;
    assert LastWord(events, m, n, key, maxOrphans);
  }

  lemma LatestGone(events: seq<Event>, m: nat, n: nat, key: Key, r: Reading, maxOrphans: int)
    requires m + 1 == n <= |events| && LeftAt(events, m, key, maxOrphans) && !PutTakenIn(events, m, key, maxOrphans)
    ensures !Latest(events, n, key, r, maxOrphans)
  {
    hide PutTakenIn, LeftAt;
  }

  lemma LatestStands(events: seq<Event>, m: nat, n: nat, key: Key, r: Reading, maxOrphans: int)
    requires m + 1 == n <= |events|
    requires !PutTakenIn(events, m, key, maxOrphans) && !LeftAt(events, m, key, maxOrphans)
    ensures Latest(events, n, key, r, maxOrphans) <==> Latest(events, m, key, r, maxOrphans)
  {
    hide PutTakenIn, LeftAt;
    assert forall i: nat :: LastWord(events, i, n, key, maxOrphans) <==> LastWord(events, i, m, key, maxOrphans);
  }

  /** What the last event did to the reading of one key. */
  lemma LastStep(events: seq<Event>, n: nat, key: Key, maxOrphans: int)
    requires 0 < n <= |events|
    ensures var before, after := After(events, n - 1, maxOrphans).readings, After(events, n, maxOrphans).readings;
            if PutTakenIn(events, n - 1, key, maxOrphans) then key in after && events[n - 1] == Put(key, after[key])
            else if LeftAt(events, n - 1, key, maxOrphans) then key !in after
            else (key in after <==> key in before) && (key in after ==> after[key] == before[key])
  {
    assert After(events, n, maxOrphans) == Turned(After(events, n - 1, maxOrphans), events[n - 1], maxOrphans);
  }

  /** A reading for a listed entity always shows at once. For a key not listed yet it shows
      exactly when the buffer has room, or already held the very same reading: a full
      buffer drops even an update of a stranger it holds. */
  lemma NewestShowsExactlyWhen(b: Book, key: Key, r: Reading, maxOrphans: int)
    ensures var after := Turned(b, Put(key, r), maxOrphans).readings;
            (key in after && after[key] == r)
            <==> (key in b.known || |b.readings.Keys - b.known| < maxOrphans || (key in b.readings && b.readings[key] == r))
  {
  }

  /** So an entity may be listed with a stale reading: the concrete run. */
  lemma FullBufferKeepsStale()
    ensures var old_, new_ := Reading(1.0, "", false, false, 1), Reading(2.0, "", false, false, 2);
            var run := [Put(7, old_), Put(7, new_), Swap(map[7 := Entity(7, "sensor", "energy")], false)];
            After(run, 3, 1).readings == map[7 := old_]
  {
    var old_, new_ := Reading(1.0, "", false, false, 1), Reading(2.0, "", false, false, 2);
    var run := [Put(7, old_), Put(7, new_), Swap(map[7 := Entity(7, "sensor", "energy")], false)];
    var one, two := After(run, 1, 1), After(run, 2, 1);
    assert After(run, 0, 1).readings.Keys - After(run, 0, 1).known == {};
    assert one == Book({}, map[7 := old_]);
    assert one.readings.Keys - one.known == {7};
    assert two == one;
    assert After(run, 3, 1) == Turned(two, run[2], 1);
  }

  // ---- enumerate ---------------------------------------------------------------------

  function ByKey(): (Entity, Entity) -> bool {
    (a: Entity, b: Entity) => a.key < b.key
  }

  /** The list cut to size: past the limit, sorted by key first. */
  function Kept(records: seq<Entity>, limit: nat): seq<Entity> {
    if |records| > limit then Sort(ByKey(), records)[..limit] else records
  }

  /** Reads the entity list, cuts it to size, indexes it by key and swaps it in. */
  method Enumerate(records: seq<Entity>, limit: nat, cache: DeviceCache)
    requires cache.Valid()
    modifies cache
    ensures cache.Valid() && cache.truncated == (|records| > limit) && |cache.entities| <= limit
    ensures cache.entities == Indexed(Kept(records, limit))
    ensures cache.Contents() == Turned(old(cache.Contents()), Swap(cache.entities, cache.truncated), cache.maxOrphans)
  {
    var kept, truncated := records, false;
    if |kept| > limit {
      kept := Sort(ByKey(), kept)[..limit];
      truncated := true;
    }
    var next: Entities := map[];
    for i := 0 to |kept|
      invariant next == Indexed(kept[..i]) && |next| <= i
    {
      assert kept[..i + 1][..i] == kept[..i];
      next := next[kept[i].key := kept[i]];
    }
    assert kept[..|kept|] == kept;
    cache.SwapEntities(next, truncated);
  }

  /** Later records of a key replace earlier ones. */
  function Indexed(records: seq<Entity>): Entities {
    if records == [] then map[] else
      var last := records[|records| - 1];
      Indexed(records[..|records| - 1])[last.key := last]
  }

  ghost predicate UniqueKeys(records: seq<Entity>) {
    forall i, j :: 0 <= i < j < |records| ==> records[i].key != records[j].key
  }

  lemma {:induction false} IndexedIsExact(records: seq<Entity>)
    requires UniqueKeys(records)
    ensures forall k :: k in Indexed(records) ==> Indexed(records)[k] in records && Indexed(records)[k].key == k
    ensures forall e :: e in records ==> e.key in Indexed(records) && Indexed(records)[e.key] == e
  {
    if records != [] {
      var rest := records[..|records| - 1];
      IndexedIsExact(rest);
      assert records == rest + [records[|records| - 1]];
    }
  }

  lemma ListsAlike(a: seq<Entity>, b: seq<Entity>)
    requires UniqueKeys(a) && UniqueKeys(b) && Elements(a) == Elements(b)
    ensures Indexed(a) == Indexed(b)
  {
    IndexedIsExact(a);
    IndexedIsExact(b);
    assert forall e :: e in a <==> e in Elements(a);
    assert forall e :: e in b <==> e in Elements(b);
  }

  /** The exported entities do not depend on the order a node lists them in, truncated or
      not, and truncation keeps the smallest keys. */
  lemma TruncationIgnoresOrder(a: seq<Entity>, b: seq<Entity>, limit: nat)
    requires UniqueKeys(a) && UniqueKeys(b) && Elements(a) == Elements(b) && |a| == |b|
    ensures Indexed(Kept(a, limit)) == Indexed(Kept(b, limit))
    ensures forall e, f :: e in Kept(a, limit) && f in a && f !in Kept(a, limit) ==> e.key < f.key
  {
    SortedByKey(a);
    SortedByKey(b);
    hide Sort, Indexed, UniqueKeys;
    SortedUnique(ByKey(), Sort(ByKey(), a), Sort(ByKey(), b));
    if |a| <= limit {
      ListsAlike(a, b);
    } else {
      SmallestFirst(Sort(ByKey(), a), limit);
    }
  }

  /** What is cut off a list sorted by key has larger keys than what stays. */
  lemma SmallestFirst(sorted: seq<Entity>, limit: nat)
    requires SortedBy(ByKey(), sorted) && limit <= |sorted|
    ensures forall e, f :: e in sorted[..limit] && f in sorted && f !in sorted[..limit] ==> e.key < f.key
  {
    forall e, f | e in sorted[..limit] && f in sorted && f !in sorted[..limit] ensures e.key < f.key {
      var i :| 0 <= i < limit && sorted[..limit][i] == e;
      var j :| 0 <= j < |sorted| && sorted[j] == f;
      assert forall m :: 0 <= m < limit ==> sorted[m] == sorted[..limit][m] && sorted[m] in sorted[..limit];
      assert ByKey()(sorted[i], sorted[j]);
    }
  }

  lemma SortedByKey(s: seq<Entity>)
    requires UniqueKeys(s)
    ensures SortedBy(ByKey(), Sort(ByKey(), s)) && Elements(Sort(ByKey(), s)) == Elements(s)
    ensures StrictOrder(ByKey())
  {
    var lt := ByKey();
    forall a, b | a in s && b in s && a != b ensures lt(a, b) || lt(b, a) {
      var i :| 0 <= i < |s| && s[i] == a;
      var j :| 0 <= j < |s| && s[j] == b;
      assert s[i].key != s[j].key;
    }
    SortIsSorted(lt, s);
  }
}
