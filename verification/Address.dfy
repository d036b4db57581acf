/** Which of a device's observed addresses the collectors dial, and in which order
    (internal/registry/address.go). */
module Address {
  import opened Common

  // ---- netip ------------------------------------------------------------------------

  type u32 = n: nat | n < 0x1_0000_0000
  type u128 = n: nat | n < 0x1_0000_0000_0000_0000_0000_0000_0000_0000

  /** netip.Addr; `NoAddr` is its zero value. */
  datatype Addr = NoAddr | V4(v4: u32) | V6(v6: u128, zone: string) {
    predicate IsValid() { !NoAddr? }
  }

  function Unmap(a: Addr): (r: Addr)
    ensures r.IsValid() == a.IsValid()
  {
    if a.V6? && a.v6 / 0x1_0000_0000 == 0xffff then V4(a.v6 % 0x1_0000_0000) else a
  }

  lemma UnmapIdempotent(a: Addr)
    ensures Unmap(Unmap(a)) == Unmap(a)
  {
  }

  function Top16(a: u128): nat {
    a / 0x1_0000_0000_0000_0000_0000_0000_0000
  }

  predicate IsLoopback(a: Addr) {
    match a
    case NoAddr => false
    case V4(n) => n / 0x100_0000 == 127
    case V6(n, _) => n == 1
  }

  predicate IsMulticast(a: Addr) {
    match a
    case NoAddr => false
    case V4(n) => 224 <= n / 0x100_0000 < 240
    case V6(n, _) => Top16(n) / 0x100 == 0xff
  }

  predicate IsUnspecified(a: Addr) {
    a == V4(0) || a == V6(0, "")
  }

  predicate IsLinkLocalUnicast(a: Addr) {
    match a
    case NoAddr => false
    case V4(n) => n / 0x1_0000 == 169 * 256 + 254
    case V6(n, _) => 0xfe80 <= Top16(n) < 0xfec0
  }

  function BitLen(a: Addr): nat {
    match a
    case NoAddr => 0
    case V4(_) => 32
    case V6(_, _) => 128
  }

  function Bits(a: Addr): nat {
    match a
    case NoAddr => 0
    case V4(n) => n
    case V6(n, _) => n
  }

  function Zone(a: Addr): string {
    if a.V6? then a.zone else ""
  }

  /** netip.Addr.Compare(a, b) < 0. */
  predicate AddrLess(a: Addr, b: Addr) {
    || BitLen(a) < BitLen(b)
    || (BitLen(a) == BitLen(b) && Bits(a) < Bits(b))
    || (BitLen(a) == BitLen(b) && Bits(a) == Bits(b) && StrLess(Zone(a), Zone(b)))
  }

  function Pow2(n: nat): (p: nat)
    ensures p > 0
  {
    if n == 0 then 1 else 2 * Pow2(n - 1)
  }

  /** netip.Prefix, already masked by NewAddressPolicy. */
  datatype Prefix = Prefix(base: Addr, length: nat)

  predicate Contains(p: Prefix, a: Addr) {
    && p.base.IsValid() && BitLen(p.base) == BitLen(a) && p.length <= BitLen(a)
    && Zone(a) == ""
    && Bits(a) / Pow2(BitLen(a) - p.length) == Bits(p.base) / Pow2(BitLen(a) - p.length)
  }

  // ---- Policy -----------------------------------------------------------------------

  datatype Policy = Policy(allowIPv6: bool, allow: seq<Prefix>, deny: seq<Prefix>)

  predicate InAny(ps: seq<Prefix>, a: Addr) {
    exists i :: 0 <= i < |ps| && Contains(ps[i], a)
  }

  function Score(p: Policy, addr: Addr): int {
    if !addr.IsValid() then -1
    else
      var a := Unmap(addr);
      if IsLoopback(a) || IsMulticast(a) || IsUnspecified(a) || IsLinkLocalUnicast(a) then -1
      else if InAny(p.deny, a) then -1
      else if a.V6? && !p.allowIPv6 then -1
      else if p.allow != [] && !InAny(p.allow, a) then (if a.V4? then 10 else 5)
      else if a.V4? then (if p.allow != [] then 100 else 80)
      else 40
  }

  predicate Usable(p: Policy, a: Addr) { Score(p, a) >= 0 }

  /** `score` as the source runs it, its two scans of the prefix lists included. */
  method ComputeScore(p: Policy, addr: Addr) returns (score: int)
    ensures score == Score(p, addr)
  {
    if !addr.IsValid() { return -1; }
    var a := Unmap(addr);
    UnmapIdempotent(addr);
    if IsLoopback(a) || IsMulticast(a) || IsUnspecified(a) || IsLinkLocalUnicast(a) {
      return -1;
    }
    for i := 0 to |p.deny|
      invariant !InAny(p.deny[..i], a)
    {
      if Contains(p.deny[i], a) { return -1; }
    }
    assert p.deny[..|p.deny|] == p.deny;
    if a.V6? && !p.allowIPv6 { return -1; }
    var inAllow := |p.allow| == 0;
    for i := 0 to |p.allow|
      invariant inAllow == (p.allow == [] || InAny(p.allow[..i], a))
    {
      if Contains(p.allow[i], a) {
        inAllow := true;
        assert p.allow[..i + 1][i] == p.allow[i];
        break;
      }
    }
    assert p.allow[..|p.allow|] == p.allow;
    if !inAllow {
      return if a.V4? then 10 else 5;
    }
    return if a.V4? && |p.allow| > 0 then 100 else if a.V4? then 80 else 40;
  }

  /** Best first: higher score, ties by address. */
  predicate Better(p: Policy, a: Addr, b: Addr) {
    Score(p, a) > Score(p, b) || (Score(p, a) == Score(p, b) && AddrLess(a, b))
  }

  function Rank(p: Policy): (Addr, Addr) -> bool {
    (a, b) => Better(p, a, b)
  }

  // ---- What the scores amount to ------------------------------------------------------

  /** An address may be dialled exactly when it is of a kind that leads to a device, lies in
      no denied prefix, and is IPv4 unless IPv6 is allowed. */
  lemma UsableExactlyWhen(p: Policy, addr: Addr)
    ensures var a := Unmap(addr);
            Usable(p, addr) <==>
              && addr.IsValid() && !IsLoopback(a) && !IsMulticast(a) && !IsUnspecified(a) && !IsLinkLocalUnicast(a)
              && (forall i :: 0 <= i < |p.deny| ==> !Contains(p.deny[i], a))
              && (a.V4? || p.allowIPv6)
  {
    hide IsLoopback, IsMulticast, IsUnspecified, IsLinkLocalUnicast, Contains;
  }

  /** The allow list, if there is one, has the address. */
  ghost predicate Allowed(p: Policy, addr: Addr) {
    p.allow == [] || exists i :: 0 <= i < |p.allow| && Contains(p.allow[i], Unmap(addr))
  }

  /** Of two usable addresses one that the allow list has beats one it has not; where both
      are alike in that, IPv4 beats IPv6; and where they are alike in that too, the lower
      address beats the higher. */
  lemma BetterExactlyWhen(p: Policy, x: Addr, y: Addr)
    requires Usable(p, x) && Usable(p, y)
    ensures Better(p, x, y) <==>
              if Allowed(p, x) != Allowed(p, y) then Allowed(p, x)
              else if Unmap(x).V4? != Unmap(y).V4? then Unmap(x).V4?
              else AddrLess(x, y)
  {
    hide IsLoopback, IsMulticast, IsUnspecified, IsLinkLocalUnicast, Contains, AddrLess;
  }

  lemma RankIsStrictTotal(p: Policy)
    ensures StrictOrder(Rank(p))
    ensures forall s: seq<Addr> :: TotalOn(Rank(p), s)
  {
    var lt := Rank(p);
    forall a: Addr ensures !lt(a, a) { StrLessTotal(Zone(a), Zone(a)); }
    forall a: Addr, b: Addr | a != b ensures lt(a, b) || lt(b, a) {
      StrLessTotal(Zone(a), Zone(b));
    }
    forall a: Addr, b: Addr, c: Addr | lt(a, b) && lt(b, c) ensures lt(a, c) {
      if StrLess(Zone(a), Zone(b)) && StrLess(Zone(b), Zone(c)) {
        StrLessTransitive(Zone(a), Zone(b), Zone(c));
      }
    }
  }

  // ---- Order ------------------------------------------------------------------------

  /** First occurrences only. */
  function Dedupe(s: seq<Addr>): (r: seq<Addr>)
    ensures Distinct(r) && Elements(r) == Elements(s)
  {
    if s == [] then []
    else
      var r := Dedupe(s[..|s| - 1]);
      var last := s[|s| - 1];
      assert s == s[..|s| - 1] + [last];
      if last in r then r
      else
        assert Elements(r + [last]) == Elements(r) + {last};
        r + [last]
  }

  /** Unmapped, usable, first occurrences only, in the order met. */
  function Admitted(p: Policy, cs: seq<Addr>): (r: seq<Addr>)
    ensures Distinct(r)
    ensures forall a :: a in r <==> exists i :: 0 <= i < |cs| && Unmap(cs[i]) == a && Usable(p, a)
  {
    if cs == [] then []
    else
      var r := Admitted(p, cs[..|cs| - 1]);
      var last := Unmap(cs[|cs| - 1]);
      assert forall i :: 0 <= i < |cs| - 1 ==> cs[i] == cs[..|cs| - 1][i];
      if last in r || !Usable(p, last) then r else r + [last]
  }

  function IndexOf(s: seq<Addr>, a: Addr): (i: int)
    ensures -1 <= i < |s|
    ensures i == -1 <==> a !in s
    ensures i >= 0 ==> s[i] == a && a !in s[..i]
  {
    if s == [] then -1
    else if s[0] == a then 0
    else
      var j := IndexOf(s[1..], a);
      if j == -1 then -1
      else
        assert s[..j + 1] == [s[0]] + s[1..][..j];
        j + 1
  }

  /** The pinned address, when valid and present, forced to the front. */
  function PinFirst(s: seq<Addr>, pinned: Addr): (r: seq<Addr>)
    ensures |r| == |s| && Elements(r) == Elements(s)
    ensures Distinct(s) ==> Distinct(r)
    ensures pinned.IsValid() && Unmap(pinned) in s ==> r[0] == Unmap(pinned)
  {
    var i := if pinned.IsValid() then IndexOf(s, Unmap(pinned)) else -1;
    if i > 0 then
      var r := [s[i]] + s[..i] + s[i + 1..];
      assert s == s[..i] + [s[i]] + s[i + 1..];
      assert Elements(r) == Elements(s) by {
        assert forall x :: x in r <==> x in s;
      }
      r
    else s
  }

  function Order(p: Policy, cs: seq<Addr>, pinned: Addr): seq<Addr> {
    PinFirst(Sort(Rank(p), Admitted(p, cs)), pinned)
  }

  /** Order is characterised without reference to how it works: no duplicates, exactly the
      unmapped usable candidates, the pin first when it is among them, and everything else
      by descending score and then address. */
  lemma OrderMeaning(p: Policy, cs: seq<Addr>, pinned: Addr)
    ensures var r := Order(p, cs, pinned);
            var pin := Unmap(pinned);
            && Distinct(r)
            && (forall a :: a in r <==> Usable(p, a) && exists i :: 0 <= i < |cs| && Unmap(cs[i]) == a)
            && (pinned.IsValid() && pin in r ==> r[0] == pin)
            && (forall i, j :: 0 <= i < j < |r| && !(pinned.IsValid() && r[i] == pin) ==> Better(p, r[i], r[j]))
  {
    var admitted := Admitted(p, cs);
    var sorted := Sort(Rank(p), admitted);
    RankIsStrictTotal(p);
    SortIsSorted(Rank(p), admitted);
    SortedIsDistinct(Rank(p), sorted);
    PinFirstKeepsRanks(Rank(p), sorted, pinned);
    var r := PinFirst(sorted, pinned);
    forall a ensures a in r <==> a in admitted {
      assert a in r <==> a in Elements(r);
      assert a in sorted <==> a in Elements(sorted);
    }
  }

  lemma PinFirstKeepsRanks(lt: (Addr, Addr) -> bool, s: seq<Addr>, pinned: Addr)
    requires SortedBy(lt, s)
    ensures var r := PinFirst(s, pinned);
            forall i, j :: 0 <= i < j < |r| && !(pinned.IsValid() && r[i] == Unmap(pinned)) ==> lt(r[i], r[j])
  {
    var r := PinFirst(s, pinned);
    var at := if pinned.IsValid() then IndexOf(s, Unmap(pinned)) else -1;
    if at > 0 {
      assert r == [s[at]] + s[..at] + s[at + 1..];
      forall i, j | 0 <= i < j < |r| && r[i] != Unmap(pinned)
        ensures lt(r[i], r[j])
      {
        var i' := if i <= at then i - 1 else i;
        var j' := if j <= at then j - 1 else j;
        assert r[i] == s[i'] && r[j] == s[j'];
      }
    }
  }

  lemma SortedIsDistinct(lt: (Addr, Addr) -> bool, s: seq<Addr>)
    requires StrictOrder(lt) && SortedBy(lt, s)
    ensures Distinct(s)
  {
    forall i, j | 0 <= i < j < |s| ensures s[i] != s[j] {
      assert lt(s[i], s[j]);
    }
  }

  /** Order depends on the set of unmapped candidates alone, not on the order they came in
      or how often each was seen. */
  lemma OrderIgnoresInputOrder(p: Policy, cs: seq<Addr>, ds: seq<Addr>, pinned: Addr)
    requires (set i | 0 <= i < |cs| :: Unmap(cs[i])) == (set i | 0 <= i < |ds| :: Unmap(ds[i]))
    ensures Order(p, cs, pinned) == Order(p, ds, pinned)
  {
    var a, b := Admitted(p, cs), Admitted(p, ds);
    RankIsStrictTotal(p);
    SortIsSorted(Rank(p), a);
    SortIsSorted(Rank(p), b);
    assert Elements(a) == Elements(b) by {
      var us := set i | 0 <= i < |cs| :: Unmap(cs[i]);
      assert forall x :: x in a <==> x in us && Usable(p, x);
      assert us == set i | 0 <= i < |ds| :: Unmap(ds[i]);
      assert forall x :: x in b <==> x in us && Usable(p, x);
    }
    SortedUnique(Rank(p), Sort(Rank(p), a), Sort(Rank(p), b));
  }

  lemma AdmittedTurns(p: Policy, cs: seq<Addr>, c: Addr)
    ensures Admitted(p, cs + [c]) ==
            Admitted(p, cs) + (if Unmap(c) in Admitted(p, cs) || !Usable(p, Unmap(c)) then [] else [Unmap(c)])
  {
    hide Usable, Unmap;
    assert (cs + [c])[..|cs|] == cs;
  }

  lemma AdmittedSeen(p: Policy, cs: seq<Addr>, i: nat, a: Addr)
    requires i <= |cs| && Usable(p, a)
    ensures a in Admitted(p, cs[..i]) <==> a in set j | 0 <= j < i :: Unmap(cs[j])
  {
    hide Usable, Unmap;
    if a in Admitted(p, cs[..i]) {
      var j :| 0 <= j < i && Unmap(cs[..i][j]) == a;
      assert cs[..i][j] == cs[j];
    }
    if j :| 0 <= j < i && Unmap(cs[j]) == a {
      assert cs[..i][j] == cs[j];
    }
  }

  /** The candidates up to i admit one more, if it is usable and new. */
  lemma AdmitsNext(p: Policy, cs: seq<Addr>, i: nat, seen: set<Addr>)
    requires i < |cs| && seen == set j | 0 <= j < i :: Unmap(cs[j])
    ensures var c := Unmap(cs[i]);
            Admitted(p, cs[..i + 1]) == Admitted(p, cs[..i]) + (if c !in seen && Usable(p, c) then [c] else [])
  {
    hide *;
    assert cs[..i + 1] == cs[..i] + [cs[i]];
    AdmittedTurns(p, cs[..i], cs[i]);
    if Usable(p, Unmap(cs[i])) { AdmittedSeen(p, cs, i, Unmap(cs[i])); }
  }

  /** `Order` as the source runs it. */
  method ComputeOrder(p: Policy, cs: seq<Addr>, pinned: Addr) returns (addrs: seq<Addr>)
    ensures addrs == Order(p, cs, pinned)
  {
    hide Unmap, Score, Rank, Sort, PinFirst;
    var seen: set<Addr> := {};
    var out: seq<Addr> := [];
    for i := 0 to |cs|
      invariant out == Admitted(p, cs[..i])
      invariant seen == set j | 0 <= j < i :: Unmap(cs[j])
    {
      var c := Unmap(cs[i]);
      AdmitsNext(p, cs, i, seen);
      if c !in seen {
        seen := seen + {c};
        var score := ComputeScore(p, c);
        if score >= 0 {
          out := out + [c];
        }
      }
    }
    assert cs[..|cs|] == cs;
    addrs := MovePinToFront(Sort(Rank(p), out), pinned);
  }

  method MovePinToFront(s: seq<Addr>, pinned: Addr) returns (r: seq<Addr>)
    ensures r == PinFirst(s, pinned)
  {
    r := s;
    if pinned.IsValid() {
      var i := IndexOf(s, Unmap(pinned));
      if i > 0 {
        r := s[..i] + s[i + 1..];
        r := [Unmap(pinned)] + r;
        assert r == [s[i]] + s[..i] + s[i + 1..];
      }
    }
  }

  // ---- OrderCandidates --------------------------------------------------------------

  datatype Candidate = Candidate(addr: Addr, trusted: bool)

  function TrustedOf(cs: seq<Candidate>): (r: seq<Addr>)
    ensures forall a :: a in r <==> exists i :: 0 <= i < |cs| && cs[i].trusted && Unmap(cs[i].addr) == a
  {
    if cs == [] then []
    else
      var r := TrustedOf(cs[..|cs| - 1]);
      var c := cs[|cs| - 1];
      assert forall i :: 0 <= i < |cs| - 1 ==> cs[i] == cs[..|cs| - 1][i];
      if c.trusted then r + [Unmap(c.addr)] else r
  }

  function DiscoveredOf(p: Policy, cs: seq<Candidate>): (r: seq<Addr>)
    ensures forall a :: a in r <==> exists i :: 0 <= i < |cs| && !cs[i].trusted && Usable(p, cs[i].addr) && Unmap(cs[i].addr) == a
  {
    if cs == [] then []
    else
      var r := DiscoveredOf(p, cs[..|cs| - 1]);
      var c := cs[|cs| - 1];
      assert forall i :: 0 <= i < |cs| - 1 ==> cs[i] == cs[..|cs| - 1][i];
      if !c.trusted && Usable(p, c.addr) then r + [Unmap(c.addr)] else r
  }

  function RejectedOf(p: Policy, cs: seq<Candidate>): (r: seq<Addr>)
    ensures forall a :: a in r <==> exists i :: 0 <= i < |cs| && !cs[i].trusted && !Usable(p, cs[i].addr) && Unmap(cs[i].addr) == a
  {
    if cs == [] then []
    else
      var r := RejectedOf(p, cs[..|cs| - 1]);
      var c := cs[|cs| - 1];
      assert forall i :: 0 <= i < |cs| - 1 ==> cs[i] == cs[..|cs| - 1][i];
      if !c.trusted && !Usable(p, c.addr) then r + [Unmap(c.addr)] else r
  }

  /** The ordered addresses and the rejected ones. */
  function OrderCandidates(p: Policy, cs: seq<Candidate>, pinned: Addr): (seq<Addr>, seq<Addr>) {
    (PinFirst(Dedupe(TrustedOf(cs)) + Order(p, DiscoveredOf(p, cs), pinned), pinned), RejectedOf(p, cs))
  }

  lemma UnmapKeepsUsable(p: Policy, a: Addr)
    ensures Usable(p, Unmap(a)) == Usable(p, a)
  {
    UnmapIdempotent(a);
  }

  /** No candidate is lost: each is ordered or rejected, and the rejected are exactly the
      untrusted, unusable ones. Everything not vouched for that is ordered is usable. */
  lemma OrderCandidatesMeaning(p: Policy, cs: seq<Candidate>, pinned: Addr)
    ensures var (ordered, rejected) := OrderCandidates(p, cs, pinned);
            && (forall a :: a in ordered <==> exists i :: 0 <= i < |cs| && Unmap(cs[i].addr) == a && (cs[i].trusted || Usable(p, cs[i].addr)))
            && (forall a :: a in rejected <==> exists i :: 0 <= i < |cs| && Unmap(cs[i].addr) == a && !cs[i].trusted && !Usable(p, cs[i].addr))
  {
    var t, d := Dedupe(TrustedOf(cs)), Order(p, DiscoveredOf(p, cs), pinned);
    var ordered := PinFirst(t + d, pinned);
    OrderedAreDiscovered(p, cs, pinned);
    assert forall a :: a in ordered <==> a in Elements(ordered);
    assert forall a :: a in t + d <==> a in Elements(t + d);
    assert forall a :: a in t <==> a in Elements(t);
    assert forall a :: a in TrustedOf(cs) <==> a in Elements(TrustedOf(cs));
  }

  lemma {:induction false} DistinctSize(s: seq<Addr>)
    ensures |Elements(s)| <= |s|
    ensures Distinct(s) <==> |Elements(s)| == |s|
  {
    if s != [] {
      var init, last := s[..|s| - 1], s[|s| - 1];
      DistinctSize(init);
      assert s == init + [last];
      if last in init {
        assert Elements(s) == Elements(init);
        var i :| 0 <= i < |init| && init[i] == last;
        assert s[i] == s[|s| - 1];
      } else {
        assert Elements(s) == Elements(init) + {last};
        assert forall i :: 0 <= i < |init| ==> s[i] == init[i];
      }
    }
  }

  /** The ordered addresses are free of duplicates exactly when no address is both vouched
      for and, from elsewhere, merely discovered and usable. */
  lemma OrderedDistinctExactlyWhen(p: Policy, cs: seq<Candidate>, pinned: Addr)
    ensures Distinct(OrderCandidates(p, cs, pinned).0) <==>
            forall a :: a in TrustedOf(cs) ==> a !in DiscoveredOf(p, cs)
  {
    var t, d := Dedupe(TrustedOf(cs)), Order(p, DiscoveredOf(p, cs), pinned);
    DistinctSize(t + d);
    DistinctSize(PinFirst(t + d, pinned));
    OrderedAreDiscovered(p, cs, pinned);
    OrderMeaning(p, DiscoveredOf(p, cs), pinned);
    assert forall a :: a in t <==> a in Elements(t);
    assert forall a :: a in TrustedOf(cs) <==> a in Elements(TrustedOf(cs));
    hide Order, Dedupe, TrustedOf, DiscoveredOf, PinFirst;
    JoinDistinct(t, d);
  }

  lemma JoinDistinct(s: seq<Addr>, t: seq<Addr>)
    requires Distinct(s) && Distinct(t)
    ensures Distinct(s + t) <==> forall a :: a in s ==> a !in t
  {
    forall a | a in s && a in t ensures !Distinct(s + t) {
      var i :| 0 <= i < |s| && s[i] == a;
      var j :| 0 <= j < |t| && t[j] == a;
      assert (s + t)[i] == (s + t)[|s| + j];
    }
    if !Distinct(s + t) {
      var i, j :| 0 <= i < j < |s + t| && (s + t)[i] == (s + t)[j];
      assert i < |s| <= j && s[i] == t[j - |s|];
      assert s[i] in s && s[i] in t;
    }
  }

  lemma OrderedAreDiscovered(p: Policy, cs: seq<Candidate>, pinned: Addr)
    ensures forall a :: a in Order(p, DiscoveredOf(p, cs), pinned) <==> a in DiscoveredOf(p, cs)
  {
    var d := Order(p, DiscoveredOf(p, cs), pinned);
    OrderMeaning(p, DiscoveredOf(p, cs), pinned);
    forall a ensures a in d <==> a in DiscoveredOf(p, cs) {
      if a in DiscoveredOf(p, cs) {
        var i :| 0 <= i < |cs| && !cs[i].trusted && Usable(p, cs[i].addr) && Unmap(cs[i].addr) == a;
        UnmapKeepsUsable(p, cs[i].addr);
        UnmapIdempotent(cs[i].addr);
        var j :| 0 <= j < |DiscoveredOf(p, cs)| && DiscoveredOf(p, cs)[j] == a;
        assert Unmap(DiscoveredOf(p, cs)[j]) == a;
      } else if a in d {
        var j :| 0 <= j < |DiscoveredOf(p, cs)| && Unmap(DiscoveredOf(p, cs)[j]) == a;
        var b := DiscoveredOf(p, cs)[j];
        assert b in DiscoveredOf(p, cs);
        var i :| 0 <= i < |cs| && !cs[i].trusted && Usable(p, cs[i].addr) && Unmap(cs[i].addr) == b;
        UnmapIdempotent(cs[i].addr);
        assert false;
      }
    }
  }

  /** Ranking: with no pin among them, the vouched-for addresses come first and everything
      merely discovered follows best first; a pin moves to the very front. */
  lemma TrustedOutranksDiscovered(p: Policy, cs: seq<Candidate>, pinned: Addr)
    ensures var (ordered, _) := OrderCandidates(p, cs, pinned);
            var t := Dedupe(TrustedOf(cs));
            && (pinned.IsValid() && Unmap(pinned) in ordered ==> ordered[0] == Unmap(pinned))
            && (!pinned.IsValid() || Unmap(pinned) !in ordered ==>
                  t <= ordered && SortedBy(Rank(p), ordered[|t|..]))
  {
    hide *;
    OrderCandidatesIs(p, cs, pinned);
    var t, d := Dedupe(TrustedOf(cs)), Order(p, DiscoveredOf(p, cs), pinned);
    PinFirstIs(t + d, pinned);
    if !pinned.IsValid() || Unmap(pinned) !in t + d {
      assert (t + d)[|t|..] == d;
      OrderWithoutPin(p, DiscoveredOf(p, cs), pinned);
    }
  }

  lemma OrderCandidatesIs(p: Policy, cs: seq<Candidate>, pinned: Addr)
    ensures OrderCandidates(p, cs, pinned).0 == PinFirst(Dedupe(TrustedOf(cs)) + Order(p, DiscoveredOf(p, cs), pinned), pinned)
  {
    hide PinFirst, Dedupe, Order, TrustedOf, DiscoveredOf;
  }

  lemma PinFirstIs(s: seq<Addr>, pinned: Addr)
    ensures forall a :: a in PinFirst(s, pinned) <==> a in s
    ensures pinned.IsValid() && Unmap(pinned) in s ==> PinFirst(s, pinned) != [] && PinFirst(s, pinned)[0] == Unmap(pinned)
    ensures !pinned.IsValid() || Unmap(pinned) !in s ==> PinFirst(s, pinned) == s
  {
    hide Unmap;
    assert forall a :: a in PinFirst(s, pinned) <==> a in Elements(PinFirst(s, pinned));
    assert forall a :: a in s <==> a in Elements(s);
  }

  lemma OrderWithoutPin(p: Policy, cs: seq<Addr>, pinned: Addr)
    requires !pinned.IsValid() || Unmap(pinned) !in Order(p, cs, pinned)
    ensures SortedBy(Rank(p), Order(p, cs, pinned))
  {
    OrderMeaning(p, cs, pinned);
    hide Order, Usable, Unmap;
  }

  /** One address vouched for by the operator and seen on the network as well is listed more
      than once. */
  lemma TwiceListed(pinned: Addr)
    ensures var p, home := Policy(false, [], []), V4(0xC0A8_013D);
            !Distinct(OrderCandidates(p, [Candidate(home, true), Candidate(home, false)], pinned).0)
  {
    var p, home := Policy(false, [], []), V4(0xC0A8_013D);
    var cs := [Candidate(home, true), Candidate(home, false)];
    assert Usable(p, home) && Unmap(home) == home;
    hide *;
    OrderedDistinctExactlyWhen(p, cs, pinned);
    assert cs[0].trusted && Unmap(cs[0].addr) == home && !cs[1].trusted && Usable(p, cs[1].addr) && Unmap(cs[1].addr) == home;
    assert home in TrustedOf(cs) && home in DiscoveredOf(p, cs);
  }

  /** Candidates given in any order, any number of times, are ordered alike as long as at
      most one distinct address is vouched for. */
  lemma OrderCandidatesIgnoresInputOrder(p: Policy, cs: seq<Candidate>, ds: seq<Candidate>, pinned: Addr)
    requires Elements(cs) == Elements(ds)
    requires AtMostOneTrusted(cs)
    ensures OrderCandidates(p, cs, pinned).0 == OrderCandidates(p, ds, pinned).0
  {
    var ct, dt := TrustedOf(cs), TrustedOf(ds);
    var cd, dd := DiscoveredOf(p, cs), DiscoveredOf(p, ds);
    forall a ensures (a in ct <==> a in dt) && (a in cd <==> a in dd) {
      SameMembers(p, cs, ds, a);
      SameMembers(p, ds, cs, a);
    }
    assert Dedupe(ct) == Dedupe(dt) by {
      SmallDedupe(ct, dt);
    }
    assert (set i | 0 <= i < |cd| :: Unmap(cd[i])) == (set i | 0 <= i < |dd| :: Unmap(dd[i])) by {
      forall x | x in cd ensures x in dd { }
      assert (set i | 0 <= i < |cd| :: Unmap(cd[i])) == (set a | a in cd :: Unmap(a));
      assert (set i | 0 <= i < |dd| :: Unmap(dd[i])) == (set a | a in dd :: Unmap(a));
    }
    OrderIgnoresInputOrder(p, cd, dd, pinned);
  }

  ghost predicate AtMostOneTrusted(cs: seq<Candidate>) {
    forall i, j :: 0 <= i < |cs| && 0 <= j < |cs| && cs[i].trusted && cs[j].trusted
      ==> Unmap(cs[i].addr) == Unmap(cs[j].addr)
  }

  lemma SameMembers(p: Policy, cs: seq<Candidate>, ds: seq<Candidate>, a: Addr)
    requires Elements(cs) == Elements(ds)
    ensures a in TrustedOf(cs) ==> a in TrustedOf(ds)
    ensures a in DiscoveredOf(p, cs) ==> a in DiscoveredOf(p, ds)
  {
    if a in TrustedOf(cs) {
      var i :| 0 <= i < |cs| && cs[i].trusted && Unmap(cs[i].addr) == a;
      assert cs[i] in Elements(ds);
      var j :| 0 <= j < |ds| && ds[j] == cs[i];
    }
    if a in DiscoveredOf(p, cs) {
      var i :| 0 <= i < |cs| && !cs[i].trusted && Usable(p, cs[i].addr) && Unmap(cs[i].addr) == a;
      assert cs[i] in Elements(ds);
      var j :| 0 <= j < |ds| && ds[j] == cs[i];
    }
  }

  lemma SmallDedupe(s: seq<Addr>, t: seq<Addr>)
    requires forall a :: a in s <==> a in t
    requires forall a, b :: a in s && b in s ==> a == b
    ensures Dedupe(s) == Dedupe(t)
  {
    var r, q := Dedupe(s), Dedupe(t);
    forall a ensures (a in r <==> a in s) && (a in q <==> a in t) {
      assert a in r <==> a in Elements(r);
      assert a in s <==> a in Elements(s);
      assert a in q <==> a in Elements(q);
      assert a in t <==> a in Elements(t);
    }
    AtMostOne(r);
    AtMostOne(q);
    assert r != [] ==> r[0] in q;
    assert q != [] ==> q[0] in r;
  }

  lemma AtMostOne(r: seq<Addr>)
    requires Distinct(r) && forall a, b :: a in r && b in r ==> a == b
    ensures |r| <= 1
  {
    if r != [] {
      assert r[0] in r && r[|r| - 1] in r;
      assert r[0] == r[|r| - 1];
    }
  }

  /** `OrderCandidates` as the source runs it. */
  method ComputeOrderCandidates(p: Policy, cs: seq<Candidate>, pinned: Addr)
    returns (ordered: seq<Addr>, rejected: seq<Addr>)
    ensures (ordered, rejected) == OrderCandidates(p, cs, pinned)
  {
    var trusted: seq<Addr>, discovered: seq<Addr> := [], [];
    rejected := [];
    for i := 0 to |cs|
      invariant trusted == TrustedOf(cs[..i])
      invariant discovered == DiscoveredOf(p, cs[..i])
      invariant rejected == RejectedOf(p, cs[..i])
    {
      var c := cs[i];
      assert cs[..i + 1][..i] == cs[..i];
      var score := ComputeScore(p, c.addr);
      if c.trusted {
        trusted := trusted + [Unmap(c.addr)];
      } else if score >= 0 {
        discovered := discovered + [Unmap(c.addr)];
      } else {
        rejected := rejected + [Unmap(c.addr)];
      }
    }
    assert cs[..|cs|] == cs;
    var front := ComputeDedupe(trusted);
    var back := ComputeOrder(p, discovered, pinned);
    ordered := MovePinToFront(front + back, pinned);
  }

  method ComputeDedupe(addrs: seq<Addr>) returns (out: seq<Addr>)
    ensures out == Dedupe(addrs)
  {
    var seen: set<Addr> := {};
    out := [];
    for i := 0 to |addrs|
      invariant out == Dedupe(addrs[..i]) && seen == Elements(out)
    {
      assert addrs[..i + 1][..i] == addrs[..i];
      if addrs[i] !in seen {
        seen := seen + {addrs[i]};
        out := out + [addrs[i]];
      }
    }
    assert addrs[..|addrs|] == addrs;
  }
}
