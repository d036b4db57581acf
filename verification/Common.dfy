/** Small shared vocabulary: options, strict total orders with insertion sort, string order,
    and enumerations of finite sets (the arbitrary order in which Go ranges over a map). */
module Common {

  datatype Option<+T> = None | Some(value: T)

  function Max(a: int, b: int): int {
    if a > b then a else b
  }

  function Min(a: int, b: int): int {
    if a < b then a else b
  }

  ghost predicate Distinct<T(!new)>(s: seq<T>) {
    forall i, j :: 0 <= i < j < |s| ==> s[i] != s[j]
  }

  ghost function Elements<T>(s: seq<T>): set<T> {
    set x | x in s
  }

  /** The sequence up to and including position i. */
  function Upto<T>(s: seq<T>, i: nat): seq<T>
    requires i < |s|
  {
    s[..i + 1]
  }

  // ---- Sizes ------------------------------------------------------------------------

  function One(b: bool): int { if b then 1 else 0 }

  lemma {:induction false} SubsetIsNoLarger<K>(a: set<K>, b: set<K>)
    requires a <= b
    ensures |a| <= |b|
  {
    if a != {} {
      var x :| x in a;
      SubsetIsNoLarger(a - {x}, b - {x});
    }
  }

  /** Two sets that agree away from k differ in size by k alone. */
  lemma DifferAtOne<K(!new)>(before: set<K>, after: set<K>, k: K)
    requires forall d :: d != k ==> (d in before <==> d in after)
    ensures |after| == |before| + One(k in after) - One(k in before)
  {
    var rest := before - {k};
    if k in before { assert before == rest + {k}; } else { assert before == rest; }
    if k in after { assert after == rest + {k}; } else { assert after == rest; }
  }

  // ---- Enumerations: every order a map range may take ------------------------------

  ghost predicate IsEnumeration<K(!new)>(ks: seq<K>, keys: set<K>) {
    Distinct(ks) && Elements(ks) == keys
  }

  ghost function SomeEnumeration<K(!new)>(keys: set<K>): (ks: seq<K>)
    ensures IsEnumeration(ks, keys)
  {
    if keys == {} then []
    else
      var k :| k in keys;
      var rest := SomeEnumeration(keys - {k});
      assert k !in Elements(rest) && Elements([k] + rest) == Elements(rest) + {k};
      [k] + rest
  }

  /** A proposed order, when it is one; otherwise some order. Makes steps total in their
      scheduling choice while covering exactly the orders a range can take. */
  ghost function OrderOf<K(!new)>(proposed: seq<K>, keys: set<K>): (ks: seq<K>)
    ensures IsEnumeration(ks, keys)
    ensures IsEnumeration(proposed, keys) ==> ks == proposed
  {
    if IsEnumeration(proposed, keys) then proposed else SomeEnumeration(keys)
  }

  // ---- Strict orders ----------------------------------------------------------------

  ghost predicate StrictOrder<T(!new)>(lt: (T, T) -> bool) {
    && (forall a :: !lt(a, a))
    && (forall a, b, c :: lt(a, b) && lt(b, c) ==> lt(a, c))
  }

  /** The order decides between any two distinct elements of the sequence. */
  ghost predicate TotalOn<T(!new)>(lt: (T, T) -> bool, s: seq<T>) {
    forall a, b :: a in s && b in s && a != b ==> lt(a, b) || lt(b, a)
  }

  ghost predicate SortedBy<T(!new)>(lt: (T, T) -> bool, s: seq<T>) {
    forall i, j :: 0 <= i < j < |s| ==> lt(s[i], s[j])
  }

  /** Two sequences strictly sorted by the same order with the same elements are equal:
      what makes every ranking in this project independent of its input order. */
  lemma {:induction false} SortedUnique<T(!new)>(lt: (T, T) -> bool, a: seq<T>, b: seq<T>)
    requires StrictOrder(lt) && SortedBy(lt, a) && SortedBy(lt, b)
    requires Elements(a) == Elements(b)
    ensures a == b
  {
    if b != [] {
      assert b[0] in Elements(b);
    }
    if a != [] {
      assert a[0] in Elements(a);
      assert a[0] in b && b[0] in a;
      assert a[0] == b[0];
      var x := a[0];
      assert Elements(a[1..]) == Elements(a) - {x} by { DropHead(lt, a); }
      assert Elements(b[1..]) == Elements(b) - {x} by { DropHead(lt, b); }
      SortedUnique(lt, a[1..], b[1..]);
      assert a == [x] + a[1..] && b == [x] + b[1..];
    }
  }

  lemma DropHead<T(!new)>(lt: (T, T) -> bool, s: seq<T>)
    requires StrictOrder(lt) && SortedBy(lt, s) && s != []
    ensures Elements(s[1..]) == Elements(s) - {s[0]}
  {
    assert s == [s[0]] + s[1..];
  }

  function Insert<T(!new)>(lt: (T, T) -> bool, x: T, s: seq<T>): (r: seq<T>)
    ensures |r| == |s| + 1
    ensures forall y :: y in r <==> y == x || y in s
  {
    if s == [] || lt(x, s[0]) then [x] + s else [s[0]] + Insert(lt, x, s[1..])
  }

  function Sort<T(!new)>(lt: (T, T) -> bool, s: seq<T>): (r: seq<T>)
    ensures |r| == |s|
    ensures forall y :: y in r <==> y in s
  {
    if s == [] then [] else Insert(lt, s[0], Sort(lt, s[1..]))
  }

  lemma {:induction false} InsertKeepsSorted<T(!new)>(lt: (T, T) -> bool, x: T, s: seq<T>)
    requires StrictOrder(lt) && SortedBy(lt, s) && x !in s && TotalOn(lt, [x] + s)
    ensures SortedBy(lt, Insert(lt, x, s))
  {
    if s == [] || lt(x, s[0]) {
    } else {
      assert forall y :: y in [x] + s[1..] ==> y in [x] + s;
      InsertKeepsSorted(lt, x, s[1..]);
      assert x in [x] + s && s[0] in [x] + s;
      var rest := Insert(lt, x, s[1..]);
      forall y | y in rest ensures lt(s[0], y) {
        if y != x {
          var i :| 0 <= i < |s[1..]| && s[1..][i] == y;
          assert s[i + 1] == y;
        }
      }
    }
  }

  /** Sorting distinct elements yields the strictly sorted sequence of them. */
  lemma {:induction false} SortIsSorted<T(!new)>(lt: (T, T) -> bool, s: seq<T>)
    requires StrictOrder(lt) && TotalOn(lt, s) && Distinct(s)
    ensures SortedBy(lt, Sort(lt, s)) && Elements(Sort(lt, s)) == Elements(s)
  {
    if s != [] {
      assert Distinct(s[1..]);
      SortIsSorted(lt, s[1..]);
      assert s[0] !in s[1..];
      assert forall y :: y in [s[0]] + Sort(lt, s[1..]) ==> y in s;
      InsertKeepsSorted(lt, s[0], Sort(lt, s[1..]));
    }
  }

  // ---- strings.Compare --------------------------------------------------------------

  predicate StrLess(a: string, b: string) {
    b != [] && (a == [] || a[0] < b[0] || (a[0] == b[0] && StrLess(a[1..], b[1..])))
  }

  lemma StrLessTotal(a: string, b: string)
    ensures a == b || StrLess(a, b) || StrLess(b, a)
    ensures !(StrLess(a, b) && StrLess(b, a))
    ensures !StrLess(a, a)
  {
    if a != [] && b != [] {
      assert a == [a[0]] + a[1..] && b == [b[0]] + b[1..];
      StrLessTotal(a[1..], b[1..]);
    }
    if a != [] { StrLessTotal(a[1..], a[1..]); }
  }

  lemma StrLessTransitive(a: string, b: string, c: string)
    requires StrLess(a, b) && StrLess(b, c)
    ensures StrLess(a, c)
  {
    if a != [] && a[0] == b[0] == c[0] {
      StrLessTransitive(a[1..], b[1..], c[1..]);
    }
  }
}
