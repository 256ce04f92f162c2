/** Sorting and filtering as the source uses them.

    `sorted(...)` is stable, and `reverse=True` keeps it stable, so every sort in the source is
    `SortBy(le, s)` for a comparator `le(x, y)` that reads "x may stand before y".
 */
module Ordering {

  ghost predicate TotalPreorder<T(!new)>(le: (T, T) -> bool) {
    && (forall x, y :: le(x, y) || le(y, x))
    && (forall x, y, z :: le(x, y) && le(y, z) ==> le(x, z))
  }

  ghost predicate Sorted<T>(le: (T, T) -> bool, s: seq<T>) {
    forall i, j :: 0 <= i < j < |s| ==> le(s[i], s[j])
  }

  /** No two different elements of `s` are tied. */
  ghost predicate NoTies<T>(le: (T, T) -> bool, s: seq<T>) {
    forall x, y :: x in s && y in s && le(x, y) && le(y, x) ==> x == y
  }

  ghost predicate Distinct<T>(s: seq<T>) {
    forall i, j :: 0 <= i < j < |s| ==> s[i] != s[j]
  }

  function Insert<T>(le: (T, T) -> bool, x: T, s: seq<T>): seq<T> {
    if s == [] then [x]
    else if le(x, s[0]) then [x] + s
    else [s[0]] + Insert(le, x, s[1..])
  }

  function SortBy<T>(le: (T, T) -> bool, s: seq<T>): seq<T> {
    if s == [] then [] else Insert(le, s[0], SortBy(le, s[1..]))
  }

  function Filter<T>(p: T -> bool, s: seq<T>): seq<T> {
    if s == [] then [] else (if p(s[0]) then [s[0]] else []) + Filter(p, s[1..])
  }

  /** Python's `s[:n]` for n >= 0. */
  function First<T>(s: seq<T>, n: nat): seq<T> { if n <= |s| then s[..n] else s }

  function Last<T>(s: seq<T>): T
    requires s != []
  {
    s[|s| - 1]
  }

  lemma {:induction false} InsertPermutes<T>(le: (T, T) -> bool, x: T, s: seq<T>)
    ensures multiset(Insert(le, x, s)) == multiset{x} + multiset(s)
  {
    if s == [] {
    } else {
      assert s == [s[0]] + s[1..];
      if !le(x, s[0]) {
        InsertPermutes(le, x, s[1..]);
      }
    }
  }

  lemma {:induction false} SortPermutes<T>(le: (T, T) -> bool, s: seq<T>)
    ensures multiset(SortBy(le, s)) == multiset(s)
    ensures |SortBy(le, s)| == |s|
  {
    if s == [] {
    } else {
      assert s == [s[0]] + s[1..];
      SortPermutes(le, s[1..]);
      InsertPermutes(le, s[0], SortBy(le, s[1..]));
    }
    assert |multiset(SortBy(le, s))| == |multiset(s)|;
  }

  lemma SameElements<T>(s: seq<T>, t: seq<T>)
    requires multiset(s) == multiset(t)
    ensures |s| == |t|
    ensures forall x :: x in s <==> x in t
  {
    assert |multiset(s)| == |multiset(t)|;
    forall x ensures x in s <==> x in t {
      assert x in s <==> x in multiset(s);
      assert x in t <==> x in multiset(t);
    }
  }

  lemma SortMembers<T>(le: (T, T) -> bool, s: seq<T>)
    ensures forall x :: x in SortBy(le, s) <==> x in s
  {
    SortPermutes(le, s);
    SameElements(SortBy(le, s), s);
  }

  lemma {:induction false} InsertSorted<T(!new)>(le: (T, T) -> bool, x: T, s: seq<T>)
    requires TotalPreorder(le) && Sorted(le, s)
    ensures Sorted(le, Insert(le, x, s))
  {
    if s == [] {
    } else if le(x, s[0]) {
      forall i | 0 <= i < |s| ensures le(x, s[i]) {
        assert le(s[0], s[i]);
      }
    } else {
      InsertSorted(le, x, s[1..]);
      var r := Insert(le, x, s[1..]);
      InsertPermutes(le, x, s[1..]);
      forall j | 0 <= j < |r| ensures le(s[0], r[j]) {
        assert r[j] in multiset(r);
        assert r[j] == x || r[j] in s[1..];
      }
    }
  }

  lemma {:induction false} SortSorts<T(!new)>(le: (T, T) -> bool, s: seq<T>)
    requires TotalPreorder(le)
    ensures Sorted(le, SortBy(le, s))
  {
    if s == [] {
    } else {
      SortSorts(le, s[1..]);
      InsertSorted(le, s[0], SortBy(le, s[1..]));
    }
  }

  /** Two sorted arrangements of the same elements coincide when there are no ties. */
  lemma {:induction false} SortedUnique<T(!new)>(le: (T, T) -> bool, s: seq<T>, t: seq<T>)
    requires TotalPreorder(le) && Sorted(le, s) && Sorted(le, t)
    requires multiset(s) == multiset(t) && NoTies(le, s)
    ensures s == t
  {
    SameElements(s, t);
    if s == [] {
    } else {
      HeadIsLeast(le, s, t);
      HeadIsLeast(le, t, s);
      TailMultiset(s);
      TailMultiset(t);
      SortedUnique(le, s[1..], t[1..]);
    }
  }

  lemma HeadIsLeast<T(!new)>(le: (T, T) -> bool, s: seq<T>, t: seq<T>)
    requires TotalPreorder(le) && Sorted(le, s) && multiset(s) == multiset(t) && s != [] && t != []
    ensures le(s[0], t[0]) && t[0] in s
  {
    SameElements(s, t);
    assert t[0] in s;
    var j :| 0 <= j < |s| && s[j] == t[0];
  }

  lemma TailMultiset<T>(s: seq<T>)
    requires s != []
    ensures multiset(s[1..]) == multiset(s) - multiset{s[0]}
    ensures s == [s[0]] + s[1..]
  {
    assert s == [s[0]] + s[1..];
  }

  /** Sorting forgets the order of its input when there are no ties. */
  lemma SortOfPermutation<T(!new)>(le: (T, T) -> bool, s: seq<T>, t: seq<T>)
    requires TotalPreorder(le) && multiset(s) == multiset(t) && NoTies(le, s)
    ensures SortBy(le, s) == SortBy(le, t)
  {
    SortPermutes(le, s);
    SortPermutes(le, t);
    SortMembers(le, s);
    SortSorts(le, s);
    SortSorts(le, t);
    SortedUnique(le, SortBy(le, s), SortBy(le, t));
  }

  /** A sorted sequence is a fixed point of the stable sort. */
  lemma {:induction false} SortOfSorted<T>(le: (T, T) -> bool, s: seq<T>)
    requires Sorted(le, s)
    ensures SortBy(le, s) == s
  {
    if s == [] {
    } else {
      SortOfSorted(le, s[1..]);
      assert s == [s[0]] + s[1..];
    }
  }

  /** `p` holds only of elements that tie with each other. */
  ghost predicate Tied<T(!new)>(le: (T, T) -> bool, p: T -> bool) {
    forall x, y :: p(x) && p(y) ==> le(x, y)
  }

  lemma FilterCons<T>(p: T -> bool, x: T, s: seq<T>)
    ensures p(x) ==> Filter(p, [x] + s) == [x] + Filter(p, s)
    ensures !p(x) ==> Filter(p, [x] + s) == Filter(p, s)
  {
    assert ([x] + s)[1..] == s;
    assert [] + Filter(p, s) == Filter(p, s);
  }

  lemma {:induction false} InsertIsStable<T(!new)>(le: (T, T) -> bool, p: T -> bool, x: T, s: seq<T>)
    requires Tied(le, p)
    ensures p(x) ==> Filter(p, Insert(le, x, s)) == [x] + Filter(p, s)
    ensures !p(x) ==> Filter(p, Insert(le, x, s)) == Filter(p, s)
  {
    if s == [] || le(x, s[0]) {
      FilterCons(p, x, s);
      assert s == [] ==> [x] + s == [x];
    } else {
      assert !(p(x) && p(s[0]));
      InsertIsStable(le, p, x, s[1..]);
      FilterCons(p, s[0], Insert(le, x, s[1..]));
      FilterCons(p, s[0], s[1..]);
      assert s == [s[0]] + s[1..];
    }
  }

  /** Sorting keeps the order of tied elements. */
  lemma {:induction false} SortIsStable<T(!new)>(le: (T, T) -> bool, p: T -> bool, s: seq<T>)
    requires Tied(le, p)
    ensures Filter(p, SortBy(le, s)) == Filter(p, s)
  {
    if s == [] {
    } else {
      SortIsStable(le, p, s[1..]);
      InsertIsStable(le, p, s[0], SortBy(le, s[1..]));
      FilterCons(p, s[0], s[1..]);
      assert s == [s[0]] + s[1..];
    }
  }

  /** The head of a sorted sequence is its top: what is cut off ranks no higher than anything that stays. */
  lemma FirstIsTop<T>(le: (T, T) -> bool, s: seq<T>, n: nat) returns (dropped: seq<T>)
    requires Sorted(le, s)
    ensures First(s, n) + dropped == s && Sorted(le, First(s, n))
    ensures |First(s, n)| == if |s| <= n then |s| else n
    ensures forall x, y :: x in First(s, n) && y in dropped ==> le(x, y)
  {
    var k := |First(s, n)|;
    dropped := s[k..];
    forall x, y | x in First(s, n) && y in dropped ensures le(x, y) {
      var i :| 0 <= i < k && s[i] == x;
      var j :| 0 <= j < |dropped| && dropped[j] == y;
      assert s[k + j] == y;
    }
  }

  lemma {:induction false} FilterMembers<T>(p: T -> bool, s: seq<T>)
    ensures forall x :: x in Filter(p, s) ==> x in s && p(x)
    ensures forall x :: x in s && p(x) ==> x in Filter(p, s)
    ensures |Filter(p, s)| <= |s|
  {
    if s == [] {
    } else {
      assert s == [s[0]] + s[1..];
      FilterMembers(p, s[1..]);
    }
  }

  lemma {:induction false} FilterAppend<T>(p: T -> bool, s: seq<T>, t: seq<T>)
    ensures Filter(p, s + t) == Filter(p, s) + Filter(p, t)
  {
    if s == [] {
      assert s + t == t;
    } else {
      assert (s + t)[1..] == s[1..] + t && (s + t)[0] == s[0];
      FilterAppend(p, s[1..], t);
      var head := if p(s[0]) then [s[0]] else [];
      calc {
        Filter(p, s + t);
        head + Filter(p, s[1..] + t);
        head + (Filter(p, s[1..]) + Filter(p, t));
        (head + Filter(p, s[1..])) + Filter(p, t);
        Filter(p, s) + Filter(p, t);
      }
    }
  }

  lemma {:induction false} FilterSorted<T>(le: (T, T) -> bool, p: T -> bool, s: seq<T>)
    requires Sorted(le, s)
    ensures Sorted(le, Filter(p, s))
  {
    if s == [] {
    } else {
      FilterSorted(le, p, s[1..]);
      FilterMembers(p, s[1..]);
      var r := Filter(p, s[1..]);
      forall j | 0 <= j < |r| ensures le(s[0], r[j]) {
        var y := r[j];
        assert y in r && y in s[1..];
        var i :| 0 <= i < |s[1..]| && s[1..][i] == y;
        assert le(s[0], s[i + 1]);
      }
    }
  }

  lemma {:induction false} FilterMultiplicity<T>(p: T -> bool, s: seq<T>, x: T)
    ensures multiset(Filter(p, s))[x] == if p(x) then multiset(s)[x] else 0
  {
    if s == [] {
    } else {
      assert s == [s[0]] + s[1..];
      FilterMultiplicity(p, s[1..], x);
    }
  }

  lemma FilterPermutes<T>(p: T -> bool, s: seq<T>, t: seq<T>)
    requires multiset(s) == multiset(t)
    ensures multiset(Filter(p, s)) == multiset(Filter(p, t))
  {
    var a, b := multiset(Filter(p, s)), multiset(Filter(p, t));
    forall x | x in a + b ensures a[x] == b[x] {
      FilterMultiplicity(p, s, x);
      FilterMultiplicity(p, t, x);
    }
    assert a == b;
  }

  lemma {:induction false} DistinctMultiplicity<T>(s: seq<T>, x: T)
    requires Distinct(s)
    ensures multiset(s)[x] == if x in s then 1 else 0
  {
    if s == [] {
    } else {
      assert s == [s[0]] + s[1..];
      DistinctMultiplicity(s[1..], x);
      assert s[0] !in s[1..];
    }
  }

  /** Distinct sequences with the same members are permutations of each other. */
  lemma DistinctSameMembers<T>(s: seq<T>, t: seq<T>)
    requires Distinct(s) && Distinct(t)
    requires forall x :: x in s <==> x in t
    ensures multiset(s) == multiset(t)
  {
    forall x ensures multiset(s)[x] == multiset(t)[x] {
      DistinctMultiplicity(s, x);
      DistinctMultiplicity(t, x);
    }
  }

  lemma {:induction false} FilterDistinct<T>(p: T -> bool, s: seq<T>)
    requires Distinct(s)
    ensures Distinct(Filter(p, s))
  {
    if s == [] {
    } else {
      FilterDistinct(p, s[1..]);
      FilterMembers(p, s[1..]);
      assert s[0] !in s[1..];
    }
  }

  lemma RepeatedTwice<T>(t: seq<T>, i: nat, j: nat)
    requires i < j < |t|
    ensures t[i] == t[j] ==> multiset(t)[t[i]] >= 2
  {
    assert t == t[..j] + t[j..];
    assert t[i] in t[..j] && t[j] in t[j..];
  }

  lemma SortDistinct<T>(le: (T, T) -> bool, s: seq<T>)
    requires Distinct(s)
    ensures Distinct(SortBy(le, s))
  {
    var t := SortBy(le, s);
    SortPermutes(le, s);
    forall i, j | 0 <= i < j < |t| ensures t[i] != t[j] {
      DistinctMultiplicity(s, t[i]);
      RepeatedTwice(t, i, j);
    }
  }

  // ---- Strings compare by code point, position by position ----

  predicate StringLe(a: string, b: string) {
    if a == "" then true
    else if b == "" then false
    else if a[0] != b[0] then a[0] < b[0]
    else StringLe(a[1..], b[1..])
  }

  lemma {:induction false} StringLeTotal(a: string, b: string)
    ensures StringLe(a, b) || StringLe(b, a)
    ensures StringLe(a, b) && StringLe(b, a) ==> a == b
  {
    if a == "" || b == "" {
    } else {
      assert a == [a[0]] + a[1..] && b == [b[0]] + b[1..];
      StringLeTotal(a[1..], b[1..]);
    }
  }

  lemma {:induction false} StringLeTransitive(a: string, b: string, c: string)
    requires StringLe(a, b) && StringLe(b, c)
    ensures StringLe(a, c)
  {
    if a == "" || b == "" || c == "" {
    } else if a[0] == b[0] == c[0] {
      StringLeTransitive(a[1..], b[1..], c[1..]);
    }
  }

  lemma {:induction false} SmallerAtDifference(a: string, b: string) returns (k: nat)
    requires StringLe(a, b)
    ensures a <= b || (k < |a| && k < |b| && a[..k] == b[..k] && a[k] < b[k])
  {
    k := 0;
    if a != "" && a[0] == b[0] {
      k := SmallerAtDifference(a[1..], b[1..]);
      assert a == [a[0]] + a[1..] && b == [b[0]] + b[1..];
      k := k + 1;
      if k < |a| && k < |b| && a[1..][..k - 1] == b[1..][..k - 1] {
        assert a[..k] == [a[0]] + a[1..][..k - 1] && b[..k] == [b[0]] + b[1..][..k - 1];
      }
    }
  }

  lemma {:induction false} DifferenceDecides(a: string, b: string, k: nat)
    requires a <= b || (k < |a| && k < |b| && a[..k] == b[..k] && a[k] < b[k])
    ensures StringLe(a, b)
  {
    if a == "" {
    } else if a <= b {
      DifferenceDecides(a[1..], b[1..], 0);
    } else if k > 0 {
      assert a[0] == a[..k][0] && b[0] == b[..k][0];
      assert a[1..][..k - 1] == a[..k][1..] && b[1..][..k - 1] == b[..k][1..];
      DifferenceDecides(a[1..], b[1..], k - 1);
    }
  }

  /** A string comes first when it is a prefix, or has the smaller character where the two first differ. */
  lemma StringLeMeans(a: string, b: string)
    ensures StringLe(a, b) <==>
              a <= b || exists k :: 0 <= k < |a| && k < |b| && a[..k] == b[..k] && a[k] < b[k]
  {
    if StringLe(a, b) {
      var k := SmallerAtDifference(a, b);
    } else if a <= b {
      DifferenceDecides(a, b, 0);
    } else if k :| 0 <= k < |a| && k < |b| && a[..k] == b[..k] && a[k] < b[k] {
      DifferenceDecides(a, b, k);
    }
  }

  lemma StringOrder()
    ensures TotalPreorder(StringLe)
    ensures forall a, b :: StringLe(a, b) && StringLe(b, a) ==> a == b
  {
    forall a, b
      ensures StringLe(a, b) || StringLe(b, a)
      ensures StringLe(a, b) && StringLe(b, a) ==> a == b
    {
      StringLeTotal(a, b);
    }
    forall a, b, c | StringLe(a, b) && StringLe(b, c) ensures StringLe(a, c) {
      StringLeTransitive(a, b, c);
    }
  }
}
