/** `groups.setdefault(key(item), []).append(item)`: group items by key, in order of first appearance. */
module Grouping {
  import opened Ordering

  function KeyIs<T>(key: T -> string, k: string): T -> bool {
    (x: T) => key(x) == k
  }

  /** The keys in the order in which the dictionary first meets them. */
  function KeyOrder<T>(key: T -> string, items: seq<T>): seq<string> {
    if items == [] then []
    else
      var before := KeyOrder(key, items[..|items| - 1]);
      var k := key(items[|items| - 1]);
      if k in before then before else before + [k]
  }

  ghost predicate IsGrouping<T>(key: T -> string, items: seq<T>, order: seq<string>, groups: map<string, seq<T>>) {
    && order == KeyOrder(key, items)
    && (forall k :: k in groups <==> k in order)
    && (forall k :: k in groups ==> groups[k] == Filter(KeyIs(key, k), items) && groups[k] != [])
    && (forall k :: k !in groups ==> Filter(KeyIs(key, k), items) == [])
  }

  lemma FilterSnoc<T>(p: T -> bool, s: seq<T>, x: T)
    ensures Filter(p, s + [x]) == if p(x) then Filter(p, s) + [x] else Filter(p, s)
  {
    FilterAppend(p, s, [x]);
    assert [x][1..] == [];
  }

  lemma NewGroup<T>(key: T -> string, items: seq<T>, order: seq<string>, groups: map<string, seq<T>>, x: T)
    requires IsGrouping(key, items, order, groups) && key(x) !in groups
    ensures IsGrouping(key, items + [x], order + [key(x)], groups[key(x) := [x]])
  {
    assert (items + [x])[..|items + [x]| - 1] == items;
    var after := groups[key(x) := [x]];
    forall k ensures k in after ==> after[k] == Filter(KeyIs(key, k), items + [x]) && after[k] != []
             ensures k !in after ==> Filter(KeyIs(key, k), items + [x]) == []
    {
      FilterSnoc(KeyIs(key, k), items, x);
    }
  }

  lemma GrownGroup<T>(key: T -> string, items: seq<T>, order: seq<string>, groups: map<string, seq<T>>, x: T)
    requires IsGrouping(key, items, order, groups) && key(x) in groups
    ensures IsGrouping(key, items + [x], order, groups[key(x) := groups[key(x)] + [x]])
  {
    assert (items + [x])[..|items + [x]| - 1] == items;
    var after := groups[key(x) := groups[key(x)] + [x]];
    forall k ensures k in after ==> after[k] == Filter(KeyIs(key, k), items + [x]) && after[k] != []
             ensures k !in after ==> Filter(KeyIs(key, k), items + [x]) == []
    {
      FilterSnoc(KeyIs(key, k), items, x);
    }
  }

  method GroupBy<T>(key: T -> string, items: seq<T>) returns (order: seq<string>, groups: map<string, seq<T>>)
    ensures IsGrouping(key, items, order, groups)
  {
    order, groups := [], map[];
    for i := 0 to |items|
      invariant IsGrouping(key, items[..i], order, groups)
    {
      var x := items[i];
      assert items[..i + 1] == items[..i] + [x];
      if key(x) !in groups {
        NewGroup(key, items[..i], order, groups, x);
        order := order + [key(x)];
        groups := groups[key(x) := [x]];
      } else {
        GrownGroup(key, items[..i], order, groups, x);
        groups := groups[key(x) := groups[key(x)] + [x]];
      }
    }
    assert items[..|items|] == items;
  }

  lemma {:induction false} KeyOrderComplete<T>(key: T -> string, items: seq<T>)
    ensures Distinct(KeyOrder(key, items))
    ensures forall x :: x in items ==> key(x) in KeyOrder(key, items)
    ensures forall k :: k in KeyOrder(key, items) ==> exists x :: x in items && key(x) == k
  {
    if items == [] {
    } else {
      var n := |items| - 1;
      KeyOrderComplete(key, items[..n]);
      assert items == items[..n] + [items[n]];
      assert items[n] in items;
    }
  }

  function TotalSize<T>(key: T -> string, order: seq<string>, items: seq<T>): nat {
    if order == [] then 0 else |Filter(KeyIs(key, order[0]), items)| + TotalSize(key, order[1..], items)
  }

  lemma {:induction false} TotalSizeEmpty<T>(key: T -> string, order: seq<string>, items: seq<T>)
    requires items == []
    ensures TotalSize(key, order, items) == 0
  {
    if order != [] {
      TotalSizeEmpty(key, order[1..], items);
    }
  }

  lemma {:induction false} TotalSizeHead<T>(key: T -> string, order: seq<string>, items: seq<T>)
    requires items != [] && Distinct(order)
    ensures TotalSize(key, order, items)
         == (if key(items[0]) in order then 1 else 0) + TotalSize(key, order, items[1..])
  {
    if order != [] {
      TotalSizeHead(key, order[1..], items);
      assert order == [order[0]] + order[1..];
    }
  }

  /** The groups split the items: their sizes add up. */
  lemma {:induction false} GroupSizes<T>(key: T -> string, order: seq<string>, items: seq<T>)
    requires Distinct(order) && forall x :: x in items ==> key(x) in order
    ensures TotalSize(key, order, items) == |items|
  {
    if items == [] {
      TotalSizeEmpty(key, order, items);
    } else {
      assert items[0] in items && forall x :: x in items[1..] ==> x in items;
      GroupSizes(key, order, items[1..]);
      TotalSizeHead(key, order, items);
    }
  }
}
