/** Symbol tabs: their kind, their ordering by `order`, and lookup by
    identifier. */
module SymbolTabs {
  import opened Wrappers
  import opened Identifiers
  import opened SymbolLists

  /** The kind of a tab. */
  datatype TabType = Symbols | Kaomoji

  /** The declared (enum constant) name of a tab type. */
  function TabTypeName(t: TabType): string {
    match t
    case Symbols => "SYMBOLS"
    case Kaomoji => "KAOMOJI"
  }

  /** Case-sensitive lookup of a tab type by name, falling back to `fallback`
      when the name is absent or not a declared one. */
  function TabTypeOrDefault(name: Option<string>, fallback: TabType): (r: TabType)
    ensures forall t :: name == Some(TabTypeName(t)) ==> r == t
    ensures name != Some(TabTypeName(Symbols)) && name != Some(TabTypeName(Kaomoji)) ==> r == fallback
  {
    if name == Some("SYMBOLS") then Symbols
    else if name == Some("KAOMOJI") then Kaomoji
    else fallback
  }

  /** A tab: display metadata and the lists it shows, by reference. */
  datatype SymbolTab = SymbolTab(
    id: Identifier,
    icon: string,
    order: int,
    tabType: TabType,
    searchBar: bool,
    lists: seq<SymbolList>)

  /** Non-decreasing in `order`, the order tabs compare by. */
  ghost predicate SortedByOrder(ts: seq<SymbolTab>) {
    forall i, j :: 0 <= i < j < |ts| ==> ts[i].order <= ts[j].order
  }

  /** Inserts `t` after every tab whose order is not greater than its own. */
  function InsertByOrder(sorted: seq<SymbolTab>, t: SymbolTab): seq<SymbolTab> {
    if sorted == [] then [t]
    else if t.order < sorted[0].order then [t] + sorted
    else [sorted[0]] + InsertByOrder(sorted[1..], t)
  }

  /** A stable sort by `order` (insertion sort), as a list sort with the tab
      comparator produces. */
  function SortByOrder(ts: seq<SymbolTab>): seq<SymbolTab> {
    if ts == [] then []
    else InsertByOrder(SortByOrder(ts[..|ts| - 1]), ts[|ts| - 1])
  }

  /** The tabs of `ts` with the given order, in their order in `ts`. */
  function WithOrder(ts: seq<SymbolTab>, order: int): seq<SymbolTab> {
    if ts == [] then []
    else (if ts[0].order == order then [ts[0]] else []) + WithOrder(ts[1..], order)
  }

  /** Every tab of `ts` has an order of at least `o`. */
  ghost predicate AllAtLeast(ts: seq<SymbolTab>, o: int) {
    forall i :: 0 <= i < |ts| ==> o <= ts[i].order
  }

  lemma SortedTail(ts: seq<SymbolTab>)
    requires SortedByOrder(ts) && ts != []
    ensures SortedByOrder(ts[1..]) && AllAtLeast(ts[1..], ts[0].order)
  {
    forall i | 0 <= i < |ts| - 1 ensures ts[0].order <= ts[1..][i].order {
      assert ts[1..][i] == ts[i + 1];
    }
  }

  lemma SortedCons(t: SymbolTab, ts: seq<SymbolTab>)
    requires SortedByOrder(ts) && AllAtLeast(ts, t.order)
    ensures SortedByOrder([t] + ts)
  {
    var r := [t] + ts;
    forall i, j | 0 <= i < j < |r| ensures r[i].order <= r[j].order {
      assert r[j] == ts[j - 1];
      if i > 0 {
        assert r[i] == ts[i - 1];
      }
    }
  }

  /** Inserting a tab above a lower bound keeps every tab above it. */
  lemma {:induction false} InsertKeepsBound(sorted: seq<SymbolTab>, t: SymbolTab, o: int)
    requires AllAtLeast(sorted, o) && o <= t.order
    ensures AllAtLeast(InsertByOrder(sorted, t), o)
  {
    if sorted != [] && t.order >= sorted[0].order {
      var rest := sorted[1..];
      assert AllAtLeast(rest, o) by {
        forall i | 0 <= i < |rest| ensures o <= rest[i].order {
          assert rest[i] == sorted[i + 1];
        }
      }
      InsertKeepsBound(rest, t, o);
      var tail := InsertByOrder(rest, t);
      forall i | 0 <= i < |tail| + 1 ensures o <= ([sorted[0]] + tail)[i].order {
        if i > 0 {
          assert ([sorted[0]] + tail)[i] == tail[i - 1];
        }
      }
    }
  }

  lemma {:induction false} InsertByOrderSorted(sorted: seq<SymbolTab>, t: SymbolTab)
    requires SortedByOrder(sorted)
    ensures SortedByOrder(InsertByOrder(sorted, t))
    ensures multiset(InsertByOrder(sorted, t)) == multiset(sorted) + multiset{t}
  {
    if sorted == [] {
    } else if t.order < sorted[0].order {
      SortedTail(sorted);
      assert AllAtLeast(sorted, t.order) by {
        forall i | 0 <= i < |sorted| ensures t.order <= sorted[i].order {
          if i > 0 {
            assert sorted[i] == sorted[1..][i - 1];
          }
        }
      }
      SortedCons(t, sorted);
    } else {
      var rest := sorted[1..];
      SortedTail(sorted);
      InsertByOrderSorted(rest, t);
      InsertKeepsBound(rest, t, sorted[0].order);
      SortedCons(sorted[0], InsertByOrder(rest, t));
      assert sorted == [sorted[0]] + rest;
    }
  }

  /** The published tab sequence is sorted and holds exactly the tabs read. */
  lemma {:induction false} SortByOrderSortedPermutation(ts: seq<SymbolTab>)
    ensures SortedByOrder(SortByOrder(ts))
    ensures multiset(SortByOrder(ts)) == multiset(ts)
  {
    if ts != [] {
      var init := ts[..|ts| - 1];
      SortByOrderSortedPermutation(init);
      InsertByOrderSorted(SortByOrder(init), ts[|ts| - 1]);
      assert ts == init + [ts[|ts| - 1]];
    }
  }

  lemma WithOrderCons(t: SymbolTab, ts: seq<SymbolTab>, order: int)
    ensures WithOrder([t] + ts, order) == (if t.order == order then [t] else []) + WithOrder(ts, order)
  {
    assert ([t] + ts)[1..] == ts;
  }

  lemma {:induction false} WithOrderAppend(a: seq<SymbolTab>, b: seq<SymbolTab>, order: int)
    ensures WithOrder(a + b, order) == WithOrder(a, order) + WithOrder(b, order)
  {
    if a == [] {
      assert a + b == b;
    } else {
      var x, rest := a[0], a[1..];
      assert a == [x] + rest;
      assert a + b == [x] + (rest + b);
      WithOrderAppend(rest, b, order);
      WithOrderCons(x, rest + b, order);
      WithOrderCons(x, rest, order);
    }
  }

  lemma {:induction false} InsertByOrderStable(sorted: seq<SymbolTab>, t: SymbolTab, order: int)
    requires SortedByOrder(sorted)
    ensures WithOrder(InsertByOrder(sorted, t), order)
         == WithOrder(sorted, order) + WithOrder([t], order)
  {
    if sorted == [] {
    } else if t.order < sorted[0].order {
      if t.order == order {
        // every tab of `sorted` has an order above t's
        WithOrderNone(sorted, order);
      }
      WithOrderAppend([t], sorted, order);
    } else {
      InsertByOrderStable(sorted[1..], t, order);
    }
  }

  lemma {:induction false} WithOrderNone(ts: seq<SymbolTab>, order: int)
    requires forall i :: 0 <= i < |ts| ==> ts[i].order > order
    ensures WithOrder(ts, order) == []
  {
    if ts != [] {
      WithOrderNone(ts[1..], order);
    }
  }

  /** The sort is stable: tabs of equal order keep their relative order. */
  lemma {:induction false} SortByOrderStable(ts: seq<SymbolTab>, order: int)
    ensures WithOrder(SortByOrder(ts), order) == WithOrder(ts, order)
  {
    if ts != [] {
      var init, last := ts[..|ts| - 1], ts[|ts| - 1];
      SortByOrderStable(init, order);
      SortByOrderSortedPermutation(init);
      InsertByOrderStable(SortByOrder(init), last, order);
      assert ts == init + [last];
      WithOrderAppend(init, [last], order);
    }
  }

  /** Index of the first tab with identifier `id`, if any. */
  function FirstWithId(ts: seq<SymbolTab>, id: Identifier): (r: Option<nat>)
    ensures r.None? <==> forall i :: 0 <= i < |ts| ==> ts[i].id != id
    ensures r.Some? ==> r.value < |ts| && ts[r.value].id == id
    ensures r.Some? ==> forall i :: 0 <= i < r.value ==> ts[i].id != id
  {
    if ts == [] then None
    else if ts[0].id == id then Some(0)
    else match FirstWithId(ts[1..], id)
      case None => None
      case Some(i) => Some(i + 1)
  }
}
