/**
 * The derived library view: the fetched items, filtered by the search box
 * and sorted by the chosen key, recomputed from `(items, search, sort)`
 * alone.
 */
module LibraryView {
  import opened Wrappers
  import opened Text

  /**
   * One entry of the listing response. `createdAt` is the `created_at`
   * timestamp already read as milliseconds since the epoch.
   */
  datatype Item = Item(id: Option<string>, prompt: Option<string>, createdAt: Option<int>)

  /** `it.prompt || ''`: empty exactly when the prompt is missing or empty. */
  function Title(it: Item): (r: string)
    ensures r == "" <==> it.prompt == None || it.prompt == Some("")
    ensures r != "" ==> it.prompt == Some(r)
  {
    it.prompt.GetOr("")
  }

  /** The time `byDate` sorts on: the creation time, or 0 when there is none. */
  function Timestamp(it: Item): (r: int)
    ensures it.createdAt.None? ==> r == 0
    ensures it.createdAt.Some? ==> r == it.createdAt.value
  {
    it.createdAt.GetOr(0)
  }

  // ---------------------------------------------------------------- filter

  /**
   * `search.trim().toLowerCase()`: free of capital ASCII letters and of
   * whitespace at either end.
   */
  function Query(search: string): (r: string)
    ensures forall i :: 0 <= i < |r| ==> !('A' <= r[i] <= 'Z')
    ensures r == [] || (!IsWhitespace(r[0]) && !IsWhitespace(r[|r| - 1]))
  {
    var t := Trim(search);
    LowerKeepsEnds(t);
    ToLower(t)
  }

  /** The query is empty exactly when the search text is all whitespace. */
  lemma QueryEmptyIff(search: string)
    ensures Query(search) == "" <==> AllWhitespace(search)
  {
    TrimEmptyIff(search);
  }

  /**
   * The filter predicate: the lower-cased title contains the query (see
   * `IncludesIff`). The empty query matches every item, and a query longer
   * than the title matches none.
   */
  predicate Matches(q: string, it: Item)
    ensures q == "" ==> Matches(q, it)
    ensures |q| > |Title(it)| ==> !Matches(q, it)
  {
    Includes(ToLower(Title(it)), q)
  }

  /**
   * `list.filter(...)`: the items that match `q`, in their original order;
   * each matching item keeps all its occurrences and every other item loses
   * them all.
   */
  function FilterByQuery(items: seq<Item>, q: string): (r: seq<Item>)
    ensures |r| <= |items|
  {
    if items == [] then []
    else (if Matches(q, items[0]) then [items[0]] else []) + FilterByQuery(items[1..], q)
  }

  /**
   * The filter keeps exactly the matching items: each matching item with all
   * its occurrences, every other item with none.
   */
  lemma {:induction false} FilterKeeps(items: seq<Item>, q: string)
    ensures forall x :: multiset(FilterByQuery(items, q))[x]
                        == if Matches(q, x) then multiset(items)[x] else 0
    ensures forall x :: x in FilterByQuery(items, q) <==> x in items && Matches(q, x)
  {
    if items != [] {
      FilterKeeps(items[1..], q);
      assert items == [items[0]] + items[1..];
      var head := if Matches(q, items[0]) then [items[0]] else [];
      assert FilterByQuery(items, q) == head + FilterByQuery(items[1..], q);
      assert multiset(FilterByQuery(items, q)) == multiset(head) + multiset(FilterByQuery(items[1..], q));
      assert multiset(items) == multiset{items[0]} + multiset(items[1..]);
      forall x ensures x in FilterByQuery(items, q) <==> x in items && Matches(q, x) {
        assert x in FilterByQuery(items, q) <==> multiset(FilterByQuery(items, q))[x] > 0;
        assert x in items <==> multiset(items)[x] > 0;
      }
    }
  }

  /**
   * The list `filtered` sorts: every item for a blank query, otherwise the
   * items whose lower-cased title contains the query.
   */
  function Filtered(items: seq<Item>, search: string): (r: seq<Item>)
    ensures Query(search) == "" ==> r == items
    ensures forall x :: x in r <==> x in items && (Query(search) == "" || Matches(Query(search), x))
  {
    var q := Query(search);
    FilterKeeps(items, q);
    if q != "" then FilterByQuery(items, q) else items
  }

  /** Filtering by the empty query would keep everything, so skipping it changes nothing. */
  lemma {:induction false} FilterByEmptyQuery(items: seq<Item>)
    ensures FilterByQuery(items, "") == items
  {
    if items != [] {
      FilterByEmptyQuery(items[1..]);
    }
  }

  // ----------------------------------------------------------- comparators

  /** The four sort keys of the sort menu. */
  datatype Order = Newest | Oldest | AZ | ZA

  /** The sort key the menu value names; `None` for any other value. */
  function OrderOf(sort: string): (r: Option<Order>)
    ensures r.None? <==> sort !in {"newest", "oldest", "az", "za"}
  {
    if sort == "newest" then Some(Newest)
    else if sort == "oldest" then Some(Oldest)
    else if sort == "az" then Some(AZ)
    else if sort == "za" then Some(ZA)
    else None
  }

  /** `byDate`: positive when `b` is newer than `a`, zero when they are equally old. */
  function ByDate(a: Item, b: Item): (r: int)
    ensures r > 0 <==> Timestamp(b) > Timestamp(a)
    ensures r == 0 <==> Timestamp(a) == Timestamp(b)
  {
    Timestamp(b) - Timestamp(a)
  }

  /** `byTitle`: zero exactly for equal titles, and of opposite sign for the swapped pair. */
  function ByTitle(a: Item, b: Item): (r: int)
    ensures r == 0 <==> Title(a) == Title(b)
    ensures CompareStrings(Title(b), Title(a)) == -r
  {
    CompareAntisymmetric(Title(a), Title(b));
    CompareStrings(Title(a), Title(b))
  }

  /**
   * The comparator handed to `sort` for each key; `a` may stay in front of
   * `b` (a result of at most 0) when it is no older ("newest"), no newer
   * ("oldest"), or its title sorts no later ("az") or no earlier ("za").
   */
  function Compare(o: Order, a: Item, b: Item): (r: int)
    ensures o == Newest ==> (r <= 0 <==> Timestamp(a) >= Timestamp(b))
    ensures o == Oldest ==> (r <= 0 <==> Timestamp(a) <= Timestamp(b))
    ensures o == AZ ==> (r <= 0 <==> CompareStrings(Title(a), Title(b)) <= 0)
    ensures o == ZA ==> (r <= 0 <==> CompareStrings(Title(a), Title(b)) >= 0)
  {
    match o
    case Newest => ByDate(a, b)
    case Oldest => -ByDate(a, b)
    case AZ => ByTitle(a, b)
    case ZA => -ByTitle(a, b)
  }

  /** The comparator lets `a` stay in front of `b`. */
  predicate Precedes(o: Order, a: Item, b: Item) {
    Compare(o, a, b) <= 0
  }

  /** The value an order compares: the timestamp for the date orders, the title for the others. */
  datatype SortKey = DateKey(ms: int) | TitleKey(title: string)

  function KeyOf(o: Order, it: Item): SortKey {
    if o == Newest || o == Oldest then DateKey(Timestamp(it)) else TitleKey(Title(it))
  }

  /** Every comparator is total: of any two items, one may precede the other. */
  lemma PrecedesTotal(o: Order, a: Item, b: Item)
    ensures Precedes(o, a, b) || Precedes(o, b, a)
  {
    CompareAntisymmetric(Title(a), Title(b));
  }

  /** Every comparator is transitive. */
  lemma PrecedesTransitive(o: Order, a: Item, b: Item, c: Item)
    requires Precedes(o, a, b) && Precedes(o, b, c)
    ensures Precedes(o, a, c)
  {
    match o
    case AZ =>
      CompareTransitive(Title(a), Title(b), Title(c));
    case ZA =>
      CompareAntisymmetric(Title(a), Title(b));
      CompareAntisymmetric(Title(b), Title(c));
      CompareAntisymmetric(Title(a), Title(c));
      CompareTransitive(Title(c), Title(b), Title(a));
    case _ =>
  }

  /** The comparator returns 0 exactly for items with the same key: those are the ties. */
  lemma TieIffSameKey(o: Order, a: Item, b: Item)
    ensures (Precedes(o, a, b) && Precedes(o, b, a)) <==> KeyOf(o, a) == KeyOf(o, b)
  {
    CompareAntisymmetric(Title(a), Title(b));
  }

  // ------------------------------------------------------------------ sort

  /** `xs` is in the order the comparator asks for. */
  ghost predicate Sorted(o: Order, xs: seq<Item>) {
    forall i, j :: 0 <= i < j < |xs| ==> Precedes(o, xs[i], xs[j])
  }

  /** `[x]` when `x` has the key `k`, and nothing otherwise. */
  function Own(o: Order, x: Item, k: SortKey): seq<Item> {
    if KeyOf(o, x) == k then [x] else []
  }

  /** The items of `xs` whose key is `k`, in their order in `xs`. */
  function WithKey(o: Order, xs: seq<Item>, k: SortKey): seq<Item> {
    if xs == [] then [] else Own(o, xs[0], k) + WithKey(o, xs[1..], k)
  }

  /**
   * Puts `x`, which came before every item of `ys`, in front of the first
   * item it may precede: after the items that must come first, before its
   * ties.
   */
  function Insert(o: Order, x: Item, ys: seq<Item>): (r: seq<Item>)
    ensures multiset(r) == multiset(ys) + multiset{x}
  {
    if ys == [] then [x]
    else if Precedes(o, x, ys[0]) then [x] + ys
    else
      assert ys == [ys[0]] + ys[1..];
      [ys[0]] + Insert(o, x, ys[1..])
  }

  /** `[...list].sort(cmp)`: a stable sort of a copy of `s`, a permutation of `s`. */
  function SortBy(o: Order, s: seq<Item>): (r: seq<Item>)
    ensures multiset(r) == multiset(s)
  {
    if s == [] then []
    else
      assert s == [s[0]] + s[1..];
      Insert(o, s[0], SortBy(o, s[1..]))
  }

  lemma {:induction false} InsertSorted(o: Order, x: Item, ys: seq<Item>)
    requires Sorted(o, ys)
    ensures Sorted(o, Insert(o, x, ys))
  {
    if ys == [] {
    } else if Precedes(o, x, ys[0]) {
      ConsSorted(o, x, ys);
    } else {
      var tail := Insert(o, x, ys[1..]);
      InsertSorted(o, x, ys[1..]);
      PrecedesTotal(o, x, ys[0]);
      forall z | z in multiset(tail) ensures Precedes(o, ys[0], z) {
        if z != x {
          assert z in multiset(ys[1..]);
          var m :| 0 <= m < |ys[1..]| && ys[1..][m] == z;
          assert ys[m + 1] == z;
        }
      }
      HeadSorted(o, ys[0], tail);
    }
  }

  /** An item that may precede the head of a sorted list may precede all of it. */
  lemma ConsSorted(o: Order, x: Item, ys: seq<Item>)
    requires Sorted(o, ys) && ys != [] && Precedes(o, x, ys[0])
    ensures Sorted(o, [x] + ys)
  {
    var r := [x] + ys;
    forall i, j | 0 <= i < j < |r| ensures Precedes(o, r[i], r[j]) {
      if i == 0 {
        assert r[j] == ys[j - 1];
        if j > 1 { PrecedesTransitive(o, x, ys[0], ys[j - 1]); }
      } else {
        assert r[i] == ys[i - 1] && r[j] == ys[j - 1];
      }
    }
  }

  /** An item that may precede every item of a sorted list may stand at its head. */
  lemma HeadSorted(o: Order, y: Item, t: seq<Item>)
    requires Sorted(o, t)
    requires forall z :: z in multiset(t) ==> Precedes(o, y, z)
    ensures Sorted(o, [y] + t)
  {
    var r := [y] + t;
    forall i, j | 0 <= i < j < |r| ensures Precedes(o, r[i], r[j]) {
      assert r[j] == t[j - 1];
      if i == 0 {
        assert t[j - 1] in multiset(t);
      } else {
        assert r[i] == t[i - 1];
      }
    }
  }

  /** The sort's result is in the comparator's order. */
  lemma {:induction false} SortSorted(o: Order, s: seq<Item>)
    ensures Sorted(o, SortBy(o, s))
  {
    if s != [] {
      SortSorted(o, s[1..]);
      InsertSorted(o, s[0], SortBy(o, s[1..]));
    }
  }

  lemma {:induction false} InsertWithKey(o: Order, x: Item, ys: seq<Item>, k: SortKey)
    ensures WithKey(o, Insert(o, x, ys), k) == Own(o, x, k) + WithKey(o, ys, k)
  {
    if ys == [] {
      WithKeyCons(o, x, [], k);
    } else if Precedes(o, x, ys[0]) {
      WithKeyCons(o, x, ys, k);
    } else {
      InsertWithKey(o, x, ys[1..], k);
      TieIffSameKey(o, x, ys[0]);
      WithKeyCons(o, ys[0], Insert(o, x, ys[1..]), k);
      SwapAroundEmpty(Own(o, ys[0], k), Own(o, x, k), WithKey(o, ys[1..], k));
    }
  }

  lemma WithKeyCons(o: Order, y: Item, t: seq<Item>, k: SortKey)
    ensures WithKey(o, [y] + t, k) == Own(o, y, k) + WithKey(o, t, k)
  {
    var r := [y] + t;
    assert r[0] == y && r[1..] == t;
  }

  /** Two pieces of which one is empty can be swapped in front of `w`. */
  lemma SwapAroundEmpty(a: seq<Item>, b: seq<Item>, w: seq<Item>)
    requires a == [] || b == []
    ensures a + (b + w) == b + (a + w)
  {
    if a == [] {
      assert a + (b + w) == b + w && a + w == w;
    } else {
      assert b + (a + w) == a + w && b + w == w;
    }
  }

  /** The sort is stable: items with equal keys keep their relative order. */
  lemma {:induction false} SortStable(o: Order, s: seq<Item>, k: SortKey)
    ensures WithKey(o, SortBy(o, s), k) == WithKey(o, s, k)
  {
    if s != [] {
      SortStable(o, s[1..], k);
      InsertWithKey(o, s[0], SortBy(o, s[1..]), k);
    }
  }

  /** Picking one key's items and filtering by the query commute. */
  lemma {:induction false} WithKeyFilterCommute(o: Order, s: seq<Item>, q: string, k: SortKey)
    ensures WithKey(o, FilterByQuery(s, q), k) == FilterByQuery(WithKey(o, s, k), q)
  {
    if s != [] {
      WithKeyFilterCommute(o, s[1..], q, k);
      var head := if Matches(q, s[0]) then [s[0]] else [];
      assert FilterByQuery(s, q) == head + FilterByQuery(s[1..], q);
      WithKeyAppend(o, head, FilterByQuery(s[1..], q), k);
      var kept := Own(o, s[0], k);
      FilterAppend(kept, WithKey(o, s[1..], k), q);
      OneItemCommute(o, s[0], q, k);
    }
  }

  /** The one-item case of `WithKeyFilterCommute`. */
  lemma OneItemCommute(o: Order, x: Item, q: string, k: SortKey)
    ensures WithKey(o, if Matches(q, x) then [x] else [], k)
         == FilterByQuery(Own(o, x, k), q)
  {
    assert [x][1..] == [];
  }

  lemma {:induction false} WithKeyAppend(o: Order, a: seq<Item>, b: seq<Item>, k: SortKey)
    ensures WithKey(o, a + b, k) == WithKey(o, a, k) + WithKey(o, b, k)
  {
    if a != [] {
      assert (a + b)[1..] == a[1..] + b;
      WithKeyAppend(o, a[1..], b, k);
    } else {
      assert a + b == b;
    }
  }

  lemma {:induction false} FilterAppend(a: seq<Item>, b: seq<Item>, q: string)
    ensures FilterByQuery(a + b, q) == FilterByQuery(a, q) + FilterByQuery(b, q)
  {
    if a == [] {
      assert a + b == b;
    } else {
      var ab := a + b;
      assert ab[0] == a[0] && ab[1..] == a[1..] + b;
      FilterAppend(a[1..], b, q);
      var h := if Matches(q, a[0]) then [a[0]] else [];
      assert FilterByQuery(ab, q) == h + FilterByQuery(a[1..] + b, q);
      assert FilterByQuery(a, q) == h + FilterByQuery(a[1..], q);
    }
  }

  // ------------------------------------------------------------------ view

  /**
   * The memoised `filtered` list of `LibraryPanel`: the filtered items,
   * sorted when the sort value names a key and in their original order
   * otherwise.
   */
  function View(items: seq<Item>, search: string, sort: string): (r: seq<Item>)
    ensures multiset(r) == multiset(Filtered(items, search))
    ensures OrderOf(sort).None? ==> r == Filtered(items, search)
  {
    var list := Filtered(items, search);
    match OrderOf(sort)
    case Some(o) => SortBy(o, list)
    case None => list
  }

  /**
   * The view holds exactly the filtered items, each as often as in `items`:
   * with a blank query all of them, otherwise those whose lower-cased title
   * contains the query. Sorting neither drops nor adds anything.
   */
  lemma ViewContents(items: seq<Item>, search: string, sort: string)
    ensures multiset(View(items, search, sort)) == multiset(Filtered(items, search))
    ensures forall x :: x in View(items, search, sort)
                        <==> x in items && (Query(search) == "" || Matches(Query(search), x))
  {
    var q := Query(search);
    FilterKeeps(items, q);
    var r := View(items, search, sort);
    forall x ensures x in r <==> x in Filtered(items, search) {
      assert x in r <==> x in multiset(r);
    }
  }

  /** With a search text that is all whitespace the view is a permutation of `items`, whatever the sort. */
  lemma ViewOfBlankSearch(items: seq<Item>, search: string, sort: string)
    requires AllWhitespace(search)
    ensures multiset(View(items, search, sort)) == multiset(items)
  {
    QueryEmptyIff(search);
  }

  /**
   * For a known sort key the view is sorted by that key's comparator and,
   * for every key value, lists the items with that value in the order they
   * have in `items` (after filtering).
   */
  lemma ViewSortedStable(items: seq<Item>, search: string, sort: string, o: Order, k: SortKey)
    requires OrderOf(sort) == Some(o)
    ensures Sorted(o, View(items, search, sort))
    ensures WithKey(o, View(items, search, sort), k) == Filtered(WithKey(o, items, k), search)
  {
    var list := Filtered(items, search);
    SortSorted(o, list);
    SortStable(o, list, k);
    if Query(search) != "" {
      WithKeyFilterCommute(o, items, Query(search), k);
    }
  }

  /**
   * "newest": timestamps never increase along the view (no timestamp counts
   * as 0), and items with equal timestamps keep their original order.
   */
  lemma ViewNewest(items: seq<Item>, search: string, t: int)
    ensures var r := View(items, search, "newest");
            forall i, j :: 0 <= i < j < |r| ==> Timestamp(r[i]) >= Timestamp(r[j])
    ensures WithKey(Newest, View(items, search, "newest"), DateKey(t))
         == Filtered(WithKey(Newest, items, DateKey(t)), search)
  {
    ViewSortedStable(items, search, "newest", Newest, DateKey(t));
  }

  /** "oldest": timestamps never decrease, and equal timestamps keep their original order. */
  lemma ViewOldest(items: seq<Item>, search: string, t: int)
    ensures var r := View(items, search, "oldest");
            forall i, j :: 0 <= i < j < |r| ==> Timestamp(r[i]) <= Timestamp(r[j])
    ensures WithKey(Oldest, View(items, search, "oldest"), DateKey(t))
         == Filtered(WithKey(Oldest, items, DateKey(t)), search)
  {
    ViewSortedStable(items, search, "oldest", Oldest, DateKey(t));
  }

  /** "az": titles ascend (no title counts as ""), and equal titles keep their original order. */
  lemma ViewAZ(items: seq<Item>, search: string, p: string)
    ensures var r := View(items, search, "az");
            forall i, j :: 0 <= i < j < |r| ==> CompareStrings(Title(r[i]), Title(r[j])) <= 0
    ensures WithKey(AZ, View(items, search, "az"), TitleKey(p))
         == Filtered(WithKey(AZ, items, TitleKey(p)), search)
  {
    ViewSortedStable(items, search, "az", AZ, TitleKey(p));
  }

  /** "za": titles descend, and equal titles keep their original order. */
  lemma ViewZA(items: seq<Item>, search: string, p: string)
    ensures var r := View(items, search, "za");
            forall i, j :: 0 <= i < j < |r| ==> CompareStrings(Title(r[i]), Title(r[j])) >= 0
    ensures WithKey(ZA, View(items, search, "za"), TitleKey(p))
         == Filtered(WithKey(ZA, items, TitleKey(p)), search)
  {
    ViewSortedStable(items, search, "za", ZA, TitleKey(p));
  }

  /**
   * With a tie, "oldest" is not "newest" reversed: two items created at the
   * same time come out in their original order under both keys.
   */
  lemma OldestIsNotReversedNewest()
    ensures var a := Item(Some("1"), Some("Alpha"), Some(5));
            var b := Item(Some("2"), Some("Beta"), Some(5));
            View([a, b], "", "newest") == [a, b] && View([a, b], "", "oldest") == [a, b]
  {
  }

  /**
   * Two items created on 2024-01-01 and 2024-02-01: "oldest" shows Alpha
   * then Beta, "za" shows Beta then Alpha.
   */
  lemma TwoItemListing()
    ensures var alpha := Item(Some("1"), Some("Alpha"), Some(1704067200000));
            var beta := Item(Some("2"), Some("Beta"), Some(1706745600000));
            View([alpha, beta], "", "oldest") == [alpha, beta]
            && View([alpha, beta], "", "za") == [beta, alpha]
  {
  }
}
