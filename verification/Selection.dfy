/** Choosing the top products of a price segment: a prefix of a stable sort. */
module Selection {
  import opened Catalog
  import opened SeqFacts
  import opened Slices

  type Key = EnrichedProduct -> real

  // ---------- Stable sorting ----------

  ghost predicate SortedBy(key: Key, items: seq<EnrichedProduct>) {
    forall i, j :: 0 <= i < j < |items| ==> key(items[i]) <= key(items[j])
  }

  /** The items with one key, in order. */
  function WithKey(key: Key, items: seq<EnrichedProduct>, k: real): (those: seq<EnrichedProduct>) {
    if items == [] then []
    else
      var n := |items| - 1;
      WithKey(key, items[..n], k) + if key(items[n]) == k then [items[n]] else []
  }

  /** Ties keep their order. */
  ghost predicate SameTies(key: Key, a: seq<EnrichedProduct>, b: seq<EnrichedProduct>) {
    forall k :: WithKey(key, a, k) == WithKey(key, b, k)
  }

  /** Places `x` after every item whose key is not greater. */
  function Insert(key: Key, sorted: seq<EnrichedProduct>, x: EnrichedProduct): (items: seq<EnrichedProduct>) {
    var n := |sorted|;
    if n == 0 || key(sorted[n - 1]) <= key(x) then sorted + [x]
    else Insert(key, sorted[..n - 1], x) + [sorted[n - 1]]
  }

  /** `sorted(items, key=key)`. */
  function StableSort(key: Key, items: seq<EnrichedProduct>): (sorted: seq<EnrichedProduct>) {
    if items == [] then []
    else Insert(key, StableSort(key, items[..|items| - 1]), items[|items| - 1])
  }

  lemma WithKeySnoc(key: Key, items: seq<EnrichedProduct>, x: EnrichedProduct, k: real)
    ensures WithKey(key, items + [x], k) == WithKey(key, items, k) + if key(x) == k then [x] else []
  {
  }

  lemma {:induction false} InsertAdds(key: Key, sorted: seq<EnrichedProduct>, x: EnrichedProduct)
    ensures multiset(Insert(key, sorted, x)) == multiset(sorted) + multiset{x}
  {
    var n := |sorted|;
    if n > 0 && key(sorted[n - 1]) > key(x) {
      InsertAdds(key, sorted[..n - 1], x);
      assert sorted == sorted[..n - 1] + [sorted[n - 1]];
    }
  }

  ghost predicate AtMost(key: Key, items: seq<EnrichedProduct>, bound: real) {
    forall i :: 0 <= i < |items| ==> key(items[i]) <= bound
  }

  lemma SortedSnoc(key: Key, items: seq<EnrichedProduct>, last: EnrichedProduct)
    requires SortedBy(key, items) && AtMost(key, items, key(last))
    ensures SortedBy(key, items + [last])
  {
  }

  lemma {:induction false} InsertStaysAtMost(key: Key, sorted: seq<EnrichedProduct>, x: EnrichedProduct, bound: real)
    requires AtMost(key, sorted, bound) && key(x) <= bound
    ensures AtMost(key, Insert(key, sorted, x), bound)
  {
    var n := |sorted|;
    if n > 0 && key(sorted[n - 1]) > key(x) {
      InsertStaysAtMost(key, sorted[..n - 1], x, bound);
    }
  }

  lemma {:induction false} InsertKeepsSorted(key: Key, sorted: seq<EnrichedProduct>, x: EnrichedProduct)
    requires SortedBy(key, sorted)
    ensures SortedBy(key, Insert(key, sorted, x))
  {
    var n := |sorted|;
    if n > 0 && key(sorted[n - 1]) > key(x) {
      var front, last := sorted[..n - 1], sorted[n - 1];
      InsertKeepsSorted(key, front, x);
      InsertStaysAtMost(key, front, x, key(last));
      SortedSnoc(key, Insert(key, front, x), last);
    } else {
      SortedSnoc(key, sorted, x);
    }
  }

  lemma {:induction false} InsertKeepsTies(key: Key, sorted: seq<EnrichedProduct>, x: EnrichedProduct, k: real)
    requires SortedBy(key, sorted)
    ensures WithKey(key, Insert(key, sorted, x), k) == WithKey(key, sorted + [x], k)
  {
    var n := |sorted|;
    WithKeySnoc(key, sorted, x, k);
    if n > 0 && key(sorted[n - 1]) > key(x) {
      var front, last := sorted[..n - 1], sorted[n - 1];
      InsertKeepsTies(key, front, x, k);
      WithKeySnoc(key, front, x, k);
      WithKeySnoc(key, Insert(key, front, x), last, k);
      if key(last) == k {
        // Nothing but `x` could come between, and its key is smaller.
        assert key(x) != k;
      }
    }
  }

  /** The sort is a sorted permutation of its input in which ties keep their order. */
  lemma {:induction false} StableSortIsStable(key: Key, items: seq<EnrichedProduct>)
    ensures SortedBy(key, StableSort(key, items))
    ensures multiset(StableSort(key, items)) == multiset(items)
    ensures SameTies(key, StableSort(key, items), items)
  {
    if items == [] {
    } else {
      var front, x := items[..|items| - 1], items[|items| - 1];
      StableSortIsStable(key, front);
      InsertAdds(key, StableSort(key, front), x);
      InsertKeepsSorted(key, StableSort(key, front), x);
      assert items == front + [x];
      forall k
        ensures WithKey(key, StableSort(key, items), k) == WithKey(key, items, k)
      {
        InsertKeepsTies(key, StableSort(key, front), x, k);
        WithKeySnoc(key, StableSort(key, front), x, k);
        WithKeySnoc(key, front, x, k);
      }
    }
  }

  lemma {:induction false} WithKeyIn(key: Key, items: seq<EnrichedProduct>, k: real)
    ensures WithKey(key, items, k) != [] ==> exists i :: 0 <= i < |items| && key(items[i]) == k
  {
    if items == [] {
    } else {
      WithKeyIn(key, items[..|items| - 1], k);
    }
  }

  lemma LastKeyIsGreatest(key: Key, a: seq<EnrichedProduct>, b: seq<EnrichedProduct>)
    requires SortedBy(key, b) && SameTies(key, a, b) && a != []
    ensures b != [] && key(a[|a| - 1]) <= key(b[|b| - 1])
  {
    var k := key(a[|a| - 1]);
    assert WithKey(key, a, k) == WithKey(key, b, k);
    WithKeyIn(key, b, k);
  }

  /** There is only one such order: any sorted arrangement that keeps ties in order is this sort. */
  lemma {:induction false} StableSortIsUnique(key: Key, a: seq<EnrichedProduct>, b: seq<EnrichedProduct>)
    requires SortedBy(key, a) && SortedBy(key, b) && SameTies(key, a, b)
    ensures a == b
    decreases |a|
  {
    if a == [] {
      if b != [] {
        LastKeyIsGreatest(key, b, a);
      }
    } else {
      LastKeyIsGreatest(key, a, b);
      LastKeyIsGreatest(key, b, a);
      var m, n := |a| - 1, |b| - 1;
      var k := key(a[m]);
      assert WithKey(key, a, k) == WithKey(key, b, k);
      assert a[m] == WithKey(key, a, k)[|WithKey(key, a, k)| - 1] == b[n];
      LastDropsTies(key, a, b);
      StableSortIsUnique(key, a[..m], b[..n]);
      SameFrontSameLast(a, b);
    }
  }

  lemma LastDropsTies(key: Key, a: seq<EnrichedProduct>, b: seq<EnrichedProduct>)
    requires a != [] && b != [] && a[|a| - 1] == b[|b| - 1] && SameTies(key, a, b)
    ensures SameTies(key, a[..|a| - 1], b[..|b| - 1])
  {
    var x, a', b' := a[|a| - 1], a[..|a| - 1], b[..|b| - 1];
    forall j
      ensures WithKey(key, a', j) == WithKey(key, b', j)
    {
      assert WithKey(key, a, j) == WithKey(key, b, j);
      CancelRight(WithKey(key, a', j), WithKey(key, b', j), if key(x) == j then [x] else []);
    }
  }

  // ---------- The selection ----------

  function Ascending(): (key: Key) {
    (p: EnrichedProduct) => p.product.price
  }

  /** `reverse=True`: greatest first, ties still in input order. */
  function Descending(): (key: Key) {
    (p: EnrichedProduct) => -p.product.price
  }

  function InSegment(products: seq<EnrichedProduct>, segment: PriceSegment): (those: seq<EnrichedProduct>) {
    if products == [] then []
    else
      var n := |products| - 1;
      InSegment(products[..n], segment) + if products[n].segment == segment then [products[n]] else []
  }

  function Top(key: Key, products: seq<EnrichedProduct>, segment: PriceSegment,
               limit: int): (top: seq<EnrichedProduct>) {
    Slice(StableSort(key, InSegment(products, segment)), limit)
  }

  function TopPremiumByPrice(products: seq<EnrichedProduct>, limit: int): (top: seq<EnrichedProduct>) {
    Top(Descending(), products, Premium, limit)
  }

  function TopEconomyByPrice(products: seq<EnrichedProduct>, limit: int): (top: seq<EnrichedProduct>) {
    Top(Ascending(), products, Economy, limit)
  }

  /**
   The selection and the rest of the segment make up the segment; nothing in the rest beats anything
   selected; and the selection is full unless the segment is smaller.
   */
  lemma TopIsBest(key: Key, products: seq<EnrichedProduct>, segment: PriceSegment, limit: int)
    returns (rest: seq<EnrichedProduct>)
    ensures var top, all := Top(key, products, segment, limit), InSegment(products, segment);
            && multiset(top) + multiset(rest) == multiset(all)
            && SortedBy(key, top)
            && (limit >= 0 ==> |top| == if limit < |all| then limit else |all|)
            && forall s, r :: s in top && r in rest ==> key(s) <= key(r)
  {
    var all := InSegment(products, segment);
    StableSortIsStable(key, all);
    rest := PrefixIsBest(key, StableSort(key, all), limit);
    SameMultisetSameSize(StableSort(key, all), all);
  }

  lemma PrefixIsBest(key: Key, sorted: seq<EnrichedProduct>, limit: int) returns (rest: seq<EnrichedProduct>)
    requires SortedBy(key, sorted)
    ensures sorted == Slice(sorted, limit) + rest && multiset(Slice(sorted, limit)) + multiset(rest) == multiset(sorted)
    ensures SortedBy(key, Slice(sorted, limit))
    ensures forall s, r :: s in Slice(sorted, limit) && r in rest ==> key(s) <= key(r)
  {
    var top := Slice(sorted, limit);
    rest := sorted[|top|..];
    assert sorted == top + rest;
    forall s, r | s in top && r in rest
      ensures key(s) <= key(r)
    {
      var i :| 0 <= i < |top| && top[i] == s;
      var j :| 0 <= j < |rest| && rest[j] == r;
      assert sorted[i] == s && sorted[|top| + j] == r;
    }
  }

  lemma {:induction false} InSegmentIsThat(products: seq<EnrichedProduct>, segment: PriceSegment)
    ensures forall p :: p in InSegment(products, segment) <==> p in products && p.segment == segment
    ensures forall p: EnrichedProduct :: p.segment == segment ==>
        multiset(InSegment(products, segment))[p] == multiset(products)[p]
  {
    if products == [] {
    } else {
      var n := |products| - 1;
      InSegmentIsThat(products[..n], segment);
      assert products == products[..n] + [products[n]];
    }
  }

  // ---------- Dearest and cheapest ----------

  /** The products of a segment at a price, in order. */
  function AtPrice(products: seq<EnrichedProduct>, segment: PriceSegment, price: real): (those: seq<EnrichedProduct>) {
    if products == [] then []
    else
      var n := |products| - 1;
      var p := products[n];
      AtPrice(products[..n], segment, price) + if p.segment == segment && p.product.price == price then [p] else []
  }

  lemma {:induction false} AtPriceAppend(a: seq<EnrichedProduct>, b: seq<EnrichedProduct>, segment: PriceSegment,
                                         price: real)
    ensures AtPrice(a, segment, price) <= AtPrice(a + b, segment, price)
  {
    if b == [] {
      assert a + b == a;
    } else {
      var n := |b| - 1;
      AtPriceAppend(a, b[..n], segment, price);
      assert (a + b)[..|a| + n] == a + b[..n];
    }
  }

  /** The price decides whether the key is `k`. */
  ghost predicate IsKeyOf(key: Key, k: real, price: real) {
    forall p: EnrichedProduct :: key(p) == k <==> p.product.price == price
  }

  lemma SegmentSnoc(products: seq<EnrichedProduct>, p: EnrichedProduct, segment: PriceSegment)
    ensures InSegment(products + [p], segment)
         == if p.segment == segment then InSegment(products, segment) + [p] else InSegment(products, segment)
  {
    assert (products + [p])[..|products|] == products;
  }

  lemma AtPriceSnoc(products: seq<EnrichedProduct>, p: EnrichedProduct, segment: PriceSegment, price: real)
    ensures AtPrice(products + [p], segment, price)
         == if p.segment == segment && p.product.price == price then AtPrice(products, segment, price) + [p]
            else AtPrice(products, segment, price)
  {
    assert (products + [p])[..|products|] == products;
  }

  lemma TieSnoc(key: Key, items: seq<EnrichedProduct>, x: EnrichedProduct, k: real)
    ensures WithKey(key, items + [x], k)
         == if key(x) == k then WithKey(key, items, k) + [x] else WithKey(key, items, k)
  {
    WithKeySnoc(key, items, x, k);
  }

  /** When `k` is the key of the price, the ties at `k` in the segment are the products at the price. */
  lemma {:induction false} TiesAreAtPrice(key: Key, products: seq<EnrichedProduct>, segment: PriceSegment, k: real,
                                          price: real)
    requires IsKeyOf(key, k, price)
    ensures WithKey(key, InSegment(products, segment), k) == AtPrice(products, segment, price)
  {
    if products == [] {
    } else {
      var front, p := products[..|products| - 1], products[|products| - 1];
      assert products == front + [p];
      TiesAreAtPrice(key, front, segment, k, price);
      SegmentSnoc(front, p, segment);
      AtPriceSnoc(front, p, segment, price);
      TieSnoc(key, InSegment(front, segment), p, k);
    }
  }

  lemma {:induction false} OfOneSegment(those: seq<EnrichedProduct>, segment: PriceSegment)
    requires forall p :: p in those ==> p.segment == segment
    ensures InSegment(those, segment) == those
  {
    if those == [] {
    } else {
      var front, p := those[..|those| - 1], those[|those| - 1];
      assert those == front + [p] && p in those;
      OfOneSegment(front, segment);
      SegmentSnoc(front, p, segment);
    }
  }

  lemma TopTakesFirstTies(key: Key, products: seq<EnrichedProduct>, segment: PriceSegment, limit: int, k: real,
                          price: real)
    requires IsKeyOf(key, k, price)
    ensures AtPrice(Top(key, products, segment, limit), segment, price) <= AtPrice(products, segment, price)
  {
    var all := InSegment(products, segment);
    var sorted, top := StableSort(key, all), Top(key, products, segment, limit);
    SortedAtPrice(key, products, segment, k, price);
    assert sorted == top + sorted[|top|..];
    AtPriceAppend(top, sorted[|top|..], segment, price);
  }

  lemma SortedAtPrice(key: Key, products: seq<EnrichedProduct>, segment: PriceSegment, k: real, price: real)
    requires IsKeyOf(key, k, price)
    ensures AtPrice(StableSort(key, InSegment(products, segment)), segment, price) == AtPrice(products, segment, price)
  {
    var all := InSegment(products, segment);
    var sorted := StableSort(key, all);
    StableSortIsStable(key, all);
    InSegmentIsThat(products, segment);
    assert forall p :: p in sorted ==> p in multiset(all);
    OfOneSegment(sorted, segment);
    TiesAreAtPrice(key, products, segment, k, price);
    TiesAreAtPrice(key, sorted, segment, k, price);
    assert WithKey(key, sorted, k) == WithKey(key, all, k);
  }

  lemma TopIsFromSegment(key: Key, products: seq<EnrichedProduct>, segment: PriceSegment, limit: int)
    returns (rest: seq<EnrichedProduct>)
    ensures var top := Top(key, products, segment, limit);
            && (forall p :: p in top || p in rest ==> p in products && p.segment == segment)
            && (forall p: EnrichedProduct :: p.segment == segment ==>
                  multiset(top)[p] + multiset(rest)[p] == multiset(products)[p])
            && SortedBy(key, top)
            && (limit >= 0 ==> |top| <= limit && (|top| < limit ==> rest == []))
            && forall s, r :: s in top && r in rest ==> key(s) <= key(r)
  {
    rest := TopIsBest(key, products, segment, limit);
    InSegmentIsThat(products, segment);
    var top, all := Top(key, products, segment, limit), InSegment(products, segment);
    assert forall p :: p in top || p in rest ==> p in multiset(all);
    assert multiset(top + rest) == multiset(all);
    SameMultisetSameSize(top + rest, all);
  }

  /** Of the products at one price the selection takes the first ones, in their order. */
  ghost predicate TakesFirst(top: seq<EnrichedProduct>, products: seq<EnrichedProduct>, segment: PriceSegment) {
    forall price :: AtPrice(top, segment, price) <= AtPrice(products, segment, price)
  }

  lemma PremiumTies(products: seq<EnrichedProduct>, limit: int)
    ensures TakesFirst(TopPremiumByPrice(products, limit), products, Premium)
  {
    forall price
      ensures AtPrice(TopPremiumByPrice(products, limit), Premium, price) <= AtPrice(products, Premium, price)
    {
      TopTakesFirstTies(Descending(), products, Premium, limit, -price, price);
    }
  }

  lemma EconomyTies(products: seq<EnrichedProduct>, limit: int)
    ensures TakesFirst(TopEconomyByPrice(products, limit), products, Economy)
  {
    forall price
      ensures AtPrice(TopEconomyByPrice(products, limit), Economy, price) <= AtPrice(products, Economy, price)
    {
      TopTakesFirstTies(Ascending(), products, Economy, limit, price, price);
    }
  }

  lemma DescendingIsDearFirst(top: seq<EnrichedProduct>, rest: seq<EnrichedProduct>)
    requires SortedBy(Descending(), top)
    requires forall s, r :: s in top && r in rest ==> Descending()(s) <= Descending()(r)
    ensures forall i, j :: 0 <= i < j < |top| ==> top[i].product.price >= top[j].product.price
    ensures forall s, r :: s in top && r in rest ==> s.product.price >= r.product.price
  {
  }

  lemma AscendingIsCheapFirst(top: seq<EnrichedProduct>, rest: seq<EnrichedProduct>)
    requires SortedBy(Ascending(), top)
    requires forall s, r :: s in top && r in rest ==> Ascending()(s) <= Ascending()(r)
    ensures forall i, j :: 0 <= i < j < |top| ==> top[i].product.price <= top[j].product.price
    ensures forall s, r :: s in top && r in rest ==> s.product.price <= r.product.price
  {
  }

  /**
   The selection and the rest make up the Premium products. The selection goes from dear to cheap, nothing in the
   rest costs more than anything selected, and of the products at one price it takes the first ones, in their
   order. Nothing is left out unless the selection is full.
   */
  lemma TopPremiumIsDearest(products: seq<EnrichedProduct>, limit: nat) returns (rest: seq<EnrichedProduct>)
    ensures var top := TopPremiumByPrice(products, limit);
            && (forall p :: p in top || p in rest ==> p in products && p.segment == Premium)
            && (forall p: EnrichedProduct :: p.segment == Premium ==>
                  multiset(top)[p] + multiset(rest)[p] == multiset(products)[p])
            && (forall i, j :: 0 <= i < j < |top| ==> top[i].product.price >= top[j].product.price)
            && (forall s, r :: s in top && r in rest ==> s.product.price >= r.product.price)
            && TakesFirst(top, products, Premium)
            && |top| <= limit && (|top| < limit ==> rest == [])
  {
    rest := TopIsFromSegment(Descending(), products, Premium, limit);
    DescendingIsDearFirst(TopPremiumByPrice(products, limit), rest);
    PremiumTies(products, limit);
  }

  /** The same of the Economy products, from cheap to dear. */
  lemma TopEconomyIsCheapest(products: seq<EnrichedProduct>, limit: nat) returns (rest: seq<EnrichedProduct>)
    ensures var top := TopEconomyByPrice(products, limit);
            && (forall p :: p in top || p in rest ==> p in products && p.segment == Economy)
            && (forall p: EnrichedProduct :: p.segment == Economy ==>
                  multiset(top)[p] + multiset(rest)[p] == multiset(products)[p])
            && (forall i, j :: 0 <= i < j < |top| ==> top[i].product.price <= top[j].product.price)
            && (forall s, r :: s in top && r in rest ==> s.product.price <= r.product.price)
            && TakesFirst(top, products, Economy)
            && |top| <= limit && (|top| < limit ==> rest == [])
  {
    rest := TopIsFromSegment(Ascending(), products, Economy, limit);
    AscendingIsCheapFirst(TopEconomyByPrice(products, limit), rest);
    EconomyTies(products, limit);
  }

  // ---------- The prices selected ----------

  function Keys(key: Key, items: seq<EnrichedProduct>): (keys: seq<real>)
    ensures |keys| == |items|
    ensures forall i :: 0 <= i < |items| ==> keys[i] == key(items[i])
  {
    seq(|items|, i requires 0 <= i < |items| => key(items[i]))
  }

  lemma KeysWithoutAt(key: Key, items: seq<EnrichedProduct>, j: nat)
    requires j < |items|
    ensures multiset(Keys(key, items[..j] + items[j + 1..])) == multiset(Keys(key, items)) - multiset{key(items[j])}
    ensures key(items[j]) in multiset(Keys(key, items))
  {
    var keys := Keys(key, items);
    assert Keys(key, items[..j] + items[j + 1..]) == keys[..j] + keys[j + 1..];
    WithoutAt(keys, j);
  }

  /** The multiset of keys depends only on the multiset of items. */
  lemma {:induction false} KeysOfPermutation(key: Key, a: seq<EnrichedProduct>, b: seq<EnrichedProduct>)
    requires multiset(a) == multiset(b)
    ensures multiset(Keys(key, a)) == multiset(Keys(key, b))
    decreases |a|
  {
    SameMultisetSameSize(a, b);
    if a == [] {
    } else {
      WithoutLast(a);
      var j := IndexIn(b, a[|a| - 1]);
      WithoutAt(b, j);
      KeysOfPermutation(key, a[..|a| - 1], b[..j] + b[j + 1..]);
      KeysPutBack(key, a, b, j);
    }
  }

  lemma KeysPutBack(key: Key, a: seq<EnrichedProduct>, b: seq<EnrichedProduct>, j: nat)
    requires a != [] && j < |b| && b[j] == a[|a| - 1]
    requires multiset(Keys(key, a[..|a| - 1])) == multiset(Keys(key, b[..j] + b[j + 1..]))
    ensures multiset(Keys(key, a)) == multiset(Keys(key, b))
  {
    assert Keys(key, a)[..|a| - 1] == Keys(key, a[..|a| - 1]);
    WithoutLast(Keys(key, a));
    KeysWithoutAt(key, b, j);
    SameAfterPutBack(multiset(Keys(key, a)), multiset(Keys(key, b)), key(b[j]));
  }

  lemma SameAfterPutBack(a: multiset<real>, b: multiset<real>, x: real)
    requires x in a && x in b && a - multiset{x} == b - multiset{x}
    ensures a == b
  {
    assert a == (a - multiset{x}) + multiset{x};
    assert b == (b - multiset{x}) + multiset{x};
  }

  /** The prices selected do not depend on the order of the products. */
  lemma SelectedPricesIgnoreOrder(key: Key, a: seq<EnrichedProduct>, b: seq<EnrichedProduct>, segment: PriceSegment,
                                  limit: int)
    requires multiset(InSegment(a, segment)) == multiset(InSegment(b, segment))
    ensures Keys(key, Top(key, a, segment, limit)) == Keys(key, Top(key, b, segment, limit))
  {
    var s, t := StableSort(key, InSegment(a, segment)), StableSort(key, InSegment(b, segment));
    StableSortIsStable(key, InSegment(a, segment));
    StableSortIsStable(key, InSegment(b, segment));
    SortedPermutationsHaveSameKeys(key, s, t);
    KeysOfSlice(key, s, limit);
    KeysOfSlice(key, t, limit);
  }

  lemma SortedPermutationsHaveSameKeys(key: Key, s: seq<EnrichedProduct>, t: seq<EnrichedProduct>)
    requires SortedBy(key, s) && SortedBy(key, t) && multiset(s) == multiset(t)
    ensures Keys(key, s) == Keys(key, t)
  {
    KeysOfPermutation(key, s, t);
    OrderedIsUnique(Keys(key, s), Keys(key, t));
  }

  lemma KeysOfSlice(key: Key, items: seq<EnrichedProduct>, limit: int)
    ensures Keys(key, Slice(items, limit)) == Slice(Keys(key, items), limit)
  {
  }
}
