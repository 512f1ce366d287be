/** Collecting catalogue products page by page, without duplicates, up to a target. */
module OzonCollector {
  import opened Wrappers
  import opened Catalog
  import opened Slices

  /** What asking for a page gives: its products, a failure, or the end of the proxy's traffic. */
  datatype Response = Batch(products: seq<Product>) | Failed(message: string) | QuotaExhausted

  datatype CollectionResult = CollectionResult(
    products: seq<Product>,
    targetCount: int,
    collectedCount: int,
    exhausted: bool,
    degraded: bool,
    errorMessage: Option<string>)

  /** `_fetch_page`: the products of page `n`, cut to the page size. Pages are counted from 1. */
  function FetchPage(pages: nat -> Response, pageSize: int, n: nat): (r: Response) {
    match pages(n)
    case Batch(products) => Batch(Slice(products, pageSize))
    case other => other
  }

  // ---------- Removing duplicates ----------

  /** The first product of each id, in order. */
  function Dedup(products: seq<Product>): (kept: seq<Product>) {
    if products == [] then []
    else
      var n := |products| - 1;
      var kept := Dedup(products[..n]);
      if products[n].id in Ids(products[..n]) then kept else kept + [products[n]]
  }

  ghost predicate IsFirst(products: seq<Product>, i: nat)
    requires i < |products|
  {
    forall j :: 0 <= j < i ==> products[j].id != products[i].id
  }

  lemma DedupSnoc(products: seq<Product>, p: Product)
    ensures Dedup(products + [p]) == if p.id in Ids(products) then Dedup(products) else Dedup(products) + [p]
  {
  }

  lemma {:induction false} DedupKeepsIds(products: seq<Product>)
    ensures Ids(Dedup(products)) == Ids(products)
  {
    if products == [] {
    } else {
      var front, last := products[..|products| - 1], products[|products| - 1];
      DedupKeepsIds(front);
      assert Ids(products) == Ids(front) + {last.id};
      if last.id in Ids(front) {
        assert Dedup(products) == Dedup(front);
      } else {
        assert Dedup(products) == Dedup(front) + [last];
        IdsSnoc(Dedup(front), last);
      }
    }
  }

  lemma FirstsOfFront(products: seq<Product>)
    requires products != []
    ensures forall i: nat :: i < |products| - 1 ==> (IsFirst(products[..|products| - 1], i) <==> IsFirst(products, i))
    ensures IsFirst(products, |products| - 1) <==> products[|products| - 1].id !in Ids(products[..|products| - 1])
  {
    var front := products[..|products| - 1];
    IdsAreThose(front, products[|products| - 1].id);
  }

  /** `kept` is made of the products at the positions `at`, which rise. */
  ghost predicate Selects(products: seq<Product>, kept: seq<Product>, at: seq<nat>) {
    && |at| == |kept|
    && (forall k :: 0 <= k < |at| ==> at[k] < |products| && products[at[k]] == kept[k])
    && (forall k, m :: 0 <= k < m < |at| ==> at[k] < at[m])
  }

  /** The positions `at` are those at which an id occurs first. */
  ghost predicate AreFirsts(products: seq<Product>, at: seq<nat>) {
    && (forall k :: 0 <= k < |at| ==> at[k] < |products| && IsFirst(products, at[k]))
    && (forall i: nat :: i < |products| && IsFirst(products, i) ==> i in at)
  }

  lemma SelectsOneMore(products: seq<Product>, kept: seq<Product>, at: seq<nat>)
    requires products != [] && Selects(products[..|products| - 1], kept, at)
    ensures Selects(products, kept, at)
    ensures Selects(products, kept + [products[|products| - 1]], at + [|products| - 1])
  {
  }

  lemma EarlierFirsts(products: seq<Product>, at: seq<nat>)
    requires products != [] && AreFirsts(products[..|products| - 1], at)
    ensures forall k :: 0 <= k < |at| ==> at[k] < |products| - 1 && IsFirst(products, at[k])
    ensures forall i: nat :: i < |products| - 1 && IsFirst(products, i) ==> i in at
  {
    FirstsOfFront(products);
    forall i: nat | i < |products| - 1 && IsFirst(products, i)
      ensures i in at
    {
      assert IsFirst(products[..|products| - 1], i);
    }
  }

  lemma FirstsOneMore(products: seq<Product>, at: seq<nat>)
    requires products != [] && AreFirsts(products[..|products| - 1], at)
    ensures var n := |products| - 1;
            AreFirsts(products, if products[n].id in Ids(products[..n]) then at else at + [n])
  {
    var n := |products| - 1;
    EarlierFirsts(products, at);
    FirstsOfFront(products);
    assert (at + [n])[|at|] == n;
    assert forall i :: i in at ==> i in at + [n];
  }

  /** What is kept is exactly the first product of each id, in the order of the input. */
  lemma {:induction false} DedupKeepsFirsts(products: seq<Product>) returns (at: seq<nat>)
    ensures Selects(products, Dedup(products), at) && AreFirsts(products, at)
  {
    at := [];
    if products == [] {
    } else {
      var n := |products| - 1;
      at := DedupKeepsFirsts(products[..n]);
      SelectsOneMore(products, Dedup(products[..n]), at);
      FirstsOneMore(products, at);
      if products[n].id !in Ids(products[..n]) {
        at := at + [n];
      }
    }
  }

  lemma {:induction false} DedupIsUnique(products: seq<Product>)
    ensures UniqueIds(Dedup(products))
  {
    if products == [] {
    } else {
      var front := products[..|products| - 1];
      DedupIsUnique(front);
      DedupKeepsIds(front);
      IdsAreThose(Dedup(front), products[|products| - 1].id);
    }
  }

  // ---------- The pages ----------

  /** All products of the first `n` pages. */
  function FirstPages(pages: nat -> Response, pageSize: int, n: nat): (products: seq<Product>) {
    if n == 0 then []
    else
      FirstPages(pages, pageSize, n - 1)
      + match FetchPage(pages, pageSize, n)
        case Batch(products) => products
        case _ => []
  }

  /** The n-th page adds its first `pageSize` products, or nothing when it fails. */
  lemma PagesRead(pages: nat -> Response, pageSize: nat, n: nat)
    requires n > 0
    ensures FirstPages(pages, pageSize, 0) == []
    ensures pages(n).Batch? && |pages(n).products| <= pageSize ==>
      FirstPages(pages, pageSize, n) == FirstPages(pages, pageSize, n - 1) + pages(n).products
    ensures pages(n).Batch? && pageSize < |pages(n).products| ==>
      FirstPages(pages, pageSize, n) == FirstPages(pages, pageSize, n - 1) + pages(n).products[..pageSize]
    ensures !pages(n).Batch? ==> FirstPages(pages, pageSize, n) == FirstPages(pages, pageSize, n - 1)
  {
  }

  predicate HasProducts(r: Response) {
    r.Batch? && r.products != []
  }

  /** After `n` pages the outcome is known: the target is reached, or the next page ends the run. */
  ghost predicate Decided(pages: nat -> Response, pageSize: int, target: int, n: nat) {
    |Dedup(FirstPages(pages, pageSize, n))| >= target || !HasProducts(FetchPage(pages, pageSize, n + 1))
  }

  /** `n` is the least number of pages after which the outcome is known. */
  ghost predicate FirstDecided(pages: nat -> Response, pageSize: int, target: int, n: nat) {
    Decided(pages, pageSize, target, n) && UndecidedBelow(pages, pageSize, target, n)
  }

  /** The part of a sequence the target leaves. */
  function Take(products: seq<Product>, target: int): (kept: seq<Product>) {
    if target <= 0 then [] else if |products| <= target then products else products[..target]
  }

  lemma {:induction false} DedupPrefix(a: seq<Product>, b: seq<Product>)
    ensures Dedup(a) <= Dedup(a + b)
  {
    if b == [] {
      assert a + b == a;
    } else {
      DedupPrefix(a, b[..|b| - 1]);
      assert a + b == (a + b[..|b| - 1]) + [b[|b| - 1]];
      DedupSnoc(a + b[..|b| - 1], b[|b| - 1]);
    }
  }

  /** What the inner loop makes of the rest of a page: `seen` holds the ids of `products`. */
  function AddAll(products: seq<Product>, seen: set<string>, batch: seq<Product>, target: int)
    : (r: (seq<Product>, set<string>))
    decreases |batch|
  {
    if batch == [] then (products, seen)
    else if batch[0].id in seen then AddAll(products, seen, batch[1..], target)
    else if |products| + 1 >= target then (products + [batch[0]], seen + {batch[0].id})
    else AddAll(products + [batch[0]], seen + {batch[0].id}, batch[1..], target)
  }

  lemma TakeOfLonger(p: seq<Product>, q: seq<Product>, target: int)
    requires p <= q && |p| == target
    ensures Take(q, target) == p
  {
  }

  /** Adding a page to what was read before it is removing the duplicates of both, up to the target. */
  lemma {:induction false} AddAllIsDedup(all: seq<Product>, batch: seq<Product>, target: int)
    requires |Dedup(all)| < target
    ensures var (products, seen) := AddAll(Dedup(all), Ids(all), batch, target);
            products == Take(Dedup(all + batch), target) && (|products| < target ==> seen == Ids(all + batch))
    decreases |batch|
  {
    if batch == [] {
      assert all + batch == all;
    } else {
      var first, rest := batch[0], batch[1..];
      assert all + batch == (all + [first]) + rest;
      DedupSnoc(all, first);
      IdsSnoc(all, first);
      if |Dedup(all + [first])| < target {
        AddAllIsDedup(all + [first], rest, target);
        assert first.id in Ids(all) ==> Ids(all + [first]) == Ids(all);
      } else {
        DedupPrefix(all + [first], rest);
        TakeOfLonger(Dedup(all + [first]), Dedup(all + batch), target);
      }
    }
  }

  /** The inner loop over one page. */
  method AddBatch(products: seq<Product>, seen: set<string>, batch: seq<Product>, target: int)
    returns (products': seq<Product>, seen': set<string>)
    ensures (products', seen') == AddAll(products, seen, batch, target)
  {
    products', seen' := products, seen;
    var i := 0;
    while i < |batch|
      invariant 0 <= i <= |batch|
      invariant AddAll(products, seen, batch, target) == AddAll(products', seen', batch[i..], target)
    {
      var product := batch[i];
      assert batch[i..][1..] == batch[i + 1..];
      if product.id !in seen' {
        seen' := seen' + {product.id};
        products' := products' + [product];
        if |products'| >= target {
          return;
        }
      }
      i := i + 1;
    }
  }

  lemma TakeTells(all: seq<Product>, target: int)
    ensures |Take(all, target)| >= target <==> |all| >= target
    ensures |Take(all, target)| < target ==> Take(all, target) == all
  {
  }

  /** No number of pages below `n` decides the outcome. */
  ghost predicate UndecidedBelow(pages: nat -> Response, pageSize: int, target: int, n: nat) {
    forall m: nat :: m < n ==> !Decided(pages, pageSize, target, m)
  }

  /** What the loop has after `read` pages. */
  ghost predicate HasRead(pages: nat -> Response, pageSize: int, target: int, read: nat, products: seq<Product>,
                          seen: set<string>) {
    var all := FirstPages(pages, pageSize, read);
    products == Take(Dedup(all), target) && (|products| < target ==> seen == Ids(all))
  }

  /** One more page that holds products. */
  lemma ReadOneMore(pages: nat -> Response, pageSize: int, target: int, read: nat, products: seq<Product>,
                    seen: set<string>,
                    batch: seq<Product>)
    requires HasRead(pages, pageSize, target, read, products, seen) && |products| < target
    requires FetchPage(pages, pageSize, read + 1) == Batch(batch)
    ensures var (products', seen') := AddAll(products, seen, batch, target);
            HasRead(pages, pageSize, target, read + 1, products', seen')
  {
    var all := FirstPages(pages, pageSize, read);
    TakeTells(Dedup(all), target);
    AddAllIsDedup(all, batch, target);
    assert FirstPages(pages, pageSize, read + 1) == all + batch;
  }

  lemma DecidedByWhatIsRead(pages: nat -> Response, pageSize: int, target: int, read: nat,
                            products: seq<Product>, seen: set<string>)
    requires HasRead(pages, pageSize, target, read, products, seen)
    ensures Decided(pages, pageSize, target, read) <==>
            |products| >= target || !HasProducts(FetchPage(pages, pageSize, read + 1))
  {
    TakeTells(Dedup(FirstPages(pages, pageSize, read)), target);
  }

  // ---------- The loop by itself ----------

  /** `running` is false once the loop has ended. */
  datatype LoopState = LoopState(products: seq<Product>, seen: set<string>, running: bool)

  /** One turn: products enough, and a page that fails or is empty, end the loop. */
  function Turn(target: int, s: LoopState, batch: Response): (t: LoopState) {
    if s.running && |s.products| < target && HasProducts(batch) then
      var (products, seen) := AddAll(s.products, s.seen, batch.products, target);
      LoopState(products, seen, true)
    else s.(running := false)
  }

  /** The loop after `n` turns; nothing bounds them. */
  function Loop(pages: nat -> Response, pageSize: int, target: int, n: nat): (s: LoopState) {
    if n == 0 then LoopState([], {}, true)
    else Turn(target, Loop(pages, pageSize, target, n - 1), FetchPage(pages, pageSize, n))
  }

  /** A running loop has read its pages, and none of the numbers of pages before decides the outcome. */
  ghost predicate RunsUndecided(pages: nat -> Response, pageSize: int, target: int, n: nat, s: LoopState) {
    && (s.running <==> UndecidedBelow(pages, pageSize, target, n))
    && (s.running ==> HasRead(pages, pageSize, target, n, s.products, s.seen))
  }

  lemma UndecidedNext(pages: nat -> Response, pageSize: int, target: int, n: nat)
    ensures UndecidedBelow(pages, pageSize, target, n + 1)
       <==> UndecidedBelow(pages, pageSize, target, n) && !Decided(pages, pageSize, target, n)
  {
    if UndecidedBelow(pages, pageSize, target, n + 1) {
      assert !Decided(pages, pageSize, target, n);
    }
  }

  lemma TurnKeepsUndecided(pages: nat -> Response, pageSize: int, target: int, n: nat, s: LoopState)
    requires RunsUndecided(pages, pageSize, target, n, s)
    ensures RunsUndecided(pages, pageSize, target, n + 1, Turn(target, s, FetchPage(pages, pageSize, n + 1)))
  {
    var batch := FetchPage(pages, pageSize, n + 1);
    UndecidedNext(pages, pageSize, target, n);
    if s.running {
      DecidedByWhatIsRead(pages, pageSize, target, n, s.products, s.seen);
      if |s.products| < target && HasProducts(batch) {
        ReadOneMore(pages, pageSize, target, n, s.products, s.seen, batch.products);
      }
    }
  }

  /** The loop makes `n` turns exactly when no number of pages below `n` decides the outcome. */
  lemma {:induction false} LoopRunsWhileUndecided(pages: nat -> Response, pageSize: int, target: int, n: nat)
    ensures RunsUndecided(pages, pageSize, target, n, Loop(pages, pageSize, target, n))
  {
    if n == 0 {
      assert FirstPages(pages, pageSize, 0) == [];
    } else {
      LoopRunsWhileUndecided(pages, pageSize, target, n - 1);
      TurnKeepsUndecided(pages, pageSize, target, n - 1, Loop(pages, pageSize, target, n - 1));
    }
  }

  ghost predicate ReadsForEver(pages: nat -> Response, pageSize: int, target: int) {
    forall n :: Loop(pages, pageSize, target, n).running
  }

  /** The loop reads on for ever exactly when no number of pages decides the outcome. */
  lemma LoopIsEndlessExactlyIfUndecided(pages: nat -> Response, pageSize: int, target: int)
    ensures ReadsForEver(pages, pageSize, target) <==> forall n: nat :: !Decided(pages, pageSize, target, n)
  {
    forall n: nat
      ensures Loop(pages, pageSize, target, n + 1).running ==> !Decided(pages, pageSize, target, n)
    {
      LoopRunsWhileUndecided(pages, pageSize, target, n + 1);
    }
    if forall n: nat :: !Decided(pages, pageSize, target, n) {
      forall n
        ensures Loop(pages, pageSize, target, n).running
      {
        LoopRunsWhileUndecided(pages, pageSize, target, n);
      }
    } else {
      var n: nat :| Decided(pages, pageSize, target, n);
      assert !Loop(pages, pageSize, target, n + 1).running;
    }
  }

  /** It makes `n` turns and no more exactly when `n` is the least number of pages that decides the outcome. */
  lemma LoopEndsAtFirstDecided(pages: nat -> Response, pageSize: int, target: int, n: nat)
    ensures Loop(pages, pageSize, target, n).running && !Loop(pages, pageSize, target, n + 1).running
       <==> FirstDecided(pages, pageSize, target, n)
  {
    LoopRunsWhileUndecided(pages, pageSize, target, n);
    LoopRunsWhileUndecided(pages, pageSize, target, n + 1);
    UndecidedNext(pages, pageSize, target, n);
  }

  // ---------- The method ----------

  /** `read` pages have decided the outcome; `last` is the response that ended the run, if one did. */
  ghost predicate HasEnded(pages: nat -> Response, pageSize: int, target: int, read: nat, products: seq<Product>,
                           last: Option<Response>) {
    && FirstDecided(pages, pageSize, target, read)
    && var all := Dedup(FirstPages(pages, pageSize, read));
       && products == Take(all, target)
       && last == if |all| >= target then None else Some(FetchPage(pages, pageSize, read + 1))
  }

  /** The loop runs after `read` turns, and ends in the next: with products enough, or with the response `last`. */
  ghost predicate StopsAfter(pages: nat -> Response, pageSize: int, target: int, read: nat, s: LoopState,
                             last: Option<Response>) {
    && Loop(pages, pageSize, target, read) == s && s.running
    && match last
       case None => |s.products| >= target
       case Some(response) =>
         |s.products| < target && response == FetchPage(pages, pageSize, read + 1) && !HasProducts(response)
  }

  lemma Ends(pages: nat -> Response, pageSize: int, target: int, read: nat, s: LoopState, last: Option<Response>)
    requires StopsAfter(pages, pageSize, target, read, s, last)
    ensures HasEnded(pages, pageSize, target, read, s.products, last)
  {
    LoopRunsWhileUndecided(pages, pageSize, target, read);
    DecidedByWhatIsRead(pages, pageSize, target, read, s.products, s.seen);
    TakeTells(Dedup(FirstPages(pages, pageSize, read)), target);
  }

  lemma {:induction false} StoppedStays(pages: nat -> Response, pageSize: int, target: int, n: nat, m: nat)
    requires n <= m && Loop(pages, pageSize, target, m).running
    ensures Loop(pages, pageSize, target, n).running
    decreases m
  {
    if n < m {
      StoppedStays(pages, pageSize, target, n, m - 1);
    }
  }

  lemma RunningIsBelow(pages: nat -> Response, pageSize: int, target: int, n: nat, bound: nat)
    requires Loop(pages, pageSize, target, n).running && !Loop(pages, pageSize, target, bound).running
    ensures n < bound
  {
    if bound <= n {
      StoppedStays(pages, pageSize, target, bound, n);
    }
  }

  /** The loop of `collect`, for pages at which it ends by turn `bound` at the latest. */
  method ReadTurns(pages: nat -> Response, pageSize: int, target: int, ghost bound: nat)
    returns (s: LoopState, last: Option<Response>, read: nat)
    requires !Loop(pages, pageSize, target, bound).running
    ensures StopsAfter(pages, pageSize, target, read, s, last)
  {
    var products, seen, page := [], {}, 1;
    last, read := None, 0;
    while |products| < target && last.None?
      invariant page == read + 1 && read < bound
      invariant Loop(pages, pageSize, target, read) == LoopState(products, seen, true)
      invariant last.Some? ==>
        |products| < target && last.value == FetchPage(pages, pageSize, page) && !HasProducts(last.value)
      decreases bound - read, last.None?
    {
      var batch := FetchPage(pages, pageSize, page);
      if !HasProducts(batch) {
        last := Some(batch);
      } else {
        products, seen := AddBatch(products, seen, batch.products, target);
        RunningIsBelow(pages, pageSize, target, read + 1, bound);
        page := page + 1;
        read := read + 1;
      }
    }
    s := LoopState(products, seen, true);
  }

  /** Reads pages until the outcome is decided; its turns are those of the loop above. */
  method ReadPages(pages: nat -> Response, pageSize: int, target: int, ghost bound: nat)
    returns (products: seq<Product>, last: Option<Response>, read: nat)
    requires Decided(pages, pageSize, target, bound)
    ensures HasEnded(pages, pageSize, target, read, products, last)
    ensures var s := Loop(pages, pageSize, target, read);
            s.running && s.products == products
  {
    LoopRunsWhileUndecided(pages, pageSize, target, bound + 1);
    UndecidedNext(pages, pageSize, target, bound);
    var s;
    s, last, read := ReadTurns(pages, pageSize, target, bound + 1);
    Ends(pages, pageSize, target, read, s, last);
    products := s.products;
  }

  /** What the caller is told, given the products of the pages read and the response after them. */
  ghost predicate Reports(target: int, all: seq<Product>, next: Response, result: Option<CollectionResult>) {
    var reached := |all| >= target;
    && (result.None? <==> !reached && next.QuotaExhausted?)
    && (result.Some? ==>
          var r := result.value;
          && r.products <= all
          && |r.products| == (if target <= 0 then 0 else if target < |all| then target else |all|)
          && r.targetCount == target && r.collectedCount == |r.products|
          && (r.degraded <==> !reached && next.Failed?)
          && r.errorMessage == (if r.degraded then Some(next.message) else None)
          && (r.exhausted <==> !reached && next == Batch([]))
          && (target >= 0 ==> (reached <==> r.collectedCount == target)))
  }

  /**
   The result is the first `target` distinct products of the pages read, and no fewer pages would
   have decided the outcome. For a target that is not negative the run ends in exactly one of three
   ways: target reached, catalogue exhausted, or degraded by a failure. `None` is the quota error,
   which is passed on. `pages` need only be such that some number of pages, `bound`, decides the
   outcome; otherwise there is no end to the pages, and the loop has none either.
   */
  method Collect(pages: nat -> Response, pageSize: int, target: int, ghost bound: nat)
    returns (result: Option<CollectionResult>, read: nat)
    requires Decided(pages, pageSize, target, bound)
    ensures FirstDecided(pages, pageSize, target, read)
    ensures Reports(target, Dedup(FirstPages(pages, pageSize, read)), FetchPage(pages, pageSize, read + 1), result)
    ensures result.Some? ==> UniqueIds(result.value.products)
    ensures pageSize > 0 ==>
      var short, next := |Dedup(FirstPages(pages, pageSize, read))| < target, pages(read + 1);
      && (result.None? <==> short && next.QuotaExhausted?)
      && (result.Some? ==> (result.value.degraded <==> short && next.Failed?))
      && (result.Some? ==> result.value.errorMessage == if short && next.Failed? then Some(next.message) else None)
      && (result.Some? ==> (result.value.exhausted <==> short && next == Batch([])))
  {
    var products, last;
    products, last, read := ReadPages(pages, pageSize, target, bound);
    DedupIsUnique(FirstPages(pages, pageSize, read));
    if last.Some? && last.value.QuotaExhausted? {
      return None, read;
    }
    var degraded := last.Some? && last.value.Failed?;
    var errorMessage := if degraded then Some(last.value.message) else None;
    var exhausted := |products| < target && !degraded;
    var kept := Slice(products, target);
    result := Some(CollectionResult(kept, target, |kept|, exhausted, degraded, errorMessage));
  }

  /** A run of a target that is not negative ends in exactly one of the three ways. */
  lemma EndsInOneWay(target: int, all: seq<Product>, next: Response, r: CollectionResult)
    requires target >= 0 && Reports(target, all, next, Some(r)) && (|all| >= target || !HasProducts(next))
    ensures r.collectedCount == target || r.exhausted || r.degraded
    ensures !(r.collectedCount == target && r.exhausted)
    ensures !(r.collectedCount == target && r.degraded) && !(r.exhausted && r.degraded)
  {
  }

  /** An empty or failing page somewhere is enough for the run to end, no later than there. */
  lemma EndsByFirstBadPage(pages: nat -> Response, pageSize: int, target: int, n: nat, read: nat)
    requires !HasProducts(FetchPage(pages, pageSize, n + 1)) && FirstDecided(pages, pageSize, target, read)
    ensures read <= n
  {
    assert Decided(pages, pageSize, target, n);
  }

  lemma {:induction false} SameProducts(products: seq<Product>, p: Product)
    requires products != [] && forall i :: 0 <= i < |products| ==> products[i] == p
    ensures Dedup(products) == [p] && Ids(products) == {p.id}
  {
    var front := products[..|products| - 1];
    assert products == front + [p];
    DedupSnoc(front, p);
    IdsSnoc(front, p);
    if front == [] {
    } else {
      SameProducts(front, p);
    }
  }

  lemma {:induction false} SamePages(pages: nat -> Response, pageSize: int, p: Product, n: nat)
    requires pageSize >= 1 && forall k :: pages(k) == Batch([p])
    ensures |FirstPages(pages, pageSize, n)| == n && forall i :: 0 <= i < n ==> FirstPages(pages, pageSize, n)[i] == p
  {
    if n == 0 {
    } else {
      SamePages(pages, pageSize, p, n - 1);
      assert FetchPage(pages, pageSize, n) == Batch([p]);
    }
  }

  lemma SamePagesUndecided(pages: nat -> Response, pageSize: int, p: Product, target: int, n: nat)
    requires pageSize >= 1 && target > 1 && forall k :: pages(k) == Batch([p])
    ensures !Decided(pages, pageSize, target, n)
  {
    SamePages(pages, pageSize, p, n);
    if n > 0 {
      SameProducts(FirstPages(pages, pageSize, n), p);
    }
    assert FetchPage(pages, pageSize, n + 1) == Batch([p]);
  }

  /** With a catalogue that shows one product on every page, and a target above one, the loop never ends. */
  lemma EndlessDuplicatesReadOn(pages: nat -> Response, pageSize: int, p: Product, target: int)
    requires pageSize >= 1 && target > 1 && forall k :: pages(k) == Batch([p])
    ensures ReadsForEver(pages, pageSize, target)
  {
    forall n: nat
      ensures !Decided(pages, pageSize, target, n)
    {
      SamePagesUndecided(pages, pageSize, p, target, n);
    }
    LoopIsEndlessExactlyIfUndecided(pages, pageSize, target);
  }
}
