/** The CRM tasks of a run: at most one per selected segment. */
module CrmTaskFactory {
  import opened Catalog
  import opened Selection
  import opened Strings
  import opened IdempotencyPolicy

  const TOP: int := 5
  const PREMIUM_TITLE: string := "Топ-5 дорогих товаров сегмента Премиум"
  const ECONOMY_TITLE: string := "Топ-5 дешёвых товаров сегмента Эконом"

  /** One line per product; `line` stands for the formatting of one. */
  function FormatLines(line: EnrichedProduct -> string, products: seq<EnrichedProduct>): (text: string) {
    if products == [] then ""
    else if |products| == 1 then line(products[0])
    else line(products[0]) + "\n" + FormatLines(line, products[1..])
  }

  /** The lines in order, with a line break between each two. */
  lemma {:induction false} FormatLinesSnoc(line: EnrichedProduct -> string, products: seq<EnrichedProduct>,
                                           p: EnrichedProduct)
    ensures FormatLines(line, products + [p])
         == if products == [] then line(p) else FormatLines(line, products) + "\n" + line(p)
  {
    if |products| <= 1 {
    } else {
      FormatLinesSnoc(line, products[1..], p);
      assert (products + [p])[1..] == products[1..] + [p];
    }
  }

  function TaskFor(line: EnrichedProduct -> string, title: string,
                   products: seq<EnrichedProduct>): (tasks: seq<CrmTaskRequest>) {
    if products == [] then [] else [CrmTaskRequest(title, FormatLines(line, products))]
  }

  function TasksOf(line: EnrichedProduct -> string, products: seq<EnrichedProduct>): (tasks: seq<CrmTaskRequest>) {
    TaskFor(line, PREMIUM_TITLE, TopPremiumByPrice(products, TOP))
    + TaskFor(line, ECONOMY_TITLE, TopEconomyByPrice(products, TOP))
  }

  method BuildTasks(line: EnrichedProduct -> string, products: seq<EnrichedProduct>)
    returns (tasks: seq<CrmTaskRequest>)
    ensures tasks == TasksOf(line, products)
    ensures var premium, economy := TopPremiumByPrice(products, 5), TopEconomyByPrice(products, 5);
            && |tasks| == (if premium == [] then 0 else 1) + (if economy == [] then 0 else 1)
            && (premium != [] ==>
                  tasks[0] == CrmTaskRequest("Топ-5 дорогих товаров сегмента Премиум", FormatLines(line, premium)))
            && (economy != [] ==>
                  tasks[|tasks| - 1]
                  == CrmTaskRequest("Топ-5 дешёвых товаров сегмента Эконом", FormatLines(line, economy)))
  {
    tasks := [];
    var premium := TopPremiumByPrice(products, TOP);
    var economy := TopEconomyByPrice(products, TOP);
    if premium != [] {
      tasks := tasks + [CrmTaskRequest(PREMIUM_TITLE, FormatLines(line, premium))];
    }
    if economy != [] {
      tasks := tasks + [CrmTaskRequest(ECONOMY_TITLE, FormatLines(line, economy))];
    }
  }

  /** There is a task for a segment exactly when some product is in it. */
  lemma OneTaskPerSegment(line: EnrichedProduct -> string, products: seq<EnrichedProduct>)
    ensures |TasksOf(line, products)|
         == (if exists p :: p in products && p.segment == Premium then 1 else 0)
          + (if exists p :: p in products && p.segment == Economy then 1 else 0)
  {
    TopIsEmptyExactlyIfSegmentIs(Descending(), products, Premium);
    TopIsEmptyExactlyIfSegmentIs(Ascending(), products, Economy);
  }

  lemma TopIsEmptyExactlyIfSegmentIs(key: Key, products: seq<EnrichedProduct>, segment: PriceSegment)
    ensures Top(key, products, segment, TOP) != [] <==> exists p :: p in products && p.segment == segment
  {
    InSegmentIsThat(products, segment);
    var rest := TopIsBest(key, products, segment, TOP);
    if InSegment(products, segment) != [] {
      assert InSegment(products, segment)[0] in InSegment(products, segment);
    }
  }

  /**
   When some product is Premium, the first task lists, from dear to cheap, at most five of the Premium products;
   no other costs more than one listed, and all are listed unless there are more than five.
   */
  lemma PremiumTaskListsDearest(line: EnrichedProduct -> string, products: seq<EnrichedProduct>)
    returns (top: seq<EnrichedProduct>, rest: seq<EnrichedProduct>)
    requires exists p :: p in products && p.segment == Premium
    ensures TasksOf(line, products) != []
         && TasksOf(line, products)[0]
            == CrmTaskRequest("Топ-5 дорогих товаров сегмента Премиум", FormatLines(line, top))
    ensures forall p :: p in top || p in rest ==> p in products && p.segment == Premium
    ensures forall p: EnrichedProduct :: p.segment == Premium ==>
        multiset(top)[p] + multiset(rest)[p] == multiset(products)[p]
    ensures forall i, j :: 0 <= i < j < |top| ==> top[i].product.price >= top[j].product.price
    ensures forall s, r :: s in top && r in rest ==> s.product.price >= r.product.price
    ensures TakesFirst(top, products, Premium)
    ensures |top| <= 5 && (|top| < 5 ==> rest == [])
  {
    top := TopPremiumByPrice(products, 5);
    TopIsEmptyExactlyIfSegmentIs(Descending(), products, Premium);
    rest := TopPremiumIsDearest(products, 5);
  }

  /** When some product is Economy, the last task does the same for the Economy products, from cheap to dear. */
  lemma EconomyTaskListsCheapest(line: EnrichedProduct -> string, products: seq<EnrichedProduct>)
    returns (top: seq<EnrichedProduct>, rest: seq<EnrichedProduct>)
    requires exists p :: p in products && p.segment == Economy
    ensures TasksOf(line, products) != []
         && TasksOf(line, products)[|TasksOf(line, products)| - 1]
            == CrmTaskRequest("Топ-5 дешёвых товаров сегмента Эконом", FormatLines(line, top))
    ensures forall p :: p in top || p in rest ==> p in products && p.segment == Economy
    ensures forall p: EnrichedProduct :: p.segment == Economy ==>
        multiset(top)[p] + multiset(rest)[p] == multiset(products)[p]
    ensures forall i, j :: 0 <= i < j < |top| ==> top[i].product.price <= top[j].product.price
    ensures forall s, r :: s in top && r in rest ==> s.product.price <= r.product.price
    ensures TakesFirst(top, products, Economy)
    ensures |top| <= 5 && (|top| < 5 ==> rest == [])
  {
    top := TopEconomyByPrice(products, 5);
    TopIsEmptyExactlyIfSegmentIs(Ascending(), products, Economy);
    rest := TopEconomyIsCheapest(products, 5);
  }

  lemma PremiumStarts(task: CrmTaskRequest)
    requires task.title == PREMIUM_TITLE
    ensures |Canonical(task)| > 7 && Canonical(task)[7] == 'о'
  {
    assert PREMIUM_TITLE[0] == 'Т' && PREMIUM_TITLE[|PREMIUM_TITLE| - 1] == 'м' && PREMIUM_TITLE[7] == 'о';
    TrimmedStays(PREMIUM_TITLE);
  }

  lemma EconomyStarts(task: CrmTaskRequest)
    requires task.title == ECONOMY_TITLE
    ensures |Canonical(task)| > 7 && Canonical(task)[7] == 'е'
  {
    assert ECONOMY_TITLE[0] == 'Т' && ECONOMY_TITLE[|ECONOMY_TITLE| - 1] == 'м' && ECONOMY_TITLE[7] == 'е';
    TrimmedStays(ECONOMY_TITLE);
  }

  lemma TwoTasks(line: EnrichedProduct -> string, a: string, b: string, p: seq<EnrichedProduct>,
                 e: seq<EnrichedProduct>, i: nat, j: nat)
    requires i < j < |TaskFor(line, a, p) + TaskFor(line, b, e)|
    ensures (TaskFor(line, a, p) + TaskFor(line, b, e))[i].title == a
    ensures (TaskFor(line, a, p) + TaskFor(line, b, e))[j].title == b
  {
  }

  lemma DistinctAtSeven(s: string, t: string)
    requires |s| > 7 && |t| > 7 && s[7] != t[7]
    ensures s != t
  {
  }

  /** Two tasks of one run have distinct canonical texts, and so never share an idempotency key. */
  lemma TasksHaveDistinctKeys(line: EnrichedProduct -> string, products: seq<EnrichedProduct>, sha: string -> string,
                              i: nat, j: nat)
    requires IsDigest(sha) && i < j < |TasksOf(line, products)|
    ensures Canonical(TasksOf(line, products)[i]) != Canonical(TasksOf(line, products)[j])
    ensures ComputeKey(sha, TasksOf(line, products)[i]) != ComputeKey(sha, TasksOf(line, products)[j])
  {
    var s, t := TasksOf(line, products)[i], TasksOf(line, products)[j];
    TwoTasks(line, PREMIUM_TITLE, ECONOMY_TITLE, TopPremiumByPrice(products, TOP), TopEconomyByPrice(products, TOP),
        i, j);
    PremiumStarts(s);
    EconomyStarts(t);
    DistinctAtSeven(Canonical(s), Canonical(t));
  }
}
