/** Classifying products in batches through a language model that may fail or answer badly. */
module Classifier {
  import opened Wrappers
  import opened Strings
  import opened Catalog

  /** One element of the model's answer: an object with an id and a segment, or anything else. */
  datatype Item = Item(id: string, segment: string) | NotAnObject

  /** The answer for one batch: no usable list, or a list. */
  datatype Reply = Unusable | Items(items: seq<Item>)

  type Segments = map<string, PriceSegment>

  function SegmentNamed(raw: string): (segment: Option<PriceSegment>) {
    var name := Strip(raw);
    if name == "Эконом" then Some(Economy)
    else if name == "Стандарт" then Some(Standard)
    else if name == "Премиум" then Some(Premium)
    else None
  }

  function SegmentOrStandard(raw: string): (segment: PriceSegment) {
    var named := SegmentNamed(raw);
    if named.Some? then named.value else Standard
  }

  /** `_mock_classify`: words in the lower-cased name first, then the price. `lower` stands for `str.lower`. */
  function MockSegment(lower: string -> string, p: Product): (segment: PriceSegment) {
    var name := lower(p.name);
    if Contains(name, "budget") || Contains(name, "econom") || Contains(name, "дешев") then Economy
    else if Contains(name, "flagship") || Contains(name, "pro") || Contains(name, "premium")
        || Contains(name, "премиум")
      then Premium
    else if p.price < 15_000.0 then Economy
    else if p.price > 60_000.0 then Premium
    else Standard
  }

  /** Who classifies: the mock, or a model whose k-th answer is `replies(k)`. */
  datatype Llm = Mock(lower: string -> string) | Answers(replies: nat -> Reply)

  // ---------- One batch ----------

  type Naming = string -> PriceSegment

  /** One more object: the last word on each expected id counts. */
  function WithItem(named: Naming, labels: Segments, item: Item, expected: set<string>): (after: Segments)
    requires item.Item?
  {
    if item.id in expected then labels[item.id := named(item.segment)] else labels
  }

  /** The labels once the items are read, starting from some; `None` is an error on the way. */
  function ReadOn(named: Naming, labels: Segments, items: seq<Item>, expected: set<string>): (after: Option<Segments>)
    decreases |items|
  {
    if items == [] then Some(labels)
    else if items[0].NotAnObject? then None
    else ReadOn(named, WithItem(named, labels, items[0], expected), items[1..], expected)
  }

  /** What the items say about the expected ids. */
  function Labels(items: seq<Item>, expected: set<string>): (labels: Option<Segments>) {
    ReadOn(SegmentOrStandard, map[], items, expected)
  }

  function FillIn(labels: Segments, expected: set<string>): (segments: Segments)
    ensures segments.Keys == expected
  {
    map id | id in expected :: if id in labels then labels[id] else Standard
  }

  /** The segments of one batch: the model's, or Standard for all of it when the answer is no use. */
  function BatchSegments(batch: seq<Product>, reply: Reply): (segments: Segments)
    ensures segments.Keys == Ids(batch)
  {
    var labels := if reply.Items? then Labels(reply.items, Ids(batch)) else None;
    FillIn(if labels.Some? then labels.value else map[], Ids(batch))
  }

  /** One item that is no object spoils the answer, and nothing else does. */
  lemma {:induction false} OnlyBadItemsSpoil(named: Naming, labels: Segments, items: seq<Item>, expected: set<string>)
    ensures ReadOn(named, labels, items, expected).None? <==> NotAnObject in items
    decreases |items|
  {
    if items == [] {
    } else {
      assert items == [items[0]] + items[1..];
      if items[0].Item? {
        OnlyBadItemsSpoil(named, WithItem(named, labels, items[0], expected), items[1..], expected);
      }
    }
  }

  lemma {:induction false} ReadsExpectedOnly(named: Naming, labels: Segments, items: seq<Item>, expected: set<string>)
    requires labels.Keys <= expected
    ensures ReadOn(named, labels, items, expected).Some? ==>
      ReadOn(named, labels, items, expected).value.Keys <= expected
    decreases |items|
  {
    if items != [] && items[0].Item? {
      ReadsExpectedOnly(named, WithItem(named, labels, items[0], expected), items[1..], expected);
    }
  }

  ghost predicate Unmentioned(items: seq<Item>, id: string) {
    forall i :: 0 <= i < |items| ==> items[i].NotAnObject? || items[i].id != id
  }

  /** The last item that speaks of the id. */
  ghost predicate IsLastMention(items: seq<Item>, id: string, i: nat) {
    i < |items| && items[i].Item? && items[i].id == id && Unmentioned(items[i + 1..], id)
  }

  /** An id that no item speaks of keeps the label it had, or none. */
  lemma {:induction false} UnmentionedKeepsLabel(named: Naming, labels: Segments, items: seq<Item>,
                                                 expected: set<string>, id: string)
    requires Unmentioned(items, id) && ReadOn(named, labels, items, expected).Some?
    ensures var after := ReadOn(named, labels, items, expected).value;
            (id in after <==> id in labels) && (id in labels ==> after[id] == labels[id])
    decreases |items|
  {
    if items == [] {
    } else {
      UnmentionedKeepsLabel(named, WithItem(named, labels, items[0], expected), items[1..], expected, id);
    }
  }

  /** An id that no item speaks of has no label. */
  lemma UnmentionedIsUnlabelled(items: seq<Item>, expected: set<string>, id: string)
    requires Unmentioned(items, id) && Labels(items, expected).Some?
    ensures id !in Labels(items, expected).value
  {
    UnmentionedKeepsLabel(SegmentOrStandard, map[], items, expected, id);
  }

  lemma {:induction false} LastMentionCounts(named: Naming, labels: Segments, items: seq<Item>, expected: set<string>,
                                             id: string, i: nat)
    requires id in expected && IsLastMention(items, id, i) && ReadOn(named, labels, items, expected).Some?
    ensures var after := ReadOn(named, labels, items, expected).value;
            id in after && after[id] == named(items[i].segment)
    decreases |items|
  {
    var first := WithItem(named, labels, items[0], expected);
    if i == 0 {
      UnmentionedKeepsLabel(named, first, items[1..], expected, id);
    } else {
      assert items[1..][i..] == items[i + 1..];
      LastMentionCounts(named, first, items[1..], expected, id, i - 1);
    }
  }

  lemma NamesMeanSegments(raw: string)
    ensures SegmentOrStandard(raw) == Economy <==> Strip(raw) == "Эконом"
    ensures SegmentOrStandard(raw) == Premium <==> Strip(raw) == "Премиум"
    ensures SegmentOrStandard(raw) == Standard <==> Strip(raw) != "Эконом" && Strip(raw) != "Премиум"
  {
  }

  /** The last item that speaks of an expected id decides its label: by the names of the segments, else Standard. */
  lemma LastMentionDecides(items: seq<Item>, expected: set<string>, id: string, i: nat)
    requires id in expected && IsLastMention(items, id, i) && Labels(items, expected).Some?
    ensures id in Labels(items, expected).value
    ensures var given, said := Labels(items, expected).value[id], Strip(items[i].segment);
            && (given == Economy <==> said == "Эконом")
            && (given == Premium <==> said == "Премиум")
            && (given == Standard <==> said != "Эконом" && said != "Премиум")
  {
    LastMentionCounts(SegmentOrStandard, map[], items, expected, id, i);
    NamesMeanSegments(items[i].segment);
  }

  /** What the labels of one answer are, id by id, once those it leaves out are filled in. */
  lemma ParsedAsSaid(items: seq<Item>, expected: set<string>)
    ensures Labels(items, expected).None? <==> NotAnObject in items
    ensures var labels := Labels(items, expected);
            labels.Some? ==>
              var filled := FillIn(labels.value, expected);
              && (forall id :: id in expected && Unmentioned(items, id) ==> filled[id] == Standard)
              && forall id, i: nat :: id in expected && IsLastMention(items, id, i) ==>
                   && (filled[id] == Economy <==> Strip(items[i].segment) == "Эконом")
                   && (filled[id] == Premium <==> Strip(items[i].segment) == "Премиум")
                   && (filled[id] == Standard <==>
                         Strip(items[i].segment) != "Эконом" && Strip(items[i].segment) != "Премиум")
  {
    OnlyBadItemsSpoil(SegmentOrStandard, map[], items, expected);
    if Labels(items, expected).Some? {
      forall id | id in expected && Unmentioned(items, id)
        ensures id !in Labels(items, expected).value
      {
        UnmentionedIsUnlabelled(items, expected, id);
      }
      forall id, i: nat | id in expected && IsLastMention(items, id, i)
        ensures id in Labels(items, expected).value
             && (Labels(items, expected).value[id] == Economy <==> Strip(items[i].segment) == "Эконом")
             && (Labels(items, expected).value[id] == Premium <==> Strip(items[i].segment) == "Премиум")
      {
        LastMentionDecides(items, expected, id, i);
      }
    }
  }

  /** The body of the loop over the items, once the item is known to be an object. */
  method ReadItem(named: Naming, labels: Segments, item: Item, expected: set<string>) returns (after: Segments)
    requires item.Item?
    ensures after == WithItem(named, labels, item, expected)
  {
    if item.id !in expected {
      return labels;
    }
    return labels[item.id := named(item.segment)];
  }

  /** The loop over the items; one that is no object is an error. */
  method ReadItems(named: Naming, items: seq<Item>, expected: set<string>) returns (result: Option<Segments>)
    ensures result == ReadOn(named, map[], items, expected)
  {
    var labels: Segments := map[];
    var i := 0;
    while i < |items|
      invariant 0 <= i <= |items|
      invariant ReadOn(named, map[], items, expected) == ReadOn(named, labels, items[i..], expected)
    {
      assert items[i..][1..] == items[i + 1..];
      if items[i].NotAnObject? {
        return None;
      }
      labels := ReadItem(named, labels, items[i], expected);
      i := i + 1;
    }
    return Some(labels);
  }

  method ParseSegments(items: seq<Item>, expected: set<string>) returns (result: Option<Segments>)
    ensures var labels := Labels(items, expected);
            result == if labels.Some? then Some(FillIn(labels.value, expected)) else None
    ensures result.None? <==> NotAnObject in items
    ensures result.Some? ==> result.value.Keys == expected
    ensures result.Some? ==> forall id :: id in expected && Unmentioned(items, id) ==> result.value[id] == Standard
    ensures result.Some? ==> forall id, i: nat :: id in expected && IsLastMention(items, id, i) ==>
      && (result.value[id] == Economy <==> Strip(items[i].segment) == "Эконом")
      && (result.value[id] == Premium <==> Strip(items[i].segment) == "Премиум")
      && (result.value[id] == Standard <==>
            Strip(items[i].segment) != "Эконом" && Strip(items[i].segment) != "Премиум")
  {
    ParsedAsSaid(items, expected);
    var labels := ReadItems(SegmentOrStandard, items, expected);
    if labels.None? {
      return None;
    }
    ReadsExpectedOnly(SegmentOrStandard, map[], items, expected);
    var filled := FillMissing(labels.value, expected);
    return Some(filled);
  }

  /** The ids the model left out become Standard. */
  method FillMissing(said: Segments, expected: set<string>) returns (labels: Segments)
    requires said.Keys <= expected
    ensures labels == FillIn(said, expected)
  {
    labels := said;
    var missing := expected - labels.Keys;
    while missing != {}
      invariant missing <= expected
      invariant labels.Keys == expected - missing
      invariant said.Keys <= labels.Keys
      invariant forall id :: id in labels ==> labels[id] == if id in said then said[id] else Standard
      decreases missing
    {
      var id :| id in missing;
      labels := labels[id := Standard];
      missing := missing - {id};
    }
  }

  method ClassifyBatch(batch: seq<Product>, reply: Reply) returns (segments: Segments)
    ensures segments == BatchSegments(batch, reply)
  {
    if reply.Items? {
      var parsed := ParseSegments(reply.items, Ids(batch));
      if parsed.Some? {
        return parsed.value;
      }
    }
    return map id | id in Ids(batch) :: Standard;
  }

  // ---------- All batches ----------

  /** `_chunk` for a positive size: consecutive batches, the last one possibly shorter. */
  function Chunks(products: seq<Product>, size: nat): (batches: seq<seq<Product>>)
    requires size > 0
  {
    if products == [] then []
    else if |products| <= size then [products]
    else [products[..size]] + Chunks(products[size..], size)
  }

  /** The k-th batch is answered by `replies(k)`; a later batch overrides an earlier one. */
  function Merged(batches: seq<seq<Product>>, replies: nat -> Reply, k: nat): (segments: Segments) {
    if batches == [] then map[]
    else BatchSegments(batches[0], replies(k)) + Merged(batches[1..], replies, k + 1)
  }

  function EnrichOne(p: Product, segments: Segments): (enriched: EnrichedProduct) {
    EnrichedProduct(p, if p.id in segments then segments[p.id] else Standard)
  }

  function Enrich(products: seq<Product>, segments: Segments): (enriched: seq<EnrichedProduct>) {
    seq(|products|, i requires 0 <= i < |products| => EnrichOne(products[i], segments))
  }

  /** Without the mock, `range(0, n, size)` is an error for size 0 and empty for a negative size. */
  function Classified(products: seq<Product>, size: int, llm: Llm): (r: Option<seq<EnrichedProduct>>) {
    if products == [] then Some([])
    else
      match llm
      case Mock(lower) => Some(OneByOne(products, p => MockSegment(lower, p)))
      case Answers(replies) =>
        if size == 0 then None
        else if size < 0 then Some(Enrich(products, map[]))
        else Some(Enrich(products, Merged(Chunks(products, size), replies, 0)))
  }

  function Head(products: seq<Product>, size: nat): (batch: seq<Product>) {
    if |products| <= size then products else products[..size]
  }

  function Tail(products: seq<Product>, size: nat): (rest: seq<Product>) {
    if |products| <= size then [] else products[size..]
  }

  lemma ChunksFromHead(products: seq<Product>, size: nat)
    requires size > 0 && products != []
    ensures Chunks(products, size) == [Head(products, size)] + Chunks(Tail(products, size), size)
  {
  }

  lemma MergedFromHead(batch: seq<Product>, rest: seq<seq<Product>>, replies: nat -> Reply, k: nat, before: Segments)
    ensures before + Merged([batch] + rest, replies, k)
         == (before + BatchSegments(batch, replies(k))) + Merged(rest, replies, k + 1)
  {
  }

  method ClassifyBatches(products: seq<Product>, size: nat, replies: nat -> Reply) returns (segments: Segments)
    requires size > 0
    ensures segments == Merged(Chunks(products, size), replies, 0)
  {
    segments := map[];
    var rest, k := products, 0;
    while rest != []
      invariant Merged(Chunks(products, size), replies, 0) == segments + Merged(Chunks(rest, size), replies, k)
      decreases |rest|
    {
      ChunksFromHead(rest, size);
      MergedFromHead(Head(rest, size), Chunks(Tail(rest, size), size), replies, k, segments);
      var found := ClassifyBatch(Head(rest, size), replies(k));
      segments := segments + found;
      rest := Tail(rest, size);
      k := k + 1;
    }
  }

  method Classify(products: seq<Product>, size: int, llm: Llm) returns (r: Option<seq<EnrichedProduct>>)
    ensures r == Classified(products, size, llm)
    ensures r.Some? ==> |r.value| == |products| && forall i :: 0 <= i < |products| ==> r.value[i].product == products[i]
    ensures r.None? <==> products != [] && llm.Answers? && size == 0
    ensures llm.Answers? && size < 0 ==> forall i :: 0 <= i < |products| ==> r.value[i].segment == Standard
  {
    if products == [] {
      return Some([]);
    }
    if llm.Mock? {
      return Some(OneByOne(products, p => MockSegment(llm.lower, p)));
    }
    if size == 0 {
      return None;
    }
    var segments: Segments := map[];
    if size > 0 {
      segments := ClassifyBatches(products, size, llm.replies);
    }
    return Some(Enrich(products, segments));
  }

  // ---------- What batching means ----------

  function Flatten(batches: seq<seq<Product>>): (products: seq<Product>) {
    if batches == [] then [] else batches[0] + Flatten(batches[1..])
  }

  lemma {:induction false} ChunksCover(products: seq<Product>, size: nat)
    requires size > 0
    ensures Flatten(Chunks(products, size)) == products
    ensures forall k :: 0 <= k < |Chunks(products, size)| ==> 0 < |Chunks(products, size)[k]| <= size
    ensures forall k :: 0 <= k < |Chunks(products, size)| - 1 ==> |Chunks(products, size)[k]| == size
    decreases |products|
  {
    if |products| > size {
      ChunksCover(products[size..], size);
      assert products[..size] + products[size..] == products;
    }
  }

  lemma {:induction false} MergedKeys(batches: seq<seq<Product>>, replies: nat -> Reply, k: nat)
    ensures Merged(batches, replies, k).Keys == Ids(Flatten(batches))
    decreases |batches|
  {
    if batches == [] {
    } else {
      MergedKeys(batches[1..], replies, k + 1);
      IdsAppend(batches[0], Flatten(batches[1..]));
    }
  }

  lemma {:induction false} InSomeBatch(batches: seq<seq<Product>>, id: string)
    ensures id in Ids(Flatten(batches)) <==> exists j :: 0 <= j < |batches| && id in Ids(batches[j])
  {
    if batches == [] {
    } else {
      InSomeBatch(batches[1..], id);
      IdsAppend(batches[0], Flatten(batches[1..]));
      if exists j :: 0 <= j < |batches| && id in Ids(batches[j]) {
        var j :| 0 <= j < |batches| && id in Ids(batches[j]);
        assert j > 0 ==> batches[1..][j - 1] == batches[j];
      }
      if j :| 0 <= j < |batches[1..]| && id in Ids(batches[1..][j]) {
        assert batches[j + 1] == batches[1..][j];
      }
    }
  }

  ghost predicate IsLastWith(batches: seq<seq<Product>>, id: string, j: nat) {
    j < |batches| && id in Ids(batches[j]) && forall m :: j < m < |batches| ==> id !in Ids(batches[m])
  }

  lemma MergedLookUp(batches: seq<seq<Product>>, replies: nat -> Reply, k: nat, id: string)
    requires batches != [] && (id in Ids(batches[0]) || id in Merged(batches[1..], replies, k + 1))
    ensures id in Merged(batches, replies, k)
    ensures Merged(batches, replies, k)[id]
         == if id in Merged(batches[1..], replies, k + 1) then Merged(batches[1..], replies, k + 1)[id]
            else BatchSegments(batches[0], replies(k))[id]
  {
  }

  lemma LastInTail(batches: seq<seq<Product>>, id: string, j: nat)
    requires IsLastWith(batches, id, j)
    ensures j > 0 ==> IsLastWith(batches[1..], id, j - 1)
    ensures j == 0 ==> id !in Ids(Flatten(batches[1..]))
  {
    InSomeBatch(batches[1..], id);
  }

  /** An id that no later batch holds has the segment of the first. */
  lemma FirstBatchDecides(batches: seq<seq<Product>>, replies: nat -> Reply, k: nat, id: string)
    requires IsLastWith(batches, id, 0)
    ensures id in Merged(batches, replies, k)
    ensures Merged(batches, replies, k)[id] == BatchSegments(batches[0], replies(k))[id]
  {
    LastInTail(batches, id, 0);
    MergedKeys(batches[1..], replies, k + 1);
    MergedLookUp(batches, replies, k, id);
  }

  /** Even when ids repeat: the last batch that holds an id decides its segment. */
  lemma {:induction false} LastBatchDecides(batches: seq<seq<Product>>, replies: nat -> Reply, k: nat, id: string,
                                            j: nat)
    requires IsLastWith(batches, id, j)
    ensures id in Merged(batches, replies, k)
    ensures Merged(batches, replies, k)[id] == BatchSegments(batches[j], replies(k + j))[id]
    decreases |batches|
  {
    if j == 0 {
      FirstBatchDecides(batches, replies, k, id);
    } else {
      LastInTail(batches, id, j);
      LastBatchDecides(batches[1..], replies, k + 1, id, j - 1);
      MergedLookUp(batches, replies, k, id);
    }
  }

  /** Each batch enriched from its own answer alone, one after the other. */
  function BatchByBatch(batches: seq<seq<Product>>, replies: nat -> Reply, k: nat): (enriched: seq<EnrichedProduct>) {
    if batches == [] then []
    else Enrich(batches[0], BatchSegments(batches[0], replies(k))) + BatchByBatch(batches[1..], replies, k + 1)
  }

  lemma EnrichAppend(a: seq<Product>, b: seq<Product>, segments: Segments)
    ensures Enrich(a + b, segments) == Enrich(a, segments) + Enrich(b, segments)
  {
  }

  lemma EnrichAgrees(products: seq<Product>, a: Segments, b: Segments)
    requires forall i :: 0 <= i < |products| ==>
      products[i].id in a && products[i].id in b && a[products[i].id] == b[products[i].id]
    ensures Enrich(products, a) == Enrich(products, b)
  {
  }

  /** With distinct ids no batch's answer touches another batch's products. */
  lemma {:induction false} MergedIsBatchByBatch(batches: seq<seq<Product>>, replies: nat -> Reply, k: nat)
    requires UniqueIds(Flatten(batches))
    ensures Enrich(Flatten(batches), Merged(batches, replies, k)) == BatchByBatch(batches, replies, k)
    decreases |batches|
  {
    if batches == [] {
    } else {
      var first, rest := batches[0], Flatten(batches[1..]);
      var own, later := BatchSegments(first, replies(k)), Merged(batches[1..], replies, k + 1);
      var merged := Merged(batches, replies, k);
      UniqueParts(first, rest);
      MergedIsBatchByBatch(batches[1..], replies, k + 1);
      MergedKeys(batches[1..], replies, k + 1);
      EnrichAppend(first, rest, merged);
      forall i | 0 <= i < |first|
        ensures first[i].id in merged && first[i].id in own && merged[first[i].id] == own[first[i].id]
      {
        IdsAreThose(first, first[i].id);
      }
      EnrichAgrees(first, merged, own);
      forall i | 0 <= i < |rest|
        ensures rest[i].id in merged && rest[i].id in later && merged[rest[i].id] == later[rest[i].id]
      {
        IdsAreThose(rest, rest[i].id);
      }
      EnrichAgrees(rest, merged, later);
    }
  }

  lemma UniqueParts(a: seq<Product>, b: seq<Product>)
    requires UniqueIds(a + b)
    ensures UniqueIds(b) && Ids(a) !! Ids(b)
  {
    forall i, j | 0 <= i < j < |b|
      ensures b[i].id != b[j].id
    {
      assert (a + b)[|a| + i] == b[i] && (a + b)[|a| + j] == b[j];
    }
    forall id | id in Ids(a) && id in Ids(b)
      ensures false
    {
      IdsAreThose(a, id);
      IdsAreThose(b, id);
      var i :| 0 <= i < |a| && a[i].id == id;
      var j :| 0 <= j < |b| && b[j].id == id;
      SameIdTwice(a, b, i, j);
    }
  }

  lemma SameIdTwice(a: seq<Product>, b: seq<Product>, i: nat, j: nat)
    requires i < |a| && j < |b| && a[i].id == b[j].id
    ensures !UniqueIds(a + b)
  {
    assert (a + b)[i].id == (a + b)[|a| + j].id;
  }

  /** With distinct ids the result is the batches' own results in order, for every batch size of at least 1. */
  lemma ClassifiedIsBatchByBatch(products: seq<Product>, size: nat, replies: nat -> Reply)
    requires size > 0 && UniqueIds(products)
    ensures Classified(products, size, Answers(replies)) == Some(BatchByBatch(Chunks(products, size), replies, 0))
  {
    ChunksCover(products, size);
    MergedIsBatchByBatch(Chunks(products, size), replies, 0);
  }

  /** A batch whose answer is no use is Standard throughout, whatever usable part the answer had. */
  lemma UselessAnswerGivesStandard(batch: seq<Product>, reply: Reply, i: nat)
    requires i < |batch| && (reply.Unusable? || NotAnObject in reply.items)
    ensures Enrich(batch, BatchSegments(batch, reply))[i] == EnrichedProduct(batch[i], Standard)
  {
    if reply.Items? {
      OnlyBadItemsSpoil(SegmentOrStandard, map[], reply.items, Ids(batch));
    }
  }

  // ---------- The segment of each product ----------

  /** With a model, a product has the segment that the last batch with its id gives it. */
  lemma ClassifiedByLastBatch(products: seq<Product>, size: nat, replies: nat -> Reply, n: nat, j: nat)
    requires size > 0 && n < |products| && IsLastWith(Chunks(products, size), products[n].id, j)
    ensures var r, batch := Classified(products, size, Answers(replies)), Chunks(products, size)[j];
            && r.Some? && |r.value| == |products|
            && r.value[n] == EnrichedProduct(products[n], BatchSegments(batch, replies(j))[products[n].id])
  {
    LastBatchDecides(Chunks(products, size), replies, 0, products[n].id, j);
  }

  /** The last word of the last answer to a batch with the product's id names its segment; else it is Standard. */
  lemma ClassifiedAsSaid(products: seq<Product>, size: nat, replies: nat -> Reply, n: nat, j: nat, i: nat)
    requires size > 0 && n < |products| && IsLastWith(Chunks(products, size), products[n].id, j)
    requires replies(j).Items? && NotAnObject !in replies(j).items
    requires IsLastMention(replies(j).items, products[n].id, i)
    ensures var r, said := Classified(products, size, Answers(replies)), Strip(replies(j).items[i].segment);
            && r.Some? && |r.value| == |products| && r.value[n].product == products[n]
            && (r.value[n].segment == Economy <==> said == "Эконом")
            && (r.value[n].segment == Premium <==> said == "Премиум")
            && (r.value[n].segment == Standard <==> said != "Эконом" && said != "Премиум")
  {
    ClassifiedByLastBatch(products, size, replies, n, j);
    ParsedAsSaid(replies(j).items, Ids(Chunks(products, size)[j]));
  }

  lemma {:induction false} LastMentionOf(items: seq<Item>, id: string) returns (i: nat)
    requires !Unmentioned(items, id)
    ensures IsLastMention(items, id, i)
    decreases |items|
  {
    if Unmentioned(items[1..], id) {
      i := 0;
    } else {
      i := LastMentionOf(items[1..], id);
      assert items[1..][i + 1..] == items[i + 2..];
      i := i + 1;
    }
  }

  lemma {:induction false} LastBatchOf(batches: seq<seq<Product>>, id: string) returns (j: nat)
    requires id in Ids(Flatten(batches))
    ensures IsLastWith(batches, id, j)
    decreases |batches|
  {
    IdsAppend(batches[0], Flatten(batches[1..]));
    if id in Ids(Flatten(batches[1..])) {
      j := LastBatchOf(batches[1..], id);
      forall m | j + 1 < m < |batches|
        ensures id !in Ids(batches[m])
      {
        assert batches[m] == batches[1..][m - 1];
      }
      j := j + 1;
    } else {
      j := 0;
      InSomeBatch(batches[1..], id);
      forall m | 0 < m < |batches|
        ensures id !in Ids(batches[m])
      {
        assert batches[m] == batches[1..][m - 1];
      }
    }
  }

  /** Every product is in some last batch with its id, and an answer that speaks of it does so a last time. */
  lemma EveryProductIsDecided(products: seq<Product>, size: nat, items: seq<Item>, n: nat) returns (j: nat, i: nat)
    requires size > 0 && n < |products|
    ensures IsLastWith(Chunks(products, size), products[n].id, j)
    ensures Unmentioned(items, products[n].id) || IsLastMention(items, products[n].id, i)
  {
    IdsAreThose(products, products[n].id);
    ChunksCover(products, size);
    j := LastBatchOf(Chunks(products, size), products[n].id);
    i := 0;
    if !Unmentioned(items, products[n].id) {
      i := LastMentionOf(items, products[n].id);
    }
  }

  /** No answer, one with an element that is no object, or one that leaves the product out: it is Standard. */
  lemma ClassifiedStandard(products: seq<Product>, size: nat, replies: nat -> Reply, n: nat, j: nat)
    requires size > 0 && n < |products| && IsLastWith(Chunks(products, size), products[n].id, j)
    requires replies(j).Unusable? || NotAnObject in replies(j).items || Unmentioned(replies(j).items, products[n].id)
    ensures var r := Classified(products, size, Answers(replies));
            r.Some? && |r.value| == |products| && r.value[n] == EnrichedProduct(products[n], Standard)
  {
    ClassifiedByLastBatch(products, size, replies, n, j);
    if replies(j).Items? {
      ParsedAsSaid(replies(j).items, Ids(Chunks(products, size)[j]));
    }
  }

  /** With the mock the lower-cased name decides, and where it holds none of the words, the price. */
  lemma MockedByNameOrPrice(products: seq<Product>, size: int, lower: string -> string, n: nat)
    requires n < |products|
    ensures var r, name, price := Classified(products, size, Mock(lower)), lower(products[n].name), products[n].price;
            var cheap := Contains(name, "budget") || Contains(name, "econom") || Contains(name, "дешев");
            var dear := Contains(name, "flagship") || Contains(name, "pro") || Contains(name, "premium")
                        || Contains(name, "премиум");
            && r.Some? && |r.value| == |products| && r.value[n].product == products[n]
            && (r.value[n].segment == Economy <==> cheap || (!dear && price < 15_000.0))
            && (r.value[n].segment == Premium <==> !cheap && (dear || price > 60_000.0))
            && (r.value[n].segment == Standard <==> !cheap && !dear && 15_000.0 <= price <= 60_000.0)
  {
  }

  // ---------- A model that judges each product by itself ----------

  /** The answer is readable and its last word on each product of the batch is the judge's. */
  ghost predicate Honest(batch: seq<Product>, reply: Reply, judge: Product -> PriceSegment) {
    && reply.Items?
    && var labels := Labels(reply.items, Ids(batch));
       labels.Some? && forall p :: p in batch ==> p.id in labels.value && labels.value[p.id] == judge(p)
  }

  function OneByOne(products: seq<Product>, judge: Product -> PriceSegment): (enriched: seq<EnrichedProduct>) {
    seq(|products|, i requires 0 <= i < |products| => EnrichedProduct(products[i], judge(products[i])))
  }

  lemma OneByOneAppend(a: seq<Product>, b: seq<Product>, judge: Product -> PriceSegment)
    ensures OneByOne(a + b, judge) == OneByOne(a, judge) + OneByOne(b, judge)
  {
  }

  lemma JudgedBatch(batch: seq<Product>, reply: Reply, judge: Product -> PriceSegment)
    requires Honest(batch, reply, judge)
    ensures Enrich(batch, BatchSegments(batch, reply)) == OneByOne(batch, judge)
  {
    forall i | 0 <= i < |batch|
      ensures EnrichOne(batch[i], BatchSegments(batch, reply)) == EnrichedProduct(batch[i], judge(batch[i]))
    {
      assert batch[i] in batch;
      IdsAreThose(batch, batch[i].id);
    }
  }

  /** From the k-th answer on, every answer is honest about its batch. */
  ghost predicate AllHonest(batches: seq<seq<Product>>, replies: nat -> Reply, k: nat, judge: Product -> PriceSegment) {
    batches == [] || (Honest(batches[0], replies(k), judge) && AllHonest(batches[1..], replies, k + 1, judge))
  }

  lemma {:induction false} HonestBatches(batches: seq<seq<Product>>, replies: nat -> Reply, k: nat,
                                         judge: Product -> PriceSegment)
    requires AllHonest(batches, replies, k, judge)
    ensures BatchByBatch(batches, replies, k) == OneByOne(Flatten(batches), judge)
    decreases |batches|
  {
    if batches == [] {
    } else {
      HonestBatches(batches[1..], replies, k + 1, judge);
      JudgedBatch(batches[0], replies(k), judge);
      OneByOneAppend(batches[0], Flatten(batches[1..]), judge);
    }
  }

  /** Without failures batching changes nothing: for every batch size the result is one by one. */
  lemma BatchingIsInvisible(products: seq<Product>, size: nat, replies: nat -> Reply, judge: Product -> PriceSegment)
    requires size > 0 && UniqueIds(products) && AllHonest(Chunks(products, size), replies, 0, judge)
    ensures Classified(products, size, Answers(replies)) == Some(OneByOne(products, judge))
  {
    if products != [] {
      ClassifiedIsBatchByBatch(products, size, replies);
      ChunksCover(products, size);
      HonestBatches(Chunks(products, size), replies, 0, judge);
    } else {
      assert OneByOne(products, judge) == [];
    }
  }
}
