/** Products, and products with their price segment. */
module Catalog {

  datatype Product = Product(id: string, name: string, price: real, description: string)

  datatype PriceSegment = Economy | Standard | Premium

  datatype EnrichedProduct = EnrichedProduct(product: Product, segment: PriceSegment)

  function Ids(products: seq<Product>): (ids: set<string>) {
    if products == [] then {} else Ids(products[..|products| - 1]) + {products[|products| - 1].id}
  }

  ghost predicate UniqueIds(products: seq<Product>) {
    forall i, j :: 0 <= i < j < |products| ==> products[i].id != products[j].id
  }

  lemma {:induction false} IdsAreThose(products: seq<Product>, id: string)
    ensures id in Ids(products) <==> exists i :: 0 <= i < |products| && products[i].id == id
  {
    if products == [] {
    } else {
      IdsAreThose(products[..|products| - 1], id);
    }
  }

  lemma IdsSnoc(products: seq<Product>, p: Product)
    ensures Ids(products + [p]) == Ids(products) + {p.id}
  {
  }

  lemma {:induction false} IdsAppend(a: seq<Product>, b: seq<Product>)
    ensures Ids(a + b) == Ids(a) + Ids(b)
  {
    if b == [] {
      assert a + b == a;
    } else {
      IdsAppend(a, b[..|b| - 1]);
      assert a + b == (a + b[..|b| - 1]) + [b[|b| - 1]];
      IdsSnoc(a + b[..|b| - 1], b[|b| - 1]);
    }
  }
}
