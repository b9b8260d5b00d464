/** The product catalog: listing and lookup by id. Lookup is the first-match
    linear search that the order lifecycle and the analytics also use. */
module Catalog {
  import opened Domain
  import Seqs

  /** The `count` and the listed products, as the list endpoint answers. */
  datatype ProductList = ProductList(count: nat, products: seq<Product>)

  /** `products.find(p => p.id === id)`: the position of the first product with
      that id, or None when there is none. */
  function FindProduct(products: seq<Product>, id: int): (r: Option<nat>)
    ensures r.Some? ==> r.value < |products| && products[r.value].id == id
    ensures r.Some? ==> forall j :: 0 <= j < r.value ==> products[j].id != id
    ensures r.None? <==> forall j :: 0 <= j < |products| ==> products[j].id != id
  {
    Seqs.Find(products, (p: Product) => p.id == id)
  }

  /** GET /products: every product, unchanged and in stored order, with its count. */
  function ListProducts(products: seq<Product>): (r: ProductList)
    ensures r.products == products && r.count == |products|
  {
    ProductList(|products|, products)
  }

  /** GET /products/:id: the first product with the requested id, or not-found. */
  function GetProduct(products: seq<Product>, id: int): (r: Result<Product>)
    ensures r.Ok? ==> r.value.id == id
    ensures r.Ok? ==>
      exists k :: 0 <= k < |products| && products[k] == r.value &&
        forall j :: 0 <= j < k ==> products[j].id != id
    ensures r.Err? <==> forall p :: p in products ==> p.id != id
    ensures r.Err? ==> r.error == ProductNotFound
  {
    match FindProduct(products, id)
    case None => Err(ProductNotFound)
    case Some(i) => Ok(products[i])
  }

  /** Lookup reads nothing but the ids: sequences with the same ids position by
      position give the same answer, whatever their stock, price or name. */
  lemma FindProductReadsOnlyIds(a: seq<Product>, b: seq<Product>, id: int)
    requires |a| == |b|
    requires forall j :: 0 <= j < |a| ==> a[j].id == b[j].id
    ensures FindProduct(a, id) == FindProduct(b, id)
  {
  }

  /** With distinct ids, looking up the id of a catalog product finds that very product. */
  lemma FindProductOfMember(products: seq<Product>, k: nat)
    requires UniqueIds(products)
    requires k < |products|
    ensures FindProduct(products, products[k].id) == Some(k)
  {
  }
}
