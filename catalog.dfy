/** The product catalog: the seed, adding a product from the form, deleting by id. */
module Catalog {
  import opened Types
  import opened Seqs

  /** Image used when the form's image field is left empty. */
  const Placeholder: string := "/placeholder.svg"

  /** The three products shown when nothing is stored yet. */
  const Seed: seq<Product> := [
    Product("1", "Ноутбук Gaming Pro", 89990, "Ноутбуки", Placeholder),
    Product("2", "Смартфон Ultra X", 54990, "Смартфоны", Placeholder),
    Product("3", "Наушники AirMax", 12990, "Аксессуары", Placeholder)
  ]

  /** The add-product form as typed: every field is text. */
  datatype Draft = Draft(name: string, price: string, category: string, image: string)

  function IdOf(p: Product): string {
    p.id
  }

  function Ids(products: seq<Product>): seq<string> {
    Map(products, IdOf)
  }

  predicate HasId(products: seq<Product>, id: string) {
    HasKey(products, IdOf, id)
  }

  /** The catalog invariant: no two products share an id. */
  ghost predicate UniqueIds(products: seq<Product>) {
    UniqueBy(products, IdOf)
  }

  /** Name, price text and category must all be non-empty strings. */
  predicate Complete(d: Draft) {
    d.name != "" && d.price != "" && d.category != ""
  }

  /**
   * Adding a product: an incomplete form leaves the catalog as it is; otherwise one
   * product built from the form is appended. `id` stands for the timestamp id and
   * `price` for the parsed price text, both supplied by the caller.
   */
  function AddProduct(products: seq<Product>, d: Draft, id: string, price: int): (r: seq<Product>)
    ensures !Complete(d) ==> r == products
    ensures Complete(d) ==> |r| == |products| + 1 && r[..|products|] == products
    ensures Complete(d) ==> r[|products|] == Product(id, d.name, price, d.category,
                                                     if d.image == "" then Placeholder else d.image)
  {
    if !Complete(d) then products
    else products + [Product(id, d.name, price, d.category, if d.image == "" then Placeholder else d.image)]
  }

  /** Deleting a product: keep every product whose id differs. */
  function DeleteProduct(products: seq<Product>, id: string): (r: seq<Product>)
    ensures !HasId(r, id)
    ensures forall k :: 0 <= k < |products| && products[k].id != id ==> products[k] in r
    ensures forall k :: 0 <= k < |r| ==> r[k] in products
  {
    RemoveKey(products, IdOf, id)
  }

  /** Deleting an id that is not in the catalog changes nothing. */
  lemma DeleteAbsent(products: seq<Product>, id: string)
    requires !HasId(products, id)
    ensures DeleteProduct(products, id) == products
  {
    RemoveKeyAbsent(products, IdOf, id);
  }

  /** Deleting twice is deleting once. */
  lemma DeleteIdempotent(products: seq<Product>, id: string)
    ensures DeleteProduct(DeleteProduct(products, id), id) == DeleteProduct(products, id)
  {
    RemoveKeyIdempotent(products, IdOf, id);
  }

  /** The survivors of a delete keep their relative order. */
  lemma DeleteKeepsOrder(a: seq<Product>, b: seq<Product>, id: string)
    ensures DeleteProduct(a + b, id) == DeleteProduct(a, id) + DeleteProduct(b, id)
  {
    RemoveKeyConcat(a, b, IdOf, id);
  }

  /** Deleting keeps the catalog's ids distinct. */
  lemma DeletePreservesUnique(products: seq<Product>, id: string)
    requires UniqueIds(products)
    ensures UniqueIds(DeleteProduct(products, id))
  {
    RemoveKeyUnique(products, IdOf, id);
  }

  /** A product added under a fresh id keeps the catalog's ids distinct. */
  lemma AddPreservesUnique(products: seq<Product>, d: Draft, id: string, price: int)
    requires UniqueIds(products)
    requires !HasId(products, id)
    ensures UniqueIds(AddProduct(products, d, id, price))
  {
  }

  /** Deleting the id that was just added under a fresh id restores the catalog. */
  lemma DeleteUndoesAdd(products: seq<Product>, d: Draft, id: string, price: int)
    requires !HasId(products, id)
    ensures DeleteProduct(AddProduct(products, d, id, price), id) == products
  {
    DeleteAbsent(products, id);
    if Complete(d) {
      var p := AddProduct(products, d, id, price)[|products|];
      assert AddProduct(products, d, id, price) == products + [p];
      RemoveKeyUndoesAppend(products, p, IdOf);
    }
  }

  /** Deleting id "2" from the seed leaves "1" and "3", in that order. */
  lemma DeleteFromSeed()
    ensures Ids(DeleteProduct(Seed, "2")) == ["1", "3"]
    ensures DeleteProduct(Seed, "2") == [Seed[0], Seed[2]]
  {
    var keep := OtherKey(IdOf, "2");
    assert IdOf(Seed[0]) == "1" && IdOf(Seed[1]) == "2" && IdOf(Seed[2]) == "3";
    assert "1"[0] != "2"[0] && "3"[0] != "2"[0];
    assert keep(Seed[0]) && !keep(Seed[1]) && keep(Seed[2]);
    assert Seed[1..][1..] == [Seed[2]];
    assert Filter([Seed[2]], keep) == [Seed[2]];
    assert Filter(Seed[1..], keep) == [Seed[2]];
    assert Filter(Seed, keep) == [Seed[0]] + [Seed[2]];
  }
}
