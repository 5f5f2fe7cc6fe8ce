/** The session's product list: its records, the two seeded products, and
    the id rule `1 + max(existing ids)` used when a product is appended. */
module Catalogue {

  /** The stored price. PHP stores `round((float) $price, 2)`; the float
      conversion is not modelled, so the price is kept as the literal it
      was computed from. */
  datatype Price = Price(literal: string)

  datatype Product = Product(id: int, name: string, description: string,
                             price: Price, category: string)

  /** Ids grow strictly along the list. */
  predicate IdsIncreasing(ps: seq<Product>)
  {
    forall i, j | 0 <= i < j < |ps| :: ps[i].id < ps[j].id
  }

  /** What every product list in a session satisfies: it is not empty (so
      `max` over its ids is defined), its ids are positive and they grow
      strictly from first to last. */
  predicate WellFormed(ps: seq<Product>)
  {
    |ps| > 0 && ps[0].id >= 1 && IdsIncreasing(ps)
  }

  /** The list a session starts with: ids 1 and 2. */
  function Seed(): (ps: seq<Product>)
    ensures WellFormed(ps)
  {
    [ Product(1, "USB-C Cable", "Fast-charging braided cable (1m).", Price("5.50"), "Electronics"),
      Product(2, "Notebook A5", "Lined paper, 100 pages.", Price("2.25"), "Books") ]
  }

  /** PHP `max(array_column($products, 'id'))`. */
  function MaxId(ps: seq<Product>): (m: int)
    requires |ps| > 0
    ensures forall i | 0 <= i < |ps| :: ps[i].id <= m
    ensures exists i | 0 <= i < |ps| :: ps[i].id == m
  {
    if |ps| == 1 then ps[0].id
    else
      var rest := MaxId(ps[1..]);
      if ps[0].id >= rest then ps[0].id else rest
  }

  /** The id given to a new product: larger than every id in the list, and
      exactly one more than the largest of them. */
  function NextId(ps: seq<Product>): (id: int)
    requires |ps| > 0
    ensures forall i | 0 <= i < |ps| :: ps[i].id < id
    ensures exists i | 0 <= i < |ps| :: ps[i].id == id - 1
  {
    1 + MaxId(ps)
  }

  /** In a well-formed list the largest id is the last one's. */
  lemma MaxIdIsLast(ps: seq<Product>)
    requires WellFormed(ps)
    ensures MaxId(ps) == ps[|ps| - 1].id
  {
    var i :| 0 <= i < |ps| && ps[i].id == MaxId(ps);
    if i < |ps| - 1 {
      assert ps[i].id < ps[|ps| - 1].id;
    }
  }

  /** Increasing ids are unique ids. */
  lemma IdsUnique(ps: seq<Product>, i: int, j: int)
    requires IdsIncreasing(ps)
    requires 0 <= i < |ps| && 0 <= j < |ps| && i != j
    ensures ps[i].id != ps[j].id
  {
    if i > j {
      assert ps[j].id < ps[i].id;
    }
  }

  /** `$products[] = $newProduct` with `id = 1 + max(ids)`. */
  function Added(ps: seq<Product>, name: string, description: string,
                 price: string, category: string): (ps': seq<Product>)
    requires |ps| > 0
    ensures |ps'| == |ps| + 1 && ps'[..|ps|] == ps
    ensures ps'[|ps|] == Product(NextId(ps), name, description, Price(price), category)
    ensures forall i | 0 <= i < |ps| :: ps[i].id < ps'[|ps|].id
  {
    ps + [Product(NextId(ps), name, description, Price(price), category)]
  }

  /** Appending a product keeps the list well formed: its id stays above
      every earlier one. */
  lemma AddedWellFormed(ps: seq<Product>, name: string, description: string,
                        price: string, category: string)
    requires WellFormed(ps)
    ensures WellFormed(Added(ps, name, description, price, category))
  {
    var ps' := Added(ps, name, description, price, category);
    forall i, j | 0 <= i < j < |ps'|
      ensures ps'[i].id < ps'[j].id
    {
      if j < |ps| {
        assert ps'[i] == ps[i] && ps'[j] == ps[j];
      } else {
        assert ps'[i] == ps[i];
      }
    }
    assert ps'[0] == ps[0];
  }
}
