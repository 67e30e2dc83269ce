/** The records of the inventory: products, batches (lots), movements and
    contacts, the derived stock total of a product, and what deleting a
    product, a client or a supplier does to the records that refer to it. */
module Models {

  /** Primary key of a record. */
  type Id = nat

  /** A calendar date, as a day number. */
  type Day = int

  datatype Option<T> = None | Some(value: T)

  /** The kind of a movement: inbound (ENTRADA) or outbound (SALIDA). */
  datatype Kind = Entrada | Salida

  /** A product of one owner; `price` is the unit price in cents and
      `minStock` the threshold below which the dashboard raises an alert. */
  datatype Product = Product(owner: Id, name: string, price: int, minStock: int)

  /** The `stock_minimo` of a product created without one. */
  const DefaultMinStock: int := 5

  /** A client or a supplier of one owner. */
  datatype Contact = Contact(owner: Id, name: string, taxId: Option<string>, phone: Option<string>)

  /** A batch of one product: lot code, optional expiration date and a
      quantity that is never negative. */
  datatype Lot = Lot(product: Id, code: string, expires: Option<Day>, quantity: nat)

  /** One entry of the movement log. `supplier` and `client` are nullable
      references: deleting the contact clears them. */
  datatype Movement = Movement(id: Id, product: Id, kind: Kind, quantity: nat, detail: string,
                               supplier: Option<Id>, client: Option<Id>)

  /** A batch created without a quantity holds none. */
  function NewLot(product: Id, code: string, expires: Option<Day>): (l: Lot)
    ensures l.quantity == 0
    ensures l.product == product && l.code == code && l.expires == expires
  {
    Lot(product, code, expires, 0)
  }

  predicate Distinct<T(==)>(s: seq<T>)
  {
    forall k, m :: 0 <= k < m < |s| ==> s[k] != s[m]
  }

  /** Batch `l` has the key (product `p`, lot code `code`). */
  predicate HasKey(l: Lot, p: Id, code: string)
  {
    l.product == p && l.code == code
  }

  /** Two batches of the same product with the same lot code. */
  predicate SameKey(a: Lot, b: Lot)
  {
    a.product == b.product && a.code == b.code
  }

  /** (product, lot code) identifies at most one batch. */
  predicate UniqueLots(lots: seq<Lot>)
  {
    forall i, j :: 0 <= i < j < |lots| ==> !SameKey(lots[i], lots[j])
  }

  /** No two movements share an id (the primary key of the log). */
  predicate DistinctIds(movements: seq<Movement>)
  {
    forall i, j :: 0 <= i < j < |movements| ==> movements[i].id != movements[j].id
  }

  // ---------------------------------------------------------------------
  // stock_total
  // ---------------------------------------------------------------------

  /** `stock_total` of product `p`: the sum of the quantities of its batches. */
  function StockOf(lots: seq<Lot>, p: Id): (n: nat)
    ensures (forall i :: 0 <= i < |lots| ==> lots[i].product != p) ==> n == 0
  {
    if lots == [] then 0
    else (if lots[0].product == p then lots[0].quantity else 0) + StockOf(lots[1..], p)
  }

  /** The stock total is 0 exactly when every batch of the product is empty
      (in particular when it has no batch at all). */
  lemma {:induction false} StockOfZero(lots: seq<Lot>, p: Id)
    ensures StockOf(lots, p) == 0 <==>
            forall i :: 0 <= i < |lots| && lots[i].product == p ==> lots[i].quantity == 0
  {
    if lots != [] {
      StockOfZero(lots[1..], p);
      assert forall i :: 1 <= i < |lots| ==> lots[1..][i - 1] == lots[i];
    }
  }

  /** A batch holds no more than its product's stock total. */
  lemma {:induction false} StockOfBound(lots: seq<Lot>, j: nat)
    requires j < |lots|
    ensures lots[j].quantity <= StockOf(lots, lots[j].product)
  {
    if j > 0 {
      StockOfBound(lots[1..], j - 1);
    }
  }

  /** Setting the quantity of batch `j` to `q` moves the stock total of its
      product by the difference and leaves every other product's alone. */
  lemma {:induction false} StockOfUpdate(lots: seq<Lot>, j: nat, q: nat, p: Id)
    requires j < |lots|
    ensures StockOf(lots[j := lots[j].(quantity := q)], p) ==
            if lots[j].product == p then StockOf(lots, p) - lots[j].quantity + q
            else StockOf(lots, p)
  {
    var lots' := lots[j := lots[j].(quantity := q)];
    if j > 0 {
      StockOfUpdate(lots[1..], j - 1, q, p);
      assert lots'[1..] == lots[1..][j - 1 := lots[j].(quantity := q)];
    } else {
      assert lots'[1..] == lots[1..];
    }
  }

  /** Appending a batch adds its quantity to its own product's total only. */
  lemma {:induction false} StockOfAppend(lots: seq<Lot>, l: Lot, p: Id)
    ensures StockOf(lots + [l], p) == StockOf(lots, p) + (if l.product == p then l.quantity else 0)
  {
    if lots != [] {
      StockOfAppend(lots[1..], l, p);
      assert (lots + [l])[1..] == lots[1..] + [l];
    }
  }

  // ---------------------------------------------------------------------
  // Delete rules
  // ---------------------------------------------------------------------

  /** Deleting product `p` deletes its batches (on_delete=CASCADE). */
  function DeleteProductLots(lots: seq<Lot>, p: Id): (r: seq<Lot>)
    ensures forall l :: l in r <==> l in lots && l.product != p
    ensures |r| <= |lots|
  {
    if lots == [] then []
    else (if lots[0].product == p then [] else [lots[0]]) + DeleteProductLots(lots[1..], p)
  }

  /** Deleting a product leaves the stock total of every other product as it was. */
  lemma {:induction false} DeleteProductLotsStock(lots: seq<Lot>, p: Id, q: Id)
    requires q != p
    ensures StockOf(DeleteProductLots(lots, p), q) == StockOf(lots, q)
  {
    if lots != [] {
      DeleteProductLotsStock(lots[1..], p, q);
      var rest := DeleteProductLots(lots[1..], p);
      if lots[0].product != p {
        assert ([lots[0]] + rest)[1..] == rest;
      } else {
        assert [] + rest == rest;
      }
    }
  }

  /** Deleting a product keeps (product, lot code) unique among the remaining batches. */
  lemma {:induction false} DeleteProductLotsUnique(lots: seq<Lot>, p: Id)
    requires UniqueLots(lots)
    ensures UniqueLots(DeleteProductLots(lots, p))
  {
    if lots != [] {
      assert UniqueLots(lots[1..]) by {
        forall i, j | 0 <= i < j < |lots[1..]| ensures !SameKey(lots[1..][i], lots[1..][j]) {
          assert lots[1..][i] == lots[i + 1] && lots[1..][j] == lots[j + 1];
        }
      }
      DeleteProductLotsUnique(lots[1..], p);
      var rest := DeleteProductLots(lots[1..], p);
      if lots[0].product != p {
        var r := [lots[0]] + rest;
        forall i, j | 0 <= i < j < |r| ensures !SameKey(r[i], r[j]) {
          if i == 0 {
            assert r[j] == rest[j - 1];
            assert r[j] in lots[1..];
            var m :| 0 <= m < |lots[1..]| && lots[1..][m] == r[j];
            assert lots[m + 1] == r[j];
          } else {
            assert r[i] == rest[i - 1] && r[j] == rest[j - 1];
          }
        }
      }
    }
  }

  /** Deleting product `p` deletes its movements (on_delete=CASCADE). */
  function DeleteProductMovements(movements: seq<Movement>, p: Id): (r: seq<Movement>)
    ensures forall m :: m in r <==> m in movements && m.product != p
    ensures |r| <= |movements|
  {
    if movements == [] then []
    else (if movements[0].product == p then [] else [movements[0]])
         + DeleteProductMovements(movements[1..], p)
  }

  /** A movement whose id is above every id of the log keeps the ids distinct
      when it is appended. */
  lemma AppendFreshId(movements: seq<Movement>, m: Movement)
    requires DistinctIds(movements)
    requires forall x :: x in movements ==> x.id < m.id
    ensures DistinctIds(movements + [m])
  {
    var r := movements + [m];
    forall i, j | 0 <= i < j < |r| ensures r[i].id != r[j].id {
      assert r[i] == movements[i] && movements[i] in movements;
    }
  }

  /** Deleting a product keeps the ids of the remaining movements distinct. */
  lemma {:induction false} DeleteProductMovementsIds(movements: seq<Movement>, p: Id)
    requires DistinctIds(movements)
    ensures DistinctIds(DeleteProductMovements(movements, p))
  {
    if movements != [] {
      var tail := movements[1..];
      assert DistinctIds(tail) by {
        forall i, j | 0 <= i < j < |tail| ensures tail[i].id != tail[j].id {
          assert tail[i] == movements[i + 1] && tail[j] == movements[j + 1];
        }
      }
      DeleteProductMovementsIds(tail, p);
      var rest := DeleteProductMovements(tail, p);
      if movements[0].product != p {
        var r := [movements[0]] + rest;
        forall i, j | 0 <= i < j < |r| ensures r[i].id != r[j].id {
          if i == 0 {
            assert r[j] == rest[j - 1];
            assert r[j] in tail;
            var m :| 0 <= m < |tail| && tail[m] == r[j];
            assert movements[m + 1] == r[j];
          } else {
            assert r[i] == rest[i - 1] && r[j] == rest[j - 1];
          }
        }
      }
    }
  }

  /** Deleting client `c` keeps every movement and nulls the references to
      `c` (on_delete=SET_NULL); nothing else in a movement changes. */
  function DetachClient(movements: seq<Movement>, c: Id): (r: seq<Movement>)
    ensures |r| == |movements|
    ensures forall i :: 0 <= i < |r| ==> r[i].client != Some(c)
    ensures forall i :: 0 <= i < |r| && movements[i].client == Some(c) ==> r[i].client == None
    ensures forall i :: 0 <= i < |r| && movements[i].client != Some(c) ==> r[i] == movements[i]
    ensures forall i :: 0 <= i < |r| ==> r[i].(client := movements[i].client) == movements[i]
  {
    seq(|movements|, i requires 0 <= i < |movements| =>
      if movements[i].client == Some(c) then movements[i].(client := None) else movements[i])
  }

  /** Deleting supplier `s` keeps every movement and nulls the references to
      `s` (on_delete=SET_NULL); nothing else in a movement changes. */
  function DetachSupplier(movements: seq<Movement>, s: Id): (r: seq<Movement>)
    ensures |r| == |movements|
    ensures forall i :: 0 <= i < |r| ==> r[i].supplier != Some(s)
    ensures forall i :: 0 <= i < |r| && movements[i].supplier == Some(s) ==> r[i].supplier == None
    ensures forall i :: 0 <= i < |r| && movements[i].supplier != Some(s) ==> r[i] == movements[i]
    ensures forall i :: 0 <= i < |r| ==> r[i].(supplier := movements[i].supplier) == movements[i]
  {
    seq(|movements|, i requires 0 <= i < |movements| =>
      if movements[i].supplier == Some(s) then movements[i].(supplier := None) else movements[i])
  }
}
