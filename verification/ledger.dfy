/** The views that change the store: creating, editing and deleting
    products, creating and deleting contacts, and recording inbound and
    outbound movements. Every operation takes the calling user explicitly;
    the form checks of the source become preconditions. */
module Ledger {
  import opened Models
  import opened Text
  import opened Fefo
  import opened Errors

  /** A product name the form accepts: required, at most 100 characters. */
  predicate NameFits(name: string)
  {
    1 <= |name| <= 100
  }

  /** A price (in cents) that fits a decimal of 10 digits with 2 decimals. */
  predicate PriceFits(price: int)
  {
    -10_000_000_000 < price < 10_000_000_000
  }

  /** The fields a contact form accepts: a required name of at most 100
      characters, an optional tax id and phone of at most 20 each. */
  predicate ContactFits(name: string, taxId: Option<string>, phone: Option<string>)
  {
    && NameFits(name)
    && (taxId.Some? ==> |taxId.value| <= 20)
    && (phone.Some? ==> |phone.value| <= 20)
  }

  /** A lot code the inbound form accepts: required, at most 50 characters. */
  predicate LotCodeFits(code: string)
  {
    1 <= |code| <= 50
  }

  /** Looking a product up by id within the caller's own products: absent
      and foreign products both give NotFound. */
  function OwnedProduct(products: map<Id, Product>, caller: Id, id: Id): (r: Result<Product>)
    ensures r.Ok? <==> id in products && products[id].owner == caller
    ensures r.Ok? ==> r.value == products[id]
    ensures r.Err? ==> r.error == NotFound
  {
    if id in products && products[id].owner == caller then Ok(products[id]) else Err(NotFound)
  }

  /** The batch of product `p` with lot code `code`, if there is one. */
  function FindLot(lots: seq<Lot>, p: Id, code: string): (r: Option<nat>)
    ensures r.Some? ==> r.value < |lots| && HasKey(lots[r.value], p, code)
    ensures r.None? ==> forall i :: 0 <= i < |lots| ==> !HasKey(lots[i], p, code)
  {
    if lots == [] then None
    else if HasKey(lots[|lots| - 1], p, code) then Some(|lots| - 1)
    else FindLot(lots[..|lots| - 1], p, code)
  }

  /** The batches after an inbound movement: find or create the batch
      (product, lot code), the expiration date being used only on creation,
      and add the quantity to it. */
  function Receive(lots: seq<Lot>, p: Id, code: string, expires: Option<Day>, qty: nat): (r: seq<Lot>)
    ensures |lots| <= |r| <= |lots| + 1
    ensures |r| == |lots| + 1 ==> r[|lots|] == Lot(p, code, expires, qty)
    ensures forall i :: 0 <= i < |lots| ==> SameKey(r[i], lots[i])
  {
    match FindLot(lots, p, code)
    case Some(j) => lots[j := lots[j].(quantity := lots[j].quantity + qty)]
    case None => var l := NewLot(p, code, expires); lots + [l.(quantity := l.quantity + qty)]
  }

  /** An inbound movement for an existing batch raises only that batch's
      quantity and keeps its expiration date; otherwise it adds exactly one
      batch, holding the quantity and the given expiration date. No other
      batch changes, and (product, lot code) stays unique. */
  lemma ReceiveEffect(lots: seq<Lot>, p: Id, code: string, expires: Option<Day>, qty: nat)
    requires UniqueLots(lots)
    ensures var r := Receive(lots, p, code, expires, qty);
      && UniqueLots(r)
      && ((exists j :: 0 <= j < |lots| && HasKey(lots[j], p, code)) ==>
            && |r| == |lots|
            && (forall i :: 0 <= i < |lots| && HasKey(lots[i], p, code) ==>
                  r[i] == lots[i].(quantity := lots[i].quantity + qty))
            && (forall i :: 0 <= i < |lots| && !HasKey(lots[i], p, code) ==> r[i] == lots[i]))
      && ((forall j :: 0 <= j < |lots| ==> !HasKey(lots[j], p, code)) ==>
            && |r| == |lots| + 1
            && r[..|lots|] == lots
            && r[|lots|] == Lot(p, code, expires, qty))
  {
    var r := Receive(lots, p, code, expires, qty);
    match FindLot(lots, p, code)
    case Some(j) =>
      assert forall i :: 0 <= i < |lots| && HasKey(lots[i], p, code) ==> i == j;
    case None =>
      assert r[..|lots|] == lots;
  }

  /** An inbound movement raises its product's stock total by its quantity
      and leaves every other product's alone. */
  lemma ReceiveStock(lots: seq<Lot>, p: Id, code: string, expires: Option<Day>, qty: nat, q: Id)
    ensures StockOf(Receive(lots, p, code, expires, qty), q) ==
            StockOf(lots, q) + (if q == p then qty else 0)
  {
    match FindLot(lots, p, code)
    case Some(j) =>
      StockOfUpdate(lots, j, lots[j].quantity + qty, q);
    case None =>
      StockOfAppend(lots, Lot(p, code, expires, qty), q);
  }

  /** An inbound movement leaves the stock total of every other product alone. */
  lemma ReceiveStockOthers(lots: seq<Lot>, p: Id, code: string, expires: Option<Day>, qty: nat)
    ensures forall q :: q != p ==> StockOf(Receive(lots, p, code, expires, qty), q) == StockOf(lots, q)
  {
    forall q | q != p ensures StockOf(Receive(lots, p, code, expires, qty), q) == StockOf(lots, q) {
      ReceiveStock(lots, p, code, expires, qty, q);
    }
  }

  /** A movement refers to an existing product; its supplier (inbound only)
      and its client (outbound only) exist and belong to the product's owner. */
  ghost predicate Linked(products: map<Id, Product>, clients: map<Id, Contact>,
                         suppliers: map<Id, Contact>, m: Movement)
  {
    && m.product in products
    && m.quantity >= 1
    && (m.supplier.Some? ==>
          && m.kind == Entrada
          && m.supplier.value in suppliers
          && suppliers[m.supplier.value].owner == products[m.product].owner)
    && (m.client.Some? ==>
          && m.kind == Salida
          && m.client.value in clients
          && clients[m.client.value].owner == products[m.product].owner)
  }

  /** The invariant of the tables: ids below the counter, batches of existing
      products, (product, lot code) unique, movements linked and with
      distinct ids. */
  ghost predicate Consistent(products: map<Id, Product>, lots: seq<Lot>, movements: seq<Movement>,
                             clients: map<Id, Contact>, suppliers: map<Id, Contact>, nextId: Id)
  {
    && (forall id :: id in products ==> id < nextId)
    && (forall id :: id in clients ==> id < nextId)
    && (forall id :: id in suppliers ==> id < nextId)
    && (forall l :: l in lots ==> l.product in products)
    && UniqueLots(lots)
    && (forall m :: m in movements ==> m.id < nextId && Linked(products, clients, suppliers, m))
    && DistinctIds(movements)
  }

  /** Recording an inbound movement with a fresh id keeps the store consistent. */
  lemma InboundConsistent(products: map<Id, Product>, lots: seq<Lot>, movements: seq<Movement>,
                          clients: map<Id, Contact>, suppliers: map<Id, Contact>, nextId: Id,
                          code: string, expires: Option<Day>, m: Movement)
    requires Consistent(products, lots, movements, clients, suppliers, nextId)
    requires m.id == nextId && Linked(products, clients, suppliers, m)
    ensures Consistent(products, Receive(lots, m.product, code, expires, m.quantity),
                       movements + [m], clients, suppliers, nextId + 1)
  {
    var r := Receive(lots, m.product, code, expires, m.quantity);
    ReceiveEffect(lots, m.product, code, expires, m.quantity);
    AppendFreshId(movements, m);
    forall l | l in r ensures l.product in products {
      var i :| 0 <= i < |r| && r[i] == l;
      if i < |lots| {
        assert lots[i] in lots;
      }
    }
  }

  /** Deleting a product with its batches and movements keeps the store consistent. */
  lemma DeleteProductConsistent(products: map<Id, Product>, lots: seq<Lot>, movements: seq<Movement>,
                                clients: map<Id, Contact>, suppliers: map<Id, Contact>, nextId: Id, id: Id)
    requires Consistent(products, lots, movements, clients, suppliers, nextId)
    ensures Consistent(products - {id}, DeleteProductLots(lots, id), DeleteProductMovements(movements, id),
                       clients, suppliers, nextId)
  {
    DeleteProductLotsUnique(lots, id);
    DeleteProductMovementsIds(movements, id);
  }

  /** Appending a linked movement with a fresh id to a consistent store whose
      batches changed only in quantity keeps it consistent. */
  lemma OutboundConsistent(products: map<Id, Product>, lots: seq<Lot>, lots': seq<Lot>,
                           movements: seq<Movement>, clients: map<Id, Contact>,
                           suppliers: map<Id, Contact>, nextId: Id, m: Movement)
    requires Consistent(products, lots, movements, clients, suppliers, nextId)
    requires |lots'| == |lots| && forall i :: 0 <= i < |lots| ==> SameKey(lots'[i], lots[i])
    requires m.id == nextId && Linked(products, clients, suppliers, m)
    ensures Consistent(products, lots', movements + [m], clients, suppliers, nextId + 1)
  {
    AppendFreshId(movements, m);
    forall l | l in lots' ensures l.product in products {
      var i :| 0 <= i < |lots'| && lots'[i] == l;
      assert lots[i] in lots;
    }
  }

  /** The store of one installation: the product, batch, movement, client
      and supplier tables. Ids come from one counter. */
  class Store {
    var products: map<Id, Product>
    var lots: seq<Lot>
    var movements: seq<Movement>
    var clients: map<Id, Contact>
    var suppliers: map<Id, Contact>
    var nextId: Id

    ghost predicate Valid()
      reads this
    {
      Consistent(products, lots, movements, clients, suppliers, nextId)
    }

    constructor ()
      ensures Valid()
      ensures products == map[] && lots == [] && movements == []
      ensures clients == map[] && suppliers == map[]
    {
      products, lots, movements := map[], [], [];
      clients, suppliers := map[], map[];
      nextId := 1;
    }

    // -------------------------------------------------------------------
    // Products
    // -------------------------------------------------------------------

    /** Creating a product: the owner is always the caller; a missing
        minimum stock takes the default. */
    method CreateProduct(caller: Id, name: string, price: int, minStock: Option<int>) returns (id: Id)
      requires Valid() && NameFits(name) && PriceFits(price)
      modifies this`products, this`nextId
      ensures Valid()
      ensures id !in old(products) && id == old(nextId) && nextId == id + 1
      ensures products == old(products)[id := Product(caller, name, price,
                                                      if minStock.Some? then minStock.value else DefaultMinStock)]
    {
      id := nextId;
      var minimum := if minStock.Some? then minStock.value else DefaultMinStock;
      products := products[id := Product(caller, name, price, minimum)];
      nextId := nextId + 1;
    }

    /** Editing a product: only the caller's own; name, price and minimum
        stock change, the owner does not. */
    method EditProduct(caller: Id, id: Id, name: string, price: int, minStock: int) returns (r: Outcome)
      requires Valid() && NameFits(name) && PriceFits(price)
      modifies this`products
      ensures Valid()
      ensures r == Done <==> OwnedProduct(old(products), caller, id).Ok?
      ensures r.Failed? ==> r.error == NotFound && products == old(products)
      ensures r == Done ==> products == old(products)[id := Product(caller, name, price, minStock)]
    {
      var found := OwnedProduct(products, caller, id);
      if found.Err? {
        return Failed(found.error);
      }
      products := products[id := found.value.(name := name, price := price, minStock := minStock)];
      r := Done;
    }

    /** Deleting a product: only the caller's own; its batches and its
        movements go with it. */
    method DeleteProduct(caller: Id, id: Id) returns (r: Outcome)
      requires Valid()
      modifies this`products, this`lots, this`movements
      ensures Valid()
      ensures r == Done <==> OwnedProduct(old(products), caller, id).Ok?
      ensures r.Failed? ==> r.error == NotFound && products == old(products)
                            && lots == old(lots) && movements == old(movements)
      ensures r == Done ==> && products == old(products) - {id}
                            && lots == DeleteProductLots(old(lots), id)
                            && movements == DeleteProductMovements(old(movements), id)
    {
      var found := OwnedProduct(products, caller, id);
      if found.Err? {
        return Failed(found.error);
      }
      DeleteProductConsistent(products, lots, movements, clients, suppliers, nextId, id);
      products := products - {id};
      lots := DeleteProductLots(lots, id);
      movements := DeleteProductMovements(movements, id);
      r := Done;
    }

    // -------------------------------------------------------------------
    // Contacts
    // -------------------------------------------------------------------

    /** Creating a client: the owner is always the caller. */
    method CreateClient(caller: Id, name: string, taxId: Option<string>, phone: Option<string>)
      returns (id: Id)
      requires Valid() && ContactFits(name, taxId, phone)
      modifies this`clients, this`nextId
      ensures Valid()
      ensures id !in old(clients) && id == old(nextId) && nextId == id + 1
      ensures clients == old(clients)[id := Contact(caller, name, taxId, phone)]
    {
      id := nextId;
      clients := clients[id := Contact(caller, name, taxId, phone)];
      nextId := nextId + 1;
    }

    /** Creating a supplier: the owner is always the caller. */
    method CreateSupplier(caller: Id, name: string, taxId: Option<string>, phone: Option<string>)
      returns (id: Id)
      requires Valid() && ContactFits(name, taxId, phone)
      modifies this`suppliers, this`nextId
      ensures Valid()
      ensures id !in old(suppliers) && id == old(nextId) && nextId == id + 1
      ensures suppliers == old(suppliers)[id := Contact(caller, name, taxId, phone)]
    {
      id := nextId;
      suppliers := suppliers[id := Contact(caller, name, taxId, phone)];
      nextId := nextId + 1;
    }

    /** Deleting a client keeps its movements and clears their reference to it. */
    method DeleteClient(id: Id)
      requires Valid()
      modifies this`clients, this`movements
      ensures Valid()
      ensures clients == old(clients) - {id}
      ensures movements == DetachClient(old(movements), id)
    {
      clients := clients - {id};
      movements := DetachClient(movements, id);
    }

    /** Deleting a supplier keeps its movements and clears their reference to it. */
    method DeleteSupplier(id: Id)
      requires Valid()
      modifies this`suppliers, this`movements
      ensures Valid()
      ensures suppliers == old(suppliers) - {id}
      ensures movements == DetachSupplier(old(movements), id)
    {
      suppliers := suppliers - {id};
      movements := DetachSupplier(movements, id);
    }

    // -------------------------------------------------------------------
    // Movements
    // -------------------------------------------------------------------

    /** Recording an inbound movement: find or create the batch (product,
        lot code), add the quantity to it, and append one ENTRADA movement
        with detail "Lote {code}" and the supplier. */
    method RecordInbound(caller: Id, product: Id, supplier: Option<Id>, qty: nat, code: string,
                         expires: Option<Day>)
      requires Valid()
      requires product in products && products[product].owner == caller
      requires supplier.Some? ==> supplier.value in suppliers && suppliers[supplier.value].owner == caller
      requires qty >= 1 && LotCodeFits(code)
      modifies this`lots, this`movements, this`nextId
      ensures Valid()
      ensures lots == Receive(old(lots), product, code, expires, qty)
      ensures movements == old(movements) + [Movement(old(nextId), product, Entrada, qty, "Lote " + code, supplier, None)]
      ensures StockOf(lots, product) == old(StockOf(lots, product)) + qty
      ensures forall q :: q != product ==> StockOf(lots, q) == old(StockOf(lots, q))
      ensures nextId == old(nextId) + 1
    {
      var found := FindLot(lots, product, code);
      var received: seq<Lot>;
      if found.Some? {
        var j := found.value;
        received := lots[j := lots[j].(quantity := lots[j].quantity + qty)];
      } else {
        var created := NewLot(product, code, expires);
        received := lots + [created.(quantity := created.quantity + qty)];
      }
      assert received == Receive(lots, product, code, expires, qty);
      var entry := Movement(nextId, product, Entrada, qty, "Lote " + code, supplier, None);
      InboundConsistent(products, lots, movements, clients, suppliers, nextId, code, expires, entry);
      ReceiveStockOthers(lots, product, code, expires, qty);
      ReceiveStock(lots, product, code, expires, qty, product);
      lots, movements, nextId := received, movements + [entry], nextId + 1;
    }

    /** Recording an outbound movement. It is refused, changing nothing, when
        the product's stock total is below the quantity. Otherwise the
        batches are visited in `order` (the product's batches with stock,
        by expiration date); from each, while something is pending,
        min(pending, quantity) is taken, and one SALIDA movement records the
        quantity, the fragments "{taken} ({lot code})" joined by ", ", and
        the client. */
    method RecordOutbound(caller: Id, product: Id, client: Option<Id>, qty: nat,
                          order: seq<nat>, nulls: NullPlacement) returns (r: Outcome)
      requires Valid()
      requires product in products && products[product].owner == caller
      requires client.Some? ==> client.value in clients && clients[client.value].owner == caller
      requires qty >= 1
      requires IsFefoOrder(lots, product, order, nulls)
      modifies this`lots, this`movements, this`nextId
      ensures Valid()
      ensures var stock := old(StockOf(lots, product));
        if stock < qty then
          && r == Failed(InsufficientStock(stock))
          && lots == old(lots) && movements == old(movements) && nextId == old(nextId)
        else
          var a := Allocate(old(lots), order, qty);
          && r == Done
          && a.pending == 0
          && lots == a.lots
          && movements == old(movements) + [Movement(old(nextId), product, Salida, qty, Detail(a.taken), None, client)]
          && StockOf(lots, product) == stock - qty
          && nextId == old(nextId) + 1
      ensures |lots| == |old(lots)|
      ensures forall i :: 0 <= i < |lots| && old(lots)[i].product != product ==> lots[i] == old(lots)[i]
    {
      var stock := StockOf(lots, product);
      if stock < qty {
        return Failed(InsufficientStock(stock));
      }
      var detail := TakeInOrder(order, qty);
      AllocateCovers(old(lots), product, order, qty, nulls);
      AllocateStock(old(lots), product, order, qty, product);
      AllocateFrame(old(lots), order, qty);
      forall j | 0 <= j < |lots| && old(lots)[j].product != product ensures lots[j] == old(lots)[j] {
        AllocateOutside(old(lots), order, qty, j);
      }
      var entry := Movement(nextId, product, Salida, qty, detail, None, client);
      OutboundConsistent(products, old(lots), lots, movements, clients, suppliers, nextId, entry);
      movements := movements + [entry];
      nextId := nextId + 1;
      r := Done;
    }

    /** The allocation loop of an outbound movement: visit the batches in
        `order`, stop once nothing is pending, and take min(pending,
        quantity) from each, collecting the detail fragments. Only the
        batch quantities change. */
    method TakeInOrder(order: seq<nat>, qty: nat) returns (detail: string)
      requires InRange(lots, order)
      modifies this`lots
      ensures lots == Allocate(old(lots), order, qty).lots
      ensures detail == Detail(Allocate(old(lots), order, qty).taken)
    {
      ghost var goal := Allocate(lots, order, qty);
      OnCourseStart(lots, order, qty);
      var pending := qty;
      var texts: seq<string> := [];
      ghost var taken: seq<Fragment> := [];
      var k := 0;
      while k < |order|
        invariant InRange(lots, order)
        invariant OnCourse(lots, order, k, pending, taken, goal)
        invariant texts == FragmentTexts(taken)
      {
        if pending == 0 {
          break;
        }
        var i := order[k];
        var take := Min(pending, lots[i].quantity);
        var fragment := Fragment(take, lots[i].code);
        ghost var lots0 := lots;
        lots := lots[i := lots[i].(quantity := lots[i].quantity - take)];
        OnCourseStep(lots0, order, k, pending, taken, goal, take, lots);
        FragmentTextsAppend(taken, fragment);
        texts := texts + [FragmentText(fragment)];
        taken := taken + [fragment];
        pending := pending - take;
        k := k + 1;
      }
      OnCourseEnd(lots, order, k, pending, taken, goal);
      detail := Join(texts, ", ");
    }
  }
}
