/** The movement report and the receipt lookup: the caller's movements with
    their ENTRADA and SALIDA counts, and the title and movement of a
    receipt, found only among the caller's own movements. */
module Reports {
  import opened Models
  import opened Errors

  /** The movement concerns a product of the caller. */
  predicate OwnedBy(products: map<Id, Product>, caller: Id, m: Movement)
  {
    m.product in products && products[m.product].owner == caller
  }

  /** The caller's movements, in log order. */
  function OwnedMovements(products: map<Id, Product>, movements: seq<Movement>, caller: Id): (r: seq<Movement>)
    ensures |r| <= |movements|
    ensures forall m :: m in r <==> m in movements && OwnedBy(products, caller, m)
  {
    if movements == [] then []
    else
      (if OwnedBy(products, caller, movements[0]) then [movements[0]] else [])
      + OwnedMovements(products, movements[1..], caller)
  }

  /** The number of movements of kind `kind`. */
  function CountKind(movements: seq<Movement>, kind: Kind): (n: nat)
    ensures n <= |movements|
  {
    if movements == [] then 0
    else (if movements[0].kind == kind then 1 else 0) + CountKind(movements[1..], kind)
  }

  /** Every movement is either inbound or outbound: the two counts add up to
      the number of movements. */
  lemma {:induction false} KindCountsPartition(movements: seq<Movement>)
    ensures CountKind(movements, Entrada) + CountKind(movements, Salida) == |movements|
  {
    if movements != [] {
      KindCountsPartition(movements[1..]);
    }
  }

  /** The count of a kind over two logs one after the other is the sum of
      their counts. */
  lemma {:induction false} CountKindAppend(a: seq<Movement>, b: seq<Movement>, kind: Kind)
    ensures CountKind(a + b, kind) == CountKind(a, kind) + CountKind(b, kind)
  {
    if a != [] {
      assert (a + b)[1..] == a[1..] + b;
      CountKindAppend(a[1..], b, kind);
    } else {
      assert a + b == b;
    }
  }

  /** What the report view shows. */
  datatype Report = Report(movements: seq<Movement>, entries: nat, exits: nat)

  /** The report of the caller: their movements and how many of each kind. */
  function ReportFor(products: map<Id, Product>, movements: seq<Movement>, caller: Id): (r: Report)
    ensures forall m :: m in r.movements <==> m in movements && OwnedBy(products, caller, m)
    ensures r.entries + r.exits == |r.movements|
    ensures r.entries == CountKind(r.movements, Entrada) && r.exits == CountKind(r.movements, Salida)
  {
    var mine := OwnedMovements(products, movements, caller);
    KindCountsPartition(mine);
    Report(mine, CountKind(mine, Entrada), CountKind(mine, Salida))
  }

  /** A movement appended to the log shows in its owner's report, raising
      the count of its kind by one, and leaves every other report as it was. */
  lemma ReportAppend(products: map<Id, Product>, movements: seq<Movement>, caller: Id, m: Movement)
    ensures var before := ReportFor(products, movements, caller);
      var after := ReportFor(products, movements + [m], caller);
      if OwnedBy(products, caller, m) then
        && after.movements == before.movements + [m]
        && after.entries == before.entries + (if m.kind == Entrada then 1 else 0)
        && after.exits == before.exits + (if m.kind == Salida then 1 else 0)
      else after == before
  {
    OwnedMovementsAppend(products, movements, caller, m);
    var mine := OwnedMovements(products, movements, caller);
    CountKindAppend(mine, [m], Entrada);
    CountKindAppend(mine, [m], Salida);
    if !OwnedBy(products, caller, m) {
      assert mine + [] == mine;
    }
  }

  lemma {:induction false} OwnedMovementsAppend(products: map<Id, Product>, movements: seq<Movement>, caller: Id, m: Movement)
    ensures OwnedMovements(products, movements + [m], caller) ==
            OwnedMovements(products, movements, caller) + (if OwnedBy(products, caller, m) then [m] else [])
  {
    if movements != [] {
      assert (movements + [m])[1..] == movements[1..] + [m];
      OwnedMovementsAppend(products, movements[1..], caller, m);
    }
  }

  /** The title of a receipt. */
  function ReceiptTitle(kind: Kind): (t: string)
    ensures kind == Entrada ==> t == "NOTA DE ENTRADA"
    ensures kind == Salida ==> t == "NOTA DE SALIDA"
  {
    if kind == Entrada then "NOTA DE ENTRADA" else "NOTA DE SALIDA"
  }

  /** The two kinds of receipt are told apart by their title. */
  lemma ReceiptTitleDistinct(a: Kind, b: Kind)
    ensures ReceiptTitle(a) == ReceiptTitle(b) <==> a == b
  {
    if a != b {
      assert ReceiptTitle(a)[9] != ReceiptTitle(b)[9];
    }
  }

  /** The caller's movement with id `id`: NotFound when there is none, also
      when the movement belongs to another owner. */
  function FindOwnedMovement(products: map<Id, Product>, movements: seq<Movement>, caller: Id, id: Id)
    : (r: Result<Movement>)
    ensures r.Ok? ==> r.value in movements && r.value.id == id && OwnedBy(products, caller, r.value)
    ensures r.Err? ==> r.error == NotFound
                       && forall m :: m in movements && m.id == id ==> !OwnedBy(products, caller, m)
  {
    if movements == [] then Err(NotFound)
    else if movements[0].id == id && OwnedBy(products, caller, movements[0]) then Ok(movements[0])
    else FindOwnedMovement(products, movements[1..], caller, id)
  }

  /** With ids distinct, as the log keeps them, the lookup finds the one
      movement with that id whenever it belongs to the caller. */
  lemma FindOwnedMovementUnique(products: map<Id, Product>, movements: seq<Movement>,
                                caller: Id, m: Movement)
    requires DistinctIds(movements)
    requires m in movements && OwnedBy(products, caller, m)
    ensures FindOwnedMovement(products, movements, caller, m.id) == Ok(m)
  {
  }

  /** What a receipt shows: its title and the movement. */
  datatype Receipt = Receipt(title: string, movement: Movement)

  /** The receipt of the caller's movement `id`. */
  function ReceiptFor(products: map<Id, Product>, movements: seq<Movement>, caller: Id, id: Id)
    : (r: Result<Receipt>)
    ensures r.Ok? <==> exists m :: m in movements && m.id == id && OwnedBy(products, caller, m)
    ensures r.Ok? ==> r.value.movement in movements && r.value.movement.id == id
                      && OwnedBy(products, caller, r.value.movement)
                      && r.value.title == ReceiptTitle(r.value.movement.kind)
    ensures r.Err? ==> r.error == NotFound
  {
    match FindOwnedMovement(products, movements, caller, id)
    case Ok(m) => Ok(Receipt(ReceiptTitle(m.kind), m))
    case Err(e) => Err(e)
  }
}
