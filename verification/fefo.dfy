/** First-expired-first-out allocation of an outbound movement over the
    batches of one product, and the text the movement records about it. */
module Fefo {
  import opened Models
  import opened Text

  /** Where an ascending sort on the expiration date puts the batches that
      have none: the store decides (first on SQLite and MySQL, last on
      PostgreSQL), so the model takes it as a parameter. */
  datatype NullPlacement = NullsFirst | NullsLast

  /** `a` sorts no later than `b` in an ascending sort on the expiration date. */
  predicate NoLater(a: Option<Day>, b: Option<Day>, nulls: NullPlacement)
  {
    match a
    case Some(x) => (b.Some? && x <= b.value) || (b.None? && nulls == NullsLast)
    case None => b.None? || nulls == NullsFirst
  }

  /** Batch `j` belongs to product `p` and still holds stock. */
  predicate Eligible(lots: seq<Lot>, p: Id, j: int)
  {
    0 <= j < |lots| && lots[j].product == p && lots[j].quantity > 0
  }

  predicate InRange(lots: seq<Lot>, order: seq<nat>)
  {
    forall k :: 0 <= k < |order| ==> order[k] < |lots|
  }

  predicate SortedByExpiry(lots: seq<Lot>, order: seq<nat>, nulls: NullPlacement)
    requires InRange(lots, order)
  {
    forall k, m :: 0 <= k < m < |order| ==>
      NoLater(lots[order[k]].expires, lots[order[m]].expires, nulls)
  }

  /** `order` is what the query "batches of `p` with quantity > 0, ordered
      by expiration date" returns: each such batch exactly once, earliest
      expiration first (ties in any order). */
  predicate IsFefoOrder(lots: seq<Lot>, p: Id, order: seq<nat>, nulls: NullPlacement)
  {
    && (forall k :: 0 <= k < |order| ==> Eligible(lots, p, order[k]))
    && (forall j :: 0 <= j < |lots| && Eligible(lots, p, j) ==> j in order)
    && Distinct(order)
    && InRange(lots, order)
    && SortedByExpiry(lots, order, nulls)
  }

  /** The query returns no batch exactly when the product's stock total is 0. */
  lemma FefoOrderEmpty(lots: seq<Lot>, p: Id, order: seq<nat>, nulls: NullPlacement)
    requires IsFefoOrder(lots, p, order, nulls)
    ensures order == [] <==> StockOf(lots, p) == 0
  {
    StockOfZero(lots, p);
    if order != [] {
      assert lots[order[0]].quantity > 0;
    } else {
      assert forall i :: 0 <= i < |lots| && lots[i].product == p ==> !Eligible(lots, p, i);
    }
  }

  // ---------------------------------------------------------------------
  // The allocation
  // ---------------------------------------------------------------------

  /** What was taken from one batch, and the batch's lot code. */
  datatype Fragment = Fragment(amount: nat, code: string)

  /** The batches after the allocation, what was taken from each touched
      batch in visiting order, and what is still pending. */
  datatype Allocation = Allocation(lots: seq<Lot>, taken: seq<Fragment>, pending: nat)

  function Min(a: nat, b: nat): nat
  {
    if a <= b then a else b
  }

  function TakenTotal(taken: seq<Fragment>): nat
  {
    if taken == [] then 0 else taken[0].amount + TakenTotal(taken[1..])
  }

  /** The outbound loop: visit the batches in `order`; stop once nothing is
      pending; otherwise take min(pending, quantity) from the batch, lower
      its quantity by that much and record what was taken. What is taken
      plus what is left pending is always the amount asked for. */
  function Allocate(lots: seq<Lot>, order: seq<nat>, pending: nat): (a: Allocation)
    requires InRange(lots, order)
    ensures |a.lots| == |lots|
    ensures |a.taken| <= |order|
    ensures TakenTotal(a.taken) + a.pending == pending
    decreases |order|
  {
    if order == [] || pending == 0 then Allocation(lots, [], pending)
    else
      var i := order[0];
      var t := Min(pending, lots[i].quantity);
      var lots' := lots[i := lots[i].(quantity := lots[i].quantity - t)];
      assert InRange(lots', order[1..]) by {
        forall k | 0 <= k < |order[1..]| ensures order[1..][k] < |lots'| {
          assert order[1..][k] == order[k + 1];
        }
      }
      var rest := Allocate(lots', order[1..], pending - t);
      var taken := [Fragment(t, lots[i].code)] + rest.taken;
      assert taken[1..] == rest.taken;
      Allocation(rest.lots, taken, rest.pending)
  }

  /** The state of a loop that walks `order` by index, `k` batches in with
      `pending` still to take and the fragments `taken` so far: allocating
      the rest of `order` from here ends in `goal`. */
  predicate OnCourse(lots: seq<Lot>, order: seq<nat>, k: nat, pending: nat,
                     taken: seq<Fragment>, goal: Allocation)
  {
    && k <= |order|
    && InRange(lots, order[k..])
    && var rest := Allocate(lots, order[k..], pending);
       rest.lots == goal.lots && taken + rest.taken == goal.taken && rest.pending == goal.pending
  }

  lemma OnCourseStart(lots: seq<Lot>, order: seq<nat>, pending: nat)
    requires InRange(lots, order)
    ensures OnCourse(lots, order, 0, pending, [], Allocate(lots, order, pending))
  {
    assert order[0..] == order;
  }

  /** Taking min(pending, quantity) from batch `order[k]` keeps the loop on course. */
  lemma OnCourseStep(lots: seq<Lot>, order: seq<nat>, k: nat, pending: nat, taken: seq<Fragment>,
                     goal: Allocation, t: nat, lots': seq<Lot>)
    requires OnCourse(lots, order, k, pending, taken, goal) && k < |order| && pending > 0
    requires order[k] < |lots| && t == Min(pending, lots[order[k]].quantity)
    requires lots' == lots[order[k] := lots[order[k]].(quantity := lots[order[k]].quantity - t)]
    ensures OnCourse(lots', order, k + 1, pending - t, taken + [Fragment(t, lots[order[k]].code)], goal)
  {
    assert order[k..][1..] == order[k + 1..];
    var f := Fragment(t, lots[order[k]].code);
    var rest := Allocate(lots', order[k + 1..], pending - t);
    assert Allocate(lots, order[k..], pending).taken == [f] + rest.taken;
    assert (taken + [f]) + rest.taken == taken + ([f] + rest.taken);
  }

  /** A loop on course that has run out of batches or of pending quantity
      has reached the goal. */
  lemma OnCourseEnd(lots: seq<Lot>, order: seq<nat>, k: nat, pending: nat, taken: seq<Fragment>,
                    goal: Allocation)
    requires OnCourse(lots, order, k, pending, taken, goal) && (k == |order| || pending == 0)
    ensures lots == goal.lots && taken == goal.taken && pending == goal.pending
  {
  }

  lemma TailInRange(lots: seq<Lot>, order: seq<nat>, lots': seq<Lot>)
    requires InRange(lots, order) && order != [] && |lots'| == |lots|
    ensures InRange(lots', order[1..])
    ensures forall k :: 0 <= k < |order[1..]| ==> order[1..][k] == order[k + 1]
  {
  }

  /** The allocation changes only quantities and never raises one. */
  lemma {:induction false} AllocateFrame(lots: seq<Lot>, order: seq<nat>, pending: nat)
    requires InRange(lots, order)
    ensures var a := Allocate(lots, order, pending);
      forall j :: 0 <= j < |lots| ==>
        a.lots[j] == lots[j].(quantity := a.lots[j].quantity) && a.lots[j].quantity <= lots[j].quantity
    decreases |order|
  {
    if order != [] && pending > 0 {
      var i := order[0];
      var t := Min(pending, lots[i].quantity);
      var lots' := lots[i := lots[i].(quantity := lots[i].quantity - t)];
      TailInRange(lots, order, lots');
      AllocateFrame(lots', order[1..], pending - t);
      assert Allocate(lots, order, pending).lots == Allocate(lots', order[1..], pending - t).lots;
    }
  }

  /** A batch outside `order` is left as it was. */
  lemma {:induction false} AllocateOutside(lots: seq<Lot>, order: seq<nat>, pending: nat, j: nat)
    requires InRange(lots, order) && j < |lots| && j !in order
    ensures Allocate(lots, order, pending).lots[j] == lots[j]
    decreases |order|
  {
    if order != [] && pending > 0 {
      var i := order[0];
      var t := Min(pending, lots[i].quantity);
      var lots' := lots[i := lots[i].(quantity := lots[i].quantity - t)];
      TailInRange(lots, order, lots');
      AllocateOutside(lots', order[1..], pending - t, j);
    }
  }

  /** When every visited batch belongs to product `p`, the stock total of
      `p` drops by exactly what was taken and no other product's moves. */
  lemma {:induction false} AllocateStock(lots: seq<Lot>, p: Id, order: seq<nat>, pending: nat, q: Id)
    requires InRange(lots, order)
    requires forall k :: 0 <= k < |order| ==> lots[order[k]].product == p
    ensures var a := Allocate(lots, order, pending);
      StockOf(a.lots, q) == if q == p then StockOf(lots, p) - (pending - a.pending) else StockOf(lots, q)
    decreases |order|
  {
    if order != [] && pending > 0 {
      var i := order[0];
      var t := Min(pending, lots[i].quantity);
      var lots' := lots[i := lots[i].(quantity := lots[i].quantity - t)];
      TailInRange(lots, order, lots');
      assert forall k :: 0 <= k < |order[1..]| ==> lots'[order[1..][k]].product == p;
      AllocateStock(lots', p, order[1..], pending - t, q);
      StockOfUpdate(lots, i, lots[i].quantity - t, q);
    }
  }

  /** What the first step of the allocation leaves for the rest of the
      visit: the remaining batches, still distinct, untouched by the step. */
  lemma TailFacts(lots: seq<Lot>, order: seq<nat>, t: nat)
    requires InRange(lots, order) && Distinct(order) && order != []
    requires t <= lots[order[0]].quantity
    ensures var lots' := lots[order[0] := lots[order[0]].(quantity := lots[order[0]].quantity - t)];
      && InRange(lots', order[1..])
      && Distinct(order[1..])
      && order[0] !in order[1..]
      && (forall k :: 0 <= k < |order[1..]| ==>
            order[1..][k] == order[k + 1] && lots'[order[1..][k]] == lots[order[k + 1]])
  {
    var tail := order[1..];
    assert forall k :: 0 <= k < |tail| ==> tail[k] == order[k + 1];
    assert forall k :: 0 <= k < |tail| ==> tail[k] != order[0];
  }

  /** Allocation `a` over the batches `order` of `lots` for `pending`
      units draws from the first |a.taken| batches of `order`, in that
      order; each yields a positive amount, exactly what its quantity
      dropped by, under its own lot code. Nothing is drawn when nothing is
      asked, and a batch is left unvisited only once nothing is pending. */
  predicate TouchedShape(lots: seq<Lot>, order: seq<nat>, pending: nat, a: Allocation)
    requires InRange(lots, order) && |a.lots| == |lots| && |a.taken| <= |order|
  {
    && (pending == 0 ==> |a.taken| == 0)
    && (|a.taken| < |order| ==> a.pending == 0)
    && (forall k :: 0 <= k < |a.taken| ==>
          && a.taken[k].code == lots[order[k]].code
          && a.taken[k].amount > 0
          && a.taken[k].amount + a.lots[order[k]].quantity == lots[order[k]].quantity)
  }

  /** One step of the induction behind AllocateTouched. */
  lemma TouchedStep(lots: seq<Lot>, order: seq<nat>, pending: nat, t: nat, lots': seq<Lot>, rest: Allocation, a: Allocation)
    requires InRange(lots, order) && order != [] && pending > 0
    requires 0 < t <= pending && t <= lots[order[0]].quantity && (t < pending ==> t == lots[order[0]].quantity)
    requires lots' == lots[order[0] := lots[order[0]].(quantity := lots[order[0]].quantity - t)]
    requires InRange(lots', order[1..]) && |rest.lots| == |lots| && |rest.taken| <= |order| - 1
    requires forall k :: 0 <= k < |order[1..]| ==> order[1..][k] == order[k + 1] && lots'[order[1..][k]] == lots[order[k + 1]]
    requires TouchedShape(lots', order[1..], pending - t, rest)
    requires rest.lots[order[0]] == lots'[order[0]]
    requires a == Allocation(rest.lots, [Fragment(t, lots[order[0]].code)] + rest.taken, rest.pending)
    ensures TouchedShape(lots, order, pending, a)
  {
    forall k | 1 <= k < |a.taken|
      ensures a.taken[k] == rest.taken[k - 1] && order[k] == order[1..][k - 1]
    {
    }
  }

  /** Every allocation over batches that all hold stock has that shape. */
  lemma {:induction false} AllocateTouched(lots: seq<Lot>, order: seq<nat>, pending: nat)
    requires InRange(lots, order) && Distinct(order)
    requires forall k :: 0 <= k < |order| ==> lots[order[k]].quantity > 0
    ensures TouchedShape(lots, order, pending, Allocate(lots, order, pending))
    decreases |order|
  {
    if order != [] && pending > 0 {
      var i := order[0];
      var t := Min(pending, lots[i].quantity);
      var lots' := lots[i := lots[i].(quantity := lots[i].quantity - t)];
      var tail := order[1..];
      TailFacts(lots, order, t);
      AllocateTouched(lots', tail, pending - t);
      AllocateOutside(lots', tail, pending - t, i);
      TouchedStep(lots, order, pending, t, lots', Allocate(lots', tail, pending - t), Allocate(lots, order, pending));
    }
  }

  /** The batches of `order` past the last one drawn from are left as they were. */
  lemma {:induction false} AllocateUntouched(lots: seq<Lot>, order: seq<nat>, pending: nat)
    requires InRange(lots, order) && Distinct(order)
    ensures var a := Allocate(lots, order, pending);
      forall k :: |a.taken| <= k < |order| ==> a.lots[order[k]] == lots[order[k]]
    decreases |order|
  {
    if order != [] && pending > 0 {
      var i := order[0];
      var t := Min(pending, lots[i].quantity);
      var lots' := lots[i := lots[i].(quantity := lots[i].quantity - t)];
      var tail := order[1..];
      TailFacts(lots, order, t);
      AllocateUntouched(lots', tail, pending - t);
      var rest := Allocate(lots', tail, pending - t);
      var a := Allocate(lots, order, pending);
      assert |a.taken| == |rest.taken| + 1;
      forall k | |a.taken| <= k < |order| ensures a.lots[order[k]] == lots[order[k]] {
        assert order[k] == tail[k - 1];
      }
    }
  }

  /** In allocation `a`, every batch drawn from except the last one is
      drained to zero, so at most one batch is left partly drawn; and if
      something is still pending, every visited batch is empty. */
  predicate DrainedShape(lots: seq<Lot>, order: seq<nat>, a: Allocation)
    requires InRange(lots, order) && |a.lots| == |lots| && |a.taken| <= |order|
  {
    && (forall k :: 0 <= k < |a.taken| - 1 ==> a.lots[order[k]].quantity == 0)
    && (a.pending > 0 ==> forall k :: 0 <= k < |order| ==> a.lots[order[k]].quantity == 0)
  }

  /** One step of the induction behind AllocateDrained. */
  lemma DrainedStep(lots: seq<Lot>, order: seq<nat>, pending: nat, t: nat, lots': seq<Lot>, rest: Allocation, a: Allocation)
    requires InRange(lots, order) && order != [] && pending > 0
    requires 0 < t <= pending && t <= lots[order[0]].quantity && (t < pending ==> t == lots[order[0]].quantity)
    requires lots' == lots[order[0] := lots[order[0]].(quantity := lots[order[0]].quantity - t)]
    requires InRange(lots', order[1..]) && |rest.lots| == |lots| && |rest.taken| <= |order| - 1
    requires forall k :: 0 <= k < |order[1..]| ==> order[1..][k] == order[k + 1]
    requires TouchedShape(lots', order[1..], pending - t, rest) && rest.pending <= pending - t
    requires DrainedShape(lots', order[1..], rest)
    requires rest.lots[order[0]] == lots'[order[0]]
    requires a == Allocation(rest.lots, [Fragment(t, lots[order[0]].code)] + rest.taken, rest.pending)
    ensures DrainedShape(lots, order, a)
  {
    assert (|rest.taken| > 0 || rest.pending > 0) ==> a.lots[order[0]].quantity == 0;
  }

  /** Every allocation over batches that all hold stock has that shape. */
  lemma {:induction false} AllocateDrained(lots: seq<Lot>, order: seq<nat>, pending: nat)
    requires InRange(lots, order) && Distinct(order)
    requires forall k :: 0 <= k < |order| ==> lots[order[k]].quantity > 0
    ensures DrainedShape(lots, order, Allocate(lots, order, pending))
    decreases |order|
  {
    if order != [] && pending > 0 {
      var i := order[0];
      var t := Min(pending, lots[i].quantity);
      var lots' := lots[i := lots[i].(quantity := lots[i].quantity - t)];
      var tail := order[1..];
      TailFacts(lots, order, t);
      AllocateDrained(lots', tail, pending - t);
      AllocateTouched(lots', tail, pending - t);
      AllocateOutside(lots', tail, pending - t, i);
      DrainedStep(lots, order, pending, t, lots', Allocate(lots', tail, pending - t), Allocate(lots, order, pending));
    }
  }

  /** The allocation covers the whole amount exactly when the product's
      stock total is at least that amount. */
  lemma {:induction false} AllocateCovers(lots: seq<Lot>, p: Id, order: seq<nat>, pending: nat, nulls: NullPlacement)
    requires IsFefoOrder(lots, p, order, nulls)
    ensures Allocate(lots, order, pending).pending == 0 <==> pending <= StockOf(lots, p)
  {
    var a := Allocate(lots, order, pending);
    AllocateStock(lots, p, order, pending, p);
    if a.pending > 0 {
      AllocateDrained(lots, order, pending);
      AllocateFrame(lots, order, pending);
      forall i | 0 <= i < |a.lots| && a.lots[i].product == p
        ensures a.lots[i].quantity == 0
      {
        if lots[i].quantity > 0 {
          assert Eligible(lots, p, i);
          var m :| 0 <= m < |order| && order[m] == i;
        }
      }
      StockOfZero(a.lots, p);
    }
  }

  /** First expired, first out: every batch of the product that still holds
      stock after the allocation expires no earlier than any batch that was
      drawn from (other than itself). */
  lemma {:induction false} AllocateFefo(lots: seq<Lot>, p: Id, order: seq<nat>, pending: nat, nulls: NullPlacement)
    requires IsFefoOrder(lots, p, order, nulls)
    ensures var a := Allocate(lots, order, pending);
      forall k, j :: 0 <= k < |a.taken| && Eligible(a.lots, p, j) && j != order[k] ==>
        NoLater(lots[order[k]].expires, lots[j].expires, nulls)
  {
    var a := Allocate(lots, order, pending);
    AllocateDrained(lots, order, pending);
    AllocateFrame(lots, order, pending);
    forall k, j | 0 <= k < |a.taken| && Eligible(a.lots, p, j) && j != order[k]
      ensures NoLater(lots[order[k]].expires, lots[j].expires, nulls)
    {
      assert Eligible(lots, p, j);
      var m :| 0 <= m < |order| && order[m] == j;
    }
  }

  // ---------------------------------------------------------------------
  // The movement detail
  // ---------------------------------------------------------------------

  /** "{amount} ({lot code})". */
  function FragmentText(f: Fragment): (r: string)
    ensures var n := |r| - |f.code| - 3;
      && 0 < n
      && r[..n] == DecimalString(f.amount)
      && (forall i :: 0 <= i < n ==> IsDigit(r[i]))
      && DecimalValue(r[..n]) == f.amount
      && r[n..] == " (" + f.code + ")"
  {
    var d := DecimalString(f.amount);
    DecimalRoundTrip(f.amount);
    assert (d + " (" + f.code + ")")[..|d|] == d;
    d + " (" + f.code + ")"
  }

  /** The list of fragments the outbound loop builds, one per touched batch. */
  function FragmentTexts(taken: seq<Fragment>): (r: seq<string>)
    ensures |r| == |taken|
  {
    seq(|taken|, i requires 0 <= i < |taken| => FragmentText(taken[i]))
  }

  lemma FragmentTextsAppend(taken: seq<Fragment>, f: Fragment)
    ensures FragmentTexts(taken + [f]) == FragmentTexts(taken) + [FragmentText(f)]
  {
  }

  /** The fragments of the touched batches, in visiting order, joined by ", ". */
  function Detail(taken: seq<Fragment>): (r: string)
    ensures r == "" <==> taken == []
    ensures taken != [] ==> FragmentText(taken[0]) <= r
  {
    Join(FragmentTexts(taken), ", ")
  }

  /** The detail grows one fragment at a time, as the loop appends them: a
      single fragment is its own detail, and each further fragment follows
      the detail so far after ", ". */
  lemma DetailAppend(taken: seq<Fragment>, f: Fragment)
    ensures Detail([f]) == FragmentText(f)
    ensures taken != [] ==> Detail(taken + [f]) == Detail(taken) + ", " + FragmentText(f)
  {
    FragmentTextsAppend(taken, f);
    assert FragmentTexts([f]) == [FragmentText(f)];
    if taken != [] {
      JoinAppend(FragmentTexts(taken), FragmentText(f), ", ");
    }
  }

  /** The allocation of the example below: A is drained, B gives 2. */
  lemma FefoExampleAllocation()
    ensures var lots := [Lot(1, "A", Some(10), 5), Lot(1, "B", Some(41), 5)];
      var a := Allocate(lots, [0, 1], 7);
      && IsFefoOrder(lots, 1, [0, 1], NullsLast)
      && a.lots == [Lot(1, "A", Some(10), 0), Lot(1, "B", Some(41), 3)]
      && a.pending == 0
      && a.taken == [Fragment(5, "A"), Fragment(2, "B")]
  {
  }

  /** The two fragments of the example below. */
  lemma FefoExampleTexts()
    ensures FragmentText(Fragment(5, "A")) == "5 (A)"
    ensures FragmentText(Fragment(2, "B")) == "2 (B)"
  {
    assert DecimalString(5) == "5" && DecimalString(2) == "2";
  }

  /** The detail text of the example below. */
  lemma FefoExampleDetail()
    ensures Detail([Fragment(5, "A"), Fragment(2, "B")]) == "5 (A), 2 (B)"
  {
    var first, second := Fragment(5, "A"), Fragment(2, "B");
    assert [first, second] == [first] + [second];
    DetailAppend([], first);
    DetailAppend([first], second);
    FefoExampleTexts();
  }

  /** Batch A (5 units, expiring first) and batch B (5 units): an outbound
      of 7 drains A, takes 2 from B and records "5 (A), 2 (B)". */
  lemma FefoExample()
    ensures var lots := [Lot(1, "A", Some(10), 5), Lot(1, "B", Some(41), 5)];
      var a := Allocate(lots, [0, 1], 7);
      && IsFefoOrder(lots, 1, [0, 1], NullsLast)
      && a.lots == [Lot(1, "A", Some(10), 0), Lot(1, "B", Some(41), 3)]
      && a.pending == 0
      && Detail(a.taken) == "5 (A), 2 (B)"
  {
    FefoExampleAllocation();
    FefoExampleDetail();
  }

  // ---------------------------------------------------------------------
  // A FEFO order always exists
  // ---------------------------------------------------------------------

  lemma NoLaterTotal(a: Option<Day>, b: Option<Day>, nulls: NullPlacement)
    ensures NoLater(a, b, nulls) || NoLater(b, a, nulls)
  {
  }

  lemma NoLaterTransitive(a: Option<Day>, b: Option<Day>, c: Option<Day>, nulls: NullPlacement)
    requires NoLater(a, b, nulls) && NoLater(b, c, nulls)
    ensures NoLater(a, c, nulls)
  {
  }

  /** Insert batch `j` into an order sorted by expiration, before the first
      batch that does not expire earlier. */
  function InsertByExpiry(lots: seq<Lot>, order: seq<nat>, j: nat, nulls: NullPlacement): (r: seq<nat>)
    requires j < |lots| && InRange(lots, order)
    ensures |r| == |order| + 1 && InRange(lots, r)
    ensures forall x :: x in r <==> x in order || x == j
  {
    if order == [] || NoLater(lots[j].expires, lots[order[0]].expires, nulls) then [j] + order
    else [order[0]] + InsertByExpiry(lots, order[1..], j, nulls)
  }

  /** Putting `j` in front of a sorted order it expires no later than the
      head of keeps it sorted and free of repetitions. */
  lemma InsertFront(lots: seq<Lot>, order: seq<nat>, j: nat, nulls: NullPlacement)
    requires j < |lots| && InRange(lots, order) && SortedByExpiry(lots, order, nulls)
    requires Distinct(order) && j !in order
    requires order == [] || NoLater(lots[j].expires, lots[order[0]].expires, nulls)
    ensures InRange(lots, [j] + order)
    ensures SortedByExpiry(lots, [j] + order, nulls) && Distinct([j] + order)
  {
    var r := [j] + order;
    forall k, m | 0 <= k < m < |r|
      ensures NoLater(lots[r[k]].expires, lots[r[m]].expires, nulls) && r[k] != r[m]
    {
      if k == 0 {
        assert r[m] == order[m - 1];
        if m > 1 {
          NoLaterTransitive(lots[j].expires, lots[order[0]].expires, lots[order[m - 1]].expires, nulls);
        }
      } else {
        assert r[k] == order[k - 1] && r[m] == order[m - 1];
      }
    }
  }

  /** Keeping the head of a sorted order that expires before `j`, in front
      of the sorted rest with `j` inserted, keeps it sorted and free of
      repetitions. */
  lemma InsertBehind(lots: seq<Lot>, order: seq<nat>, j: nat, nulls: NullPlacement, rest: seq<nat>)
    requires order != [] && j < |lots| && InRange(lots, order) && SortedByExpiry(lots, order, nulls)
    requires Distinct(order) && j !in order
    requires !NoLater(lots[j].expires, lots[order[0]].expires, nulls)
    requires InRange(lots, rest) && SortedByExpiry(lots, rest, nulls) && Distinct(rest)
    requires forall x :: x in rest <==> x in order[1..] || x == j
    ensures InRange(lots, [order[0]] + rest)
    ensures SortedByExpiry(lots, [order[0]] + rest, nulls) && Distinct([order[0]] + rest)
  {
    var r := [order[0]] + rest;
    var tail := order[1..];
    forall k, m | 0 <= k < m < |r|
      ensures NoLater(lots[r[k]].expires, lots[r[m]].expires, nulls) && r[k] != r[m]
    {
      if k == 0 {
        assert r[m] == rest[m - 1];
        assert rest[m - 1] in rest;
        if rest[m - 1] == j {
          NoLaterTotal(lots[j].expires, lots[order[0]].expires, nulls);
        } else {
          assert rest[m - 1] in tail;
          var n :| 0 <= n < |tail| && tail[n] == rest[m - 1];
          assert order[n + 1] == r[m];
        }
      } else {
        assert r[k] == rest[k - 1] && r[m] == rest[m - 1];
      }
    }
  }

  /** Inserting keeps the order sorted and free of repetitions. */
  lemma {:induction false} InsertByExpirySorted(lots: seq<Lot>, order: seq<nat>, j: nat, nulls: NullPlacement)
    requires j < |lots| && InRange(lots, order) && SortedByExpiry(lots, order, nulls)
    requires Distinct(order) && j !in order
    ensures var r := InsertByExpiry(lots, order, j, nulls);
      SortedByExpiry(lots, r, nulls) && Distinct(r)
  {
    if order == [] || NoLater(lots[j].expires, lots[order[0]].expires, nulls) {
      InsertFront(lots, order, j, nulls);
    } else {
      var tail := order[1..];
      assert SortedByExpiry(lots, tail, nulls) && Distinct(tail) by {
        assert forall k :: 0 <= k < |tail| ==> tail[k] == order[k + 1];
      }
      InsertByExpirySorted(lots, tail, j, nulls);
      InsertBehind(lots, order, j, nulls, InsertByExpiry(lots, tail, j, nulls));
    }
  }

  /** The batches of `p` among the first `n` that hold stock, sorted by
      expiration (an insertion sort). */
  function FefoOrderUpTo(lots: seq<Lot>, p: Id, n: nat, nulls: NullPlacement): (r: seq<nat>)
    requires n <= |lots|
    ensures InRange(lots, r) && SortedByExpiry(lots, r, nulls) && Distinct(r)
    ensures forall x :: x in r <==> x < n && Eligible(lots, p, x)
  {
    if n == 0 then []
    else
      var o := FefoOrderUpTo(lots, p, n - 1, nulls);
      if Eligible(lots, p, n - 1) then
        InsertByExpirySorted(lots, o, n - 1, nulls);
        InsertByExpiry(lots, o, n - 1, nulls)
      else o
  }

  /** Every product has a FEFO order over its batches, whatever the store
      does with undated batches: the outbound view can always run. */
  function FefoOrder(lots: seq<Lot>, p: Id, nulls: NullPlacement): (r: seq<nat>)
    ensures IsFefoOrder(lots, p, r, nulls)
  {
    FefoOrderUpTo(lots, p, |lots|, nulls)
  }
}
