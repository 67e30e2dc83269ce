/** The dashboard of the home view: the caller's product listing (narrowed
    by an optional search term), its total inventory value, its low-stock
    alerts and the number of the caller's batches close to expiring. */
module Dashboard {
  import opened Models
  import opened Ledger

  /** `t` occurs in `s` as a contiguous piece. */
  predicate Contains(s: string, t: string)
    decreases |s|
  {
    t <= s || (s != [] && Contains(s[1..], t))
  }

  /** A product name matches the search term; an empty term matches all. */
  predicate Matches(name: string, search: string)
  {
    search == [] || Contains(name, search)
  }

  /** Every id in `ids` names a product. */
  predicate Listed(products: map<Id, Product>, ids: seq<Id>)
  {
    forall i :: 0 <= i < |ids| ==> ids[i] in products
  }

  /** `listed` lists, once each, exactly the caller's products whose name
      matches the search term. */
  predicate IsListing(products: map<Id, Product>, caller: Id, search: string, listed: seq<Id>)
  {
    && Distinct(listed)
    && Listed(products, listed)
    && forall id :: id in products ==>
         (id in listed <==> products[id].owner == caller && Matches(products[id].name, search))
  }

  /** What one product contributes to the total: price times stock total. */
  function Worth(products: map<Id, Product>, lots: seq<Lot>, id: Id): int
    requires id in products
  {
    products[id].price * StockOf(lots, id)
  }

  /** The inventory value of the listed products. */
  function Value(products: map<Id, Product>, lots: seq<Lot>, ids: seq<Id>): (v: int)
    requires Listed(products, ids)
    ensures (forall i :: 0 <= i < |ids| ==> products[ids[i]].price >= 0) ==> v >= 0
  {
    if ids == [] then 0
    else Value(products, lots, ids[..|ids| - 1]) + Worth(products, lots, ids[|ids| - 1])
  }

  /** The value of two listings one after the other is the sum of their values. */
  lemma {:induction false} ValueAppend(products: map<Id, Product>, lots: seq<Lot>, a: seq<Id>, b: seq<Id>)
    requires Listed(products, a) && Listed(products, b)
    ensures Listed(products, a + b)
    ensures Value(products, lots, a + b) == Value(products, lots, a) + Value(products, lots, b)
    decreases |b|
  {
    if b != [] {
      var c := a + b;
      assert c[..|c| - 1] == a + b[..|b| - 1];
      ValueAppend(products, lots, a, b[..|b| - 1]);
    } else {
      assert a + b == a;
    }
  }

  /** Taking one product out of a listing takes its worth off the value. */
  lemma ValueRemove(products: map<Id, Product>, lots: seq<Lot>, b: seq<Id>, i: nat)
    requires Listed(products, b) && i < |b|
    ensures Listed(products, b[..i] + b[i + 1..])
    ensures Value(products, lots, b) == Value(products, lots, b[..i] + b[i + 1..]) + Worth(products, lots, b[i])
  {
    assert b == (b[..i] + [b[i]]) + b[i + 1..];
    assert Listed(products, b[..i]) && Listed(products, b[i + 1..]);
    ValueAppend(products, lots, b[..i], [b[i]]);
    ValueAppend(products, lots, b[..i] + [b[i]], b[i + 1..]);
    ValueAppend(products, lots, b[..i], b[i + 1..]);
    assert Value(products, lots, [b[i]]) == Worth(products, lots, b[i]) by {
      assert [b[i]][..0] == [];
    }
  }

  /** The total does not depend on the order of the listing. */
  lemma {:induction false} ValuePermutation(products: map<Id, Product>, lots: seq<Lot>, a: seq<Id>, b: seq<Id>)
    requires Listed(products, a) && multiset(a) == multiset(b)
    ensures Listed(products, b)
    ensures Value(products, lots, a) == Value(products, lots, b)
    decreases |a|
  {
    assert Listed(products, b) by {
      forall i | 0 <= i < |b| ensures b[i] in products {
        assert b[i] in multiset(b);
        assert b[i] in a;
      }
    }
    if a != [] {
      var x := a[|a| - 1];
      var a' := a[..|a| - 1];
      assert a == a' + [x];
      assert x in multiset(b);
      var i :| 0 <= i < |b| && b[i] == x;
      var b' := b[..i] + b[i + 1..];
      assert b == b[..i] + [x] + b[i + 1..];
      assert multiset(a') == multiset(a) - multiset{x};
      assert multiset(b') == multiset(b) - multiset{x};
      ValuePermutation(products, lots, a', b');
      ValueRemove(products, lots, b, i);
    }
  }

  /** A product is low on stock when its stock total is at most its minimum. */
  predicate Low(products: map<Id, Product>, lots: seq<Lot>, id: Id)
    requires id in products
  {
    StockOf(lots, id) <= products[id].minStock
  }

  /** The listed products low on stock, in listing order. */
  function Alerts(products: map<Id, Product>, lots: seq<Lot>, ids: seq<Id>): (r: seq<Id>)
    requires Listed(products, ids)
    ensures |r| <= |ids|
    ensures forall x :: x in r <==> x in ids && x in products && Low(products, lots, x)
  {
    if ids == [] then []
    else
      var last := ids[|ids| - 1];
      Alerts(products, lots, ids[..|ids| - 1]) + (if Low(products, lots, last) then [last] else [])
  }

  /** Alerts of two listings one after the other are the alerts of the first
      followed by the alerts of the second: the alert list keeps listing order. */
  lemma {:induction false} AlertsAppend(products: map<Id, Product>, lots: seq<Lot>, a: seq<Id>, b: seq<Id>)
    requires Listed(products, a) && Listed(products, b)
    ensures Listed(products, a + b)
    ensures Alerts(products, lots, a + b) == Alerts(products, lots, a) + Alerts(products, lots, b)
    decreases |b|
  {
    if b != [] {
      var c := a + b;
      assert c[..|c| - 1] == a + b[..|b| - 1];
      AlertsAppend(products, lots, a, b[..|b| - 1]);
    } else {
      assert a + b == a;
    }
  }

  /** The number of days ahead the expiring count looks. */
  const ExpiryWindow: int := 30

  /** A batch of the caller holding stock whose expiration date falls
      between today and today + 30 days, both included. */
  predicate Expiring(products: map<Id, Product>, caller: Id, today: Day, l: Lot)
  {
    && l.product in products
    && products[l.product].owner == caller
    && l.quantity > 0
    && l.expires.Some?
    && today <= l.expires.value <= today + ExpiryWindow
  }

  /** How many of `lots` are expiring. */
  function ExpiringCount(products: map<Id, Product>, caller: Id, today: Day, lots: seq<Lot>): (n: nat)
    ensures n <= |lots|
    ensures (forall i :: 0 <= i < |lots| ==> !Expiring(products, caller, today, lots[i])) ==> n == 0
  {
    if lots == [] then 0
    else ExpiringCount(products, caller, today, lots[..|lots| - 1])
         + (if Expiring(products, caller, today, lots[|lots| - 1]) then 1 else 0)
  }

  /** The positions of the expiring batches among the first `n`. */
  function ExpiringAt(products: map<Id, Product>, caller: Id, today: Day, lots: seq<Lot>, n: nat): set<nat>
    requires n <= |lots|
  {
    set i: nat | i < n && Expiring(products, caller, today, lots[i])
  }

  /** The expiring count is the number of expiring batches. */
  lemma {:induction false} ExpiringCountIsSize(products: map<Id, Product>, caller: Id, today: Day, lots: seq<Lot>)
    ensures ExpiringCount(products, caller, today, lots) == |ExpiringAt(products, caller, today, lots, |lots|)|
    decreases |lots|
  {
    if lots != [] {
      var n := |lots| - 1;
      var front := lots[..n];
      ExpiringCountIsSize(products, caller, today, front);
      var before := ExpiringAt(products, caller, today, front, n);
      var after := ExpiringAt(products, caller, today, lots, n + 1);
      assert ExpiringAt(products, caller, today, lots, n) == before;
      if Expiring(products, caller, today, lots[n]) {
        assert after == before + {n};
      } else {
        assert after == before;
      }
    }
  }

  /** What the home view shows. */
  datatype View = View(products: seq<Id>, alerts: seq<Id>, total: int, critical: nat, expiring: nat)

  /** The home view: the listing, its total value accumulated product by
      product, its alerts and their count, and the expiring count over all
      of the caller's batches, whatever the search term. */
  method Home(store: Store, caller: Id, search: string, listed: seq<Id>, today: Day) returns (v: View)
    requires IsListing(store.products, caller, search, listed)
    ensures v.products == listed
    ensures v.total == Value(store.products, store.lots, listed)
    ensures v.alerts == Alerts(store.products, store.lots, listed)
    ensures v.critical == |v.alerts|
    ensures v.expiring == ExpiringCount(store.products, caller, today, store.lots)
  {
    var total := 0;
    var k := 0;
    while k < |listed|
      invariant 0 <= k <= |listed|
      invariant Listed(store.products, listed[..k])
      invariant total == Value(store.products, store.lots, listed[..k])
    {
      var id := listed[k];
      assert listed[..k + 1][..k] == listed[..k];
      total := total + store.products[id].price * StockOf(store.lots, id);
      k := k + 1;
    }
    assert listed[..k] == listed;
    var alerts := Alerts(store.products, store.lots, listed);
    var expiring := ExpiringCount(store.products, caller, today, store.lots);
    v := View(listed, alerts, total, |alerts|, expiring);
  }
}
