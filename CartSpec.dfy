/** Values of the shopping cart and the reference meaning of its three
    operations, stated on plain sequences of line items.

    Lookups follow JavaScript's `find`/`findIndex`: they return the FIRST
    item whose id matches. Every definition here is total over all
    sequences, including ones with repeated ids; the unique-id invariant
    is a separate predicate that the operations are proved to keep. */
module CartSpec {

  /** What a caller hands to addToCart: an id plus the other product fields,
      which the cart copies without looking at them. */
  datatype Product<K, P> = Product(id: K, payload: P)

  /** One entry of the cart: the product's id, its copied fields and a count. */
  datatype LineItem<K, P> = LineItem(id: K, payload: P, quantity: int)

  /** The item that `{ ...product, quantity: 1 }` creates. */
  function NewItem<K, P>(p: Product<K, P>): (r: LineItem<K, P>)
  {
    LineItem(p.id, p.payload, 1)
  }

  /** True when some item of `s` carries `id`. */
  predicate Has<K(==), P>(s: seq<LineItem<K, P>>, id: K)
  {
    exists j :: 0 <= j < |s| && s[j].id == id
  }

  /** The cart invariant: no two items share an id. */
  predicate UniqueIds<K(==), P>(s: seq<LineItem<K, P>>)
  {
    forall i, j :: 0 <= i < j < |s| ==> s[i].id != s[j].id
  }

  /** Position of the first item with `id`, or -1 when there is none,
      as `findIndex` answers. */
  function IndexOf<K(==), P>(s: seq<LineItem<K, P>>, id: K): (r: int)
    ensures -1 <= r < |s|
    ensures r == -1 <==> !Has(s, id)
    ensures r >= 0 ==> s[r].id == id && forall j :: 0 <= j < r ==> s[j].id != id
  {
    if s == [] then -1
    else if s[0].id == id then 0
    else
      var r' := IndexOf(s[1..], id);
      if r' == -1 then -1 else r' + 1
  }

  /** addToCart, item by item: the first item with the product's id gets one
      more unit; when the end is reached without a match, a new item is
      appended. */
  function Added<K(==), P>(s: seq<LineItem<K, P>>, p: Product<K, P>): (r: seq<LineItem<K, P>>)
  {
    if s == [] then [NewItem(p)]
    else if s[0].id == p.id then [s[0].(quantity := s[0].quantity + 1)] + s[1..]
    else [s[0]] + Added(s[1..], p)
  }

  /** removeFromCart, item by item: the first item with `id` is dropped. */
  function Removed<K(==), P>(s: seq<LineItem<K, P>>, id: K): (r: seq<LineItem<K, P>>)
  {
    if s == [] then []
    else if s[0].id == id then s[1..]
    else [s[0]] + Removed(s[1..], id)
  }

  /** updateQuantity, item by item: the first item with `id` gets quantity `q`. */
  function Updated<K(==), P>(s: seq<LineItem<K, P>>, id: K, q: int): (r: seq<LineItem<K, P>>)
  {
    if s == [] then []
    else if s[0].id == id then [s[0].(quantity := q)] + s[1..]
    else [s[0]] + Updated(s[1..], id, q)
  }

  // ---------------------------------------------------------------------
  // addToCart

  /** A product whose id is not in the cart is appended, with quantity 1 and
      its own fields, after all earlier items, which are unchanged. */
  lemma {:induction false} AddNew<K, P>(s: seq<LineItem<K, P>>, p: Product<K, P>)
    requires !Has(s, p.id)
    ensures Added(s, p) == s + [LineItem(p.id, p.payload, 1)]
  {
    if s != [] {
      assert s[0].id != p.id;
      assert !Has(s[1..], p.id) by {
        forall j | 0 <= j < |s[1..]| ensures s[1..][j].id != p.id {
          assert s[1..][j] == s[j + 1];
        }
      }
      AddNew(s[1..], p);
      assert s == [s[0]] + s[1..];
    }
  }

  /** A product whose id first occurs at position `i` adds exactly one to that
      item's quantity; the length, the order, that item's id and fields and
      every other item are unchanged, and the product's own fields are
      discarded. */
  lemma {:induction false} AddExisting<K, P>(s: seq<LineItem<K, P>>, p: Product<K, P>, i: nat)
    requires i < |s| && s[i].id == p.id
    requires forall j :: 0 <= j < i ==> s[j].id != p.id
    ensures Added(s, p) == s[i := s[i].(quantity := s[i].quantity + 1)]
  {
    if i > 0 {
      assert s[0].id != p.id;
      AddExisting(s[1..], p, i - 1);
      assert s == [s[0]] + s[1..];
    }
  }

  // ---------------------------------------------------------------------
  // removeFromCart

  /** Removing an id whose first occurrence is at `i` deletes exactly that
      element and keeps the others in their order. */
  lemma {:induction false} RemovePresent<K, P>(s: seq<LineItem<K, P>>, id: K, i: nat)
    requires i < |s| && s[i].id == id
    requires forall j :: 0 <= j < i ==> s[j].id != id
    ensures Removed(s, id) == s[..i] + s[i + 1..]
    ensures |Removed(s, id)| == |s| - 1
  {
    if i > 0 {
      assert s[0].id != id;
      RemovePresent(s[1..], id, i - 1);
      assert s[1..][..i - 1] == s[1..i];
      assert s[1..][i..] == s[i + 1..];
      assert s[..i] == [s[0]] + s[1..i];
    }
  }

  /** Removing an id that is not in the cart changes nothing. */
  lemma {:induction false} RemoveAbsent<K, P>(s: seq<LineItem<K, P>>, id: K)
    requires !Has(s, id)
    ensures Removed(s, id) == s
  {
    if s != [] {
      assert s[0].id != id;
      assert !Has(s[1..], id) by {
        forall j | 0 <= j < |s[1..]| ensures s[1..][j].id != id {
          assert s[1..][j] == s[j + 1];
        }
      }
      RemoveAbsent(s[1..], id);
      assert s == [s[0]] + s[1..];
    }
  }

  /** In a cart with unique ids, the removed id no longer occurs. */
  lemma RemoveDeletesId<K, P>(s: seq<LineItem<K, P>>, id: K)
    requires UniqueIds(s)
    ensures !Has(Removed(s, id), id)
  {
    var i := IndexOf(s, id);
    if i == -1 {
      RemoveAbsent(s, id);
    } else {
      RemovePresent(s, id, i);
      var r := Removed(s, id);
      forall j | 0 <= j < |r| ensures r[j].id != id {
        if j < i {
          assert r[j] == s[j];
        } else {
          assert r[j] == s[j + 1];
        }
      }
    }
  }

  /** In a cart with unique ids, removing the same id twice is removing it once. */
  lemma RemoveTwice<K, P>(s: seq<LineItem<K, P>>, id: K)
    requires UniqueIds(s)
    ensures Removed(Removed(s, id), id) == Removed(s, id)
  {
    RemoveDeletesId(s, id);
    RemoveAbsent(Removed(s, id), id);
  }

  // ---------------------------------------------------------------------
  // updateQuantity

  /** Updating an id whose first occurrence is at `i` sets that item's quantity
      to exactly `q`; its id and fields, the order, the length and every other
      item are unchanged. */
  lemma {:induction false} UpdatePresent<K, P>(s: seq<LineItem<K, P>>, id: K, q: int, i: nat)
    requires i < |s| && s[i].id == id
    requires forall j :: 0 <= j < i ==> s[j].id != id
    ensures Updated(s, id, q) == s[i := s[i].(quantity := q)]
  {
    if i > 0 {
      assert s[0].id != id;
      UpdatePresent(s[1..], id, q, i - 1);
      assert s == [s[0]] + s[1..];
    }
  }

  /** Updating an id that is not in the cart changes nothing, whatever `q` is. */
  lemma {:induction false} UpdateAbsent<K, P>(s: seq<LineItem<K, P>>, id: K, q: int)
    requires !Has(s, id)
    ensures Updated(s, id, q) == s
  {
    if s != [] {
      assert s[0].id != id;
      assert !Has(s[1..], id) by {
        forall j | 0 <= j < |s[1..]| ensures s[1..][j].id != id {
          assert s[1..][j] == s[j + 1];
        }
      }
      UpdateAbsent(s[1..], id, q);
      assert s == [s[0]] + s[1..];
    }
  }

  /** The quantity is overwritten, not added to: of two updates of one id only
      the last one is seen. */
  lemma {:induction false} UpdateOverwrites<K, P>(s: seq<LineItem<K, P>>, id: K, q1: int, q2: int)
    ensures Updated(Updated(s, id, q1), id, q2) == Updated(s, id, q2)
  {
    if s != [] && s[0].id != id {
      UpdateOverwrites(s[1..], id, q1, q2);
    }
  }

  // ---------------------------------------------------------------------
  // The unique-id invariant

  /** Appending an item whose id is new keeps ids unique. */
  lemma AppendKeepsUnique<K, P>(s: seq<LineItem<K, P>>, x: LineItem<K, P>)
    requires UniqueIds(s) && !Has(s, x.id)
    ensures UniqueIds(s + [x])
  {
    var t := s + [x];
    forall i, j | 0 <= i < j < |t| ensures t[i].id != t[j].id {
      if j == |s| {
        assert t[i] == s[i];
      } else {
        assert t[i] == s[i] && t[j] == s[j];
      }
    }
  }

  /** Changing only the quantity of one item keeps ids unique. */
  lemma QuantityChangeKeepsUnique<K, P>(s: seq<LineItem<K, P>>, i: nat, q: int)
    requires UniqueIds(s) && i < |s|
    ensures UniqueIds(s[i := s[i].(quantity := q)])
  {
    var t := s[i := s[i].(quantity := q)];
    forall a, b | 0 <= a < b < |t| ensures t[a].id != t[b].id {
      assert t[a].id == s[a].id && t[b].id == s[b].id;
    }
  }

  /** addToCart keeps ids unique. */
  lemma AddKeepsUnique<K, P>(s: seq<LineItem<K, P>>, p: Product<K, P>)
    requires UniqueIds(s)
    ensures UniqueIds(Added(s, p))
  {
    var i := IndexOf(s, p.id);
    if i == -1 {
      AddNew(s, p);
      AppendKeepsUnique(s, NewItem(p));
    } else {
      AddExisting(s, p, i);
      QuantityChangeKeepsUnique(s, i, s[i].quantity + 1);
    }
  }

  /** removeFromCart keeps ids unique. */
  lemma RemoveKeepsUnique<K, P>(s: seq<LineItem<K, P>>, id: K)
    requires UniqueIds(s)
    ensures UniqueIds(Removed(s, id))
  {
    var i := IndexOf(s, id);
    if i == -1 {
      RemoveAbsent(s, id);
    } else {
      RemovePresent(s, id, i);
      var r := Removed(s, id);
      forall a, b | 0 <= a < b < |r| ensures r[a].id != r[b].id {
        var a' := if a < i then a else a + 1;
        var b' := if b < i then b else b + 1;
        assert r[a] == s[a'] && r[b] == s[b'];
      }
    }
  }

  /** updateQuantity keeps ids unique. */
  lemma UpdateKeepsUnique<K, P>(s: seq<LineItem<K, P>>, id: K, q: int)
    requires UniqueIds(s)
    ensures UniqueIds(Updated(s, id, q))
  {
    var i := IndexOf(s, id);
    if i == -1 {
      UpdateAbsent(s, id, q);
    } else {
      UpdatePresent(s, id, q, i);
      QuantityChangeKeepsUnique(s, i, q);
    }
  }

  // ---------------------------------------------------------------------
  // Carts built by addToCart alone

  /** The cart after calling addToCart with each product of `ps` in turn. */
  function AddAll<K(==), P>(s: seq<LineItem<K, P>>, ps: seq<Product<K, P>>): (r: seq<LineItem<K, P>>)
    decreases |ps|
  {
    if ps == [] then s else AddAll(Added(s, ps[0]), ps[1..])
  }

  /** How many products of `ps` carry `id`. */
  function Count<K(==), P>(ps: seq<Product<K, P>>, id: K): (r: nat)
  {
    if ps == [] then 0 else (if ps[0].id == id then 1 else 0) + Count(ps[1..], id)
  }

  /** The quantity a lookup by `id` sees; 0 when the id is absent. */
  function QuantityOf<K(==), P>(s: seq<LineItem<K, P>>, id: K): (r: int)
  {
    var i := IndexOf(s, id);
    if i == -1 then 0 else s[i].quantity
  }

  /** Every stored quantity is at least 1. */
  predicate Positive<K(==), P>(s: seq<LineItem<K, P>>)
  {
    forall j :: 0 <= j < |s| ==> s[j].quantity >= 1
  }

  /** One addToCart raises the quantity seen for the product's id by one and
      leaves the quantity seen for every other id alone. */
  lemma {:induction false} QuantityAfterAdd<K, P>(s: seq<LineItem<K, P>>, p: Product<K, P>, id: K)
    ensures QuantityOf(Added(s, p), id) == QuantityOf(s, id) + (if p.id == id then 1 else 0)
  {
    if s != [] && s[0].id != p.id {
      QuantityAfterAdd(s[1..], p, id);
      var t := Added(s, p);
      assert t == [s[0]] + Added(s[1..], p);
      assert t[1..] == Added(s[1..], p);
    }
  }

  /** addToCart keeps every quantity at least 1. */
  lemma AddKeepsPositive<K, P>(s: seq<LineItem<K, P>>, p: Product<K, P>)
    requires Positive(s)
    ensures Positive(Added(s, p))
  {
    var i := IndexOf(s, p.id);
    if i == -1 {
      AddNew(s, p);
    } else {
      AddExisting(s, p, i);
    }
  }

  /** After a run of addToCart calls, the quantity seen for an id has grown by
      the number of those calls that carried it. */
  lemma {:induction false} QuantityAfterAddAll<K, P>(s: seq<LineItem<K, P>>, ps: seq<Product<K, P>>, id: K)
    ensures QuantityOf(AddAll(s, ps), id) == QuantityOf(s, id) + Count(ps, id)
    decreases |ps|
  {
    if ps != [] {
      QuantityAfterAdd(s, ps[0], id);
      QuantityAfterAddAll(Added(s, ps[0]), ps[1..], id);
    }
  }

  /** A run of addToCart calls keeps ids unique and quantities at least 1. */
  lemma {:induction false} AddAllKeepsInvariants<K, P>(s: seq<LineItem<K, P>>, ps: seq<Product<K, P>>)
    requires UniqueIds(s) && Positive(s)
    ensures UniqueIds(AddAll(s, ps)) && Positive(AddAll(s, ps))
    decreases |ps|
  {
    if ps != [] {
      AddKeepsUnique(s, ps[0]);
      AddKeepsPositive(s, ps[0]);
      AddAllKeepsInvariants(Added(s, ps[0]), ps[1..]);
    }
  }

  /** Starting from the empty cart and calling only addToCart, ids stay unique,
      every item's quantity is the number of times its id was added (so at
      least 1), and an id is in the cart exactly when it was added. */
  lemma AddOnlyFromEmpty<K, P>(ps: seq<Product<K, P>>)
    ensures UniqueIds(AddAll([], ps))
    ensures forall j :: 0 <= j < |AddAll([], ps)| ==>
              AddAll([], ps)[j].quantity == Count(ps, AddAll([], ps)[j].id) >= 1
    ensures forall id :: Has(AddAll([], ps), id) <==> Count(ps, id) > 0
  {
    var r: seq<LineItem<K, P>> := AddAll([], ps);
    AddAllKeepsInvariants([], ps);
    forall j | 0 <= j < |r| ensures r[j].quantity == Count(ps, r[j].id) {
      QuantityAfterAddAll([], ps, r[j].id);
      assert IndexOf(r, r[j].id) == j;
    }
    forall id ensures Has(r, id) <==> Count(ps, id) > 0 {
      QuantityAfterAddAll([], ps, id);
    }
  }
}
