/** The state that one `useCart()` call creates: a cart whose list of line
    items is changed in place by addToCart, removeFromCart and
    updateQuantity. Each operation runs the same first-match scan that
    `find`/`findIndex` perform and then changes at most one place of the list. */
module UseCart {
  import opened CartSpec

  class Cart<K(==), P> {
    /** `cartItems`: the ordered list of line items. */
    var items: seq<LineItem<K, P>>

    /** The cart invariant: no two items share an id. */
    ghost predicate Valid()
      reads this
    {
      UniqueIds(items)
    }

    /** A fresh cart is empty. */
    constructor ()
      ensures Valid() && items == []
    {
      items := [];
    }

    /** The scan behind `find` and `findIndex`: the position of the first item
        with `id`, or -1 when no item has it. */
    method Find(id: K) returns (i: int)
      ensures i == IndexOf(items, id)
    {
      i := 0;
      while i < |items| && items[i].id != id
        invariant 0 <= i <= |items|
        invariant forall j :: 0 <= j < i ==> items[j].id != id
      {
        i := i + 1;
      }
      if i == |items| {
        i := -1;
      }
    }

    /** addToCart: one more unit of the first item with the product's id, or a
        new item with quantity 1 appended at the end. */
    method AddToCart(product: Product<K, P>)
      modifies this
      ensures items == Added(old(items), product)
      ensures old(Valid()) ==> Valid()
    {
      var i := Find(product.id);
      if i != -1 {
        AddExisting(items, product, i);
        if Valid() {
          QuantityChangeKeepsUnique(items, i, items[i].quantity + 1);
        }
        items := items[i := items[i].(quantity := items[i].quantity + 1)];
      } else {
        AddNew(items, product);
        if Valid() {
          AppendKeepsUnique(items, NewItem(product));
        }
        items := items + [LineItem(product.id, product.payload, 1)];
      }
    }

    /** removeFromCart: the first item with `id` is spliced out; nothing
        happens when no item has it. */
    method RemoveFromCart(id: K)
      modifies this
      ensures items == Removed(old(items), id)
      ensures old(Valid()) ==> Valid() && !Has(items, id)
    {
      var i := Find(id);
      if Valid() {
        RemoveKeepsUnique(items, id);
        RemoveDeletesId(items, id);
      }
      if i != -1 {
        RemovePresent(items, id, i);
        items := items[..i] + items[i + 1..];
      } else {
        RemoveAbsent(items, id);
      }
    }

    /** updateQuantity: the first item with `id` gets quantity `quantity`, as
        given and unchecked; nothing happens when no item has it. */
    method UpdateQuantity(id: K, quantity: int)
      modifies this
      ensures items == Updated(old(items), id, quantity)
      ensures old(Valid()) ==> Valid()
    {
      var i := Find(id);
      if Valid() {
        UpdateKeepsUnique(items, id, quantity);
      }
      if i != -1 {
        UpdatePresent(items, id, quantity, i);
        items := items[i := items[i].(quantity := quantity)];
      } else {
        UpdateAbsent(items, id, quantity);
      }
    }
  }

  /** The sample session: add A, add A again, add B, set B to 5, remove A. */
  method Scenario() returns (final: seq<LineItem<int, string>>)
    ensures final == [LineItem(2, "B", 5)]
  {
    var cart := new Cart<int, string>();
    cart.AddToCart(Product(1, "A"));
    assert cart.items == [LineItem(1, "A", 1)];
    cart.AddToCart(Product(1, "A"));
    assert cart.items == [LineItem(1, "A", 2)];
    cart.AddToCart(Product(2, "B"));
    assert cart.items == [LineItem(1, "A", 2), LineItem(2, "B", 1)];
    cart.UpdateQuantity(2, 5);
    assert cart.items == [LineItem(1, "A", 2), LineItem(2, "B", 5)];
    cart.RemoveFromCart(1);
    final := cart.items;
  }
}
