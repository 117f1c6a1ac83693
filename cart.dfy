/**
 * The ShoppingCart component's state. Products are objects: `selectedProducts`
 * is filtered out of `products` and so holds the SAME objects, and
 * handleSelection and handleQuantityChange change those objects in place.
 * Remote calls become parameters that choose the success or failure branch.
 */
module Cart {
  import opened Basics
  import opened CartLogic

  /** One product object of the cart's list. */
  class Product {
    var id: string
    var msrp: int
    var quantity: int
    var pictureUrlField: string
    var pictureUrl: string
    var isSelected: bool
    var rowClass: Option<string>

    /** The current values of the object's fields. */
    function View(): Row
      reads this
    {
      Row(id, msrp, quantity, pictureUrlField, pictureUrl, isSelected, rowClass)
    }

    /** A new object literal with the given fields. */
    constructor (r: Row)
      ensures View() == r
    {
      id, msrp, quantity := r.id, r.msrp, r.quantity;
      pictureUrlField, pictureUrl := r.pictureUrlField, r.pictureUrl;
      isSelected, rowClass := r.isSelected, r.rowClass;
    }
  }

  /** The current field values of a list of product objects. */
  function Views(ps: seq<Product>): (rows: seq<Row>)
    reads ps
    ensures |rows| == |ps|
  {
    seq(|ps|, i reads ps requires 0 <= i < |ps| => ps[i].View())
  }

  /** No object occurs twice in the list. */
  predicate Distinct(ps: seq<Product>)
  {
    ps == [] || (ps[0] !in ps[1..] && Distinct(ps[1..]))
  }

  /** Distinct means that any two positions hold different objects. */
  lemma {:induction false} DistinctPairwise(ps: seq<Product>)
    ensures Distinct(ps) <==> forall i, j :: 0 <= i < j < |ps| ==> ps[i] != ps[j]
  {
    if ps != [] {
      DistinctPairwise(ps[1..]);
      assert forall k :: 0 < k < |ps| ==> ps[k] == ps[1..][k - 1];
    }
  }

  /** In a distinct list, the object at `i` occurs at no other position. */
  lemma DistinctAt(ps: seq<Product>, i: nat)
    requires Distinct(ps) && i < |ps|
    ensures forall k :: 0 <= k < |ps| && k != i ==> ps[k] != ps[i]
  {
    DistinctPairwise(ps);
  }

  /** Appending an object the list lacks keeps it distinct. */
  lemma {:induction false} DistinctSnoc(ps: seq<Product>, p: Product)
    requires Distinct(ps) && p !in ps
    ensures Distinct(ps + [p])
  {
    if ps != [] {
      assert (ps + [p])[1..] == ps[1..] + [p];
      DistinctSnoc(ps[1..], p);
    } else {
      assert [p][1..] == [];
    }
  }

  /** The objects at the given positions (no field is read). */
  function Pick(ps: seq<Product>, idx: seq<nat>): (picked: seq<Product>)
    requires forall j :: 0 <= j < |idx| ==> idx[j] < |ps|
    ensures |picked| == |idx|
  {
    seq(|idx|, j requires 0 <= j < |idx| => ps[idx[j]])
  }

  /** Picking at increasing positions of a distinct list gives a distinct list. */
  lemma PickDistinct(ps: seq<Product>, idx: seq<nat>)
    requires forall j :: 0 <= j < |idx| ==> idx[j] < |ps|
    requires forall a, b :: 0 <= a < b < |idx| ==> idx[a] < idx[b]
    requires Distinct(ps)
    ensures Distinct(Pick(ps, idx))
  {
    DistinctPairwise(ps);
    DistinctPairwise(Pick(ps, idx));
  }

  /** The views of the picked objects are the picked views. */
  lemma ViewsPick(ps: seq<Product>, idx: seq<nat>)
    requires forall j :: 0 <= j < |idx| ==> idx[j] < |ps|
    ensures Views(Pick(ps, idx)) == PickRows(Views(ps), idx)
  {
  }

  /**
   * `ps.filter(...)` on objects: the very objects whose fields meet `c`, in
   * list order.
   */
  function FilterProducts(ps: seq<Product>, c: Criterion): seq<Product>
    reads ps
  {
    Pick(ps, KeptIndices(Views(ps), c))
  }

  /** The views of the filtered objects are the filtered views. */
  lemma FilterProductsViews(ps: seq<Product>, c: Criterion)
    ensures Views(FilterProducts(ps, c)) == FilterRows(Views(ps), c)
  {
    ViewsPick(ps, KeptIndices(Views(ps), c));
    PickKeptIndices(Views(ps), c);
  }

  /**
   * The filter keeps the very objects of the list whose fields meet `c`, and
   * no other object.
   */
  lemma FilterProductsMembers(ps: seq<Product>, c: Criterion)
    ensures forall p :: p in FilterProducts(ps, c) <==> p in ps && Keeps(c, p.View())
  {
    var idx := KeptIndices(Views(ps), c);
    KeptIndicesExact(Views(ps), c);
    forall p
      ensures p in FilterProducts(ps, c) <==> p in ps && Keeps(c, p.View())
    {
      if p in FilterProducts(ps, c) {
        var j :| 0 <= j < |idx| && Pick(ps, idx)[j] == p;
        assert idx[j] in idx;
      }
      if p in ps && Keeps(c, p.View()) {
        var k :| 0 <= k < |ps| && ps[k] == p;
        assert Keeps(c, Views(ps)[k]);
        var j :| 0 <= j < |idx| && idx[j] == k;
        assert Pick(ps, idx)[j] == p;
      }
    }
  }

  /** Views distribute over concatenation. */
  lemma ViewsAppend(a: seq<Product>, b: seq<Product>)
    ensures Views(a + b) == Views(a) + Views(b)
  {
  }

  /** Filtering keeps a list distinct. */
  lemma FilterProductsDistinct(ps: seq<Product>, c: Criterion)
    requires Distinct(ps)
    ensures Distinct(FilterProducts(ps, c))
  {
    PickDistinct(ps, KeptIndices(Views(ps), c));
  }

  /** The message published on the checkout channel. */
  datatype CheckoutMessage = CheckoutMessage(selectedProducts: seq<Product>)

  /** The object literals a `map` creates: new, distinct objects with the given fields. */
  method NewProducts(rows: seq<Row>) returns (ps: seq<Product>)
    ensures Views(ps) == rows
    ensures Distinct(ps)
    ensures forall i :: 0 <= i < |ps| ==> fresh(ps[i])
  {
    ps := [];
    var i := 0;
    while i < |rows|
      invariant 0 <= i <= |rows|
      invariant Views(ps) == rows[..i]
      invariant forall k :: 0 <= k < |ps| ==> fresh(ps[k])
      invariant Distinct(ps)
    {
      var p := new Product(rows[i]);
      DistinctSnoc(ps, p);
      ViewsAppend(ps, [p]);
      assert rows[..i + 1] == rows[..i] + [rows[i]];
      ps := ps + [p];
      i := i + 1;
    }
    assert rows[..i] == rows;
  }

  class ShoppingCart {
    var products: seq<Product>
    var selectedProducts: seq<Product>
    var totalPrice: int
    /** The select-all checkbox element's `checked` and `indeterminate`. */
    var selectAllCheckbox: Checkbox
    /** `delayTimeout`: the product whose quantity update is waiting for the timer. */
    var pendingUpdate: Option<Product>

    /**
     * The object invariant: the list holds no object twice, and the total is
     * the sum of `MSRP__c * Quantity__c` over the current selection.
     */
    ghost predicate Valid()
      reads this, products, selectedProducts
    {
      Distinct(products) && totalPrice == Total(Views(selectedProducts))
    }

    /** The field initialisers: empty lists, a zero total, no timer. */
    constructor ()
      ensures Valid()
      ensures products == [] && selectedProducts == [] && totalPrice == 0
      ensures selectAllCheckbox == Checkbox(false, false) && pendingUpdate == None
    {
      products, selectedProducts, totalPrice := [], [], 0;
      selectAllCheckbox, pendingUpdate := Checkbox(false, false), None;
    }

    /** The `isCartEmpty` getter: no product is listed. */
    predicate IsCartEmpty()
      reads this
      ensures IsCartEmpty() <==> products == []
    {
      |products| == 0
    }

    /**
     * refreshProducts: on a successful fetch every product is replaced by a new,
     * unselected object with the fetched fields, in order; the selection, the
     * total, the checkbox and the timer are left as they were. A failed fetch
     * (`None`) changes nothing.
     */
    method RefreshProducts(fetched: Option<seq<Record>>)
      requires Valid()
      modifies this
      ensures Valid()
      ensures fetched.Some? ==> Views(products) == Load(fetched.value, None)
      ensures fetched.Some? ==> forall i :: 0 <= i < |products| ==> fresh(products[i])
      ensures fetched.None? ==> products == old(products)
      ensures selectedProducts == old(selectedProducts) && totalPrice == old(totalPrice)
      ensures selectAllCheckbox == old(selectAllCheckbox) && pendingUpdate == old(pendingUpdate)
    {
      if fetched.Some? {
        products := NewProducts(Load(fetched.value, None));
      }
    }

    /**
     * wiredProducts: as refreshProducts, but each new object also gets the row
     * class `slds-hint-parent`. Without data (`None`) nothing changes.
     */
    method WiredProducts(data: Option<seq<Record>>)
      requires Valid()
      modifies this
      ensures Valid()
      ensures data.Some? ==> Views(products) == Load(data.value, Some(BaseRowClass))
      ensures data.Some? ==> forall i :: 0 <= i < |products| ==> fresh(products[i])
      ensures data.None? ==> products == old(products)
      ensures selectedProducts == old(selectedProducts) && totalPrice == old(totalPrice)
      ensures selectAllCheckbox == old(selectAllCheckbox) && pendingUpdate == old(pendingUpdate)
    {
      if data.Some? {
        products := NewProducts(Load(data.value, Some(BaseRowClass)));
      }
    }

    /**
     * handleSelectAll: every product is replaced by a copy whose `isSelected`
     * is the box's new state; the selection and the total are recomputed and
     * the box is no longer indeterminate.
     */
    method HandleSelectAll(isSelected: bool)
      requires Valid()
      modifies this
      ensures Valid()
      ensures Views(products) == SelectAll(old(Views(products)), isSelected)
      ensures forall i :: 0 <= i < |products| ==> fresh(products[i])
      ensures selectedProducts == FilterProducts(products, SelectedOnly)
      ensures totalPrice == Total(Selected(Views(products)))
      ensures selectAllCheckbox == Checkbox(isSelected, false)
      ensures pendingUpdate == old(pendingUpdate)
    {
      var copies := NewProducts(SelectAll(Views(products), isSelected));
      // the click has already given the box its new state
      var box := selectAllCheckbox.(checked := isSelected);
      if box.indeterminate {
        box := box.(indeterminate := false);
      }
      products, selectAllCheckbox := copies, box;
      RecomputeSelection();
    }

    /**
     * The three statements both selection handlers end with: the selection is
     * the products whose `isSelected` is set, the same objects in list order,
     * and the total is taken over it.
     */
    method RecomputeSelection()
      requires Distinct(products)
      modifies this`selectedProducts, this`totalPrice
      ensures Valid()
      ensures selectedProducts == FilterProducts(products, SelectedOnly)
      ensures totalPrice == Total(Selected(Views(products)))
    {
      var selection := FilterProducts(products, SelectedOnly);
      FilterProductsViews(products, SelectedOnly);
      selectedProducts, totalPrice := selection, Total(Views(selection));
    }

    /** updateSelectAllCheckboxState: the box from the number of selected products. */
    method UpdateSelectAllCheckboxState()
      modifies this`selectAllCheckbox
      ensures selectAllCheckbox == CheckboxFor(|Selected(Views(products))|, |products|)
    {
      var totalProducts := |products|;
      var selectedCount := |FilterProducts(products, SelectedOnly)|;
      selectAllCheckbox := CheckboxFor(selectedCount, totalProducts);
      FilterProductsViews(products, SelectedOnly);
    }

    /**
     * handleSelection: the objects with the chosen id are flipped in place and
     * get the row class of their new state; then the box, the selection and the
     * total are recomputed.
     */
    method HandleSelection(selectedId: string)
      requires Valid()
      modifies this, products
      ensures Valid()
      ensures products == old(products)
      ensures Views(products) == Toggle(old(Views(products)), selectedId)
      ensures selectAllCheckbox == CheckboxFor(|Selected(Views(products))|, |products|)
      ensures selectedProducts == FilterProducts(products, SelectedOnly)
      ensures totalPrice == Total(Selected(Views(products)))
      ensures pendingUpdate == old(pendingUpdate)
    {
      ToggleProducts(selectedId);
      UpdateSelectAllCheckboxState();
      RecomputeSelection();
    }

    /** The `forEach` of handleSelection: the matching objects flip in place. */
    method ToggleProducts(selectedId: string)
      requires Distinct(products)
      modifies products
      ensures Views(products) == Toggle(old(Views(products)), selectedId)
    {
      ghost var before := Views(products);
      var i := 0;
      while i < |products|
        invariant 0 <= i <= |products|
        invariant forall k :: 0 <= k < i ==> products[k].View() == ToggleRow(before[k], selectedId)
        invariant forall k :: i <= k < |products| ==> products[k].View() == before[k]
      {
        var product := products[i];
        DistinctAt(products, i);
        if product.id == selectedId {
          product.isSelected := !product.isSelected;
          product.rowClass := Some(if product.isSelected then SelectedRowClass else BaseRowClass);
        }
        i := i + 1;
      }
      assert Views(products) == Toggle(before, selectedId);
    }

    /**
     * handleDeleteSelected: the ids of the current selection are sent to the
     * delete operation. On success the products carrying one of them are
     * dropped, in order, and the selection and the total are cleared; on
     * failure nothing changes.
     */
    method HandleDeleteSelected(deleteSucceeds: bool) returns (productIds: seq<string>)
      requires Valid()
      modifies this
      ensures Valid()
      ensures productIds == Ids(old(Views(selectedProducts)))
      ensures deleteSucceeds ==>
        products == old(FilterProducts(products, IdNotIn(productIds))) &&
        Views(products) == RemoveIds(old(Views(products)), productIds) &&
        selectedProducts == [] && totalPrice == 0
      ensures !deleteSucceeds ==>
        products == old(products) && selectedProducts == old(selectedProducts) &&
        totalPrice == old(totalPrice)
      ensures selectAllCheckbox == old(selectAllCheckbox) && pendingUpdate == old(pendingUpdate)
    {
      productIds := Ids(Views(selectedProducts));
      if deleteSucceeds {
        var kept := FilterProducts(products, IdNotIn(productIds));
        FilterProductsDistinct(products, IdNotIn(productIds));
        FilterProductsViews(products, IdNotIn(productIds));
        ghost var keptViews := Views(kept);
        products, selectedProducts, totalPrice := kept, [], 0;
        assert Views(products) == keptViews;
      }
    }

    /**
     * handleQuantityChange: the first product with the id gets the new
     * quantity in place, the total is taken again over the selection (which
     * sees the change when it holds that object), and the product is put in the
     * debounce slot. With no such product `find` yields undefined and the
     * handler stops before changing anything.
     */
    method HandleQuantityChange(id: string, value: int) returns (found: bool)
      requires Valid()
      modifies this, products
      ensures Valid()
      ensures products == old(products) && selectedProducts == old(selectedProducts)
      ensures found == FirstIndex(old(Views(products)), id).Some?
      ensures Views(products) == SetQuantity(old(Views(products)), id, value)
      ensures found ==> pendingUpdate == Some(products[FirstIndex(old(Views(products)), id).value])
      ensures !found ==> totalPrice == old(totalPrice) && pendingUpdate == old(pendingUpdate)
      ensures selectAllCheckbox == old(selectAllCheckbox)
    {
      var k := FirstIndex(Views(products), id);
      if k.None? {
        found := false;
        return;
      }
      found := true;
      ghost var before := Views(products);
      DistinctAt(products, k.value);
      var updatedItem := products[k.value];
      updatedItem.quantity := value;
      // the reduce sees the new quantity wherever the selection holds this object
      var selection := Views(selectedProducts);
      totalPrice := Total(selection);
      DelayedFireFilterChangeEvent(updatedItem);
      assert Views(selectedProducts) == selection;
      assert Views(products) == SetQuantity(before, id, value);
    }

    /** handleCheckout: the message carries the current selection (the same objects). */
    method HandleCheckout() returns (message: CheckoutMessage)
      ensures message.selectedProducts == selectedProducts
    {
      message := CheckoutMessage(selectedProducts);
    }

    /**
     * delayedFireFilterChangeEvent: the pending timer is cleared and a new one
     * is started for `updatedItem`, so the slot holds only the latest item.
     */
    method DelayedFireFilterChangeEvent(updatedItem: Product)
      modifies this`pendingUpdate
      ensures pendingUpdate == Debounce(old(pendingUpdate), Changed(updatedItem)).pending
      ensures pendingUpdate == Some(updatedItem)
    {
      pendingUpdate := Some(updatedItem);
    }

    /**
     * The timer fires: the pending product, with the field values it has at
     * that moment, is sent to the update operation, and the slot is empty.
     */
    method FireTimer() returns (sent: Option<Row>)
      modifies this`pendingUpdate
      ensures pendingUpdate == Debounce(old(pendingUpdate), Fired).pending
      ensures sent == match Debounce(old(pendingUpdate), Fired).sent
                      case None => None
                      case Some(p) => Some(p.View())
    {
      if pendingUpdate.Some? {
        sent := Some(pendingUpdate.value.View());
      } else {
        sent := None;
      }
      pendingUpdate := None;
    }
  }
}
