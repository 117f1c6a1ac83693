/**
 * The value-level logic of the shopping cart: the state of one row, the
 * projections the cart computes (`map`, `filter`, `reduce`, `find`), the
 * tri-state rule of the select-all checkbox and the single-slot debounce.
 * Prices and quantities are integers (for example cents).
 */
module CartLogic {
  import opened Basics

  /** The row class every loaded row gets on the wired path. */
  const BaseRowClass := "slds-hint-parent"
  /** The row class of a row that handleSelection has just selected. */
  const SelectedRowClass := "slds-hint-parent selected-row"

  /** A product record as the fetch operation returns it. */
  datatype Record = Record(id: string, msrp: int, quantity: int, pictureUrlField: string)

  /**
   * The fields of one product in the cart: the record's fields, the copy
   * `PictureURL` of `PictureURL__c`, and the UI flags. `rowClass` is `None`
   * while the property is undefined.
   */
  datatype Row = Row(id: string, msrp: int, quantity: int, pictureUrlField: string,
                     pictureUrl: string, isSelected: bool, rowClass: Option<string>)

  /** The row class handleSelection gives a row after flipping it. */
  function RowClassFor(selected: bool): string
  {
    if selected then SelectedRowClass else BaseRowClass
  }

  // ---------------------------------------------------------------- loading

  /** `{ ...product, PictureURL: product.PictureURL__c, isSelected: false [, rowClass] }`. */
  function LoadRow(r: Record, rowClass: Option<string>): Row
  {
    Row(r.id, r.msrp, r.quantity, r.pictureUrlField, r.pictureUrlField, false, rowClass)
  }

  /**
   * The `map` of refreshProducts (`rowClass` = None) and of wiredProducts
   * (`rowClass` = Some(BaseRowClass)): same length and order as the fetched
   * records, their fields kept, every row unselected.
   */
  function Load(data: seq<Record>, rowClass: Option<string>): (rows: seq<Row>)
    ensures |rows| == |data|
    ensures forall i :: 0 <= i < |data| ==>
      rows[i].id == data[i].id && rows[i].msrp == data[i].msrp &&
      rows[i].quantity == data[i].quantity && rows[i].pictureUrlField == data[i].pictureUrlField &&
      rows[i].pictureUrl == data[i].pictureUrlField &&
      !rows[i].isSelected && rows[i].rowClass == rowClass
  {
    seq(|data|, i requires 0 <= i < |data| => LoadRow(data[i], rowClass))
  }

  // ---------------------------------------------------------------- filtering

  /** The two `filter` predicates the cart uses. */
  datatype Criterion = SelectedOnly | IdNotIn(ids: seq<string>)

  predicate Keeps(c: Criterion, r: Row)
  {
    match c
    case SelectedOnly => r.isSelected
    case IdNotIn(ids) => r.id !in ids
  }

  /** `rows.filter(...)`: the rows that meet `c`, in list order. */
  function FilterRows(rows: seq<Row>, c: Criterion): (kept: seq<Row>)
    ensures |kept| <= |rows|
  {
    if rows == [] then []
    else (if Keeps(c, rows[0]) then [rows[0]] else []) + FilterRows(rows[1..], c)
  }

  /** The filter keeps exactly the rows that meet the criterion. */
  lemma {:induction false} FilterRowsMembers(rows: seq<Row>, c: Criterion)
    ensures forall r :: r in FilterRows(rows, c) <==> r in rows && Keeps(c, r)
  {
    if rows != [] {
      FilterRowsMembers(rows[1..], c);
      assert rows == [rows[0]] + rows[1..];
    }
  }

  /** Filtering distributes over concatenation: the kept rows stay in list order. */
  lemma {:induction false} FilterRowsAppend(a: seq<Row>, b: seq<Row>, c: Criterion)
    ensures FilterRows(a + b, c) == FilterRows(a, c) + FilterRows(b, c)
  {
    if a == [] {
      assert a + b == b;
    } else {
      var head := if Keeps(c, a[0]) then [a[0]] else [];
      assert (a + b)[0] == a[0];
      assert (a + b)[1..] == a[1..] + b;
      assert FilterRows(a + b, c) == head + FilterRows(a[1..] + b, c);
      FilterRowsAppend(a[1..], b, c);
      assert FilterRows(a, c) == head + FilterRows(a[1..], c);
    }
  }

  /** The positions of the rows that meet `c`, in increasing order. */
  function KeptIndices(rows: seq<Row>, c: Criterion): (idx: seq<nat>)
    ensures forall j :: 0 <= j < |idx| ==> idx[j] < |rows|
    ensures forall a, b :: 0 <= a < b < |idx| ==> idx[a] < idx[b]
  {
    if rows == [] then []
    else
      var n := |rows| - 1;
      KeptIndices(rows[..n], c) + (if Keeps(c, rows[n]) then [n] else [])
  }

  /** The kept positions are exactly the positions of the rows that meet `c`. */
  lemma {:induction false} KeptIndicesExact(rows: seq<Row>, c: Criterion)
    ensures forall i: nat :: i in KeptIndices(rows, c) <==> i < |rows| && Keeps(c, rows[i])
  {
    if rows != [] {
      var n := |rows| - 1;
      KeptIndicesExact(rows[..n], c);
      var front := KeptIndices(rows[..n], c);
      var back: seq<nat> := if Keeps(c, rows[n]) then [n] else [];
      assert KeptIndices(rows, c) == front + back;
      forall i: nat
        ensures i in KeptIndices(rows, c) <==> i < |rows| && Keeps(c, rows[i])
      {
        assert i in front + back <==> i in front || i in back;
        if i < n {
          assert rows[..n][i] == rows[i];
        }
      }
    }
  }

  /** The rows at the given positions. */
  function PickRows(rows: seq<Row>, idx: seq<nat>): seq<Row>
    requires forall j :: 0 <= j < |idx| ==> idx[j] < |rows|
  {
    seq(|idx|, j requires 0 <= j < |idx| => rows[idx[j]])
  }

  /** Picking from a concatenation of positions concatenates the picks. */
  lemma PickRowsAppend(rows: seq<Row>, front: seq<nat>, back: seq<nat>)
    requires forall j :: 0 <= j < |front| ==> front[j] < |rows|
    requires forall j :: 0 <= j < |back| ==> back[j] < |rows|
    ensures PickRows(rows, front + back) == PickRows(rows, front) + PickRows(rows, back)
  {
  }

  /** Positions inside a prefix pick the same rows from the prefix. */
  lemma PickRowsPrefix(rows: seq<Row>, n: nat, idx: seq<nat>)
    requires n <= |rows|
    requires forall j :: 0 <= j < |idx| ==> idx[j] < n
    ensures PickRows(rows, idx) == PickRows(rows[..n], idx)
  {
  }

  /** Picking the kept positions is filtering. */
  lemma {:induction false} PickKeptIndices(rows: seq<Row>, c: Criterion)
    ensures PickRows(rows, KeptIndices(rows, c)) == FilterRows(rows, c)
  {
    if rows != [] {
      var n := |rows| - 1;
      var last := rows[n];
      PickKeptIndices(rows[..n], c);
      var front := KeptIndices(rows[..n], c);
      var back: seq<nat> := if Keeps(c, last) then [n] else [];
      PickRowsAppend(rows, front, back);
      PickRowsPrefix(rows, n, front);
      assert rows == rows[..n] + [last];
      FilterRowsAppend(rows[..n], [last], c);
      assert [last][1..] == [];
      assert FilterRows([last], c) == PickRows(rows, back);
    }
  }

  /** The selected rows, `products.filter(product => product.isSelected)`. */
  function Selected(rows: seq<Row>): seq<Row>
  {
    FilterRows(rows, SelectedOnly)
  }

  /** The filter keeps every row exactly when every row meets the criterion. */
  lemma {:induction false} KeepsAll(rows: seq<Row>, c: Criterion)
    ensures |FilterRows(rows, c)| == |rows| <==> forall i :: 0 <= i < |rows| ==> Keeps(c, rows[i])
  {
    if rows != [] {
      KeepsAll(rows[1..], c);
      assert forall i :: 1 <= i < |rows| ==> rows[i] == rows[1..][i - 1];
    }
  }

  /** The filter keeps nothing exactly when no row meets the criterion. */
  lemma {:induction false} KeepsNone(rows: seq<Row>, c: Criterion)
    ensures FilterRows(rows, c) == [] <==> forall i :: 0 <= i < |rows| ==> !Keeps(c, rows[i])
  {
    if rows != [] {
      KeepsNone(rows[1..], c);
      assert forall i :: 1 <= i < |rows| ==> rows[i] == rows[1..][i - 1];
    }
  }

  // ---------------------------------------------------------------- totals

  /** The price of one row, `MSRP__c * Quantity__c`. */
  function LineTotal(r: Row): int
  {
    r.msrp * r.quantity
  }

  /** `rows.reduce((total, product) => total + product.MSRP__c * product.Quantity__c, 0)`. */
  function Total(rows: seq<Row>): int
  {
    if rows == [] then 0 else Total(rows[..|rows| - 1]) + LineTotal(rows[|rows| - 1])
  }

  /** The total of a concatenation is the sum of the totals. */
  lemma {:induction false} TotalAppend(a: seq<Row>, b: seq<Row>)
    ensures Total(a + b) == Total(a) + Total(b)
    decreases |b|
  {
    if b == [] {
      assert a + b == a;
    } else {
      assert (a + b)[..|a + b| - 1] == a + b[..|b| - 1];
      assert (a + b)[|a + b| - 1] == b[|b| - 1];
      TotalAppend(a, b[..|b| - 1]);
    }
  }

  /** The total is a sum of the line totals, so it can be taken from the front. */
  lemma TotalCons(r: Row, rows: seq<Row>)
    ensures Total([r] + rows) == LineTotal(r) + Total(rows)
  {
    TotalAppend([r], rows);
    assert [r][..0] == [];
  }

  // ---------------------------------------------------------------- select-all checkbox

  /** The two properties of the select-all `<input type="checkbox">`. */
  datatype Checkbox = Checkbox(checked: bool, indeterminate: bool)

  /** updateSelectAllCheckboxState: the box from the selected count and the product count. */
  function CheckboxFor(selectedCount: nat, productCount: nat): (box: Checkbox)
    ensures box.checked <==> 0 < selectedCount && productCount <= selectedCount
    ensures box.indeterminate <==> 0 < selectedCount < productCount
    ensures !(box.checked && box.indeterminate)
  {
    if selectedCount == 0 then Checkbox(false, false)
    else if selectedCount < productCount then Checkbox(false, true)
    else Checkbox(true, false)
  }

  /**
   * The box follows the rows: checked exactly when there are rows and all are
   * selected, indeterminate exactly when some but not all are, never both.
   */
  lemma CheckboxFollowsSelection(rows: seq<Row>)
    ensures CheckboxFor(|Selected(rows)|, |rows|).checked <==>
      |rows| > 0 && forall i :: 0 <= i < |rows| ==> rows[i].isSelected
    ensures CheckboxFor(|Selected(rows)|, |rows|).indeterminate <==>
      (exists i :: 0 <= i < |rows| && rows[i].isSelected) &&
      (exists i :: 0 <= i < |rows| && !rows[i].isSelected)
    ensures !(CheckboxFor(|Selected(rows)|, |rows|).checked && CheckboxFor(|Selected(rows)|, |rows|).indeterminate)
  {
    KeepsAll(rows, SelectedOnly);
    KeepsNone(rows, SelectedOnly);
  }

  // ---------------------------------------------------------------- select all, toggle one

  /** The `map` of handleSelectAll: `{ ...product, isSelected }`. */
  function SelectAll(rows: seq<Row>, isSelected: bool): (all: seq<Row>)
    ensures |all| == |rows|
  {
    seq(|rows|, i requires 0 <= i < |rows| => rows[i].(isSelected := isSelected))
  }

  /**
   * After select-all every row has the flag, and ids, order, prices,
   * quantities and row classes are kept.
   */
  lemma SelectAllKeepsRows(rows: seq<Row>, isSelected: bool)
    ensures |SelectAll(rows, isSelected)| == |rows|
    ensures forall i :: 0 <= i < |rows| ==>
      SelectAll(rows, isSelected)[i] == rows[i].(isSelected := isSelected)
  {
  }

  /**
   * Selecting all selects every row and charges their whole total; clearing
   * all selects nothing and charges 0.
   */
  lemma {:induction false} SelectAllSelection(rows: seq<Row>, isSelected: bool)
    ensures Selected(SelectAll(rows, isSelected)) == if isSelected then SelectAll(rows, isSelected) else []
    ensures Total(Selected(SelectAll(rows, isSelected))) == if isSelected then Total(rows) else 0
  {
    if rows != [] {
      var all := SelectAll(rows, isSelected);
      assert all == [all[0]] + SelectAll(rows[1..], isSelected);
      SelectAllSelection(rows[1..], isSelected);
      if isSelected {
        TotalCons(all[0], SelectAll(rows[1..], isSelected));
        TotalCons(rows[0], rows[1..]);
        assert rows == [rows[0]] + rows[1..];
      }
    }
  }

  /** One row under handleSelection's `forEach` body. */
  function ToggleRow(r: Row, selectedId: string): Row
  {
    if r.id == selectedId
    then r.(isSelected := !r.isSelected, rowClass := Some(RowClassFor(!r.isSelected)))
    else r
  }

  /** The effect of handleSelection's `forEach` on the whole list. */
  function Toggle(rows: seq<Row>, selectedId: string): (toggled: seq<Row>)
    ensures |toggled| == |rows|
  {
    seq(|rows|, i requires 0 <= i < |rows| => ToggleRow(rows[i], selectedId))
  }

  /**
   * handleSelection flips exactly the rows with the chosen id, giving them the
   * row class of their new state; every other row is unchanged.
   */
  lemma ToggleChangesOnlyId(rows: seq<Row>, selectedId: string)
    ensures |Toggle(rows, selectedId)| == |rows|
    ensures forall i :: 0 <= i < |rows| && rows[i].id != selectedId ==>
      Toggle(rows, selectedId)[i] == rows[i]
    ensures forall i :: 0 <= i < |rows| && rows[i].id == selectedId ==>
      var r := Toggle(rows, selectedId)[i];
      r.isSelected != rows[i].isSelected &&
      r.rowClass == Some(if r.isSelected then SelectedRowClass else BaseRowClass) &&
      r == rows[i].(isSelected := r.isSelected, rowClass := r.rowClass)
  {
  }

  /** Toggling the same id twice restores every selection flag. */
  lemma ToggleTwice(rows: seq<Row>, selectedId: string)
    ensures |Toggle(Toggle(rows, selectedId), selectedId)| == |rows|
    ensures forall i :: 0 <= i < |rows| ==>
      Toggle(Toggle(rows, selectedId), selectedId)[i].isSelected == rows[i].isSelected
    ensures (forall i :: 0 <= i < |rows| && rows[i].id == selectedId ==>
               rows[i].rowClass == Some(RowClassFor(rows[i].isSelected))) ==>
      Toggle(Toggle(rows, selectedId), selectedId) == rows
  {
  }

  // ---------------------------------------------------------------- delete

  /** `selectedProducts.map(product => product.Id)`. */
  function Ids(rows: seq<Row>): (ids: seq<string>)
    ensures |ids| == |rows|
  {
    seq(|rows|, i requires 0 <= i < |rows| => rows[i].id)
  }

  /** An id occurs in `Ids(rows)` exactly when some row carries it. */
  lemma IdsMembership(rows: seq<Row>, id: string)
    ensures id in Ids(rows) <==> exists i :: 0 <= i < |rows| && rows[i].id == id
  {
    if id in Ids(rows) {
      var i :| 0 <= i < |rows| && Ids(rows)[i] == id;
    }
    if exists i :: 0 <= i < |rows| && rows[i].id == id {
      var i :| 0 <= i < |rows| && rows[i].id == id;
      assert Ids(rows)[i] == id;
    }
  }

  /** The success branch of handleDeleteSelected: the rows whose id is not deleted, in order. */
  function RemoveIds(rows: seq<Row>, ids: seq<string>): (left: seq<Row>)
    ensures |left| <= |rows|
  {
    FilterRows(rows, IdNotIn(ids))
  }

  /**
   * Deleting the ids of the selection leaves no selected row and no row
   * carrying a deleted id, and keeps every other row.
   */
  lemma DeleteSelectionExact(rows: seq<Row>)
    ensures var left := RemoveIds(rows, Ids(Selected(rows)));
      Selected(left) == [] &&
      (forall r :: r in left ==> r in rows && r.id !in Ids(Selected(rows))) &&
      (forall r :: r in rows && r.id !in Ids(Selected(rows)) ==> r in left)
  {
    var sel := Selected(rows);
    var left := RemoveIds(rows, Ids(sel));
    FilterRowsMembers(rows, SelectedOnly);
    FilterRowsMembers(rows, IdNotIn(Ids(sel)));
    forall r | r in sel
      ensures r.id in Ids(sel)
    {
      var k :| 0 <= k < |sel| && sel[k] == r;
      IdsMembership(sel, r.id);
    }
    forall i | 0 <= i < |left|
      ensures !left[i].isSelected
    {
      assert left[i] in left;
    }
    KeepsNone(left, SelectedOnly);
  }

  // ---------------------------------------------------------------- quantity change

  /** `rows.find(product => product.Id === id)`, as an index. */
  function FirstIndex(rows: seq<Row>, id: string): (k: Option<nat>)
    ensures k.Some? ==> k.value < |rows| && rows[k.value].id == id &&
                        forall j :: 0 <= j < k.value ==> rows[j].id != id
    ensures k.None? ==> forall j :: 0 <= j < |rows| ==> rows[j].id != id
  {
    if rows == [] then None
    else if rows[0].id == id then Some(0)
    else match FirstIndex(rows[1..], id)
         case None => None
         case Some(k) => Some(k + 1)
  }

  /** `updatedItem.Quantity__c = value` on the found row; nothing when none is found. */
  function SetQuantity(rows: seq<Row>, id: string, value: int): (updated: seq<Row>)
    ensures |updated| == |rows|
  {
    match FirstIndex(rows, id)
    case None => rows
    case Some(k) => rows[k := rows[k].(quantity := value)]
  }

  /**
   * A quantity change touches only the quantity of the first row with the id;
   * every other row, the selection flags and the ids stay as they were.
   */
  lemma SetQuantityChangesOnlyFirst(rows: seq<Row>, id: string, value: int)
    ensures |SetQuantity(rows, id, value)| == |rows|
    ensures Ids(SetQuantity(rows, id, value)) == Ids(rows)
    ensures forall i :: 0 <= i < |rows| ==>
      SetQuantity(rows, id, value)[i].isSelected == rows[i].isSelected
    ensures forall i :: 0 <= i < |rows| ==>
      SetQuantity(rows, id, value)[i] ==
        if Some(i) == FirstIndex(rows, id) then rows[i].(quantity := value) else rows[i]
  {
  }

  // ---------------------------------------------------------------- debounce

  /** What happens to the `delayTimeout` slot: a new change, or the 800 ms timer firing. */
  datatype TimerEvent<T> = Changed(item: T) | Fired

  /** The slot after one event, and the item whose update is sent, if any. */
  datatype TimerStep<T> = TimerStep(pending: Option<T>, sent: Option<T>)

  /**
   * delayedFireFilterChangeEvent clears the pending timer and starts a new one
   * for the changed item; when the timer fires, the pending item is sent.
   */
  function Debounce<T>(pending: Option<T>, e: TimerEvent<T>): (step: TimerStep<T>)
    ensures e.Changed? ==> step.pending == Some(e.item) && step.sent == None
    ensures e.Fired? ==> step.pending == None && step.sent == pending
  {
    match e
    case Changed(item) => TimerStep(Some(item), None)
    case Fired => TimerStep(None, pending)
  }

  /** The slot after a sequence of events, and the updates sent, in order. */
  function RunTimer<T>(pending: Option<T>, events: seq<TimerEvent<T>>): (Option<T>, seq<T>)
    decreases |events|
  {
    if events == [] then (pending, [])
    else
      var step := Debounce(pending, events[0]);
      var rest := RunTimer(step.pending, events[1..]);
      (rest.0, (if step.sent.Some? then [step.sent.value] else []) + rest.1)
  }

  /** A burst of changes. */
  function Changes<T>(items: seq<T>): (events: seq<TimerEvent<T>>)
    ensures |events| == |items|
  {
    seq(|items|, i requires 0 <= i < |items| => Changed(items[i]))
  }

  /** The number of times the timer fires in `events`. */
  function FireCount<T>(events: seq<TimerEvent<T>>): nat
    decreases |events|
  {
    if events == [] then 0 else (if events[0].Fired? then 1 else 0) + FireCount(events[1..])
  }

  /** A burst leaves only its last item pending and sends nothing. */
  lemma {:induction false} BurstKeepsLast<T>(pending: Option<T>, items: seq<T>)
    requires |items| > 0
    ensures RunTimer(pending, Changes(items)) == (Some(items[|items| - 1]), [])
    decreases |items|
  {
    var events := Changes(items);
    assert events[0] == Changed(items[0]);
    assert events[1..] == Changes(items[1..]);
    var rest := RunTimer(Some(items[0]), events[1..]);
    assert RunTimer(pending, events) == (rest.0, [] + rest.1);
    assert [] + rest.1 == rest.1;
    if |items| > 1 {
      BurstKeepsLast(Some(items[0]), items[1..]);
      assert items[1..][|items[1..]| - 1] == items[|items| - 1];
    } else {
      assert events[1..] == [];
      assert rest == (Some(items[0]), []);
    }
  }

  /** A burst followed by the timer sends exactly one update, for the last item. */
  lemma {:induction false} BurstSendsLast<T>(pending: Option<T>, items: seq<T>)
    requires |items| > 0
    ensures RunTimer(pending, Changes(items) + [Fired]) == (None, [items[|items| - 1]])
    decreases |items|
  {
    var events := Changes(items) + [Fired];
    assert events[0] == Changed(items[0]);
    assert events[1..] == Changes(items[1..]) + [Fired];
    var rest := RunTimer(Some(items[0]), events[1..]);
    assert RunTimer(pending, events) == (rest.0, [] + rest.1);
    assert [] + rest.1 == rest.1;
    if |items| > 1 {
      BurstSendsLast(Some(items[0]), items[1..]);
      assert rest == (None, [items[1..][|items[1..]| - 1]]);
      assert items[1..][|items[1..]| - 1] == items[|items| - 1];
    } else {
      var fired: seq<TimerEvent<T>> := [Fired];
      assert events[1..] == fired;
      assert fired[1..] == [];
      assert RunTimer(None, fired[1..]) == (None, []);
      assert RunTimer(Some(items[0]), fired) == (None, [items[0]] + []);
      assert [items[0]] + [] == [items[0]];
    }
  }

  /** No more updates are sent than the timer fires. */
  lemma {:induction false} SentAtMostFires<T>(pending: Option<T>, events: seq<TimerEvent<T>>)
    ensures |RunTimer(pending, events).1| <= FireCount(events)
    decreases |events|
  {
    if events != [] {
      SentAtMostFires(Debounce(pending, events[0]).pending, events[1..]);
    }
  }
}
