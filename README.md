# PowerOrder cart and checkout wizard, modelled in Dafny

This project models the client-side state logic of two Lightning Web
Components of the PowerOrder storefront:

- **ShoppingCart** (`shoppingCart.js`) keeps the cart's state:
  - a list of product objects;
  - the selection filtered out of that list;
  - the total price of the selection;
  - the tri-state "select all" checkbox;
  - one pending, debounced quantity update.

  The cart loads products, selects all or one, deletes the selection, changes
  quantities and publishes the selection for checkout.
- **Order** (`order.js`) receives that selection. It walks a three-step wizard
  whose step counter starts as the number `1` and is afterwards a string. It
  stores a date and builds the order request from its `selectedProducts0` list.

## Layout

| file | module | what it holds |
|---|---|---|
| `basics.dfy` | `Basics` | `Option` |
| `js_text.dfy` | `JsText` | `Number.prototype.toString` on non-negative integers and the `<` of two strings |
| `wizard.dfy` | `Wizard` | the step value `Num1 \| Str(n)`, the guards, next and previous, the getters, runs of button presses |
| `cart_logic.dfy` | `CartLogic` | the value-level rules: loading, `filter`, `reduce`, the checkbox rule, select-all, toggle, delete, `find`, the debounce slot |
| `cart.dfy` | `Cart` | `class Product`, the product object, and `class ShoppingCart`, the component |
| `ordering.dfy` | `Ordering` | JS objects, the order-request projection, `class Order`, and delivery of the checkout message |

## How the model works

Products are objects of `class Product`, because in the source they are
shared:

- `selectedProducts` holds the very objects of `products`, because `filter`
  keeps references.
- handleSelection and handleQuantityChange change those objects in place.
- The checkout message hands the same objects to the Order component.

`Product.View()` is the value of an object's fields as a `Row`. The
value-level rules in `CartLogic` are stated about rows, and each cart method
is tied to them through `Views`.

Every handler of the cart keeps the invariant `ShoppingCart.Valid()`:

- the product list holds no object twice;
- `totalPrice` is the sum of `MSRP__c * Quantity__c` over the current views of
  `selectedProducts`.

The selection can go stale, because the source never resets it on a reload.
refreshProducts and wiredProducts replace `products` with new objects and
leave `selectedProducts` and `totalPrice` as they were. The model keeps that
behaviour, and the invariant still holds because the old objects are not
changed.

The step counter of the wizard:

- `currentStep` is `Num1`, the number `1`, until the first Next.
- Every press that changes the step stores `Str(n)`, the string `n.toString()`.
- The guards `currentStep > '1'` and `currentStep < '3'` compare the number
  with a string numerically. They compare two strings lexicographically
  (`JsText.StringLess`).
- The getters compare with `===`.

So in the initial state no `isStepK` getter holds, and Previous does nothing.
Next from the number 1 gives the string "2". From then on the step stays
among "1", "2" and "3", and the guards behave like integer comparisons on it.

The Order component's confirm handler maps `selectedProducts0`. No handler of
the component writes that list, which starts as `[]`; handleMessage stores the
payload in `selectedProducts` instead. The model keeps this: `Order.Valid()`
holds `selectedProducts0 == []`, and `HandleConfirmOrder` proves that the
request sent is empty whatever the cart published.

### What the wizard's handlers do not do

- handleNext never reads `selectedDate`, so Next from step 2 needs no date.
- At step 3 handleNext does nothing.
- handleConfirmOrder only calls the order service with the mapped
  `selectedProducts0`. It deletes nothing from the cart and leaves the step as
  it is.

## Model

| member | source | states |
|---|---|---|
| JsText.DecimalString | force-app/main/default/lwc/order/order.js:94 | `toString()` of a number is at least one digit long; it is one digit long exactly for 0..9, and then it is that digit's character |
| JsText.DigitOrder | force-app/main/default/lwc/order/order.js:93 | on one-digit numbers, the string `<` of their `toString()`s agrees with `<` on the numbers |
| JsText.DecimalStringOfDigit | force-app/main/default/lwc/order/order.js:80-90 | a number's string equals the string of digit d exactly when the number is d |
| Wizard.AboveFirstIsPositive | force-app/main/default/lwc/order/order.js:93-94 | a step passing `> '1'` is a string holding a positive number, so `parseInt(...) - 1` is not negative |
| Wizard.GuardsOnSteps | force-app/main/default/lwc/order/order.js:92-102 | on the number 1 and on "1".."3", `> '1'` holds iff `parseInt` is above 1, and `< '3'` holds iff it is below 3 |
| Wizard.Next | force-app/main/default/lwc/order/order.js:98-102 | handleNext's new step; its closed form is stated by `NextOnStep` and its range by `TransitionsStayInRange` |
| Wizard.Previous | force-app/main/default/lwc/order/order.js:92-96 | handlePrevious's new step; its closed form is stated by `PreviousOnStep` and its range by `TransitionsStayInRange` |
| Wizard.NextOnStep | force-app/main/default/lwc/order/order.js:98-102 | Next adds one below 3 and does nothing at 3; from the number 1 it gives the string "2" |
| Wizard.PreviousOnStep | force-app/main/default/lwc/order/order.js:92-96 | Previous subtracts one above 1 and does nothing at 1, including at the initial number 1 |
| Wizard.TransitionsStayInRange | force-app/main/default/lwc/order/order.js:92-102 | from "1".."3", Next and Previous both stay in "1".."3" |
| Wizard.NextThenPrevious | force-app/main/default/lwc/order/order.js:92-102 | from the number 1 or from "1" or "2", Next then Previous comes back to the same step number, as a string |
| Wizard.PreviousThenNext | force-app/main/default/lwc/order/order.js:92-102 | from "2" or "3", Previous then Next restores the step |
| Wizard.StepGetters | force-app/main/default/lwc/order/order.js:80-90 | `isStepK` holds iff the step is the string of K, at most one of them holds, and none holds on the number 1 |
| Wizard.RunStaysInRange | force-app/main/default/lwc/order/order.js:92-102 | any sequence of Next/Previous presses keeps a step of "1".."3" in that range |
| Wizard.RunFromInitial | force-app/main/default/lwc/order/order.js:10-102 | from the initial number 1, any sequence of presses ends on the number 1 or on one of "1".."3" |
| CartLogic.Load | force-app/main/default/lwc/shoppingCart/shoppingCart.js:43-55 | loading keeps the records' length, order and fields, copies `PictureURL__c` to `PictureURL`, unselects every row, and gives the row class only on the wired path |
| CartLogic.FilterRowsMembers | force-app/main/default/lwc/shoppingCart/shoppingCart.js:72 | a row is kept by `filter` iff it is in the list and meets the predicate |
| CartLogic.FilterRowsAppend | force-app/main/default/lwc/shoppingCart/shoppingCart.js:104 | the filter of a concatenation is the concatenation of the filters, so the kept rows stay in list order |
| CartLogic.KeptIndicesExact | force-app/main/default/lwc/shoppingCart/shoppingCart.js:72 | a position is kept iff it is a position of the list whose row meets the predicate |
| CartLogic.FilterRows | force-app/main/default/lwc/shoppingCart/shoppingCart.js:72 | `filter` keeps at most as many rows as the list has; which rows, and in which order, is stated by `FilterRowsMembers` and `FilterRowsAppend` |
| CartLogic.PickKeptIndices | force-app/main/default/lwc/shoppingCart/shoppingCart.js:113 | taking the rows at the positions that meet the predicate, in increasing order, is the filter |
| CartLogic.KeepsAll | force-app/main/default/lwc/shoppingCart/shoppingCart.js:79 | the filter keeps as many rows as the list has iff every row meets the predicate |
| CartLogic.KeepsNone | force-app/main/default/lwc/shoppingCart/shoppingCart.js:79 | the filter keeps nothing iff no row meets the predicate |
| CartLogic.Total | force-app/main/default/lwc/shoppingCart/shoppingCart.js:73 | the `reduce` total; its additivity and its front decomposition are stated by `TotalAppend` and `TotalCons` |
| CartLogic.TotalAppend | force-app/main/default/lwc/shoppingCart/shoppingCart.js:73 | the `reduce` total of a concatenation is the sum of the two totals |
| CartLogic.TotalCons | force-app/main/default/lwc/shoppingCart/shoppingCart.js:105 | the total of a list is its first line's `MSRP__c * Quantity__c` plus the total of the rest |
| CartLogic.CheckboxFor | force-app/main/default/lwc/shoppingCart/shoppingCart.js:83-92 | checked iff some are selected and no product is unselected, indeterminate iff some but fewer than all are, never both |
| CartLogic.CheckboxFollowsSelection | force-app/main/default/lwc/shoppingCart/shoppingCart.js:77-93 | the box is checked iff there are rows and all are selected; it is indeterminate iff some are selected and some are not; it is never both |
| CartLogic.SelectAll | force-app/main/default/lwc/shoppingCart/shoppingCart.js:63-68 | one copy per row; what the copies hold is stated by `SelectAllKeepsRows` and `SelectAllSelection` |
| CartLogic.SelectAllKeepsRows | force-app/main/default/lwc/shoppingCart/shoppingCart.js:63-68 | after select-all each row is the old row with only the flag set: ids, order, prices, quantities, pictures and row classes are kept |
| CartLogic.SelectAllSelection | force-app/main/default/lwc/shoppingCart/shoppingCart.js:61-73 | with the flag, the selection is every row and the total is the whole list's total; without it, the selection is empty and the total is 0 |
| CartLogic.Toggle | force-app/main/default/lwc/shoppingCart/shoppingCart.js:97-102 | one row per row; which rows flip is stated by `ToggleChangesOnlyId` and `ToggleTwice` |
| CartLogic.ToggleChangesOnlyId | force-app/main/default/lwc/shoppingCart/shoppingCart.js:97-102 | exactly the rows with the id flip `isSelected` and get the selected row class iff they are now selected; every other field and every other row is unchanged |
| CartLogic.ToggleTwice | force-app/main/default/lwc/shoppingCart/shoppingCart.js:97-102 | toggling an id twice restores every flag, and restores the whole list when those rows' classes already matched their state |
| CartLogic.Ids | force-app/main/default/lwc/shoppingCart/shoppingCart.js:110 | one id per selected row; which ids, by `IdsMembership` |
| CartLogic.IdsMembership | force-app/main/default/lwc/shoppingCart/shoppingCart.js:110 | an id is among the ids to delete iff some selected row carries it |
| CartLogic.RemoveIds | force-app/main/default/lwc/shoppingCart/shoppingCart.js:113 | the success branch keeps at most the rows it had; exactly which, by `DeleteSelectionExact` |
| CartLogic.DeleteSelectionExact | force-app/main/default/lwc/shoppingCart/shoppingCart.js:110-113 | deleting the selection's ids leaves no selected row; it keeps exactly the rows whose id is not among those ids |
| CartLogic.FirstIndex | force-app/main/default/lwc/shoppingCart/shoppingCart.js:124 | `find` gives the least position with the id, or nothing when no row has it |
| CartLogic.SetQuantity | force-app/main/default/lwc/shoppingCart/shoppingCart.js:124-125 | the length is kept; what changes, by `SetQuantityChangesOnlyFirst` |
| CartLogic.SetQuantityChangesOnlyFirst | force-app/main/default/lwc/shoppingCart/shoppingCart.js:124-125 | only the quantity of the first row with the id changes; ids, the length, every selection flag and all other rows are kept |
| CartLogic.Debounce | force-app/main/default/lwc/shoppingCart/shoppingCart.js:137-147 | a change makes its item the only pending one and sends nothing; a fire empties the slot and sends the item that was pending, if any |
| CartLogic.BurstKeepsLast | force-app/main/default/lwc/shoppingCart/shoppingCart.js:137-139 | after a burst of changes only the last item is pending, and nothing has been sent |
| CartLogic.BurstSendsLast | force-app/main/default/lwc/shoppingCart/shoppingCart.js:137-147 | a burst followed by the timer sends exactly one update, for the last item, and leaves the slot empty |
| CartLogic.SentAtMostFires | force-app/main/default/lwc/shoppingCart/shoppingCart.js:137-147 | no more updates are sent than the timer fires |
| Cart.Product.constructor | force-app/main/default/lwc/shoppingCart/shoppingCart.js:43 | a new object literal has the given fields |
| Cart.FilterProducts | force-app/main/default/lwc/shoppingCart/shoppingCart.js:72 | the `filter` on objects; what it keeps is stated by `FilterProductsMembers`, `FilterProductsViews` and `FilterProductsDistinct` |
| Cart.FilterProductsMembers | force-app/main/default/lwc/shoppingCart/shoppingCart.js:104 | an object is in the filtered list iff it is one of the list's objects and its current fields meet the predicate |
| Cart.FilterProductsViews | force-app/main/default/lwc/shoppingCart/shoppingCart.js:72 | the views of the objects kept by `filter` are the kept views |
| Cart.FilterProductsDistinct | force-app/main/default/lwc/shoppingCart/shoppingCart.js:113 | `filter` on a list without repeated objects gives one without repeated objects |
| Cart.NewProducts | force-app/main/default/lwc/shoppingCart/shoppingCart.js:43 | `map` to object literals gives new, pairwise different objects whose fields are the given rows, in order |
| Cart.ShoppingCart.constructor | force-app/main/default/lwc/shoppingCart/shoppingCart.js:13-20 | empty lists and a zero total; the box is neither checked nor indeterminate; no timer; the invariant holds |
| Cart.ShoppingCart.IsCartEmpty | force-app/main/default/lwc/shoppingCart/shoppingCart.js:22-24 | holds iff no product is listed |
| Cart.ShoppingCart.RefreshProducts | force-app/main/default/lwc/shoppingCart/shoppingCart.js:40-48 | on success the products are new unselected objects loaded from the records without a row class; on failure they are unchanged; selection, total, box and timer are kept |
| Cart.ShoppingCart.WiredProducts | force-app/main/default/lwc/shoppingCart/shoppingCart.js:50-59 | as for refreshProducts, with the row class `slds-hint-parent` on every new object; without data nothing changes |
| Cart.ShoppingCart.HandleSelectAll | force-app/main/default/lwc/shoppingCart/shoppingCart.js:61-75 | the products become new objects, copies with the flag; the selection is the flagged objects and the total is over them; the box is checked as clicked and not indeterminate |
| Cart.ShoppingCart.RecomputeSelection | force-app/main/default/lwc/shoppingCart/shoppingCart.js:104-106 | the selection becomes the products' selected objects in list order, the total becomes the sum over them, and the invariant holds |
| Cart.ShoppingCart.UpdateSelectAllCheckboxState | force-app/main/default/lwc/shoppingCart/shoppingCart.js:77-93 | the box becomes the tri-state of the products' selected count |
| Cart.ShoppingCart.HandleSelection | force-app/main/default/lwc/shoppingCart/shoppingCart.js:95-107 | the same objects are toggled in place for the id; then the box, the selection and the total follow the new flags |
| Cart.ShoppingCart.ToggleProducts | force-app/main/default/lwc/shoppingCart/shoppingCart.js:97-102 | the `forEach` leaves the products' views equal to the toggle of their old views |
| Cart.ShoppingCart.HandleDeleteSelected | force-app/main/default/lwc/shoppingCart/shoppingCart.js:109-121 | returns the selection's ids; on success the other products remain, in order, and the selection and total are cleared; on failure nothing changes |
| Cart.ShoppingCart.HandleQuantityChange | force-app/main/default/lwc/shoppingCart/shoppingCart.js:123-129 | the first object with the id gets the quantity in place; the total is retaken over the current selection; that object is the pending update; with no such object nothing changes |
| Cart.ShoppingCart.HandleCheckout | force-app/main/default/lwc/shoppingCart/shoppingCart.js:131-135 | the published message carries the selection's very objects |
| Cart.ShoppingCart.DelayedFireFilterChangeEvent | force-app/main/default/lwc/shoppingCart/shoppingCart.js:137-148 | the slot drops any pending item and holds the new one |
| Cart.ShoppingCart.FireTimer | force-app/main/default/lwc/shoppingCart/shoppingCart.js:139-147 | the pending object's current fields are sent, and the slot is emptied |
| Ordering.RequestLine | force-app/main/default/lwc/order/order.js:47-53 | a request line has exactly the five properties, each read from the product, with `undefined` when the product lacks it |
| Ordering.RequestLineIdempotent | force-app/main/default/lwc/order/order.js:47-53 | building a line from a line gives the same line |
| Ordering.RequestLineFixed | force-app/main/default/lwc/order/order.js:47-53 | a product is its own line iff it has exactly the five properties |
| Ordering.Request | force-app/main/default/lwc/order/order.js:46-54 | the request has one line per product |
| Ordering.RequestAppend | force-app/main/default/lwc/order/order.js:46-54 | the request of a concatenation is the concatenation of the requests, so lines follow the products' order |
| Ordering.RequestAt | force-app/main/default/lwc/order/order.js:46-54 | line i carries exactly the five properties of product i |
| Ordering.RequestIdempotent | force-app/main/default/lwc/order/order.js:46-54 | mapping a request again changes nothing |
| Ordering.Order.constructor | force-app/main/default/lwc/order/order.js:8-11 | no received products, an empty `selectedProducts0`, the step the number 1, no date |
| Ordering.Order.HandleMessage | force-app/main/default/lwc/order/order.js:40-43 | `selectedProducts` becomes the payload's list; nothing else changes |
| Ordering.Order.HandleConfirmOrder | force-app/main/default/lwc/order/order.js:45-56 | the request is the projection of `selectedProducts0`, and so it is empty |
| Ordering.Order.IsStep1 | force-app/main/default/lwc/order/order.js:80-82 | holds iff the step is the string "1" |
| Ordering.Order.IsStep2 | force-app/main/default/lwc/order/order.js:84-86 | holds iff the step is the string "2" |
| Ordering.Order.IsStep3 | force-app/main/default/lwc/order/order.js:88-90 | holds iff the step is the string "3" |
| Ordering.Order.HandlePrevious | force-app/main/default/lwc/order/order.js:92-96 | the step goes down by one above 1 and is kept otherwise; it stays the number 1 or one of "1".."3" |
| Ordering.Order.HandleNext | force-app/main/default/lwc/order/order.js:98-102 | the step goes up by one below 3 and is kept otherwise; only the step changes, whatever the date |
| Ordering.Order.HandleDateChange | force-app/main/default/lwc/order/order.js:104-106 | only `selectedDate` changes, to the input's value |
| Ordering.DeliverCheckout | force-app/main/default/lwc/shoppingCart/shoppingCart.js:131-135 | after the checkout message, the order holds the cart's selected objects, and their line totals add up to the cart's total |

## Left out

- productCard.js is not part of this model. It holds record-form loading, locale currency formatting, navigation and the add-to-cart call.
- Lightning Message Service publish, subscribe and unsubscribe, and the wire adapters, are left out. handleCheckout returns its message. `Ordering.DeliverCheckout` stands for the subscription handing the message to handleMessage. connectedCallback, disconnectedCallback and the subscription fields are not modelled.
- The Apex calls (`getProducts`, `deleteProducts`, `updateProductQuantity`, `createOrder`) and their promises are left out. A fetch is an `Option` of records. A delete is a success flag. `FireTimer` returns what it would send. `HandleConfirmOrder` returns the request, because the call's outcome only shows a toast.
- Promise continuations run later in the source, so other handlers may run between a remote call and its outcome. The model runs each continuation at once, with no interleaving. For handleDeleteSelected this means the success branch filters the products of the same moment.
- Toasts (`ShowToastEvent`, showErrorToast, showSuccessToast) and `console.log` are left out, because they are UI and logging side effects.
- Cart.ShoppingCart.HandleSelectAll: assumes the select-all box already exists. In the source `this.selectAllCheckbox` is undefined until updateSelectAllCheckboxState has run once, so a first select-all throws at shoppingCart.js:69. By then line 63 has already replaced `products`, so `selectedProducts` and `totalPrice` stay stale. The model does not capture that outcome and always recomputes them.
- Cart.ShoppingCart.UpdateSelectAllCheckboxState: `querySelector` is replaced by the component's own `selectAllCheckbox` field. Only its two properties, `checked` and `indeterminate`, are modelled.
- Cart.ShoppingCart.DelayedFireFilterChangeEvent: models the timer as a single pending slot. The 800 ms delay and real time are absent; the firing is the separate event `FireTimer`.
- Cart.ShoppingCart.HandleSelectAll: prices and quantities are integers (for example cents), and the `parseFloat(toFixed(2))` rounding is dropped. The same holds for `HandleSelection` and `HandleQuantityChange`.
- Cart.ShoppingCart.HandleQuantityChange: the new quantity is an integer. The source stores the input's string value and relies on `*` converting it to a number.
- Cart.ShoppingCart.HandleQuantityChange: with no product of that id, the source throws on `updatedItem.Quantity__c` before changing anything. The model returns `found == false` and changes nothing.
- Record fields other than `Id`, `MSRP__c`, `Quantity__c` and `PictureURL__c` are not modelled in the cart, although the object spread copies them. The order request reads its five properties from generic JS objects.
- Strings are sequences of Dafny characters. UTF-16 code units and their ordering are modelled only for the decimal digits the wizard uses.

