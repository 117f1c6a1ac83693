/**
 * The Order component: it receives the cart's selection over the checkout
 * channel, walks a three-step wizard and sends an order request built from its
 * `selectedProducts0` list.
 */
module Ordering {
  import opened Basics
  import opened Wizard
  import opened CartLogic
  import Cart

  /** A JavaScript property value, as far as the order request is concerned. */
  datatype JsValue = Undefined | Text(s: string) | Number(n: int)

  /** A plain JavaScript object: its own properties and their values. */
  type JsObject = map<string, JsValue>

  /** Reading a property: a missing one reads as `undefined`. */
  function Get(o: JsObject, key: string): JsValue
  {
    if key in o then o[key] else Undefined
  }

  /** The five properties each line of the order request carries. */
  const RequestFields: set<string> :=
    {"ProductId", "ProductName__c", "ProductPrice__c", "Quantity__c", "PictureURL"}

  /**
   * The object literal handleConfirmOrder builds for one product: exactly the
   * five request properties, each read from the product.
   */
  function RequestLine(product: JsObject): (line: JsObject)
    ensures line.Keys == RequestFields
    ensures forall key :: key in RequestFields ==> line[key] == Get(product, key)
  {
    map["ProductId" := Get(product, "ProductId"),
        "ProductName__c" := Get(product, "ProductName__c"),
        "ProductPrice__c" := Get(product, "ProductPrice__c"),
        "Quantity__c" := Get(product, "Quantity__c"),
        "PictureURL" := Get(product, "PictureURL")]
  }

  /** Building a line from a line changes nothing. */
  lemma RequestLineIdempotent(product: JsObject)
    ensures RequestLine(RequestLine(product)) == RequestLine(product)
  {
    var line := RequestLine(product);
    assert forall key :: key in RequestFields ==> Get(line, key) == line[key];
  }

  /** A product is its own line exactly when it has the five properties and no other. */
  lemma RequestLineFixed(product: JsObject)
    ensures RequestLine(product) == product <==> product.Keys == RequestFields
  {
    if product.Keys == RequestFields {
      assert forall key :: key in product ==> Get(product, key) == product[key];
    }
  }

  /** `selectedProducts0.map(...)`: one line per product, in order. */
  function Request(products: seq<JsObject>): (request: seq<JsObject>)
    ensures |request| == |products|
  {
    seq(|products|, i requires 0 <= i < |products| => RequestLine(products[i]))
  }

  /** The request of a concatenation is the concatenation of the requests. */
  lemma RequestAppend(a: seq<JsObject>, b: seq<JsObject>)
    ensures Request(a + b) == Request(a) + Request(b)
  {
  }

  /** Line `i` of the request holds the five properties of product `i`. */
  lemma RequestAt(products: seq<JsObject>, i: nat, key: string)
    requires i < |products| && key in RequestFields
    ensures key in Request(products)[i] && Request(products)[i][key] == Get(products[i], key)
    ensures Request(products)[i].Keys == RequestFields
  {
  }

  /** Building the request again from a request changes nothing. */
  lemma RequestIdempotent(products: seq<JsObject>)
    ensures Request(Request(products)) == Request(products)
  {
    forall i | 0 <= i < |products|
      ensures Request(Request(products))[i] == Request(products)[i]
    {
      RequestLineIdempotent(products[i]);
    }
  }

  class Order {
    /** Undefined until the first checkout message arrives. */
    var selectedProducts: Option<seq<Cart.Product>>
    /** The list the order request is built from; no handler writes it. */
    var selectedProducts0: seq<JsObject>
    var currentStep: Step
    var selectedDate: Option<string>

    /**
     * What every handler keeps: `selectedProducts0` stays the empty list it
     * starts as, and the step is the initial number 1 or one of "1", "2", "3".
     */
    ghost predicate Valid()
      reads this
    {
      selectedProducts0 == [] && (currentStep == Num1 || InRange(currentStep))
    }

    /** The field initialisers. */
    constructor ()
      ensures Valid()
      ensures selectedProducts == None && selectedProducts0 == []
      ensures currentStep == Num1 && selectedDate == None
    {
      selectedProducts, selectedProducts0 := None, [];
      currentStep, selectedDate := Num1, None;
    }

    /** handleMessage: the message's products, the very objects the cart sent. */
    method HandleMessage(message: Cart.CheckoutMessage)
      requires Valid()
      modifies this`selectedProducts
      ensures Valid()
      ensures selectedProducts == Some(message.selectedProducts)
    {
      selectedProducts := Some(message.selectedProducts);
    }

    /**
     * handleConfirmOrder: the request sent to the order service is built from
     * `selectedProducts0`, so it is empty whatever the cart sent.
     */
    method HandleConfirmOrder() returns (request: seq<JsObject>)
      requires Valid()
      ensures request == Request(selectedProducts0)
      ensures request == []
    {
      request := Request(selectedProducts0);
    }

    /** The `isStep1` getter: a strict comparison with the string "1". */
    function IsStep1(): (shown: bool)
      reads this
      ensures shown <==> currentStep == Str(1)
    {
      StepGetters(currentStep);
      IsStep(currentStep, "1")
    }

    /** The `isStep2` getter. */
    function IsStep2(): (shown: bool)
      reads this
      ensures shown <==> currentStep == Str(2)
    {
      StepGetters(currentStep);
      IsStep(currentStep, "2")
    }

    /** The `isStep3` getter. */
    function IsStep3(): (shown: bool)
      reads this
      ensures shown <==> currentStep == Str(3)
    {
      StepGetters(currentStep);
      IsStep(currentStep, "3")
    }

    /** handlePrevious: one step back unless the step is not above "1". */
    method HandlePrevious()
      requires Valid()
      modifies this`currentStep
      ensures Valid()
      ensures currentStep == Previous(old(currentStep))
      ensures currentStep == if ParseInt(old(currentStep)) > 1
                             then Str(ParseInt(old(currentStep)) - 1) else old(currentStep)
    {
      PreviousOnStep(currentStep);
      if AboveFirst(currentStep) {
        AboveFirstIsPositive(currentStep);
        currentStep := Str(ParseInt(currentStep) - 1);
      }
      if old(currentStep) != Num1 {
        TransitionsStayInRange(old(currentStep));
      }
    }

    /** handleNext: one step on unless the step is not below "3". */
    method HandleNext()
      requires Valid()
      modifies this`currentStep
      ensures Valid()
      ensures currentStep == Next(old(currentStep))
      ensures currentStep == if ParseInt(old(currentStep)) < 3
                             then Str(ParseInt(old(currentStep)) + 1) else old(currentStep)
    {
      NextOnStep(currentStep);
      if BelowLast(currentStep) {
        currentStep := Str(ParseInt(currentStep) + 1);
      }
    }

    /** handleDateChange: the date input's value. */
    method HandleDateChange(value: string)
      requires Valid()
      modifies this`selectedDate
      ensures Valid()
      ensures selectedDate == Some(value)
    {
      selectedDate := Some(value);
    }
  }

  /**
   * The checkout channel: the cart publishes its selection and the order's
   * subscription hands the message to handleMessage. The order then holds the
   * cart's very objects, whose line totals add up to the cart's total.
   */
  method DeliverCheckout(cart: Cart.ShoppingCart, order: Order)
    requires cart.Valid() && order.Valid()
    modifies order`selectedProducts
    ensures order.Valid()
    ensures order.selectedProducts == Some(cart.selectedProducts)
    ensures Total(Cart.Views(order.selectedProducts.value)) == cart.totalPrice
  {
    var message := cart.HandleCheckout();
    order.HandleMessage(message);
  }
}
