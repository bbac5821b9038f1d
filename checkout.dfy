/** The checkout page: the shipping form, payment selection, and order submission. */
module Checkout {
  import opened Options
  import opened Products
  import opened Storage

  /** The four payment buttons. */
  datatype PaymentMethod = Card | PayPal | Bank | Payoneer

  /** The string each button stores in `paymentMethod`. */
  function PaymentCode(m: PaymentMethod): (code: string)
    ensures code in ["card", "paypal", "bank", "payoneer"]
  {
    match m
    case Card => "card"
    case PayPal => "paypal"
    case Bank => "bank"
    case Payoneer => "payoneer"
  }

  /** The stored code identifies the button: distinct buttons store distinct codes. */
  lemma PaymentCodeInjective(m1: PaymentMethod, m2: PaymentMethod)
    ensures PaymentCode(m1) == PaymentCode(m2) <==> m1 == m2
  {
    if m1 != m2 {
      assert PaymentCode(m1)[0] != PaymentCode(m2)[0] || |PaymentCode(m1)| != |PaymentCode(m2)|;
    }
  }

  /** `formData`. */
  datatype CheckoutForm = CheckoutForm(
    name: string,
    email: string,
    phone: string,
    address: string,
    city: string,
    pincode: string,
    paymentMethod: PaymentMethod)

  /** The named text inputs; the name attribute selects the field an input event writes. */
  datatype FormField = Name | Email | Phone | Address | City | Pincode

  function FieldValue(f: CheckoutForm, field: FormField): string
  {
    match field
    case Name => f.name
    case Email => f.email
    case Phone => f.phone
    case Address => f.address
    case City => f.city
    case Pincode => f.pincode
  }

  /** The form before any input: every text field empty, card selected. */
  const InitialForm := CheckoutForm("", "", "", "", "", "", Card)

  lemma InitialFormEmpty()
    ensures forall field :: FieldValue(InitialForm, field) == ""
    ensures PaymentCode(InitialForm.paymentMethod) == "card"
  {
  }

  /** `handleInputChange`: the field named by the event takes the value; nothing else changes. */
  function WithField(f: CheckoutForm, field: FormField, value: string): (r: CheckoutForm)
    ensures FieldValue(r, field) == value
    ensures forall other :: other != field ==> FieldValue(r, other) == FieldValue(f, other)
    ensures r.paymentMethod == f.paymentMethod
  {
    match field
    case Name => f.(name := value)
    case Email => f.(email := value)
    case Phone => f.(phone := value)
    case Address => f.(address := value)
    case City => f.(city := value)
    case Pincode => f.(pincode := value)
  }

  /** A payment button: the method changes, every text field stays. */
  function WithPaymentMethod(f: CheckoutForm, m: PaymentMethod): (r: CheckoutForm)
    ensures r.paymentMethod == m
    ensures forall field :: FieldValue(r, field) == FieldValue(f, field)
  {
    f.(paymentMethod := m)
  }

  /** Two input events on different fields commute, and a second one on the same field wins. */
  lemma WithFieldCommutes(f: CheckoutForm, a: FormField, va: string, b: FormField, vb: string)
    ensures a != b ==> WithField(WithField(f, a, va), b, vb) == WithField(WithField(f, b, vb), a, va)
    ensures a == b ==> WithField(WithField(f, a, va), b, vb) == WithField(f, b, vb)
  {
    var x := WithField(WithField(f, a, va), b, vb);
    var y := if a != b then WithField(WithField(f, b, vb), a, va) else WithField(f, b, vb);
    assert forall field :: FieldValue(x, field) == FieldValue(y, field);
    FormEquality(x, y);
  }

  /** Two forms agreeing on every field and the payment method are equal. */
  lemma FormEquality(x: CheckoutForm, y: CheckoutForm)
    requires forall field :: FieldValue(x, field) == FieldValue(y, field)
    requires x.paymentMethod == y.paymentMethod
    ensures x == y
  {
    assert FieldValue(x, Name) == FieldValue(y, Name);
    assert FieldValue(x, Email) == FieldValue(y, Email);
    assert FieldValue(x, Phone) == FieldValue(y, Phone);
    assert FieldValue(x, Address) == FieldValue(y, Address);
    assert FieldValue(x, City) == FieldValue(y, City);
    assert FieldValue(x, Pincode) == FieldValue(y, Pincode);
  }

  /** The `required` attribute on each text input: the browser submits only when none is empty. */
  predicate RequiredFieldsFilled(f: CheckoutForm)
  {
    forall field :: FieldValue(f, field) != ""
  }

  /** One cart line, as the cart context supplies it. */
  datatype CartItem = CartItem(product: Product, quantity: nat)

  /** One stored order. */
  datatype Order = Order(id: string, customer: CheckoutForm, items: seq<CartItem>, total: int, date: string)

  const OrdersKey := "kkj-orders"

  /** The stored history, a missing entry read as the empty list. */
  function LoadOrders(stored: Option<seq<Order>>): (r: seq<Order>)
    ensures stored.None? ==> r == []
    ensures stored.Some? ==> r == stored.value
  {
    if stored.Some? then stored.value else []
  }

  /** Read, push, write: the history with one more order at its end. */
  function AppendOrder(stored: Option<seq<Order>>, order: Order): (r: seq<Order>)
    ensures |r| == |LoadOrders(stored)| + 1
    ensures r[..|r| - 1] == LoadOrders(stored)
    ensures r[|r| - 1] == order
  {
    LoadOrders(stored) + [order]
  }

  /** Two submissions keep both orders, in submission order, after the earlier history. */
  lemma {:induction false} AppendTwice(stored: Option<seq<Order>>, o1: Order, o2: Order)
    ensures AppendOrder(Some(AppendOrder(stored, o1)), o2) == LoadOrders(stored) + [o1, o2]
  {
    var h := LoadOrders(stored);
    var once := AppendOrder(stored, o1);
    assert once == h + [o1] by {
      assert once[..|once| - 1] + [once[|once| - 1]] == once;
    }
    var twice := AppendOrder(Some(once), o2);
    assert twice == once + [o2] by {
      assert twice[..|twice| - 1] + [twice[|twice| - 1]] == twice;
    }
  }

  /** The cart as the checkout page sees it; its engine is outside this model. */
  class Cart {
    var items: seq<CartItem>

    constructor(items: seq<CartItem>)
      ensures this.items == items
    {
      this.items := items;
    }

    /** `clearCart`. */
    method ClearCart()
      modifies this
      ensures items == []
    {
      items := [];
    }
  }

  /** What the submit handler's closure captured when the order was placed. */
  datatype Submission = Submission(form: CheckoutForm, items: seq<CartItem>, total: int)

  /** What the page renders. */
  datatype PageView = RedirectToCart | CheckoutFormView(processing: bool)

  class CheckoutPage {
    var formData: CheckoutForm
    var isProcessing: bool
    /** The captured values of the submission awaiting its timer, if any. */
    var pending: Option<Submission>
    const cart: Cart
    const orders: KeyValueStore<seq<Order>>

    /** The processing flag is set exactly while a submission waits. */
    ghost predicate Valid()
      reads this
    {
      isProcessing <==> pending.Some?
    }

    constructor(cart: Cart, orders: KeyValueStore<seq<Order>>)
      ensures Valid()
      ensures formData == InitialForm && !isProcessing
      ensures this.cart == cart && this.orders == orders
    {
      formData := InitialForm;
      isProcessing := false;
      pending := None;
      this.cart := cart;
      this.orders := orders;
    }

    /** An empty cart redirects to the cart page instead of rendering the form. */
    function View(): (v: PageView)
      reads this, cart
      ensures v == RedirectToCart <==> |cart.items| == 0
      ensures v.CheckoutFormView? ==> v.processing == isProcessing
    {
      if |cart.items| == 0 then RedirectToCart else CheckoutFormView(isProcessing)
    }

    method InputChange(field: FormField, value: string)
      modifies this
      ensures formData == WithField(old(formData), field, value)
      ensures isProcessing == old(isProcessing) && pending == old(pending)
    {
      formData := WithField(formData, field, value);
    }

    method SelectPayment(m: PaymentMethod)
      modifies this
      ensures formData == WithPaymentMethod(old(formData), m)
      ensures isProcessing == old(isProcessing) && pending == old(pending)
    {
      formData := WithPaymentMethod(formData, m);
    }

    /**
     * Pressing "Place Order". The form exists only when the cart is not empty,
     * the button is disabled while processing, and the browser blocks a form
     * with an empty required field; otherwise the flag is set and the closure
     * keeps the form, the cart and its total.
     */
    method Submit(cartTotal: int) returns (accepted: bool)
      requires Valid()
      modifies this
      ensures Valid()
      ensures accepted <==> !old(isProcessing) && |cart.items| > 0 && RequiredFieldsFilled(old(formData))
      ensures accepted ==> isProcessing && pending == Some(Submission(formData, cart.items, cartTotal))
      ensures !accepted ==> isProcessing == old(isProcessing) && pending == old(pending)
      ensures formData == old(formData)
    {
      accepted := !isProcessing && View() != RedirectToCart && RequiredFieldsFilled(formData);
      if accepted {
        isProcessing := true;
        pending := Some(Submission(formData, cart.items, cartTotal));
      }
    }

    /**
     * The timer fires: the order built from the captured values is pushed onto
     * the stored history, the cart is cleared and the flag drops.
     */
    method CompleteOrder(orderId: string, date: string)
      requires Valid() && pending.Some?
      modifies this, cart, orders
      ensures Valid() && !isProcessing
      ensures var s := old(pending).value;
        orders.entries == old(orders.entries)[OrdersKey :=
          AppendOrder(old(orders.GetItem(OrdersKey)), Order(orderId, s.form, s.items, s.total, date))]
      ensures cart.items == []
      ensures formData == old(formData)
    {
      var s := pending.value;
      var order := Order(orderId, s.form, s.items, s.total, date);
      var history := AppendOrder(orders.GetItem(OrdersKey), order);
      orders.SetItem(OrdersKey, history);
      cart.ClearCart();
      isProcessing := false;
      pending := None;
    }
  }

  /** A whole checkout: the new history ends with the order holding the form, cart and total at submission. */
  method PlaceOrder(page: CheckoutPage, cartTotal: int, orderId: string, date: string) returns (placed: bool)
    requires page.Valid() && !page.isProcessing
    modifies page, page.cart, page.orders
    ensures placed <==> |old(page.cart.items)| > 0 && RequiredFieldsFilled(old(page.formData))
    ensures placed ==>
      var h := LoadOrders(page.orders.GetItem(OrdersKey));
      && h == LoadOrders(old(page.orders.GetItem(OrdersKey))) + [Order(orderId, old(page.formData), old(page.cart.items), cartTotal, date)]
      && page.cart.items == []
      && !page.isProcessing
    ensures !placed ==> page.orders.entries == old(page.orders.entries) && page.cart.items == old(page.cart.items)
  {
    placed := page.Submit(cartTotal);
    if placed {
      page.CompleteOrder(orderId, date);
    }
  }
}
