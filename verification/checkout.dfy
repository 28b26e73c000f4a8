/** The checkout form: the required-field gate in front of order creation
    and the total the page asks the customer to pay. */
module Checkout {
  import opened Types
  import Cart
  import Ledger

  /** The form starts with every field empty. */
  const InitialForm: CustomerData := CustomerData("", "", "", "")

  /** `handleSubmit`: the form data reaches `onConfirm` only when name, phone
      and reference are all non-empty; otherwise nothing is confirmed. The
      address is not checked. */
  function HandleSubmit(form: CustomerData): (r: Option<CustomerData>)
    ensures r.Some? <==> form.name != "" && form.phone != "" && form.reference != ""
    ensures r.Some? ==> r.value == form
  {
    if form.name == "" || form.phone == "" || form.reference == "" then None
    else Some(form)
  }

  /** Submitting the untouched form is rejected. */
  lemma InitialFormRejected()
    ensures HandleSubmit(InitialForm) == None
  {
  }

  /** An empty address never blocks submission: the outcome does not depend
      on the address at all. */
  lemma AddressNotRequired(form: CustomerData, address: string)
    ensures HandleSubmit(form.(address := address)).Some? == HandleSubmit(form).Some?
  {
  }

  /** The amount the page shows: `items.reduce((sum, item) => sum + item.price * item.quantity, 0)`. */
  function DisplayedTotal(items: seq<CartItem>): (t: int)
    ensures t == Cart.Sum(items)
  {
    Cart.Reduce(items, 0)
  }

  /** The amount the customer is told to transfer is the total the order records. */
  lemma DisplayedTotalIsOrderTotal(items: seq<CartItem>, data: CustomerData, id: string, date: string)
    ensures DisplayedTotal(items) == Ledger.NewOrder(items, data, id, date).total
  {
  }
}
