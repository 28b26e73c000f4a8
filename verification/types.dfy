/** The shop's value types: catalog products, cart lines and orders.
    Prices are whole amounts of metical (`nat`); quantities are `int`
    because a quantity adjustment may carry any delta. */
module Types {

  datatype Option<+T> = None | Some(value: T)

  /** The closed set of catalog categories; each constructor stands for the
      string value the enumeration member carries. */
  datatype Category = Camisetas | Eletrodomesticos

  /** The string value of a category, as shown and stored. */
  function CategoryLabel(c: Category): string
  {
    match c
    case Camisetas => "Camisetas"
    case Eletrodomesticos => "Eletrodomésticos"
  }

  /** Reads a stored category string back; only the two labels are categories. */
  function ParseCategory(s: string): (r: Option<Category>)
    ensures r.Some? ==> CategoryLabel(r.value) == s
    ensures r.Some? <==> s == "Camisetas" || s == "Eletrodomésticos"
  {
    if s == "Camisetas" then Some(Camisetas)
    else if s == "Eletrodomésticos" then Some(Eletrodomesticos)
    else None
  }

  lemma CategoryRoundTrip(c: Category)
    ensures ParseCategory(CategoryLabel(c)) == Some(c)
  {
  }

  /** A catalog entry; `featured` is an optional field. */
  datatype Product = Product(
    id: string,
    name: string,
    price: nat,
    description: string,
    image: string,
    category: Category,
    featured: Option<bool>)

  /** A cart line: every field of a product plus a quantity. */
  datatype CartItem = CartItem(
    id: string,
    name: string,
    price: nat,
    description: string,
    image: string,
    category: Category,
    featured: Option<bool>,
    quantity: int)

  /** The product fields of a line (dropping the quantity). */
  function ProductOf(l: CartItem): Product
  {
    Product(l.id, l.name, l.price, l.description, l.image, l.category, l.featured)
  }

  /** `{ ...product, quantity: q }`: a line that copies every product field. */
  function LineOf(p: Product, q: int): (l: CartItem)
    ensures ProductOf(l) == p && l.quantity == q
    ensures l.id == p.id && l.name == p.name && l.price == p.price
  {
    CartItem(p.id, p.name, p.price, p.description, p.image, p.category, p.featured, q)
  }

  /** A line is exactly a product together with a quantity. */
  lemma LineIsProductAndQuantity(l: CartItem)
    ensures LineOf(ProductOf(l), l.quantity) == l
  {
  }

  /** The four order statuses, and nothing else. */
  datatype Status = Pendente | Pago | EmEntrega | Concluido

  function StatusLabel(s: Status): string
  {
    match s
    case Pendente => "Pendente"
    case Pago => "Pago"
    case EmEntrega => "Em entrega"
    case Concluido => "Concluído"
  }

  /** Reads a status string; exactly the four labels are statuses. */
  function ParseStatus(s: string): (r: Option<Status>)
    ensures r.Some? ==> StatusLabel(r.value) == s
    ensures r.Some? <==> s in {"Pendente", "Pago", "Em entrega", "Concluído"}
  {
    if s == "Pendente" then Some(Pendente)
    else if s == "Pago" then Some(Pago)
    else if s == "Em entrega" then Some(EmEntrega)
    else if s == "Concluído" then Some(Concluido)
    else None
  }

  lemma StatusRoundTrip(s: Status)
    ensures ParseStatus(StatusLabel(s)) == Some(s)
  {
  }

  /** An order: a snapshot of the cart lines, a frozen total, the customer's
      data, a status an operator may change, and a creation timestamp. */
  datatype Order = Order(
    id: string,
    items: seq<CartItem>,
    total: int,
    customerName: string,
    emolaNumber: string,
    reference: string,
    status: Status,
    date: string)

  /** The customer data the checkout form hands to order creation. */
  datatype CustomerData = CustomerData(
    name: string,
    phone: string,
    reference: string,
    address: string)
}
