/**
 * The three tables of the CRM (customers, products, orders) as records, the
 * inputs the mutations receive, and the lookups the mutations run against a
 * table (`objects.filter(email=...).exists()`, `objects.get(id=...)`).
 * Identifiers are assigned by the store; prices are real numbers.
 */
module Models {
  import opened Wrappers

  /** A customer row. `phone` is None when the input left it out. */
  datatype Customer = Customer(id: nat, name: string, email: string, phone: Option<string>)

  /** A product row. */
  datatype Product = Product(id: nat, name: string, price: real, stock: int)

  /** An order row; `productIds` is its many-to-many link to products. */
  datatype Order = Order(id: nat, customerId: nat, productIds: set<nat>, totalAmount: real, orderDate: int)

  /** CustomerInput: name and email are required, phone is optional. */
  datatype CustomerInput = CustomerInput(name: string, email: string, phone: Option<string>)

  /** An optional input field that has a default: left out, sent as null, or given. */
  datatype IntField = Omitted | Null | Given(value: int)

  /** ProductInput: an omitted `stock` defaults to 0, an explicit null stays null. */
  datatype ProductInput = ProductInput(name: string, price: real, stock: IntField)

  /** OrderInput: `orderDate` is None when omitted, and then the current time is used. */
  datatype OrderInput = OrderInput(customerId: nat, productIds: seq<nat>, orderDate: Option<int>)

  /** Some customer in the table already holds this email. */
  predicate EmailTaken(table: seq<Customer>, email: string)
  {
    exists c | c in table :: c.email == email
  }

  /** No two customers of the table share an email. */
  ghost predicate EmailsUnique(table: seq<Customer>)
  {
    forall i, j | 0 <= i < j < |table| :: table[i].email != table[j].email
  }

  /** The customer with this id, if any. */
  function FindCustomer(table: seq<Customer>, id: nat): (r: Option<Customer>)
    ensures r.Some? ==> r.value in table && r.value.id == id
    ensures r.None? ==> forall c | c in table :: c.id != id
  {
    if table == [] then None
    else if table[0].id == id then Some(table[0])
    else FindCustomer(table[1..], id)
  }

  /** The product with this id, if any. */
  function FindProduct(table: seq<Product>, id: nat): (r: Option<Product>)
    ensures r.Some? ==> r.value in table && r.value.id == id
    ensures r.None? ==> forall p | p in table :: p.id != id
  {
    if table == [] then None
    else if table[0].id == id then Some(table[0])
    else FindProduct(table[1..], id)
  }

  predicate CustomerKnown(table: seq<Customer>, id: nat)
  {
    exists c | c in table :: c.id == id
  }

  predicate ProductKnown(table: seq<Product>, id: nat)
  {
    exists p | p in table :: p.id == id
  }

  /** The decimal digits of n, as an id is written into an error message. */
  function NatToString(n: nat): string
  {
    var digit := "0123456789"[n % 10];
    if n < 10 then [digit] else NatToString(n / 10) + [digit]
  }
}
