/**
 * The store behind the GraphQL schema: the customer, product and order tables,
 * the mutations that write them and the resolvers that read them. A raised
 * exception becomes a Failure and leaves every table as it was; `save()`
 * appends a row with the next id.
 */
module Schema {
  import opened Wrappers
  import opened Models
  import opened Rules

  /** What CreateCustomer returns on success. */
  datatype CustomerPayload = CustomerPayload(customer: Customer, message: string)

  /** The default value of the `hello` query field. */
  const Hello := "Hello, GraphQL!"

  /** ProductInput's stock after the default is applied: 0 when omitted, None when sent as null. */
  function StockOf(input: ProductInput): Option<int>
  {
    match input.stock
    case Omitted => Some(0)
    case Null => None
    case Given(v) => Some(v)
  }

  class Store {
    var customers: seq<Customer>
    var products: seq<Product>
    var orders: seq<Order>

    /** An order refers to a stored customer and to one or more stored products. */
    ghost predicate OrderLinked(o: Order)
      reads this
    {
      && CustomerKnown(customers, o.customerId)
      && o.productIds != {}
      && forall pid | pid in o.productIds :: ProductKnown(products, pid)
    }

    /**
     * Ids are handed out 1, 2, 3, ... per table; every product has a positive
     * price and a non-negative stock; every order is linked.
     */
    ghost predicate Valid()
      reads this
    {
      && (forall k | 0 <= k < |customers| :: customers[k].id == k + 1)
      && (forall k | 0 <= k < |products| ::
            products[k].id == k + 1 && products[k].price > 0.0 && products[k].stock >= 0)
      && (forall k | 0 <= k < |orders| :: orders[k].id == k + 1 && OrderLinked(orders[k]))
    }

    constructor ()
      ensures Valid()
      ensures customers == [] && products == [] && orders == []
    {
      customers, products, orders := [], [], [];
    }

    // -------------------------------------------------------------------
    // Queries
    // -------------------------------------------------------------------

    /** `hello` query: the field's default value. */
    method ResolveHello() returns (r: string)
      ensures r == "Hello, GraphQL!"
    {
      r := Hello;
    }

    /** `customers` query: every stored customer, unfiltered. */
    method ResolveCustomers() returns (r: seq<Customer>)
      ensures r == customers
    {
      r := customers;
    }

    /** `products` query: every stored product, unfiltered. */
    method ResolveProducts() returns (r: seq<Product>)
      ensures r == products
    {
      r := products;
    }

    /** `orders` query: every stored order, unfiltered. */
    method ResolveOrders() returns (r: seq<Order>)
      ensures r == orders
    {
      r := orders;
    }

    // -------------------------------------------------------------------
    // Customers
    // -------------------------------------------------------------------

    /** `customer.save()` for a new customer built from the input. */
    method SaveCustomer(input: CustomerInput) returns (c: Customer)
      requires Valid()
      modifies this
      ensures Valid()
      ensures c == NewCustomer(old(customers), input)
      ensures customers == old(customers) + [c]
      ensures products == old(products) && orders == old(orders)
    {
      c := NewCustomer(customers, input);
      customers := customers + [c];
      forall k | 0 <= k < |orders|
        ensures OrderLinked(orders[k])
      {
        assert old(OrderLinked(orders[k]));
        var w :| w in old(customers) && w.id == orders[k].customerId;
        assert w in customers;
      }
    }

    /**
     * CreateCustomer: "Email already exists" when the email is taken, else the
     * phone-format error when a non-empty phone fails the check, else one new
     * customer and "Customer created successfully".
     */
    method CreateCustomer(input: CustomerInput) returns (r: Result<CustomerPayload, string>)
      requires Valid()
      modifies this
      ensures Valid()
      ensures products == old(products) && orders == old(orders)
      ensures EmailTaken(old(customers), input.email) ==> r == Failure(EmailExistsMessage)
      ensures !EmailTaken(old(customers), input.email) && !PhoneAccepted(input.phone)
              ==> r == Failure(InvalidPhoneMessage)
      ensures r.Success? <==> !EmailTaken(old(customers), input.email) && PhoneAccepted(input.phone)
      ensures r.Failure? ==> customers == old(customers)
      ensures r.Success? ==>
                && r.value == CustomerPayload(NewCustomer(old(customers), input), CustomerCreatedMessage)
                && customers == old(customers) + [r.value.customer]
      ensures old(EmailsUnique(customers)) ==> EmailsUnique(customers)
    {
      if EmailTaken(customers, input.email) {
        return Failure(EmailExistsMessage);
      }
      if input.phone.Some? && input.phone.value != "" {
        if !PhoneFormat.IsValidPhone(input.phone.value) {
          return Failure(InvalidPhoneMessage);
        }
      }
      ghost var before := customers;
      var c := SaveCustomer(input);
      if EmailsUnique(before) {
        AppendNewEmailKeepsUnique(before, c);
      }
      return Success(CustomerPayload(c, CustomerCreatedMessage));
    }

    /**
     * BulkCreateCustomers: each row is checked against the table as it stands,
     * rows saved earlier in the batch included; a saved row goes to `created`,
     * a rejected one adds its message to `errors`.
     */
    method BulkCreateCustomers(rows: seq<CustomerInput>) returns (created: seq<Customer>, errors: seq<string>)
      requires Valid()
      modifies this
      ensures Valid()
      ensures BulkResult(created, errors) == Bulk(old(customers), rows)
      ensures customers == old(customers) + created
      ensures products == old(products) && orders == old(orders)
      ensures old(EmailsUnique(customers)) ==> EmailsUnique(customers)
    {
      created, errors := [], [];
      for i := 0 to |rows|
        invariant Valid()
        invariant BulkResult(created, errors) == Bulk(old(customers), rows[..i])
        invariant customers == old(customers) + created
        invariant products == old(products) && orders == old(orders)
      {
        var row := rows[i];
        assert rows[..i + 1][..i] == rows[..i];
        if EmailTaken(customers, row.email) {
          errors := errors + ["Email already exists: " + row.email];
        } else if row.phone.Some? && row.phone.value != "" && !PhoneFormat.IsValidPhone(row.phone.value) {
          errors := errors + ["Invalid phone format: " + row.phone.value];
        } else {
          var c := SaveCustomer(row);
          created := created + [c];
        }
      }
      assert rows[..|rows|] == rows;
      if old(EmailsUnique(customers)) {
        BulkKeepsEmailsUnique(old(customers), rows);
      }
    }

    // -------------------------------------------------------------------
    // Products
    // -------------------------------------------------------------------

    /**
     * CreateProduct: "Price must be positive" when price <= 0; else a null
     * stock fails the comparison with 0 (TypeError); else "Stock cannot be
     * negative" when stock < 0; else one new product.
     */
    method CreateProduct(input: ProductInput) returns (r: Result<Product, string>)
      requires Valid()
      modifies this
      ensures Valid()
      ensures customers == old(customers) && orders == old(orders)
      ensures input.price <= 0.0 ==> r == Failure(PriceNotPositiveMessage)
      ensures input.price > 0.0 && input.stock == Null ==> r == Failure(NullStockMessage)
      ensures input.price > 0.0 && input.stock.Given? && input.stock.value < 0
              ==> r == Failure(NegativeStockMessage)
      ensures r.Success? <==> input.price > 0.0 && StockOf(input).Some? && StockOf(input).value >= 0
      ensures r.Failure? ==> products == old(products)
      ensures r.Success? ==>
                && r.value == Product(|old(products)| + 1, input.name, input.price, StockOf(input).value)
                && products == old(products) + [r.value]
    {
      if input.price <= 0.0 {
        return Failure(PriceNotPositiveMessage);
      }
      var stock := StockOf(input);
      if stock.None? {
        return Failure(NullStockMessage);
      }
      if stock.value < 0 {
        return Failure(NegativeStockMessage);
      }
      var p := Product(|products| + 1, input.name, input.price, stock.value);
      products := products + [p];
      forall k | 0 <= k < |orders|
        ensures OrderLinked(orders[k])
      {
        assert old(OrderLinked(orders[k]));
        forall pid | pid in orders[k].productIds
          ensures ProductKnown(products, pid)
        {
          var w :| w in old(products) && w.id == pid;
          assert w in products;
        }
      }
      return Success(p);
    }

    // -------------------------------------------------------------------
    // Orders
    // -------------------------------------------------------------------

    /**
     * The product-id loop of CreateOrder: the products found, and one
     * "Invalid product ID" error per id that names no product, in input order.
     */
    method FindOrderProducts(pids: seq<nat>) returns (found: seq<Product>, errors: seq<string>)
      ensures Resolution(found, errors) == Resolve(products, pids)
    {
      found, errors := [], [];
      for i := 0 to |pids|
        invariant Resolution(found, errors) == Resolve(products, pids[..i])
      {
        var pid := pids[i];
        assert pids[..i + 1][..i] == pids[..i];
        match FindProduct(products, pid)
        case Some(p) =>
          found := found + [p];
        case None =>
          errors := errors + [ProductIdError(pid)];
      }
      assert pids[..|pids|] == pids;
    }

    /**
     * CreateOrder: an unknown customer ends it with one error; otherwise every
     * unknown product id adds an error, "No valid products provided" is added
     * when none was found, and any error refuses the order. Without errors the
     * order is saved, linked to the products found, with their prices summed.
     */
    method CreateOrder(input: OrderInput, now: int) returns (r: Result<Order, seq<string>>)
      requires Valid()
      modifies this
      ensures Valid()
      ensures customers == old(customers) && products == old(products)
      ensures r.Failure? <==> OrderErrors(customers, products, input) != []
      ensures r.Failure? ==> r.error == OrderErrors(customers, products, input) && orders == old(orders)
      ensures r.Success? ==>
                && r.value == NewOrder(|old(orders)| + 1, input, Resolve(products, input.productIds).found, now)
                && orders == old(orders) + [r.value]
                && r.value.customerId == input.customerId
                && r.value.productIds == (set pid | pid in input.productIds)
                && r.value.totalAmount > 0.0
    {
      var customer := FindCustomer(customers, input.customerId);
      if customer.None? {
        return Failure([CustomerIdError(input.customerId)]);
      }
      var found, errors := FindOrderProducts(input.productIds);
      if found == [] {
        errors := errors + [NoValidProductsMessage];
      }
      if errors != [] {
        return Failure(errors);
      }
      var order := NewOrder(|orders| + 1, input, found, now);
      AcceptedOrderLinks(customers, products, input, |orders| + 1, now);
      AcceptedOrderTotalPositive(customers, products, input, |orders| + 1, now);
      orders := orders + [order];
      return Success(order);
    }
  }
}
