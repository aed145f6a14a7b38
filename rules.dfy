/**
 * The checks of the four mutations, as functions of the tables they read:
 * the customer check (email, then phone), the outcome of a batch of customer
 * rows, the resolution of an order's product ids and the errors an order
 * collects. The Store class runs these checks step by step and its methods
 * are proved to compute exactly these values.
 */
module Rules {
  import opened Wrappers
  import opened Models
  import PhoneFormat

  const EmailExistsMessage := "Email already exists"
  const InvalidPhoneMessage := "Invalid phone format. Use +1234567890 or 123-456-7890"
  const CustomerCreatedMessage := "Customer created successfully"
  const PriceNotPositiveMessage := "Price must be positive"
  const NegativeStockMessage := "Stock cannot be negative"
  /** What comparing a null stock with 0 raises. */
  const NullStockMessage := "'<' not supported between instances of 'NoneType' and 'int'"
  const NoValidProductsMessage := "No valid products provided"

  // ---------------------------------------------------------------------
  // Customers
  // ---------------------------------------------------------------------

  /** `if phone:` — a missing or empty phone is not checked at all. */
  predicate PhoneAccepted(phone: Option<string>)
  {
    phone.None? || phone.value == "" || PhoneFormat.IsValidPhone(phone.value)
  }

  datatype Verdict = Accept | EmailInUse | BadPhone

  /** The email check runs first; the phone is only looked at for a new email. */
  function CheckCustomer(table: seq<Customer>, input: CustomerInput): Verdict
  {
    if EmailTaken(table, input.email) then EmailInUse
    else if !PhoneAccepted(input.phone) then BadPhone
    else Accept
  }

  /** The row `save()` appends: the next id, and the input's fields unchanged. */
  function NewCustomer(table: seq<Customer>, input: CustomerInput): Customer
  {
    Customer(|table| + 1, input.name, input.email, input.phone)
  }

  // ---------------------------------------------------------------------
  // A batch of customers
  // ---------------------------------------------------------------------

  datatype BulkResult = BulkResult(created: seq<Customer>, errors: seq<string>)

  /** The message a rejected batch row adds to `errors`; None when the row is saved. */
  function BulkRowError(current: seq<Customer>, row: CustomerInput): Option<string>
  {
    match CheckCustomer(current, row)
    case EmailInUse => Some("Email already exists: " + row.email)
    case BadPhone => Some("Invalid phone format: " + row.phone.value)
    case Accept => None
  }

  /**
   * The created customers and the errors after the rows have been handled in
   * order, each row checked against the table plus the rows saved before it.
   */
  function Bulk(table: seq<Customer>, rows: seq<CustomerInput>): BulkResult
    decreases |rows|
  {
    if rows == [] then BulkResult([], [])
    else
      var prev := Bulk(table, rows[..|rows| - 1]);
      var current := table + prev.created;
      var row := rows[|rows| - 1];
      match BulkRowError(current, row)
      case Some(msg) => BulkResult(prev.created, prev.errors + [msg])
      case None => BulkResult(prev.created + [NewCustomer(current, row)], prev.errors)
  }

  /** Every row yields exactly one entry, in `created` or in `errors`. */
  lemma {:induction false} BulkAccountsForEveryRow(table: seq<Customer>, rows: seq<CustomerInput>)
    ensures |Bulk(table, rows).created| + |Bulk(table, rows).errors| == |rows|
    decreases |rows|
  {
    if rows != [] {
      BulkAccountsForEveryRow(table, rows[..|rows| - 1]);
    }
  }

  /** Handling more rows only appends to both lists: they follow input order. */
  lemma {:induction false} BulkPrefix(table: seq<Customer>, rows: seq<CustomerInput>, m: nat)
    requires m <= |rows|
    ensures Bulk(table, rows[..m]).created <= Bulk(table, rows).created
    ensures Bulk(table, rows[..m]).errors <= Bulk(table, rows).errors
    decreases |rows|
  {
    if m < |rows| {
      var init := rows[..|rows| - 1];
      assert init[..m] == rows[..m];
      BulkPrefix(table, init, m);
    } else {
      assert rows[..m] == rows;
    }
  }

  /**
   * Row i is checked against the table plus the customers saved before it;
   * a saved row lands at the next position of `created`, a rejected row's
   * message at the next position of `errors`.
   */
  lemma BulkRowFate(table: seq<Customer>, rows: seq<CustomerInput>, i: nat)
    requires i < |rows|
    ensures var prev := Bulk(table, rows[..i]);
            var current := table + prev.created;
            var result := Bulk(table, rows);
            match BulkRowError(current, rows[i])
            case Some(msg) =>
              |prev.errors| < |result.errors| && result.errors[|prev.errors|] == msg
            case None =>
              |prev.created| < |result.created| && result.created[|prev.created|] == NewCustomer(current, rows[i])
  {
    var step := rows[..i + 1];
    assert step[..i] == rows[..i];
    assert step[i] == rows[i];
    BulkPrefix(table, rows, i + 1);
  }

  /** Every saved customer carries the next free id. */
  lemma {:induction false} BulkIds(table: seq<Customer>, rows: seq<CustomerInput>)
    ensures forall k | 0 <= k < |Bulk(table, rows).created| :: Bulk(table, rows).created[k].id == |table| + k + 1
    decreases |rows|
  {
    if rows != [] {
      var prev := Bulk(table, rows[..|rows| - 1]);
      BulkIds(table, rows[..|rows| - 1]);
      var current := table + prev.created;
      var row := rows[|rows| - 1];
      if BulkRowError(current, row).None? {
        var created := prev.created + [NewCustomer(current, row)];
        assert Bulk(table, rows).created == created;
        forall k | 0 <= k < |created|
          ensures created[k].id == |table| + k + 1
        {
          if k < |prev.created| {
            assert created[k] == prev.created[k];
            assert prev.created[k].id == |table| + k + 1;
          } else {
            assert created[k] == NewCustomer(current, row);
            assert |current| == |table| + |prev.created|;
          }
        }
      }
    }
  }

  /** A saved customer's email stays taken for every later row of the batch. */
  lemma BulkSavedEmailTaken(table: seq<Customer>, rows: seq<CustomerInput>, i: nat, j: nat)
    requires i < j <= |rows|
    requires BulkRowError(table + Bulk(table, rows[..i]).created, rows[i]).None?
    ensures EmailTaken(table + Bulk(table, rows[..j]).created, rows[i].email)
  {
    var prefix := rows[..j];
    assert prefix[..i] == rows[..i] && prefix[i] == rows[i];
    BulkRowFate(table, prefix, i);
    var c := NewCustomer(table + Bulk(table, rows[..i]).created, rows[i]);
    assert c in table + Bulk(table, prefix).created;
  }

  /** A row repeating the email of a row saved earlier in the same batch is rejected. */
  lemma BulkRejectsRepeatedEmail(table: seq<Customer>, rows: seq<CustomerInput>, i: nat, j: nat)
    requires i < j < |rows|
    requires BulkRowError(table + Bulk(table, rows[..i]).created, rows[i]).None?
    requires rows[j].email == rows[i].email
    ensures BulkRowError(table + Bulk(table, rows[..j]).created, rows[j]) == Some("Email already exists: " + rows[j].email)
  {
    BulkSavedEmailTaken(table, rows, i, j);
  }

  /** Pairwise distinct emails stay pairwise distinct after a batch. */
  lemma {:induction false} BulkKeepsEmailsUnique(table: seq<Customer>, rows: seq<CustomerInput>)
    requires EmailsUnique(table)
    ensures EmailsUnique(table + Bulk(table, rows).created)
    decreases |rows|
  {
    if rows != [] {
      var prev := Bulk(table, rows[..|rows| - 1]);
      BulkKeepsEmailsUnique(table, rows[..|rows| - 1]);
      var current := table + prev.created;
      var row := rows[|rows| - 1];
      if BulkRowError(current, row).None? {
        AppendNewEmailKeepsUnique(current, NewCustomer(current, row));
        assert table + Bulk(table, rows).created == current + [NewCustomer(current, row)];
      }
    }
  }

  lemma AppendNewEmailKeepsUnique(table: seq<Customer>, c: Customer)
    requires EmailsUnique(table)
    requires !EmailTaken(table, c.email)
    ensures EmailsUnique(table + [c])
  {
    var t := table + [c];
    forall i, j | 0 <= i < j < |t|
      ensures t[i].email != t[j].email
    {
      if j == |table| {
        assert t[i] in table;
      }
    }
  }

  /**
   * Three rows, the second repeating an email already taken (in the table or
   * by the first row): the first and third rows are saved, in order, and one
   * error names the second row's email.
   */
  lemma BulkSkipsDuplicateRow(table: seq<Customer>, r1: CustomerInput, r2: CustomerInput, r3: CustomerInput)
    requires CheckCustomer(table, r1) == Accept
    requires EmailTaken(table + [NewCustomer(table, r1)], r2.email)
    requires CheckCustomer(table + [NewCustomer(table, r1)], r3) == Accept
    ensures var c1 := NewCustomer(table, r1);
            Bulk(table, [r1, r2, r3])
            == BulkResult([c1, NewCustomer(table + [c1], r3)], ["Email already exists: " + r2.email])
  {
    var c1 := NewCustomer(table, r1);
    var one := [r1];
    assert one[..0] == [];
    assert Bulk(table, one) == BulkResult([c1], []);
    var two := [r1, r2];
    assert two[..1] == one;
    assert Bulk(table, two) == BulkResult([c1], ["Email already exists: " + r2.email]);
    var three := [r1, r2, r3];
    assert three[..2] == two;
  }

  // ---------------------------------------------------------------------
  // Orders
  // ---------------------------------------------------------------------

  function CustomerIdError(id: nat): string { "Invalid customer ID: " + NatToString(id) }

  function ProductIdError(pid: nat): string { "Invalid product ID: " + NatToString(pid) }

  datatype Resolution = Resolution(found: seq<Product>, errors: seq<string>)

  /** The products found for the ids and one error per id not found, both in input order. */
  function Resolve(table: seq<Product>, pids: seq<nat>): Resolution
    decreases |pids|
  {
    if pids == [] then Resolution([], [])
    else
      var prev := Resolve(table, pids[..|pids| - 1]);
      var pid := pids[|pids| - 1];
      match FindProduct(table, pid)
      case Some(p) => Resolution(prev.found + [p], prev.errors)
      case None => Resolution(prev.found, prev.errors + [ProductIdError(pid)])
  }

  /** The ids of pids that name no product, in input order. */
  function UnknownIds(table: seq<Product>, pids: seq<nat>): seq<nat>
    decreases |pids|
  {
    if pids == [] then []
    else
      var pid := pids[|pids| - 1];
      UnknownIds(table, pids[..|pids| - 1]) + (if ProductKnown(table, pid) then [] else [pid])
  }

  lemma FindProductKnown(table: seq<Product>, pid: nat)
    ensures FindProduct(table, pid).Some? <==> ProductKnown(table, pid)
  {
  }

  /**
   * The errors are one "Invalid product ID" per unknown id, in input order;
   * the products found are products of the table, exactly one per known id.
   */
  lemma {:induction false} ResolveErrorsAreUnknownIds(table: seq<Product>, pids: seq<nat>)
    ensures var r := Resolve(table, pids);
            var unknown := UnknownIds(table, pids);
            && |r.errors| == |unknown|
            && (forall k | 0 <= k < |unknown| :: r.errors[k] == ProductIdError(unknown[k]))
            && |r.found| + |unknown| == |pids|
            && (forall p | p in r.found :: p in table)
    decreases |pids|
  {
    if pids != [] {
      ResolveErrorsAreUnknownIds(table, pids[..|pids| - 1]);
      FindProductKnown(table, pids[|pids| - 1]);
    }
  }

  /** An id is reported unknown exactly when no product holds it. */
  lemma {:induction false} UnknownIdsEmpty(table: seq<Product>, pids: seq<nat>)
    ensures UnknownIds(table, pids) == [] <==> forall pid | pid in pids :: ProductKnown(table, pid)
    decreases |pids|
  {
    if pids != [] {
      var init := pids[..|pids| - 1];
      UnknownIdsEmpty(table, init);
      assert pids == init + [pids[|pids| - 1]];
    }
  }

  /** The ids of the products found are exactly the known ids among pids. */
  lemma {:induction false} ResolveFoundIds(table: seq<Product>, pids: seq<nat>)
    ensures (set p | p in Resolve(table, pids).found :: p.id)
            == (set pid | pid in pids && ProductKnown(table, pid))
    decreases |pids|
  {
    if pids != [] {
      var init := pids[..|pids| - 1];
      var pid := pids[|pids| - 1];
      ResolveFoundIds(table, init);
      FindProductKnown(table, pid);
      assert pids == init + [pid];
      var prev := Resolve(table, init);
      match FindProduct(table, pid)
      case Some(p) =>
        assert (set q | q in prev.found + [p] :: q.id) == (set q | q in prev.found :: q.id) + {pid};
      case None =>
    }
  }

  /** The errors CreateOrder collects, in the order it collects them. */
  function OrderErrors(customers: seq<Customer>, products: seq<Product>, input: OrderInput): seq<string>
  {
    if FindCustomer(customers, input.customerId).None? then
      [CustomerIdError(input.customerId)]
    else
      var r := Resolve(products, input.productIds);
      r.errors + (if r.found == [] then [NoValidProductsMessage] else [])
  }

  /** An unknown customer gives one error, and the product ids are not examined. */
  lemma UnknownCustomerOnlyError(customers: seq<Customer>, products: seq<Product>, input: OrderInput)
    requires !CustomerKnown(customers, input.customerId)
    ensures OrderErrors(customers, products, input) == [CustomerIdError(input.customerId)]
  {
  }

  /**
   * An order is accepted exactly when its customer exists, it names at least
   * one product, and every product id it names exists: one unknown id among
   * known ones is enough to refuse it.
   */
  lemma OrderAcceptedIff(customers: seq<Customer>, products: seq<Product>, input: OrderInput)
    ensures OrderErrors(customers, products, input) == []
            <==> && CustomerKnown(customers, input.customerId)
                 && |input.productIds| > 0
                 && forall pid | pid in input.productIds :: ProductKnown(products, pid)
  {
    ResolveErrorsAreUnknownIds(products, input.productIds);
    UnknownIdsEmpty(products, input.productIds);
  }

  /** The sum of the prices, as the seeding command computes an order's total. */
  function SumPrices(ps: seq<Product>): real
  {
    if ps == [] then 0.0 else SumPrices(ps[..|ps| - 1]) + ps[|ps| - 1].price
  }

  /** Prices that are all positive add up to a positive total once there is at least one. */
  lemma {:induction false} SumPricesPositive(ps: seq<Product>)
    requires forall p | p in ps :: p.price > 0.0
    ensures SumPrices(ps) >= 0.0
    ensures ps != [] ==> SumPrices(ps) > 0.0
    decreases |ps|
  {
    if ps != [] {
      var init := ps[..|ps| - 1];
      assert forall p | p in init :: p in ps;
      SumPricesPositive(init);
      assert ps[|ps| - 1] in ps;
    }
  }

  /** The order CreateOrder saves once no error was collected. */
  function NewOrder(id: nat, input: OrderInput, found: seq<Product>, now: int): Order
  {
    Order(id, input.customerId, set p | p in found :: p.id, SumPrices(found),
          if input.orderDate.Some? then input.orderDate.value else now)
  }

  /**
   * An accepted order is linked to exactly the products it names, all of
   * them stored.
   */
  lemma AcceptedOrderLinks(customers: seq<Customer>, products: seq<Product>, input: OrderInput, id: nat, now: int)
    requires OrderErrors(customers, products, input) == []
    ensures var o := NewOrder(id, input, Resolve(products, input.productIds).found, now);
            && o.productIds == (set pid | pid in input.productIds)
            && o.productIds != {}
            && (forall pid | pid in o.productIds :: ProductKnown(products, pid))
  {
    OrderAcceptedIff(customers, products, input);
    ResolveFoundIds(products, input.productIds);
    assert (set pid | pid in input.productIds && ProductKnown(products, pid))
        == (set pid | pid in input.productIds);
    var o := NewOrder(id, input, Resolve(products, input.productIds).found, now);
    assert o.productIds == (set pid | pid in input.productIds);
    assert input.productIds[0] in o.productIds;
  }

  /** When every stored price is positive, an accepted order's total is positive. */
  lemma AcceptedOrderTotalPositive(customers: seq<Customer>, products: seq<Product>, input: OrderInput, id: nat, now: int)
    requires OrderErrors(customers, products, input) == []
    requires forall p | p in products :: p.price > 0.0
    ensures NewOrder(id, input, Resolve(products, input.productIds).found, now).totalAmount > 0.0
  {
    ResolveErrorsAreUnknownIds(products, input.productIds);
    var found := Resolve(products, input.productIds).found;
    assert found != [];
    SumPricesPositive(found);
  }

  /** Two products priced 10.00 and 15.00 make an order of 25.00. */
  lemma OrderTotalExample(c: Customer, p1: Product, p2: Product)
    requires p1.id == 1 && p1.price == 10.0
    requires p2.id == 2 && p2.price == 15.0
    ensures var input := OrderInput(c.id, [1, 2], None);
            var found := Resolve([p1, p2], [1, 2]).found;
            && OrderErrors([c], [p1, p2], input) == []
            && found == [p1, p2]
            && NewOrder(1, input, found, 0).totalAmount == 25.0
  {
    var table := [p1, p2];
    assert FindCustomer([c], c.id) == Some(c);
    assert FindProduct(table, 1) == Some(p1);
    assert table[1..] == [p2];
    assert FindProduct(table, 2) == Some(p2);
    var pids: seq<nat> := [1, 2];
    assert pids[..1] == [1];
    assert pids[..1][..0] == [];
    assert Resolve(table, [1]) == Resolution([p1], []);
    assert Resolve(table, pids) == Resolution([p1, p2], []);
    assert table[..1] == [p1] && [p1][..0] == [];
    assert SumPrices([p1]) == 10.0;
  }

  // ---------------------------------------------------------------------
  // CreateOrder as the source writes it
  // ---------------------------------------------------------------------

  const UndefinedTotalMessage := "name 'total_amount' is not defined"

  /**
   * CreateOrder as written, once the comma missing between the `order_date`
   * and `total_amount` arguments is supplied (without it the file does not
   * compile at all): the order is built from `total_amount`, a name nothing
   * defines, so once the checks pass the mutation fails with a NameError
   * instead of saving.
   */
  function CreateOrderAsWritten(customers: seq<Customer>, products: seq<Product>, input: OrderInput): Result<Order, seq<string>>
  {
    var errors := OrderErrors(customers, products, input);
    if errors != [] then Failure(errors) else Failure([UndefinedTotalMessage])
  }

  /** As written, every order that passes the checks is lost: no input creates one. */
  lemma AsWrittenLosesValidOrder(customers: seq<Customer>, products: seq<Product>, input: OrderInput)
    requires CustomerKnown(customers, input.customerId)
    requires |input.productIds| > 0
    requires forall pid | pid in input.productIds :: ProductKnown(products, pid)
    ensures CreateOrderAsWritten(customers, products, input) == Failure([UndefinedTotalMessage])
  {
    OrderAcceptedIff(customers, products, input);
  }
}
