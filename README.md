# CRM schema: the write side, in Dafny

This project models the mutations of a small customer-relationship backend
(`crm/schema.py`): creating one customer, creating a batch of customers,
creating a product and creating an order, together with the queries that
return whole tables. The database is a `Store` object holding three tables
(customers, products, orders) as sequences of records with store-assigned
ids 1, 2, 3, ...; `save()` appends a row, and a raised exception becomes a
`Failure` that leaves every table unchanged.

Layout:

- `wrappers.dfy` — `Option` and `Result`.
- `phone.dfy` (`PhoneFormat`) — the phone pattern `^\+?\d{1,3}[- ]?\d{3,}[- ]?\d{3,}$`
  twice: as the language of the regular expression (some split of the string
  into the pattern's pieces exists) and as a left-to-right scan, proved equal on
  every string. Python's `$` also matches before one final newline, and this
  is modelled: "1234567\n" is accepted.
- `models.dfy` (`Models`) — the records and the table lookups
  (`filter(email=...).exists()`, `get(id=...)`); an optional input field with a default is omitted, null or given.
- `rules.dfy` (`Rules`) — each mutation's checks as functions of the tables
  (`CheckCustomer`, `Bulk`, `Resolve`, `OrderErrors`) and the lemmas about them.
- `schema.dfy` (`Schema`) — the `Store` class: the mutations as methods that
  run the source's loops and are proved to compute exactly those functions,
  keeping the store invariant `Valid()` (ids in sequence, positive prices,
  non-negative stock, orders linked to stored customers and to one or more
  stored products).

Choices made where the code leaves room:

- One unknown product id among known ones refuses the whole order, because
  `errors` is non-empty at crm/schema.py:158 (`Rules.OrderAcceptedIff`).
  CreateCustomer and CreateProduct stop at the first failed check, because the
  code raises there (crm/schema.py:65, 70, 122, 124).
- BulkCreateCustomers declares its argument as `input` (crm/schema.py:82) but
  its `mutate` takes `customers` (crm/schema.py:88), so a call passing `input`
  raises TypeError before the loop starts; the model takes the list of rows
  as the evidently intended argument.
- An order's total is taken to be the sum of the prices of the products found,
  one price per id named, as `crm/management/commands/seed.py:61` computes it.
  The code never defines this value (see Findings).
- The current time used when an order has no date is a parameter (`now`).

## Model

| member | source | states |
|---|---|---|
| `PhoneFormat.RunEnd` | crm/schema.py:69 | the end of the longest digit run (`\d+`) from an index: all digits before it, a non-digit or the end at it |
| `PhoneFormat.PatternScanCorrect` | crm/schema.py:69 | the scan accepts a string exactly when an optional '+', 1-3 digits, an optional '-' or ' ', 3+ digits, an optional '-' or ' ' and 3+ digits make up the whole string (both directions) |
| `PhoneFormat.IsValidPhoneCorrect` | crm/schema.py:69 | the phone check is `re.match` with the anchored pattern, including Python's `$` matching before one final newline (both directions) |
| `PhoneFormat.ValidPhoneHasSevenDigits` | crm/schema.py:69 | every phone the check accepts contains at least seven digits |
| `PhoneFormat.AdvertisedFormatsAccepted` | crm/schema.py:70 | the two formats named in the error message, "+1234567890" and "123-456-7890", are accepted by the pattern |
| `PhoneFormat.TrailingNewlineAccepted` | crm/schema.py:99 | a valid number followed by one newline ("1234567\n") passes the check |
| `PhoneFormat.ShortOrAlphabeticRejected` | crm/schema.py:99 | "abc" and "12" are rejected by the pattern |
| `Models.FindCustomer` | crm/schema.py:141-143 | `Customer.objects.get(id=...)`: a customer of the table with that id, or none when no customer has it |
| `Models.FindProduct` | crm/schema.py:150-153 | `Product.objects.get(id=...)`: a product of the table with that id, or none when no product has it |
| `Rules.AppendNewEmailKeepsUnique` | crm/schema.py:64-76 | saving a customer whose email no stored customer holds keeps emails pairwise distinct |
| `Rules.BulkAccountsForEveryRow` | crm/schema.py:92-107 | every input row yields exactly one entry: \|created\| + \|errors\| = \|rows\| |
| `Rules.BulkPrefix` | crm/schema.py:92-107 | handling further rows only appends to `created` and to `errors`, so both follow input order |
| `Rules.BulkRowFate` | crm/schema.py:95-105 | row i is checked against the table plus the customers saved before it; if saved it is the next entry of `created`, otherwise its message is the next entry of `errors` |
| `Rules.BulkIds` | crm/schema.py:103-104 | the k-th customer saved by a batch gets id \|table\| + k + 1 |
| `Rules.BulkSavedEmailTaken` | crm/schema.py:95-105 | once a batch row is saved its email counts as taken for every later row |
| `Rules.BulkRejectsRepeatedEmail` | crm/schema.py:95-105 | a row repeating the email of an earlier saved row of the same batch is rejected with "Email already exists: <email>" |
| `Rules.BulkKeepsEmailsUnique` | crm/schema.py:95-105 | if stored emails are pairwise distinct before a batch, they are pairwise distinct after it |
| `Rules.BulkSkipsDuplicateRow` | crm/schema.py:92-109 | three rows whose second repeats a taken email: the first and third are saved in order and the only error names the second row's email |
| `Rules.ResolveErrorsAreUnknownIds` | crm/schema.py:148-153 | the errors are one "Invalid product ID: <pid>" per id naming no product, in input order; the products found are stored products, one per known id |
| `Rules.UnknownIdsEmpty` | crm/schema.py:148-153 | no id is reported unknown exactly when every id names a stored product |
| `Rules.ResolveFoundIds` | crm/schema.py:148-153 | the ids of the products found are exactly the known ids among those named |
| `Rules.UnknownCustomerOnlyError` | crm/schema.py:140-144 | an unknown customer yields the single error "Invalid customer ID: <id>" and no product is looked at |
| `Rules.OrderAcceptedIff` | crm/schema.py:139-159 | an order collects no error exactly when its customer exists, it names at least one product and every product id it names exists (both directions) |
| `Rules.AcceptedOrderLinks` | crm/schema.py:161-166 | an accepted order is linked to exactly the set of ids it names, that set is non-empty and stored |
| `Rules.AcceptedOrderTotalPositive` | crm/schema.py:161-164 | when every stored price is positive, an accepted order's total (the sum of the prices found) is positive |
| `Rules.SumPricesPositive` | crm/management/commands/seed.py:61 | a sum of positive prices is non-negative, and positive when there is at least one |
| `Rules.OrderTotalExample` | crm/schema.py:161-166 | a customer ordering products priced 10.00 and 15.00 is accepted with both products and a total of 25.00 |
| `Rules.AsWrittenLosesValidOrder` | crm/schema.py:161-164 | as written (with the missing comma supplied), an order that passes every check still fails (NameError on `total_amount`) instead of being saved |
| `Schema.Store.ResolveHello` | crm/schema.py:174 | the `hello` query field returns its default value "Hello, GraphQL!" |
| `Schema.Store.ResolveCustomers` | crm/schema.py:179-180 | the `customers` query returns the whole customer table, unfiltered |
| `Schema.Store.ResolveProducts` | crm/schema.py:182-183 | the `products` query returns the whole product table, unfiltered |
| `Schema.Store.ResolveOrders` | crm/schema.py:185-186 | the `orders` query returns the whole order table, unfiltered |
| `Schema.Store.SaveCustomer` | crm/schema.py:72-76 | `save()` appends one customer with the next id and the input's name, email and phone; nothing else changes; the store invariant holds |
| `Schema.Store.CreateCustomer` | crm/schema.py:62-77 | a taken email fails with "Email already exists" (even if the phone is bad too); else a non-empty phone failing the pattern fails with the phone-format message; a failure changes nothing; success appends exactly one customer with the given fields and returns "Customer created successfully"; distinct emails stay distinct |
| `Schema.Store.BulkCreateCustomers` | crm/schema.py:88-109 | runs the rows in order and returns exactly `Bulk` of the old table; the customer table becomes the old table followed by `created`; other tables unchanged; distinct emails stay distinct |
| `Schema.Store.CreateProduct` | crm/schema.py:120-128 | price <= 0 fails with "Price must be positive"; else a stock sent as null fails its comparison with 0 (TypeError); else stock < 0 fails with "Stock cannot be negative"; a failure changes nothing; success appends one product with the given name, price and stock (0 when omitted, as declared at crm/schema.py:42) |
| `Schema.Store.FindOrderProducts` | crm/schema.py:147-153 | the product-id loop computes exactly `Resolve`: the products found and one error per unknown id, in input order |
| `Schema.Store.CreateOrder` | crm/schema.py:138-168 | fails exactly when `OrderErrors` is non-empty, returning those errors and saving nothing; otherwise saves one order for the customer, linked to exactly the ids named, dated by the input or `now`, with a positive total |

## Findings

| source | as written | input that shows it | evidently intended | confidence | as-written member | corrected member |
|---|---|---|---|---|---|---|
| crm/schema.py:161-166 | lines 163-164 lack the comma between the `order_date` and `total_amount` arguments, so the file does not compile and no mutation or query in it runs; with the comma supplied, the order is built with `total_amount=total_amount`, a name defined nowhere, and is never saved before `order.products.set` | with the comma supplied: a stored customer 1, a stored product 1, `product_ids = [1]`: every check passes, then the mutation raises a NameError instead of returning an order (`Rules.AsWrittenLosesValidOrder`) | compute the total as the sum of the products' prices, save the order, then link the products | high, not executed | `Rules.CreateOrderAsWritten` | `Schema.Store.CreateOrder` |

## Left out

- The whole model describes crm/schema.py with the comma missing at lines 163-164 supplied (as written the file does not compile) and with BulkCreateCustomers' `mutate` taking its declared `input` argument (as written it raises TypeError on every call).
- ResolveCustomers, ResolveProducts, ResolveOrders: `objects.all()` has no ordering, so the database's row order is unspecified; the model returns table order.
- `\d` is modelled as the ASCII digits 0-9; Python's `\d` on `str` also matches other Unicode decimal digits.
- Prices are real numbers; floating-point rounding of `graphene.Float` and the conversion to a decimal column are not modelled.
- Ids given to CreateOrder are natural numbers; parsing id strings, and the `ValueError` a malformed id raises, are not modelled. Error messages write ids in decimal.
- `@transaction.atomic` on BulkCreateCustomers and the `except Exception` at crm/schema.py:106-107: the store's `save()` never fails in this model, so no row raises and there is nothing to roll back.
- Email uniqueness is stated as preserved, not assumed: `crm/models.py` (a possible database unique constraint) is not part of this model.
- Duplicate product ids in one order: the order's link is a set of ids, while the total counts one price per id named, as a sum over the list of products found would.
- The GraphQL type, input and registry declarations (crm/schema.py:14-48, 173-193) are framework metadata; only their field shapes appear, as records.
- The scheduled jobs and GraphQL clients (crm/tasks.py, crm/cron.py, crm/cron_jobs/send_order_reminders.py) are network and log-file I/O; the seeding command (crm/management/commands/seed.py) is random data generation.
- Restocking, list filters and summary fields do not appear in the modelled code and are not modelled.
- Concurrent requests and the read-then-write race on the email check are not modelled; each mutation runs alone.
