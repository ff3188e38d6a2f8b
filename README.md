# Estate properties and offers, modelled in Dafny

This project models the behaviour of a real-estate listing module for the Odoo
framework: the `estate.property` record (a listing with a lifecycle state, a
garden, areas and a list of offers), the `estate.property.offer` record (a bid
by a partner, with a status, a validity in days and a deadline), and the
accounting extension that bills the buyer when a property is sold.

- `estate_property.dfy` (module `EstateProperty`) models
  `estate/models/estate_property.py`. `Property` and `Offer` are classes whose
  methods update fields in place, as the records do. Each method is proved
  against a function on values: `SellState`/`CancelState` for the property
  lifecycle, `AcceptStatus`/`RefuseStatus` for offers, `SweepFrom` for the
  refusal of sibling offers after an acceptance, `GardenAfterToggle` for the
  garden on-change rule and `BestOf` for the best offer price. Lemmas about
  these functions state what the records promise: sold and cancelled are final,
  accepted and refused are final, the sweep leaves exactly one accepted offer
  or raises, and deadline and validity convert into each other. Accepting an
  offer does not change the property's state. The sweep after an acceptance
  skips only the accepted offer, and raises at the first other offer that is
  already accepted.
- `estate_account.dfy` (module `EstateAccount`) models
  `estate_account/models/inherited_models.py`. It holds the pure invoice
  builders and the overriding `MarkPropertiesSold`. That method sells
  first, then tries one invoice per property. A failed invoice is logged and
  does not undo the sale.

Dates are whole day numbers. Prices and the living and total areas are
`real`; the garden area is an `int`, as the record declares it.

## Model

| member | source | states |
|---|---|---|
| `EstateProperty.SellState` | estate/models/estate_property.py:129-134 | selling succeeds exactly when the property is not cancelled, and the result is `sold`; otherwise the user error "Cancelled Properties cannot be sold" |
| `EstateProperty.CancelState` | estate/models/estate_property.py:136-141 | cancelling succeeds exactly when the property is not sold, and the result is `cancelled`; otherwise the user error "Sold Properties cannot be cancelled" |
| `EstateProperty.SoldIsFinal` | estate/models/estate_property.py:129-141 | from `sold`, any series of sell and cancel attempts leaves the property `sold`, so a sold property never becomes cancelled (selling again is allowed and keeps it sold) |
| `EstateProperty.CancelledIsFinal` | estate/models/estate_property.py:129-141 | from `cancelled`, any series of sell and cancel attempts leaves the property `cancelled` |
| `EstateProperty.Property.MarkSold` | estate/models/estate_property.py:131-134 | a cancelled property raises and keeps its state; any other becomes `sold` and the call returns true |
| `EstateProperty.Property.MarkCancelled` | estate/models/estate_property.py:138-141 | a sold property raises and keeps its state; any other becomes `cancelled` and the call returns true |
| `EstateProperty.MarkPropertiesSold` | estate/models/estate_property.py:129-134 | over a list of distinct properties: returns true exactly when none was cancelled, all then being `sold`; otherwise raises at the first cancelled one, those before it already `sold` and it and those after it unchanged; no other field changes |
| `EstateProperty.MarkPropertiesCancelled` | estate/models/estate_property.py:136-141 | the same for cancelling, which stops at the first sold property |
| `EstateProperty.AcceptStatus` | estate/models/estate_property.py:192-194 | accepting succeeds exactly when the offer is not refused, and gives `accepted`; otherwise the user error "Refused Offers cannot be accepted" |
| `EstateProperty.RefuseStatus` | estate/models/estate_property.py:201-203 | refusing succeeds exactly when the offer is not accepted, and gives `refused`; otherwise the user error "Accepted Offers cannot be refused" |
| `EstateProperty.AcceptedIsFinal` | estate/models/estate_property.py:190-204 | an accepted offer stays accepted whatever accept or refuse attempts follow |
| `EstateProperty.RefusedIsFinal` | estate/models/estate_property.py:190-204 | a refused offer stays refused whatever accept or refuse attempts follow |
| `EstateProperty.Offer.MarkRefused` | estate/models/estate_property.py:199-204 | an accepted offer raises and keeps its status; any other becomes `refused`; nothing else, in particular nothing on its property, changes |
| `EstateProperty.Offer.MarkAccepted` | estate/models/estate_property.py:190-197 | a refused offer raises and nothing changes; otherwise the offer becomes accepted, the property's selling price is the offer's price and its buyer the offer's partner, the other offers go through the refusal sweep, whose error (if any) is the call's, and the property's state is unchanged; the call returns true exactly when no other offer was already accepted, and then every other offer is refused |
| `EstateProperty.SweptOffers` | estate/models/estate_property.py:190-197 | read on the list of offers: after accepting one offer and sweeping, that offer is accepted, the sweep passes exactly when no other offer was accepted on entry, and then every other offer is refused |
| `EstateProperty.Property.SetBuyerDetails` | estate/models/estate_property.py:143-145 | the property's selling price and buyer become the given price and partner |
| `EstateProperty.SweepFrom` | estate/models/estate_property.py:154-157 | the sweep from a position on keeps one status per offer |
| `EstateProperty.SweepFromMeaning` | estate/models/estate_property.py:147-157 | the sweep passes exactly when no offer it reaches, other than the accepted one, is already accepted, and then refuses all of them; otherwise it raises "Accepted Offers cannot be refused" at the first accepted one, those before it refused and the rest unchanged |
| `EstateProperty.AcceptanceSweep` | estate/models/estate_property.py:194-196 | after accepting one offer, the sweep passes exactly when no other offer of the property was accepted, and then that offer is the only accepted one and every other is refused |
| `EstateProperty.Property.RejectOffersOnAcceptance` | estate/models/estate_property.py:147-157 | the offers' statuses and the outcome are those of the sweep over the statuses on entry, skipping the accepted offer; validity and deadline of every offer are unchanged |
| `EstateProperty.Property.ComputeTotalArea` | estate/models/estate_property.py:66-69 | total area is garden area plus living area |
| `EstateProperty.BestOf` | estate/models/estate_property.py:74 | the best price is 0 for no offers; otherwise it is one of the offer prices and at least every offer price |
| `EstateProperty.Property.ComputeBestPrice` | estate/models/estate_property.py:71-74 | the property's best price is the best of its offers' prices |
| `EstateProperty.GardenAfterToggle` | estate/models/estate_property.py:118-127 | turning the garden on gives area 10 facing north; turning it off changes the fields exactly when they are still area 10 facing north, and then to area 0 with no orientation |
| `EstateProperty.GardenOnThenOff` | estate/models/estate_property.py:118-127 | turning the garden on and then off without editing in between leaves area 0 and no orientation |
| `EstateProperty.Property.HandleGardenToggle` | estate/models/estate_property.py:118-127 | the garden area and orientation become what the toggle rule makes of them for the current garden flag |
| `EstateProperty.DeadlineValidityRoundTrip` | estate/models/estate_property.py:176-188 | computing the deadline from the validity that a deadline gave returns that deadline, and computing the validity from the deadline a validity gave returns that validity |
| `EstateProperty.Offer.ComputeDeadlineDate` | estate/models/estate_property.py:176-180 | with a creation date the deadline is creation date plus validity days; without one the deadline is left as it was |
| `EstateProperty.Offer.ComputeValidityFromDeadline` | estate/models/estate_property.py:182-188 | with no deadline nothing changes; with a deadline the validity becomes deadline minus creation day; with a deadline and no creation date it raises an attribute error |
| `EstateProperty.SearchBestPriceTerm` | estate/models/estate_property.py:107-115 | the arguments pass exactly when the operator is one of `=`, `!=`, `>`, `<`, `>=`, `<=` and the value is a number (a Python bool counts as an integer) that converts to a float; an operator error is reported before a value error; an integer of magnitude at least 2^1024 - 2^970 raises "int too large to convert to float"; a passing value is searched as the equal float on the offers' price |
| `EstateProperty.Offer.constructor` | estate/models/estate_property.py:164-172 | a new offer has no status and a validity of 7 days, its deadline is creation date plus 7 days when it has a creation date and unset otherwise, and it is appended to its property's offers |
| `EstateProperty.Property.constructor` | estate/models/estate_property.py:30-60 | a new property is `new`, with no selling price, no buyer, no garden, no offers, and a total area and best price of 0 |
| `EstateAccount.CreateInvoiceDataDict` | estate_account/models/inherited_models.py:13-19 | the invoice header bills the property's buyer with a customer invoice in the given journal and currency |
| `EstateAccount.CreateInvoiceDataLine` | estate_account/models/inherited_models.py:21-28 | a line carries the given name and unit price; quantity is 0 and product is unset unless given |
| `EstateAccount.SaleInvoice` | estate_account/models/inherited_models.py:40-49 | a sold property's invoice bills its buyer with exactly two lines of quantity 1 and no product: "Selling Price Percentage" at 6% of the selling price, then "Administration Fee" at 100.0 |
| `EstateAccount.SaleInvoiceAmount` | estate_account/models/inherited_models.py:41-48 | the invoice of a sale bills 6% of the selling price plus 100 |
| `EstateAccount.MarkPropertiesSold` | estate_account/models/inherited_models.py:30-54 | the base sale runs first with the same outcome, and raising there means no invoice is attempted; after a successful sale every property gets its sale invoice attempted in order, each creation succeeding or failing independently, a failed creation is logged, and every property stays `sold`; the base result is returned |

## Left out

- ORM field declarations without behaviour are not modelled. This covers name, description, active flag, property type, tags, postcode, expected price, bedrooms, facades, garage, walled garden and salesperson. `PropertyType`, `PropertyTag` and the `res.users` back-reference with its view domain are left out for the same reason.
- The search on total area is left out. Its author marks it as not working, and it stops in a debugger breakpoint.
- The ORM `_search` calls are left out. `SearchBestPriceTerm` returns the search term the call would receive, not the matching record ids.
- The journal and currency lookups are left out. They are parameters of `EstateAccount.MarkPropertiesSold`. The failure of those lookups, which would raise after the sale and outside the caught block, is not modelled.
- Creating the accounting move is a parameter `moveCreated` that says, per property, whether creation succeeded. Logging is left out.
- EstateAccount.MarkPropertiesSold: only the move creation can fail; building the header and lines cannot fail in the model.
- MarkPropertiesSold: the properties are taken without repeats (`Distinct`), in `EstateProperty` and in `EstateAccount`. A recordset may hold the same record twice, and the source then visits it twice without error. But a repeat after the failing property would already have been changed by its earlier visit, so the clause that leaves the failing property and those after it unchanged could not hold.
- MarkPropertiesCancelled: the properties are taken without repeats, for the same reason as MarkPropertiesSold.
- Transaction rollback is the framework's job and is not modelled. When a multi-record call or the refusal sweep raises midway, the model leaves the records as the code left them when it raised.
- The offer methods are modelled for one offer per call. The source loops over a recordset, and it hands the whole recordset to the sweep as the accepted offer; that is not modelled.
- The offer's price, partner, property and creation date are `const`, because no modelled operation writes them.
- The default availability date is left out. Its default is an expression evaluated once, when the record class is loaded, so every property gets the same date: three months after the server loaded the module, not three months after the property was created. It is a wall-clock dependency.
- Floating-point rounding is not modelled. Prices and the living and total areas are `real`; the garden area is an `int`.
- Validity is a whole number of days. Fractional validity, and the truncation of a date-time deadline to a date, are not modelled.
- Offer.ComputeDeadlineDate: without a creation date the deadline is left as it was. The framework's handling of a compute method that assigns nothing is not modelled.
- Offer.constructor: the deadline, total area and best price are derived fields that the record recomputes whenever it is read. The model stores them as fields that only the explicit compute methods refresh, so they go stale when an offer is appended, the validity changes or the garden toggles, until the matching compute method runs.
- The module manifest is configuration only and is not modelled.
