# Ferret playtime invoicer — Dafny model

A model of the rules of a small invoice generator for a pet-care business.
The form page keeps a draft invoice. It prices the draft live: one rate per
30 minutes of play, plus a flat price for each add-on picked from a fixed
catalog. On submit it stamps the draft with an identifier derived from the
clock and a `pending` status. A retrieval route answers a request for an
invoice id with a fixed demonstration record, or with a 400 error when the
id is missing.

Modules, one per concept:

- `Wrappers` (`wrappers.dfy`): `Option`, for a query parameter that may be absent.
- `Catalog` (`catalog.dfy`): the four add-ons, lookup by id (the first match, as
  `Array.prototype.find` does), and the price of an id (0 when it is unknown). It
  also holds `Weighted`, an independent reference sum: each option's price times
  how often its id was selected.
- `Form` (`form.dfy`): the draft (`FormData`) and the change handler
  (`HandleInputChange`). It also has the initial state, the Clear button and the
  order-keeping filter that unchecking uses.
- `Pricing` (`pricing.dfy`): `calculateTotal` (the `reduce` over the selection) and
  its relation to the reference sum and to the change handler.
- `InvoiceIds` (`invoice_id.dfy`): the decimal rendering of a clock reading,
  `slice(-6)`, the `FP-` identifier and its digits.
- `Invoices` (`invoice.dfy`): the record built on submit.
- `Retrieval` (`retrieval.dfy`): the `GET` route as a pure function from an
  optional id to a reply.

The clock is a parameter in every case. `now` is milliseconds since the epoch,
and `isoNow` is its ISO-8601 rendering, which is taken as given. Session length
and rate are JavaScript numbers, modelled as exact reals. Catalog prices are
whole numbers.

Three behaviours of the code worth noting:

- The identifier suffix is exactly six digits only for clock readings of at
  least 100000. Below that, `slice(-6)` keeps the shorter rendering and nothing
  pads it with zeros (`InvoiceIds.ShortTimestamp`).
- The retrieval route rejects an empty `id` as well as a missing one (`!id`).
- The selection is a list, not a set. Checking a box appends the id even if it
  is already there, and unchecking removes every copy.

## Model

| member | source | states |
|---|---|---|
| Catalog.CatalogIdsDistinct | src/app/page.js:19-24 | the catalog's ids are pairwise distinct and are exactly grooming, toys, treats and photo |
| Catalog.Find | src/app/page.js:52 | lookup finds nothing exactly when no option has the id; otherwise it returns an option with that id, and no earlier option has it |
| Catalog.Price | src/app/page.js:52-53 | an id outside the catalog is priced 0; in a catalog with distinct ids, an id is priced at its option's price |
| Catalog.WeightedAddOne | src/app/page.js:51-54 | selecting one more id raises the reference sum by exactly that id's price (0 for an unknown id) |
| Catalog.WeightedDropAll | src/app/page.js:51-54 | dropping every copy of an id lowers the reference sum by its count times its price |
| Pricing.AddOns | src/app/page.js:51-54 | the add-on part of the total is never negative |
| Pricing.AddOnsCountsCatalog | src/app/page.js:51-54 | the left-to-right reduce equals the sum over the catalog of price times how often the id was selected |
| Pricing.Total | src/app/page.js:46-57 | total = (length / 30) × rate + the catalog price of every selected id, counted with multiplicity (the sum over the catalog of price times selection count) |
| Pricing.EmptySelectionIsBasePrice | src/app/page.js:48-56 | with no add-ons the total is the session price alone |
| Pricing.TotalOrderFree | src/app/page.js:51-54 | any reordering of the selected ids leaves the total unchanged |
| Pricing.UnknownIdAddsNothing | src/app/page.js:52-53 | an id outside the catalog, anywhere in the list, adds exactly 0, and pricing is total (no precondition) |
| Pricing.CheckAddsPrice | src/app/page.js:29-56 | checking a box raises the total by exactly that id's catalog price |
| Pricing.UncheckSubtractsPrice | src/app/page.js:29-56 | unchecking a box lowers the total by its price once for every copy removed |
| Pricing.TextEditKeepsTotal | src/app/page.js:38-48 | editing a name, the e-mail or the notes leaves the total unchanged |
| Pricing.PricingExamples | src/app/page.js:46-57 | one hour at 25 with grooming and treats totals 73; half an hour at 25 with nothing totals 25 |
| Pricing.ClearedTotal | src/app/page.js:266-274 | a cleared form is priced at 25 |
| Form.InitialForm | src/app/page.js:8-16 | the draft starts with every text field empty, 30 minutes, rate 25 and no add-ons |
| Form.Clear | src/app/page.js:266-274 | Clear discards the draft and yields exactly the mount-time defaults: empty texts, 30 minutes, rate 25, no add-ons |
| Form.Without | src/app/page.js:32 | the filtered list contains no copy of the id, and every other id keeps its multiplicity |
| Form.WithoutDistributes | src/app/page.js:32 | filtering works element by element over a concatenation, so it keeps the order of the ids it leaves |
| Form.WithoutAbsent | src/app/page.js:32 | filtering out an id that is not present changes nothing |
| Form.WithoutSingle | src/app/page.js:32 | removing the single occurrence of an id leaves the ids before and after it, in order |
| Form.HandleInputChange | src/app/page.js:26-44 | a checked box appends its id at the end; an unchecked box removes every copy; a checkbox changes no other field; any other input sets exactly its own field and leaves every other field and the service list unchanged |
| Form.CheckThenUncheck | src/app/page.js:29-37 | checking an unchecked box and then unchecking it restores the form exactly |
| Form.UncheckKeepsOrder | src/app/page.js:29-37 | unchecking an id that occurs once leaves the others in their old order |
| Form.LastEditWins | src/app/page.js:38-43 | two edits of the same field: the last one wins |
| InvoiceIds.Decimal | src/app/page.js:60 | the rendering is all digits, has no leading zero, and has one character exactly for numbers below 10 |
| InvoiceIds.DecimalRoundTrip | src/app/page.js:60 | reading the decimal rendering back gives the number |
| InvoiceIds.LastSix | src/app/page.js:60 | the result is a suffix of the input, of length six or the whole input when that is shorter |
| InvoiceIds.InvoiceId | src/app/page.js:59-61 | an identifier starts with "FP-" and is followed by at least one digit and digits only |
| InvoiceIds.SixDigitSuffix | src/app/page.js:59-61 | for clock readings of at least 100000 the suffix is exactly six digits: the reading modulo 1,000,000, zero-padded |
| InvoiceIds.ShortTimestamp | src/app/page.js:59-61 | below 100000 the suffix is the whole unpadded rendering, shorter than six digits |
| InvoiceIds.IdCollision | src/app/page.js:59-61 | two readings of at least 100000 share an identifier if and only if they agree modulo 1,000,000 |
| Invoices.Submit | src/app/page.js:67-74 | the record holds the form unchanged and the identifier `InvoiceId(now)` for every clock reading (FP- and digits; for readings of at least 100000, six digits denoting the reading modulo 1,000,000), total = the pricing of that same form, the given creation time and status "pending" |
| Invoices.SubmitAfterClear | src/app/page.js:266-274 | submitting straight after Clear records the initial defaults (lines 8-16) and bills 25 |
| Retrieval.GetInvoice | src/app/api/get-invoice/route.js:3-31 | rejected with 400 and "Invoice ID is required" if and only if the id is absent or empty; otherwise status 200, the record carries that id and the request time, is "awaiting payment", and its total agrees with the pricing rule (73) |
| Retrieval.GetInvoiceAsWritten | src/app/api/get-invoice/route.js:7-31 | the same error rule as the corrected route: rejected with 400 if and only if the id is absent or empty |
| Retrieval.AsWrittenTotalMismatch | src/app/api/get-invoice/route.js:22-26 | as written, the demonstration record stores 5023 while its own fields price at 73, so it is not consistently priced |
| Retrieval.AsWrittenDiffersOnlyInTotal | src/app/api/get-invoice/route.js:17-29 | the written and corrected routes give the same reply apart from the stored total |
| Retrieval.RecordIgnoresId | src/app/api/get-invoice/route.js:17-28 | apart from invoiceId and dateCreated, every field of the record is the same whatever id is asked for |
| Retrieval.MockServicesInCatalog | src/app/api/get-invoice/route.js:24 | every add-on of the demonstration record is a catalog id |

## Left out

- The creation route (`src/app/api/create-invoice/route.js`) echoes the posted `invoiceId`. Its only logic is a library JSON parse inside a try/catch, so it is not part of this model.
- The 500 reply of the retrieval route: nothing inside its `try` can throw once the clock reading is a parameter.
- Rendering, React state hooks, navigation, `fetch`, `alert`, logging and the `loading` flag: user interface and I/O.
- `Date.now()` and `new Date().toISOString()`: both are parameters (`now`, `isoNow`). ISO formatting is not modelled.
- Browser-enforced input constraints (`required`, `min="1"`, `type="email"`, the four options of the length select): the browser checks these, not the code.
- Pricing.Total: session length, rate and total are exact reals. The model leaves out IEEE floating-point rounding of `(length / 30) * rate` and of the sum, and the `toFixed(2)` display rounding.
- Form.HandleInputChange: inputs arrive already typed. A text input carries a string and a numeric input a number. JavaScript's string-to-number coercion of `<select>` and `<input type="number">` values is not modelled.
- The invoice view page (`src/app/invoice/[id]/page.js`) only renders a fetched record, so it is not part of this model.

## Findings

| source | as written | input that shows it | evidently intended | confidence | as-written member | corrected member |
|---|---|---|---|---|---|---|
| src/app/api/get-invoice/route.js:26 | `totalAmount: 2500 * 2 + 15 + 8`, which is 5023 | any request with a non-empty id, e.g. `id=FP-123456` | 25 × 2 + 15 + 8 = 73. That is what the comment ("2 half hours + grooming + treats") describes and what the pricing rule gives for the record's own 60 minutes at rate 25 with grooming and treats. The invoice view lists line items adding up to 73 under a "Total Due" of 5023. | high; not executed | Retrieval.AsWrittenTotalMismatch | Retrieval.GetInvoice |
