/** The invoice retrieval route (src/app/api/get-invoice/route.js): an
    optional `id` query parameter in, an error or a fixed demonstration
    record out. */
module Retrieval {
  import opened Wrappers
  import opened Catalog
  import opened Form
  import opened Pricing
  import opened Invoices

  /** The route's reply: a client error with a message, or a record. */
  datatype Response = Rejected(code: nat, message: string) | Found(invoice: Invoice)
  {
    /** The HTTP status the reply is sent with. */
    function HttpStatus(): nat
    {
      if Rejected? then code else 200
    }
  }

  const MissingIdMessage: string := "Invoice ID is required"

  /** The fields of the demonstration record that do not depend on the
      request: one hour at 25 with grooming and treats. */
  function MockForm(): FormData
  {
    FormData(
      "Kim Kielkucki",
      "rcpkim@hotmail.com",
      "Pebbles",
      60.0,
      25.0,
      ["grooming", "treats"],
      "Pebbles loves to play with tubes and tunnels. Please include those in the playtime.")
  }

  /** `!id` in JavaScript: the parameter is absent or the empty string. */
  predicate MissingId(id: Option<string>)
  {
    id.None? || id.value == ""
  }

  /** The route with the demonstration total priced by the form's own rule.
      `isoNow` is the ISO rendering of the time of the request. */
  function GetInvoice(id: Option<string>, isoNow: string): (r: Response)
    ensures r.Rejected? <==> MissingId(id)
    ensures r.Rejected? ==> r.HttpStatus() == 400 && r.message == MissingIdMessage
    ensures r.Found? ==>
              && r.HttpStatus() == 200
              && r.invoice.invoiceId == id.value
              && r.invoice.dateCreated == isoNow
              && r.invoice.status.Label() == "awaiting payment"
              && PricedConsistently(r.invoice)
              && r.invoice.totalAmount == 73.0
  {
    if MissingId(id) then Rejected(400, MissingIdMessage)
    else
      PricingExamples();
      Found(Invoice(MockForm(), id.value, Total(MockForm()), isoNow, AwaitingPayment))
  }

  /** The route as written: the stored total is the literal `2500 * 2 + 15 + 8`. */
  function GetInvoiceAsWritten(id: Option<string>, isoNow: string): (r: Response)
    ensures r.Rejected? <==> MissingId(id)
    ensures r.Rejected? ==> r.HttpStatus() == 400 && r.message == MissingIdMessage
  {
    if MissingId(id) then Rejected(400, MissingIdMessage)
    else Found(Invoice(MockForm(), id.value, (2500 * 2 + 15 + 8) as real, isoNow, AwaitingPayment))
  }

  /** As written, the demonstration record bills 5023 for items that the
      pricing rule, and its own comment, price at 73. */
  lemma AsWrittenTotalMismatch(id: string, isoNow: string)
    requires id != ""
    ensures GetInvoiceAsWritten(Some(id), isoNow).Found?
    ensures GetInvoiceAsWritten(Some(id), isoNow).invoice.totalAmount == 5023.0
    ensures Total(GetInvoiceAsWritten(Some(id), isoNow).invoice.form) == 73.0
    ensures !PricedConsistently(GetInvoiceAsWritten(Some(id), isoNow).invoice)
  {
    PricingExamples();
  }

  /** The written and the corrected route agree on every reply except the
      demonstration total. */
  lemma AsWrittenDiffersOnlyInTotal(id: Option<string>, isoNow: string)
    ensures GetInvoiceAsWritten(id, isoNow).Rejected? ==> GetInvoiceAsWritten(id, isoNow) == GetInvoice(id, isoNow)
    ensures GetInvoiceAsWritten(id, isoNow).Found? ==>
              GetInvoiceAsWritten(id, isoNow).invoice.(totalAmount := 0.0)
              == GetInvoice(id, isoNow).invoice.(totalAmount := 0.0)
  {
  }

  /** Apart from `invoiceId` and `dateCreated`, the record is the same for
      every request that carries an id. */
  lemma RecordIgnoresId(id1: string, id2: string, iso1: string, iso2: string)
    requires id1 != "" && id2 != ""
    ensures GetInvoice(Some(id1), iso1).invoice.(invoiceId := "", dateCreated := "")
            == GetInvoice(Some(id2), iso2).invoice.(invoiceId := "", dateCreated := "")
  {
  }

  /** Every add-on of the demonstration record is a catalog id. */
  lemma MockServicesInCatalog(id: string, isoNow: string)
    requires id != ""
    ensures forall s :: s in GetInvoice(Some(id), isoNow).invoice.form.additionalServices ==> s in CatalogIds()
  {
    CatalogIdsDistinct();
  }
}
