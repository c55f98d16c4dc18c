/** The invoice record the form submits (src/app/page.js, `handleSubmit`). */
module Invoices {
  import opened Catalog
  import opened Form
  import opened Pricing
  import opened InvoiceIds

  /** The status labels the code sets; nothing ever moves a record between
      them. */
  datatype Status = Pending | AwaitingPayment
  {
    function Label(): string
    {
      match this
      case Pending => "pending"
      case AwaitingPayment => "awaiting payment"
    }
  }

  /** The form's fields plus what submission adds. `dateCreated` is the ISO
      rendering of the creation time, supplied by the caller. */
  datatype Invoice = Invoice(
    form: FormData,
    invoiceId: string,
    totalAmount: real,
    dateCreated: string,
    status: Status)

  /** The record's stored total is what the pricing rule gives for its own
      fields. */
  predicate PricedConsistently(inv: Invoice)
  {
    inv.totalAmount == Total(inv.form)
  }

  /** The record built on submit from the current form, a clock reading in
      milliseconds and its ISO rendering. */
  function Submit(f: FormData, now: nat, isoNow: string): (inv: Invoice)
    ensures inv.form == f
    ensures inv.invoiceId == InvoiceId(now)
    ensures PricedConsistently(inv)
    ensures |inv.invoiceId| >= 4 && inv.invoiceId[..3] == Prefix && AllDigits(inv.invoiceId[3..])
    ensures now >= 100000 ==> Value(inv.invoiceId[3..]) == now % 1000000 && |inv.invoiceId| == 9
    ensures inv.dateCreated == isoNow
    ensures inv.status == Pending && inv.status.Label() == "pending"
  {
    if now >= 100000 then SixDigitSuffix(now); Invoice(f, InvoiceId(now), Total(f), isoNow, Pending)
    else Invoice(f, InvoiceId(now), Total(f), isoNow, Pending)
  }

  /** Submitting right after Clear records the defaults and bills 25. */
  lemma SubmitAfterClear(f: FormData, now: nat, isoNow: string)
    ensures Submit(Clear(f), now, isoNow).form == InitialForm()
    ensures Submit(Clear(f), now, isoNow).totalAmount == 25.0
  {
    ClearedTotal(f);
  }
}
