/** Model of the accounting extension of the estate property: selling a
    property also bills its buyer with a two-line customer invoice. */
module EstateAccount {
  import opened EstateProperty

  type JournalId = nat
  type CurrencyId = nat
  type ProductId = nat

  /** The only kind of accounting move built here: a customer invoice. */
  datatype MoveType = OutInvoice

  datatype InvoiceHeader = InvoiceHeader(
    partnerId: Option<PartnerId>,
    moveType: MoveType,
    journalId: JournalId,
    currencyId: CurrencyId)

  /** productId None is the framework's False, which lets the unit price show. */
  datatype InvoiceLine = InvoiceLine(
    name: string,
    quantity: int,
    priceUnit: real,
    productId: Option<ProductId>)

  datatype Invoice = Invoice(header: InvoiceHeader, lines: seq<InvoiceLine>)

  /** What became of the invoice of one sold property: created, or caught and logged. */
  datatype InvoiceAttempt = Created(invoice: Invoice) | Logged(invoice: Invoice)

  const CommissionName := "Selling Price Percentage"
  const AdministrationFeeName := "Administration Fee"
  const CommissionRate: real := 0.06
  const AdministrationFee: real := 100.0

  /** The invoice header: the property's buyer billed with a customer invoice
      in the given journal and currency. */
  function CreateInvoiceDataDict(property: Property, journal: JournalId, currency: CurrencyId): (h: InvoiceHeader)
    reads property
    ensures h.partnerId == property.buyer
    ensures h.moveType == OutInvoice
    ensures h.journalId == journal && h.currencyId == currency
  {
    InvoiceHeader(property.buyer, OutInvoice, journal, currency)
  }

  /** One invoice line; quantity and product are optional keyword arguments,
      None meaning "not passed". */
  function CreateInvoiceDataLine(name: string, price: real, quantity: Option<int>, productId: Option<ProductId>): (l: InvoiceLine)
    ensures l.name == name && l.priceUnit == price
    ensures quantity.None? ==> l.quantity == 0
    ensures quantity.Some? ==> l.quantity == quantity.value
    ensures l.productId == productId
  {
    InvoiceLine(
      name,
      match quantity case Some(q) => q case None => 0,
      price,
      productId)
  }

  /** The invoice a sold property gets: its buyer billed for a commission on
      the selling price and a flat administration fee, one of each. */
  function SaleInvoice(property: Property, journal: JournalId, currency: CurrencyId): (inv: Invoice)
    reads property
    ensures inv.header.partnerId == property.buyer && inv.header.moveType == OutInvoice
    ensures inv.header.journalId == journal && inv.header.currencyId == currency
    ensures |inv.lines| == 2
    ensures inv.lines[0].name == CommissionName && inv.lines[0].priceUnit == property.sellingPrice * 0.06
    ensures inv.lines[1].name == AdministrationFeeName && inv.lines[1].priceUnit == 100.0
    ensures forall l :: l in inv.lines ==> l.quantity == 1 && l.productId == None
  {
    Invoice(
      CreateInvoiceDataDict(property, journal, currency),
      [ CreateInvoiceDataLine(CommissionName, property.sellingPrice * CommissionRate, Some(1), None),
        CreateInvoiceDataLine(AdministrationFeeName, AdministrationFee, Some(1), None) ])
  }

  /** The amount the lines bill: quantity times unit price, summed. */
  function AmountDue(lines: seq<InvoiceLine>): real {
    if lines == [] then 0.0
    else lines[0].quantity as real * lines[0].priceUnit + AmountDue(lines[1..])
  }

  /** A sold property's buyer is billed 6% of the selling price plus 100. */
  lemma SaleInvoiceAmount(property: Property, journal: JournalId, currency: CurrencyId)
    ensures AmountDue(SaleInvoice(property, journal, currency).lines) == property.sellingPrice * 0.06 + 100.0
  {
    var lines := SaleInvoice(property, journal, currency).lines;
    assert lines[1..][1..] == [];
    assert AmountDue(lines[1..]) == 100.0;
  }

  /** Marks the properties sold, then tries to invoice each of them in turn.
      moveCreated[i] stands for the creation of the accounting move of the
      i-th property: false means it raised, which is caught and logged. */
  method MarkPropertiesSold(props: seq<Property>, journal: JournalId, currency: CurrencyId, moveCreated: seq<bool>)
    returns (r: Result<bool>, attempts: seq<InvoiceAttempt>)
    requires Distinct(props)
    requires |moveCreated| == |props|
    modifies props
    ensures AllMarked(props, Sell, r)
    ensures forall i :: 0 <= i < |props| ==> props[i].SameListing()
    ensures r.Err? ==> attempts == []
    ensures r.Ok? ==> |attempts| == |props|
    ensures r.Ok? ==> forall i :: 0 <= i < |props| ==>
      props[i].state == Sold &&
      attempts[i].invoice == SaleInvoice(props[i], journal, currency) &&
      (attempts[i].Created? <==> moveCreated[i])
  {
    r := EstateProperty.MarkPropertiesSold(props);
    if r.Err? {
      return r, [];
    }
    attempts := [];
    var i := 0;
    while i < |props|
      invariant 0 <= i <= |props|
      invariant |attempts| == i
      invariant forall j :: 0 <= j < i ==>
        attempts[j].invoice == SaleInvoice(props[j], journal, currency) &&
        (attempts[j].Created? <==> moveCreated[j])
    {
      var invoice := SaleInvoice(props[i], journal, currency);
      if moveCreated[i] {
        attempts := attempts + [Created(invoice)];
      } else {
        attempts := attempts + [Logged(invoice)];
      }
      i := i + 1;
    }
  }
}
