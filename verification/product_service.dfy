/**
 * The product service (services/product_service.py): the fixed product catalog, the S3
 * prefix lookup, the conversion of stored booking items into customer bookings, and the
 * per-product customer summary.
 */
module ProductService {
  import opened Wrappers
  import opened PyDict
  import opened Strings
  import JsonValues = Json

  /** `SimpleProduct` (the optional timestamp is never set in the catalog). */
  datatype Product = Product(productId: string, productName: string, dataSourceLocation: string)

  /** The S3 location every catalog entry uses: the bucket, then the product id as a folder. */
  function ProductLocation(productId: string): string {
    "s3://loan-bucket/" + productId + "/"
  }

  /** A catalog entry: every product's data lives under its own id's folder. */
  function CatalogProduct(productId: string, productName: string): (p: Product)
    ensures p.productId == productId && p.productName == productName
    ensures StartsWith(p.dataSourceLocation, "s3://loan-bucket/") && EndsWith(p.dataSourceLocation, productId + "/")
  {
    var location := ProductLocation(productId);
    assert location[..17] == "s3://loan-bucket/";
    assert location[|location| - |productId + "/"|..] == productId + "/";
    Product(productId, productName, location)
  }

  /** The six catalog products, in catalog order. */
  const Catalog: seq<Product> := [
    CatalogProduct("equipment-financing", "Equipment Financing"),
    CatalogProduct("term-loans", "Term Loans"),
    CatalogProduct("working-capital-loans", "Working Capital Loans"),
    CatalogProduct("syndicated-loans", "Syndicated Loans"),
    CatalogProduct("SBA-loans", "SBA Loans"),
    CatalogProduct("LOC-loans", "LOC Loans")
  ]

  /** The catalog has six products with distinct ids. */
  lemma CatalogIdsDistinct()
    ensures |Catalog| == 6
    ensures forall i, j :: 0 <= i < j < |Catalog| ==> Catalog[i].productId != Catalog[j].productId
  {
    assert Catalog[0].productId[0] == 'e' && Catalog[1].productId[0] == 't' && Catalog[2].productId[0] == 'w';
    assert Catalog[3].productId[0] == 's' && Catalog[4].productId[0] == 'S' && Catalog[5].productId[0] == 'L';
  }

  /** The catalog's ids, in catalog order. */
  lemma CatalogIds()
    ensures |Catalog| == 6
    ensures Catalog[0].productId == "equipment-financing" && Catalog[1].productId == "term-loans"
    ensures Catalog[2].productId == "working-capital-loans" && Catalog[3].productId == "syndicated-loans"
    ensures Catalog[4].productId == "SBA-loans" && Catalog[5].productId == "LOC-loans"
  {
  }

  /** Every catalog product lives under its own id's folder. */
  lemma CatalogLocations()
    ensures forall i :: 0 <= i < |Catalog| ==> Catalog[i].dataSourceLocation == ProductLocation(Catalog[i].productId)
  {
  }

  /** The location of the first product in `products` whose id matches, or None. */
  function FirstLocation(products: seq<Product>, productId: string): (r: Option<string>)
    ensures r.Some? <==> exists i :: 0 <= i < |products| && products[i].productId == productId
    ensures r.Some? ==> exists i :: 0 <= i < |products| && products[i].productId == productId
                                    && r.value == products[i].dataSourceLocation
                                    && forall j :: 0 <= j < i ==> products[j].productId != productId
  {
    if |products| == 0 then None
    else if products[0].productId == productId then Some(products[0].dataSourceLocation)
    else
      var r := FirstLocation(products[1..], productId);
      assert forall i :: 1 <= i < |products| ==> products[i] == products[1..][i - 1];
      r
  }

  /** When every product lives under its own id's folder, a found location is the id's folder. */
  lemma FirstLocationIsOwnFolder(products: seq<Product>, productId: string)
    requires forall i :: 0 <= i < |products| ==> products[i].dataSourceLocation == ProductLocation(products[i].productId)
    ensures FirstLocation(products, productId).Some? ==> FirstLocation(products, productId).value == ProductLocation(productId)
  {
  }

  /** `get_product_s3_prefix`: the full S3 location of the catalog product with that id, or None. */
  function GetProductS3Prefix(productId: string): (r: Option<string>)
    ensures r.Some? <==> exists i :: 0 <= i < |Catalog| && Catalog[i].productId == productId
    ensures r.Some? ==> r.value == ProductLocation(productId)
  {
    CatalogLocations();
    FirstLocationIsOwnFolder(Catalog, productId);
    FirstLocation(Catalog, productId)
  }

  /** "term-loan" is not one of the catalog's ids. */
  lemma NotACatalogId()
    ensures forall i :: 0 <= i < |Catalog| ==> Catalog[i].productId != "term-loan"
  {
    CatalogIds();
    assert "term-loans" != "term-loan" && "SBA-loans"[0] != "term-loan"[0] && "LOC-loans"[0] != "term-loan"[0];
  }

  /** The term-loans prefix, as the catalog spells it. */
  lemma TermLoansPrefix()
    ensures GetProductS3Prefix("term-loans") == Some("s3://loan-bucket/term-loans/")
    ensures GetProductS3Prefix("term-loan") == None
  {
    CatalogIds();
    NotACatalogId();
    assert ProductLocation("term-loans") == "s3://loan-bucket/term-loans/";
  }

  /** The prefix of a known product is its "s3://" location, never the bare product id. */
  lemma PrefixIsNotBareId(productId: string)
    requires GetProductS3Prefix(productId).Some?
    ensures GetProductS3Prefix(productId).value != productId
    ensures |GetProductS3Prefix(productId).value| == |productId| + 18
  {
  }

  /** A stored `documentIds` attribute: a list of ids, or the comma-joined text that uploads store. */
  datatype IdsAttribute = IdList(ids: seq<string>) | IdText(text: string)

  /** A stored booking item: each attribute may be missing. */
  datatype BookingItem = BookingItem(loanBookingId: Option<string>, customerName: Option<string>,
                                     productName: Option<string>, dataSourceLocation: Option<string>,
                                     documentIds: Option<IdsAttribute>, status: Option<string>,
                                     timestamp: Option<int>, metadata: Option<JsonValues.Json>)

  /** `CustomerBooking`; a `None` metadata is `JNull`. */
  datatype CustomerBooking = CustomerBooking(loanBookingId: string, customerName: string, productName: string,
                                             dataSourceLocation: string, documentIds: seq<string>,
                                             bookingStatus: string, createdTimestamp: Option<int>,
                                             metadata: JsonValues.Json)

  /** The status an item without one receives. */
  const PendingStatus: string := "pending"

  /** Whether `CustomerBooking` validation accepts the item: `document_ids` must be a list
      (`List[str]`), and `metadata` a dictionary or None (`Optional[Dict[str, Any]]`). */
  predicate Validates(item: BookingItem) {
    && (item.documentIds.None? || item.documentIds.value.IdList?)
    && (item.metadata.None? || item.metadata.value.JNull? || item.metadata.value.JObj?)
  }

  /** One item as `get_customers_by_product` converts it: missing texts become "", missing
      document ids the empty list, a missing status "pending", missing metadata {}; None when
      validation raises. */
  function ToCustomer(item: BookingItem): (c: Option<CustomerBooking>)
    ensures c.Some? <==> Validates(item)
    ensures item.documentIds.Some? && item.documentIds.value.IdText? ==> c.None?
    ensures c.Some? && item.status.None? ==> c.value.bookingStatus == PendingStatus
    ensures c.Some? && item.status.Some? ==> c.value.bookingStatus == item.status.value
    ensures c.Some? && item.documentIds.None? ==> c.value.documentIds == []
    ensures c.Some? && item.documentIds.Some? ==> c.value.documentIds == item.documentIds.value.ids
    ensures c.Some? ==>
      && c.value.loanBookingId == (if item.loanBookingId.Some? then item.loanBookingId.value else "")
      && c.value.customerName == (if item.customerName.Some? then item.customerName.value else "")
      && c.value.productName == (if item.productName.Some? then item.productName.value else "")
      && c.value.dataSourceLocation == (if item.dataSourceLocation.Some? then item.dataSourceLocation.value else "")
      && c.value.createdTimestamp == item.timestamp
      && c.value.metadata == (if item.metadata.Some? then item.metadata.value else JsonValues.EmptyObject)
  {
    if !Validates(item) then None
    else
      var ids := if item.documentIds.Some? then item.documentIds.value.ids else [];
      Some(CustomerBooking(item.loanBookingId.GetOr(""), item.customerName.GetOr(""), item.productName.GetOr(""),
                           item.dataSourceLocation.GetOr(""), ids, item.status.GetOr(PendingStatus),
                           item.timestamp, item.metadata.GetOr(JsonValues.EmptyObject)))
  }

  /** The scanned items that validate, converted, in scan order; the others are skipped
      (`except Exception: continue`). */
  function ToCustomers(items: seq<BookingItem>): (cs: seq<CustomerBooking>)
    ensures |cs| <= |items|
  {
    if |items| == 0 then []
    else
      var rest := ToCustomers(items[..|items| - 1]);
      match ToCustomer(items[|items| - 1])
      case Some(c) => rest + [c]
      case None => rest
  }

  /** Every listed customer is the conversion of some scanned item. */
  lemma {:induction false} CustomersComeFromItems(items: seq<BookingItem>)
    ensures forall c :: c in ToCustomers(items) ==> exists i :: 0 <= i < |items| && ToCustomer(items[i]) == Some(c)
  {
    if |items| > 0 {
      var front := items[..|items| - 1];
      CustomersComeFromItems(front);
      assert forall i :: 0 <= i < |front| ==> front[i] == items[i];
    }
  }

  /** When every item validates, the items convert one to one, in order. */
  lemma {:induction false} AllValidConvert(items: seq<BookingItem>)
    requires forall i :: 0 <= i < |items| ==> Validates(items[i])
    ensures |ToCustomers(items)| == |items|
    ensures forall i :: 0 <= i < |items| ==> Some(ToCustomers(items)[i]) == ToCustomer(items[i])
  {
    if |items| > 0 {
      var front := items[..|items| - 1];
      AllValidConvert(front);
      var c := ToCustomer(items[|items| - 1]).value;
      assert ToCustomers(items) == ToCustomers(front) + [c];
    }
  }

  /** One item gives its conversion, or nothing when validation rejects it. */
  lemma ToCustomersOne(item: BookingItem)
    ensures ToCustomers([item]) == (if ToCustomer(item).Some? then [ToCustomer(item).value] else [])
  {
    assert [item][..0] == [];
  }

  /** The conversion keeps scan order: two runs of items convert to the first run's customers
      followed by the second's. */
  lemma {:induction false} ToCustomersAppend(a: seq<BookingItem>, b: seq<BookingItem>)
    ensures ToCustomers(a + b) == ToCustomers(a) + ToCustomers(b)
    decreases |b|
  {
    if |b| > 0 {
      var front := b[..|b| - 1];
      assert (a + b)[..|a + b| - 1] == a + front;
      assert (a + b)[|a + b| - 1] == b[|b| - 1];
      ToCustomersAppend(a, front);
    } else {
      assert a + b == a;
    }
  }

  /** The comma-joined id text that uploads store makes the item fail validation, so such a
      booking is left out of the customer list. */
  lemma JoinedIdsAreSkipped(item: BookingItem)
    requires item.documentIds.Some? && item.documentIds.value.IdText?
    ensures ToCustomers([item]) == []
  {
    ToCustomersOne(item);
  }

  /** How many customers have status `status`. */
  function StatusCount(customers: seq<CustomerBooking>, status: string): nat {
    if |customers| == 0 then 0
    else StatusCount(customers[..|customers| - 1], status)
         + (if customers[|customers| - 1].bookingStatus == status then 1 else 0)
  }

  /** How many items validate and have no status or the status "pending". */
  function PendingItems(items: seq<BookingItem>): nat {
    if |items| == 0 then 0
    else
      var last := items[|items| - 1];
      PendingItems(items[..|items| - 1])
      + (if Validates(last) && (last.status.None? || last.status == Some(PendingStatus)) then 1 else 0)
  }

  /** Valid items stored without a status are counted as "pending". */
  lemma {:induction false} MissingStatusIsPending(items: seq<BookingItem>)
    ensures StatusCount(ToCustomers(items), PendingStatus) == PendingItems(items)
  {
    if |items| > 0 {
      var front := items[..|items| - 1];
      MissingStatusIsPending(front);
      var rest := ToCustomers(front);
      match ToCustomer(items[|items| - 1])
      case Some(c) =>
        assert ToCustomers(items) == rest + [c];
        assert (rest + [c])[..|rest|] == rest;
      case None =>
    }
  }

  /** The number of document ids over all customers. */
  function DocumentTotal(customers: seq<CustomerBooking>): nat {
    if |customers| == 0 then 0
    else DocumentTotal(customers[..|customers| - 1]) + |customers[|customers| - 1].documentIds|
  }

  /** The sum of a dictionary's values. */
  function SumValues(d: Dict<int>): int {
    if |d| == 0 then 0 else d[0].1 + SumValues(d[1..])
  }

  /** `d[k] = v` changes the sum by what it replaces. */
  lemma {:induction false} SumValuesSet(d: Dict<int>, k: string, v: int)
    ensures SumValues(Set(d, k, v)) == SumValues(d) - Get(d, k).GetOr(0) + v
  {
    if |d| > 0 {
      if d[0].0 == k {
        assert ([(k, v)] + d[1..])[1..] == d[1..];
      } else {
        SumValuesSet(d[1..], k, v);
        assert ([d[0]] + Set(d[1..], k, v))[1..] == Set(d[1..], k, v);
      }
    }
  }

  /** The breakdown of the first `i` customers: each status seen maps to how many have it. */
  ghost predicate Breakdown(customers: seq<CustomerBooking>, i: nat, counts: Dict<int>)
    requires i <= |customers|
  {
    && (forall status :: Get(counts, status)
                         == if StatusCount(customers[..i], status) > 0 then Some(StatusCount(customers[..i], status) as int) else None)
    && DistinctKeys(counts)
    && SumValues(counts) == i
  }

  /** One step of the counting loop: `status_counts[status] = status_counts.get(status, 0) + 1`. */
  function CountStatus(customers: seq<CustomerBooking>, i: nat, counts: Dict<int>): (next: Dict<int>)
    requires i < |customers| && Breakdown(customers, i, counts)
    ensures Breakdown(customers, i + 1, next)
  {
    var status := customers[i].bookingStatus;
    var n := Get(counts, status).GetOr(0) + 1;
    assert customers[..i + 1][..i] == customers[..i];
    SumValuesSet(counts, status, n);
    SetDistinct(counts, status, n);
    assert forall t :: Get(Set(counts, status, n), t) == if t == status then Some(n) else Get(counts, t) by {
      forall t ensures Get(Set(counts, status, n), t) == if t == status then Some(n) else Get(counts, t) {
        GetSet(counts, status, n, t);
      }
    }
    Set(counts, status, n)
  }

  /** What `_generate_customer_summary` returns. The average is the exact ratio; the source
      rounds it to two decimals. */
  datatype Summary = Summary(totalCustomers: int, statusBreakdown: Dict<int>, totalDocumentCount: int,
                             averageDocumentsPerCustomer: real)

  /** `_generate_customer_summary`: one pass counting statuses (in first-seen order) and document ids. */
  method GenerateCustomerSummary(customers: seq<CustomerBooking>) returns (s: Summary)
    ensures s.totalCustomers == |customers|
    ensures forall status :: Get(s.statusBreakdown, status)
                             == if StatusCount(customers, status) > 0 then Some(StatusCount(customers, status) as int) else None
    ensures DistinctKeys(s.statusBreakdown)
    ensures SumValues(s.statusBreakdown) == |customers|
    ensures s.totalDocumentCount == DocumentTotal(customers)
    ensures |customers| == 0 ==> s.averageDocumentsPerCustomer == 0.0
    ensures |customers| > 0 ==> s.averageDocumentsPerCustomer * (|customers| as real) == DocumentTotal(customers) as real
  {
    var counts: Dict<int> := [];
    var documents := 0;
    var i := 0;
    while i < |customers|
      invariant 0 <= i <= |customers|
      invariant Breakdown(customers, i, counts)
      invariant documents == DocumentTotal(customers[..i])
    {
      assert customers[..i + 1][..i] == customers[..i];
      counts := CountStatus(customers, i, counts);
      documents := documents + |customers[i].documentIds|;
      i := i + 1;
    }
    assert customers[..i] == customers;
    var average := if |customers| > 0 then (documents as real) / (|customers| as real) else 0.0;
    s := Summary(|customers|, counts, documents, average);
  }
}
