/**
 * The loan booking management service (services/loan_booking_management_service.py): the
 * booking list with its page slice and document counts, the document upload that reuses or
 * creates a booking, and the listing of a booking's documents. S3, DynamoDB and the
 * knowledge-base ingestion call are parameters, and so are the generated ids and the clock.
 */
module LoanBookingManagement {
  import opened Wrappers
  import opened Strings
  import opened Json
  import JsonValues = Json
  import AwsUtils

  /** `LoanProductType`, the product folder a document is uploaded under. */
  datatype ProductType = EquipmentFinancing | SyndicatedLoans | SbaLoans | LocLoans | TermLoans | WorkingCapitalLoans {
    /** The enum's `.value`. */
    function Value(): string {
      match this
      case EquipmentFinancing => "equipment-financing"
      case SyndicatedLoans => "syndicated-loans"
      case SbaLoans => "SBA-loans"
      case LocLoans => "LOC-loans"
      case TermLoans => "term-loans"
      case WorkingCapitalLoans => "working-capital-loans"
    }
  }

  /** `LoanProductType(value)`: the member whose value is `value`, or None where Pydantic's
      enum validation raises. */
  function ProductFromValue(value: string): (p: Option<ProductType>)
    ensures p.Some? ==> p.value.Value() == value
    ensures p.None? ==> forall q: ProductType :: q.Value() != value
  {
    if value == "equipment-financing" then Some(EquipmentFinancing)
    else if value == "syndicated-loans" then Some(SyndicatedLoans)
    else if value == "SBA-loans" then Some(SbaLoans)
    else if value == "LOC-loans" then Some(LocLoans)
    else if value == "term-loans" then Some(TermLoans)
    else if value == "working-capital-loans" then Some(WorkingCapitalLoans)
    else None
  }

  /** Every member's value validates back to that member. */
  lemma ProductValueRoundTrip(p: ProductType)
    ensures ProductFromValue(p.Value()) == Some(p)
  {
  }

  /** Distinct product types upload into distinct folders. */
  lemma ProductValuesDistinct(p: ProductType, q: ProductType)
    requires p != q
    ensures p.Value() != q.Value()
  {
  }

  /** The upload bucket (the configured default). */
  const S3Bucket: string := "commercial-loan-booking"

  /** A stored `documentIds` attribute: the comma-joined text this service writes, or the list
      `save_booking_db` writes into the same table. */
  datatype IdsAttribute = IdText(text: string) | IdList(ids: seq<string>)

  /** A booking item as the table stores it; any attribute may be missing. */
  datatype StoredBooking = StoredBooking(loanBookingId: Option<string>, customerName: Option<string>,
                                         productName: Option<string>, createdAt: Option<string>,
                                         isSyncCompleted: Option<bool>, syncCompletedAt: Option<string>,
                                         documentIds: Option<IdsAttribute>)

  /** Whether `.split(',')` is reached on a list: a non-empty list is truthy, and a list has no
      `split`, so the call raises AttributeError. */
  predicate SplitsList(documentIds: Option<IdsAttribute>) {
    documentIds.Some? && documentIds.value.IdList? && |documentIds.value.ids| > 0
  }

  /** The stored ids as text, when they are text (an empty list is falsy, like a missing attribute). */
  function IdsText(documentIds: Option<IdsAttribute>): (t: Option<string>)
    ensures t.Some? <==> documentIds.Some? && documentIds.value.IdText?
    ensures t.Some? ==> t.value == documentIds.value.text
  {
    match documentIds
    case Some(IdText(text)) => Some(text)
    case _ => None
  }

  /** The message of the AttributeError raised by `split` on a list. */
  const ListSplitMessage: string := "'list' object has no attribute 'split'"

  /** Python truthiness of an optional text. */
  predicate Truthy(v: Option<string>) {
    v.Some? && v.value != ""
  }

  /** The stored comma-joined document ids as a list: `ids.split(',')` when truthy, else []. */
  function StoredIds(documentIds: Option<string>): (ids: seq<string>)
    ensures Truthy(documentIds) <==> |ids| > 0
    ensures Truthy(documentIds) ==> |ids| == Count(documentIds.value, ',') + 1
    ensures forall k :: 0 <= k < |ids| ==> ',' !in ids[k]
  {
    if Truthy(documentIds) then
      SplitShape(documentIds.value, ',');
      Split(documentIds.value, ',')
    else []
  }

  /** `doc_count`: the number of comma-separated pieces, 0 when there are no ids. */
  function DocCount(documentIds: Option<string>): (n: nat)
    ensures n == 0 <==> !Truthy(documentIds)
    ensures Truthy(documentIds) ==> n == Count(documentIds.value, ',') + 1
  {
    |StoredIds(documentIds)|
  }

  /** Ids written as a comma-joined text are read back as the same list, so the count a
      listing shows is the number of ids the upload saved. */
  lemma StoredIdsOfJoined(ids: seq<string>)
    requires |ids| > 0 && ids[|ids| - 1] != ""
    requires forall k :: 0 <= k < |ids| ==> ',' !in ids[k]
    ensures StoredIds(Some(Join(ids, ","))) == ids
    ensures DocCount(Some(Join(ids, ","))) == |ids|
  {
    assert "," == [','];
    JoinLastPiece(ids, ",");
    SplitJoin(ids, ',');
  }

  /** `LoanBookingInfo` as the booking list builds it. */
  datatype BookingInfo = BookingInfo(loanBookingId: string, customerName: string, productType: ProductType,
                                     createdAt: string, isSyncCompleted: bool, syncCompletedAt: Option<string>,
                                     documentCount: nat)

  /** One scanned item as `LoanBookingInfo`: texts default to "", the sync flag to False, and the
      stored `product_name` must be one of the product values (a missing one is "", which is
      not); None where validation raises. */
  function ToBookingInfo(item: StoredBooking): (b: Option<BookingInfo>)
    ensures b.Some? <==>
      !SplitsList(item.documentIds) && item.productName.Some? && ProductFromValue(item.productName.value).Some?
    ensures b.Some? ==>
      && b.value.loanBookingId == item.loanBookingId.GetOr("")
      && b.value.customerName == item.customerName.GetOr("")
      && b.value.productType.Value() == item.productName.value
      && b.value.createdAt == item.createdAt.GetOr("")
      && b.value.isSyncCompleted == item.isSyncCompleted.GetOr(false)
      && b.value.syncCompletedAt == item.syncCompletedAt
      && b.value.documentCount == |StoredIds(IdsText(item.documentIds))|
    ensures item.isSyncCompleted.None? && b.Some? ==> !b.value.isSyncCompleted
  {
    if SplitsList(item.documentIds) then None
    else match ProductFromValue(item.productName.GetOr(""))
    case None => None
    case Some(product) =>
      Some(BookingInfo(item.loanBookingId.GetOr(""), item.customerName.GetOr(""), product,
                       item.createdAt.GetOr(""), item.isSyncCompleted.GetOr(false), item.syncCompletedAt,
                       DocCount(IdsText(item.documentIds))))
  }

  /** A Python slice bound: negative counts from the end, then clamped into [0, n]. */
  function SliceBound(i: int, n: nat): (r: nat)
    ensures r <= n
    ensures 0 <= i <= n ==> r == i
    ensures n < i ==> r == n
    ensures i < 0 ==> r == (if i + n < 0 then 0 else i + n)
  {
    if i < 0 then (if i + n < 0 then 0 else i + n)
    else if i > n then n
    else i
  }

  /** Python's `xs[start:stop]`. */
  function Slice<T>(xs: seq<T>, start: int, stop: int): (r: seq<T>)
    ensures var a := SliceBound(start, |xs|);
            var b := SliceBound(stop, |xs|);
            |r| == (if a <= b then b - a else 0) && forall k :: 0 <= k < |r| ==> r[k] == xs[a + k]
  {
    var a := SliceBound(start, |xs|);
    var b := SliceBound(stop, |xs|);
    if a <= b then xs[a..b] else []
  }

  function Min(a: int, b: int): int { if a <= b then a else b }
  function Max(a: int, b: int): int { if a <= b then b else a }

  /** Whether every scanned item converts. */
  predicate AllConvert(items: seq<StoredBooking>) {
    forall i :: 0 <= i < |items| ==> ToBookingInfo(items[i]).Some?
  }

  /** `get_all_loan_bookings`: every scanned item converted, then the page `[offset:offset+limit]`.
      One item that fails validation makes the whole call raise ("Failed to retrieve loan
      bookings: ..."), here None, even when it lies outside the page. */
  function GetAllLoanBookings(items: seq<StoredBooking>, offset: int, limit: int): (page: Option<seq<BookingInfo>>)
    ensures page.None? <==> exists i :: 0 <= i < |items| && ToBookingInfo(items[i]).None?
    ensures page.Some? && 0 <= offset && 0 <= limit ==> |page.value| == Min(limit, Max(0, |items| - offset))
    ensures page.Some? && 0 <= offset ==>
      forall k :: 0 <= k < |page.value| ==> offset + k < |items| && Some(page.value[k]) == ToBookingInfo(items[offset + k])
  {
    if AllConvert(items) then
      var bookings := seq(|items|, i requires 0 <= i < |items| => ToBookingInfo(items[i]).value);
      Some(Slice(bookings, offset, offset + limit))
    else None
  }

  /** Two consecutive pages of the same size are the page of twice that size. */
  lemma ConsecutivePages(items: seq<StoredBooking>, offset: int, limit: int)
    requires 0 <= offset && 0 <= limit
    ensures GetAllLoanBookings(items, offset, limit).Some? <==> AllConvert(items)
    ensures GetAllLoanBookings(items, offset + limit, limit).Some? <==> AllConvert(items)
    ensures AllConvert(items) ==>
      GetAllLoanBookings(items, offset, limit).value + GetAllLoanBookings(items, offset + limit, limit).value
      == GetAllLoanBookings(items, offset, 2 * limit).value
  {
    if AllConvert(items) {
      var first := GetAllLoanBookings(items, offset, limit).value;
      var second := GetAllLoanBookings(items, offset + limit, limit).value;
      var both := GetAllLoanBookings(items, offset, 2 * limit).value;
      assert |first + second| == |both|;
      forall k | 0 <= k < |both| ensures (first + second)[k] == both[k] {
        if k >= |first| {
          assert |first| == limit;
          assert Some((first + second)[k]) == Some(second[k - |first|]) == ToBookingInfo(items[offset + k]);
        } else {
          assert (first + second)[k] == first[k];
        }
      }
    }
  }

  /** A stored product name outside the six values makes the listing fail, whatever the page. */
  lemma UnknownProductFailsListing(items: seq<StoredBooking>, i: nat, offset: int, limit: int)
    requires i < |items|
    requires items[i].productName.None? || forall q: ProductType :: q.Value() != items[i].productName.value
    ensures GetAllLoanBookings(items, offset, limit).None?
  {
    assert ToBookingInfo(items[i]).None?;
  }

  /** An uploaded file; only its name matters here. */
  datatype UploadFile = UploadFile(filename: string)

  /** The booking found for the same customer and product, if any. */
  datatype ExistingBooking = ExistingBooking(loanBookingId: string, documentIds: Option<IdsAttribute>)

  /** `DocumentUploadResult`. */
  datatype DocumentUploadResult = DocumentUploadResult(documentId: string, filename: string, s3Path: string,
                                                       uploadStatus: string)

  /** One entry of the ingestion request: the S3 URI and its metadata. */
  datatype IngestionDocument = IngestionDocument(uri: string, loanBookingId: string, productType: string,
                                                 documentId: string, customerName: string)

  /** The item `_save_booking_record` puts. */
  datatype SavedRecord = SavedRecord(loanBookingId: string, productName: string, customerName: string,
                                     documentIds: string, dataSourceLocation: string, createdAt: string,
                                     isSyncCompleted: bool, bookingSheetCreated: bool)

  /** Why an upload fails ("Document upload failed: ..."): no files (the S3 key is never bound),
      an S3 put that failed for a file, the table write, or an existing booking whose ids are a
      list (`split` raises before any file is read). */
  datatype UploadError = NoFiles | UploadFailed(filename: string) | SaveFailed | ListIds

  /** What a successful upload returns. */
  datatype UploadResult = UploadResult(loanBookingId: string, documents: seq<DocumentUploadResult>,
                                       ingestionTriggered: bool, ingestionJobId: Option<string>,
                                       totalUploaded: nat)

  /** The answer with the side effects it asked for: the S3 keys put, in order, the record
      written, and the ingestion requests started. */
  datatype Upload = Upload(outcome: Result<UploadResult, UploadError>, putKeys: seq<string>,
                           saved: Option<SavedRecord>, ingestionRequests: seq<seq<IngestionDocument>>)

  /** `"{product_type.value}/{file.filename}"`. */
  function S3Key(p: ProductType, filename: string): string {
    p.Value() + "/" + filename
  }

  /** `"s3://{S3_BUCKET}/{s3_key}"`. */
  function S3Path(key: string): string {
    "s3://" + S3Bucket + "/" + key
  }

  /** The id an upload books under: the existing booking's, or "lb_" and twelve fresh hex digits. */
  function BookingId(existing: Option<ExistingBooking>, bookingHex: string): string {
    if existing.Some? then existing.value.loanBookingId else "lb_" + bookingHex
  }

  /** The document ids already on the booking. */
  function PriorIds(existing: Option<ExistingBooking>): seq<string> {
    if existing.Some? then StoredIds(IdsText(existing.value.documentIds)) else []
  }

  /** The `n` freshly generated document ids, one per file. */
  function NewIds(n: nat, docId: nat -> string): (ids: seq<string>)
    ensures |ids| == n && forall k :: 0 <= k < n ==> ids[k] == docId(k)
  {
    seq(n, k requires 0 <= k => docId(k))
  }

  /** The S3 keys of the files, in order. */
  function Keys(p: ProductType, files: seq<UploadFile>): (keys: seq<string>)
    ensures |keys| == |files| && forall k :: 0 <= k < |files| ==> keys[k] == S3Key(p, files[k].filename)
  {
    seq(|files|, k requires 0 <= k < |files| => S3Key(p, files[k].filename))
  }

  /** The position of the first put that fails, from `from` on, or `|keys|` when none does. */
  function FirstFailedPut(keys: seq<string>, ids: seq<string>, put: (string, string) -> bool, from: nat): (r: nat)
    requires |keys| == |ids| && from <= |keys|
    ensures from <= r <= |keys|
    ensures forall k :: from <= k < r ==> put(keys[k], ids[k])
    ensures r < |keys| ==> !put(keys[r], ids[r])
    decreases |keys| - from
  {
    if from == |keys| then from
    else if !put(keys[from], ids[from]) then from
    else FirstFailedPut(keys, ids, put, from + 1)
  }

  /** Whether the existing booking's ids are a non-empty list, on which `split` raises. */
  predicate ReadsListIds(existing: Option<ExistingBooking>) {
    existing.Some? && SplitsList(existing.value.documentIds)
  }

  /** Python truthiness of an optional job id. */
  predicate Started(job: Option<string>) {
    job.Some? && job.value != ""
  }

  /** `upload_documents`. `bookingHex` and `docId` stand for the generated uuids, `now` for the
      clock; `put`, `save` and `trigger` are the S3 put, the table write and the ingestion start
      (None when it raises). */
  function UploadDocuments(files: seq<UploadFile>, p: ProductType, customerName: string, triggerIngestion: bool,
                           existing: Option<ExistingBooking>, bookingHex: string, docId: nat -> string, now: string,
                           put: (string, string) -> bool, save: SavedRecord -> bool,
                           trigger: (string, seq<IngestionDocument>) -> Option<string>): (u: Upload)
    ensures ReadsListIds(existing) ==> u == Upload(Err(ListIds), [], None, [])
    ensures |files| == 0 && !ReadsListIds(existing) ==> u == Upload(Err(NoFiles), [], None, [])
    ensures u.outcome.Ok? <==>
      !ReadsListIds(existing) && |files| > 0 && (forall k :: 0 <= k < |files| ==> put(S3Key(p, files[k].filename), docId(k)))
      && u.saved.Some? && save(u.saved.value)
    ensures |u.putKeys| <= |files| && u.putKeys == Keys(p, files)[..|u.putKeys|]
    ensures u.outcome.Err? && u.outcome.error.UploadFailed? ==>
      |u.putKeys| > 0 && u.outcome.error.filename == files[|u.putKeys| - 1].filename && u.saved.None?
    ensures u.outcome.Err? && u.outcome.error.UploadFailed? ==>
      |u.putKeys| - 1 == FirstFailedPut(Keys(p, files), NewIds(|files|, docId), put, 0)
      && !put(S3Key(p, files[|u.putKeys| - 1].filename), docId(|u.putKeys| - 1))
      && forall k :: 0 <= k < |u.putKeys| - 1 ==> put(S3Key(p, files[k].filename), docId(k))
    ensures !ReadsListIds(existing) && (exists k :: 0 <= k < |files| && !put(S3Key(p, files[k].filename), docId(k))) ==>
      u.outcome.Err? && u.outcome.error.UploadFailed?
    ensures u.saved.Some? ==>
      |files| > 0 && |u.putKeys| == |files|
      && u.saved.value.loanBookingId == BookingId(existing, bookingHex)
      && u.saved.value.documentIds == Join(PriorIds(existing) + NewIds(|files|, docId), ",")
      && u.saved.value.dataSourceLocation == S3Key(p, files[|files| - 1].filename)
      && !u.saved.value.isSyncCompleted && !u.saved.value.bookingSheetCreated
      && u.saved.value.productName == p.Value() && u.saved.value.customerName == customerName
      && u.saved.value.createdAt == now
    ensures |u.ingestionRequests| == (if triggerIngestion && u.outcome.Ok? then 1 else 0)
    ensures |u.ingestionRequests| == 1 ==>
      |u.ingestionRequests[0]| == |files|
      && forall k :: 0 <= k < |files| ==>
           u.ingestionRequests[0][k] == IngestionDocument(S3Path(S3Key(p, files[k].filename)), BookingId(existing, bookingHex),
                                                          p.Value(), docId(k), customerName)
    ensures u.outcome.Ok? ==>
      u.outcome.value.ingestionJobId
      == (if triggerIngestion then trigger(BookingId(existing, bookingHex), u.ingestionRequests[0]) else None)
    ensures u.outcome.Ok? ==>
      var r := u.outcome.value;
      r.loanBookingId == BookingId(existing, bookingHex)
      && |r.documents| == |files| == r.totalUploaded
      && (forall k :: 0 <= k < |files| ==>
            r.documents[k] == DocumentUploadResult(docId(k), files[k].filename,
                                                   S3Path(S3Key(p, files[k].filename)), "success"))
      && (r.ingestionTriggered <==> triggerIngestion && Started(r.ingestionJobId))
  {
    var id := BookingId(existing, bookingHex);
    var ids := NewIds(|files|, docId);
    var keys := Keys(p, files);
    var failed := FirstFailedPut(keys, ids, put, 0);
    if ReadsListIds(existing) then
      Upload(Err(ListIds), [], None, [])
    else if failed < |files| then
      Upload(Err(UploadFailed(files[failed].filename)), keys[..failed + 1], None, [])
    else if |files| == 0 then
      Upload(Err(NoFiles), [], None, [])
    else
      assert keys[..|keys|] == keys;
      var record := SavedRecord(id, p.Value(), customerName, Join(PriorIds(existing) + ids, ","),
                                keys[|files| - 1], now, false, false);
      if !save(record) then Upload(Err(SaveFailed), keys, Some(record), [])
      else
        var documents := seq(|files|, k requires 0 <= k < |files| =>
                               IngestionDocument(S3Path(keys[k]), id, p.Value(), ids[k], customerName));
        var job := if triggerIngestion then trigger(id, documents) else None;
        var results := seq(|files|, k requires 0 <= k < |files| =>
                             DocumentUploadResult(ids[k], files[k].filename, S3Path(keys[k]), "success"));
        Upload(Ok(UploadResult(id, results, Started(job), job, |files|)), keys, Some(record),
               if triggerIngestion then [documents] else [])
  }

  /** A saved upload lists, on its next read, exactly the earlier ids followed by one fresh id per
      file, in file order, as long as the fresh ids are non-empty and free of commas. */
  lemma UploadAppendsIds(files: seq<UploadFile>, p: ProductType, customerName: string, triggerIngestion: bool,
                         existing: Option<ExistingBooking>, bookingHex: string, docId: nat -> string, now: string,
                         put: (string, string) -> bool, save: SavedRecord -> bool,
                         trigger: (string, seq<IngestionDocument>) -> Option<string>)
    requires forall k :: 0 <= k < |files| ==> docId(k) != "" && ',' !in docId(k)
    requires UploadDocuments(files, p, customerName, triggerIngestion, existing, bookingHex, docId, now,
                             put, save, trigger).saved.Some?
    ensures var saved := UploadDocuments(files, p, customerName, triggerIngestion, existing, bookingHex, docId, now,
                                         put, save, trigger).saved.value;
            StoredIds(Some(saved.documentIds)) == PriorIds(existing) + NewIds(|files|, docId)
            && DocCount(Some(saved.documentIds)) == |PriorIds(existing)| + |files|
  {
    var u := UploadDocuments(files, p, customerName, triggerIngestion, existing, bookingHex, docId, now,
                             put, save, trigger);
    assert u.saved.value.documentIds == Join(PriorIds(existing) + NewIds(|files|, docId), ",") && |files| > 0;
    AllIdsCommaFree(existing, |files|, docId);
    StoredIdsOfJoined(PriorIds(existing) + NewIds(|files|, docId));
  }

  /** The earlier ids followed by comma-free fresh ids are comma-free and end in a non-empty id. */
  lemma AllIdsCommaFree(existing: Option<ExistingBooking>, n: nat, docId: nat -> string)
    requires n > 0
    requires forall k :: 0 <= k < n ==> docId(k) != "" && ',' !in docId(k)
    ensures var all := PriorIds(existing) + NewIds(n, docId);
            |all| > 0 && all[|all| - 1] != "" && forall k :: 0 <= k < |all| ==> ',' !in all[k]
  {
    var prior := PriorIds(existing);
    var all := prior + NewIds(n, docId);
    assert all[|all| - 1] == docId(n - 1);
    forall k | 0 <= k < |all| ensures ',' !in all[k] {
      if k >= |prior| {
        assert all[k] == docId(k - |prior|);
      } else {
        assert all[k] == prior[k];
      }
    }
  }

  /** Ingestion is started only on request and only after every file is stored and the booking
      saved; a trigger that fails leaves the upload successful but not triggered. */
  lemma IngestionGate(files: seq<UploadFile>, p: ProductType, customerName: string, triggerIngestion: bool,
                      existing: Option<ExistingBooking>, bookingHex: string, docId: nat -> string, now: string,
                      put: (string, string) -> bool, save: SavedRecord -> bool,
                      trigger: (string, seq<IngestionDocument>) -> Option<string>)
    requires forall key, id :: put(key, id)
    requires forall r :: save(r)
    requires forall id, docs :: trigger(id, docs).None?
    requires |files| > 0 && !ReadsListIds(existing)
    ensures var u := UploadDocuments(files, p, customerName, triggerIngestion, existing, bookingHex, docId, now,
                                     put, save, trigger);
            u.outcome.Ok? && !u.outcome.value.ingestionTriggered && u.outcome.value.ingestionJobId.None?
            && (|u.ingestionRequests| == 1 <==> triggerIngestion)
  {
  }

  /** Listing a booking's documents: the answer and the ids looked up, in order. */
  datatype BookingDocuments = BookingDocuments(loanBookingId: string, customerName: string, productType: string,
                                               isSyncCompleted: bool, syncCompletedAt: Option<string>,
                                               documents: seq<Json>, totalDocuments: nat)

  datatype Listing = Listing(result: Result<BookingDocuments, string>, lookups: seq<string>)

  /** `not doc_id.strip()`. */
  predicate Blank(id: string) {
    Strip(id) == ""
  }

  /** The ids that are not blank, in order. */
  function NonBlank(ids: seq<string>): (kept: seq<string>)
    ensures forall k :: 0 <= k < |kept| ==> !Blank(kept[k]) && kept[k] in ids
    ensures forall k :: 0 <= k < |ids| && !Blank(ids[k]) ==> ids[k] in kept
    ensures |kept| <= |ids|
  {
    if |ids| == 0 then []
    else
      var rest := NonBlank(ids[1..]);
      assert forall k :: 1 <= k < |ids| ==> ids[k] == ids[1..][k - 1];
      if !Blank(ids[0]) then [ids[0]] + rest else rest
  }

  /** One id is kept exactly when it is not blank. */
  lemma NonBlankOne(id: string)
    ensures NonBlank([id]) == (if Blank(id) then [] else [id])
  {
    assert [id][1..] == [];
  }

  /** The filter keeps order and repeats: two runs of ids keep the first run's survivors
      followed by the second's. */
  lemma {:induction false} NonBlankAppend(a: seq<string>, b: seq<string>)
    ensures NonBlank(a + b) == NonBlank(a) + NonBlank(b)
    decreases |a|
  {
    if |a| > 0 {
      assert (a + b)[0] == a[0];
      assert (a + b)[1..] == a[1..] + b;
      NonBlankAppend(a[1..], b);
    } else {
      assert a + b == b;
    }
  }

  /** The metadata found for each id, skipping ids whose lookup gives nothing or a falsy value
      (`if doc_metadata:`), in order. */
  function Found(ids: seq<string>, lookup: string -> Option<Json>): (docs: seq<Json>)
    ensures |docs| <= |ids|
    ensures forall k :: 0 <= k < |docs| ==>
      JsonValues.Truthy(docs[k]) && exists i :: 0 <= i < |ids| && lookup(ids[i]) == Some(docs[k])
  {
    if |ids| == 0 then []
    else
      var rest := Found(ids[1..], lookup);
      assert forall k :: 1 <= k < |ids| ==> ids[k] == ids[1..][k - 1];
      match lookup(ids[0])
      case Some(d) => if JsonValues.Truthy(d) then [d] + rest else rest
      case None => rest
  }

  /** One id contributes its metadata exactly when the lookup finds a truthy value. */
  lemma FoundOne(id: string, lookup: string -> Option<Json>)
    ensures Found([id], lookup)
         == (if lookup(id).Some? && JsonValues.Truthy(lookup(id).value) then [lookup(id).value] else [])
  {
    assert [id][1..] == [];
  }

  /** The lookups are taken in id order: the documents of two runs of ids are the first run's
      followed by the second's. */
  lemma {:induction false} FoundAppend(a: seq<string>, b: seq<string>, lookup: string -> Option<Json>)
    ensures Found(a + b, lookup) == Found(a, lookup) + Found(b, lookup)
    decreases |a|
  {
    if |a| > 0 {
      assert (a + b)[0] == a[0];
      assert (a + b)[1..] == a[1..] + b;
      FoundAppend(a[1..], b, lookup);
    } else {
      assert a + b == b;
    }
  }

  /** `get_loan_booking_documents`: an unknown booking raises; otherwise each non-blank stored id
      is looked up (`lookup` stands for `_get_document_metadata_by_id`) and the ones found are listed. */
  function GetLoanBookingDocuments(loanBookingId: string, items: seq<StoredBooking>,
                                   lookup: string -> Option<Json>): (l: Listing)
    ensures l.result.Err? <==> |items| == 0 || SplitsList(items[0].documentIds)
    ensures |items| > 0 && SplitsList(items[0].documentIds) ==> (l.lookups == []
      && l.result.error == "Failed to retrieve documents for loan booking " + loanBookingId + ": " + ListSplitMessage)
    ensures |items| == 0 ==> (l.lookups == []
      && l.result.error == "Failed to retrieve documents for loan booking " + loanBookingId
                           + ": Loan booking " + loanBookingId + " not found")
    ensures |items| > 0 && !SplitsList(items[0].documentIds) ==> l.lookups == NonBlank(StoredIds(IdsText(items[0].documentIds)))
    ensures l.result.Ok? ==>
      l.result.value.loanBookingId == loanBookingId
      && l.result.value.totalDocuments == |l.result.value.documents| <= |l.lookups|
      && forall k :: 0 <= k < |l.lookups| ==> !Blank(l.lookups[k])
    ensures l.result.Ok? ==> l.result.value.documents == Found(l.lookups, lookup)
    ensures l.result.Ok? ==>
      l.result.value.customerName == items[0].customerName.GetOr("")
      && l.result.value.productType == items[0].productName.GetOr("")
      && l.result.value.isSyncCompleted == items[0].isSyncCompleted.GetOr(false)
      && l.result.value.syncCompletedAt == items[0].syncCompletedAt
  {
    if |items| == 0 then
      Listing(Err("Failed to retrieve documents for loan booking " + loanBookingId
                  + ": Loan booking " + loanBookingId + " not found"), [])
    else if SplitsList(items[0].documentIds) then
      Listing(Err("Failed to retrieve documents for loan booking " + loanBookingId + ": " + ListSplitMessage), [])
    else
      var item := items[0];
      var ids := NonBlank(StoredIds(IdsText(item.documentIds)));
      var documents := Found(ids, lookup);
      Listing(Ok(BookingDocuments(loanBookingId, item.customerName.GetOr(""), item.productName.GetOr(""),
                                  item.isSyncCompleted.GetOr(false), item.syncCompletedAt,
                                  documents, |documents|)), ids)
  }

  /** A booking written by `save_booking_db` stores its ids as a list, so listing its documents
      raises on `split` instead of returning them. */
  lemma SavedRecordFailsListing(productName: string, dataSourceLocation: string, loanBookingId: string,
                                documentId: string, customerName: string, now: int,
                                item: StoredBooking, lookup: string -> Option<Json>)
    requires item.documentIds
             == Some(IdList(AwsUtils.NewRecord(productName, dataSourceLocation, loanBookingId, documentId,
                                               customerName, now).documentIds))
    ensures GetLoanBookingDocuments(loanBookingId, [item], lookup).result
         == Err("Failed to retrieve documents for loan booking " + loanBookingId + ": " + ListSplitMessage)
    ensures ToBookingInfo(item).None?
  {
    assert |item.documentIds.value.ids| > 0;
  }

  /** A stored id list with an empty piece (",a" or "a,,b") never looks the empty id up. */
  lemma BlankIdsSkipped(loanBookingId: string, item: StoredBooking, lookup: string -> Option<Json>)
    requires item.documentIds == Some(IdText(",a"))
    ensures GetLoanBookingDocuments(loanBookingId, [item], lookup).lookups == ["a"]
  {
    LeadingCommaPieces();
    BlankThenId();
  }

  /** ",a" is stored as an empty id followed by "a". */
  lemma LeadingCommaPieces()
    ensures StoredIds(Some(",a")) == ["", "a"]
  {
    assert ",a" == "" + [','] + "a";
    SplitAfterPrefix("", ',', "a");
    SplitWithout("a", ',');
  }

  /** Of an empty id and "a", only "a" is kept. */
  lemma BlankThenId()
    ensures NonBlank(["", "a"]) == ["a"]
  {
    StripTrimmed("a");
    assert Strip("") == "";
    assert ["", "a"][1..] == ["a"] && ["a"][1..] == [];
  }
}
