/**
 * The document listing of the document service (services/document_service.py,
 * `get_documents_by_loan_booking_id`): every booking item's document ids flattened into one
 * entry each, with a file name derived from the item's location and an optional folder
 * filter. The table query is a parameter: the items it returned.
 */
module DocumentService {
  import opened Wrappers
  import opened Strings

  /** A stored `documentIds` attribute: a single text or a list of ids. */
  datatype DocumentIds = IdText(text: string) | IdList(ids: seq<string>)

  /** A booking item as the query returns it; any attribute may be missing. */
  datatype BookingItem = BookingItem(documentIds: Option<DocumentIds>, dataSourceLocation: Option<string>,
                                     productName: Option<string>, customerName: Option<string>,
                                     timestamp: Option<int>, isSyncCompleted: Option<bool>,
                                     syncCompletedAt: Option<string>, ingestionJobId: Option<string>,
                                     syncError: Option<string>, bookingSheetCreated: Option<bool>,
                                     isBookingSheetGenerated: Option<bool>)

  /** One listed document with the sync status of its item. */
  datatype DocInfo = DocInfo(documentId: string, fileName: string, loanBookingId: string, productName: string,
                             customerName: string, dataSourceLocation: string, uploadDate: Option<int>,
                             isSynced: bool, syncCompletedAt: Option<string>, ingestionJobId: Option<string>,
                             syncError: Option<string>, bookingSheetCreated: bool, bookingSheetGenerated: bool)

  /** The ids of an item: a single text becomes a one-element list, a missing attribute none. */
  function NormalizeIds(documentIds: Option<DocumentIds>): (ids: seq<string>)
    ensures documentIds.None? ==> ids == []
    ensures documentIds.Some? && documentIds.value.IdText? ==> ids == [documentIds.value.text]
    ensures documentIds.Some? && documentIds.value.IdList? ==> ids == documentIds.value.ids
  {
    match documentIds
    case None => []
    case Some(IdText(t)) => [t]
    case Some(IdList(ids)) => ids
  }

  /** The file name of a document: the last '/'-segment of a non-empty location, otherwise
      "document_" followed by the id. */
  function FileName(location: string, documentId: string): (name: string)
    ensures location != "" ==> '/' !in name && EndsWith(location, name)
    ensures location != "" && '/' !in location ==> name == location
    ensures '/' in location ==> EndsWith(location, "/" + name)
    ensures location == "" ==> name == "document_" + documentId
  {
    if location != "" then LastSegment(location, '/') else "document_" + documentId
  }

  /** A location inside a folder ends in the name after the folder's last slash. */
  lemma FileNameInFolder(folder: string, name: string, documentId: string)
    requires '/' !in name
    ensures FileName(folder + "/" + name, documentId) == name
  {
    var location := folder + "/" + name;
    assert location == folder + ['/'] + name;
    FileNameAfterSlash(folder, name);
  }

  /** The last segment after a final slash followed by a slash-free name is that name. */
  lemma {:induction false} FileNameAfterSlash(folder: string, name: string)
    requires '/' !in name
    ensures LastSegment(folder + ['/'] + name, '/') == name
    decreases |folder|
  {
    if '/' in folder {
      var j := FirstSlash(folder);
      var before := folder[..j];
      var after := folder[j + 1..];
      assert folder == before + ['/'] + after;
      assert folder + ['/'] + name == before + ['/'] + (after + ['/'] + name);
      LastSegmentAfterPrefix(before, '/', after + ['/'] + name);
      FileNameAfterSlash(after, name);
    } else {
      LastSegmentAfterPrefix(folder, '/', name);
      SplitWithout(name, '/');
    }
  }

  /** Dropping a separator-free first segment keeps the last segment. */
  lemma LastSegmentAfterPrefix(p: string, c: char, t: string)
    requires c !in p
    ensures LastSegment(p + [c] + t, c) == LastSegment(t, c)
  {
    SplitAfterPrefix(p, c, t);
    LastAfterFirst(p, Split(t, c));
  }

  /** The last element of a sequence behind one more element. */
  lemma LastAfterFirst<T>(x: T, xs: seq<T>)
    requires |xs| > 0
    ensures ([x] + xs)[|[x] + xs| - 1] == xs[|xs| - 1]
  {
  }

  /** The position of the first slash in a text that has one. */
  function FirstSlash(s: string): (j: nat)
    requires '/' in s
    ensures j < |s| && s[j] == '/' && '/' !in s[..j]
  {
    if s[0] == '/' then 0
    else
      var j := FirstSlash(s[1..]);
      assert s[..j + 1] == [s[0]] + s[1..][..j];
      j + 1
  }

  /** The folder filter: with a truthy folder name, only items whose location starts with it. */
  predicate Kept(location: string, folderName: Option<string>) {
    !(folderName.Some? && folderName.value != "" && !StartsWith(location, folderName.value))
  }

  /** The entry for one id of an item. A location stored as NULL is taken as missing, so it
      reads as "" here where the program would carry None. */
  function Entry(item: BookingItem, loanBookingId: string, documentId: string): (d: DocInfo)
    ensures d.documentId == documentId && d.loanBookingId == loanBookingId
    ensures d.dataSourceLocation == item.dataSourceLocation.GetOr("")
    ensures d.fileName == FileName(item.dataSourceLocation.GetOr(""), documentId)
    ensures d.productName == item.productName.GetOr("") && d.customerName == item.customerName.GetOr("")
    ensures d.uploadDate == item.timestamp
    ensures d.isSynced == item.isSyncCompleted.GetOr(false) && d.syncCompletedAt == item.syncCompletedAt
    ensures d.ingestionJobId == item.ingestionJobId && d.syncError == item.syncError
    ensures d.bookingSheetCreated == item.bookingSheetCreated.GetOr(false)
    ensures d.bookingSheetGenerated == item.isBookingSheetGenerated.GetOr(false)
  {
    var location := item.dataSourceLocation.GetOr("");
    DocInfo(documentId, FileName(location, documentId), loanBookingId, item.productName.GetOr(""),
            item.customerName.GetOr(""), location, item.timestamp, item.isSyncCompleted.GetOr(false),
            item.syncCompletedAt, item.ingestionJobId, item.syncError, item.bookingSheetCreated.GetOr(false),
            item.isBookingSheetGenerated.GetOr(false))
  }

  /** The entries one item contributes: one per id, in id order, or none when the item's
      location is filtered out. */
  function ItemDocuments(item: BookingItem, loanBookingId: string, folderName: Option<string>): (docs: seq<DocInfo>)
    ensures Kept(item.dataSourceLocation.GetOr(""), folderName) ==> |docs| == |NormalizeIds(item.documentIds)|
    ensures !Kept(item.dataSourceLocation.GetOr(""), folderName) ==> docs == []
    ensures forall k :: 0 <= k < |docs| ==> docs[k] == Entry(item, loanBookingId, NormalizeIds(item.documentIds)[k])
  {
    var ids := NormalizeIds(item.documentIds);
    if Kept(item.dataSourceLocation.GetOr(""), folderName)
    then seq(|ids|, k requires 0 <= k < |ids| => Entry(item, loanBookingId, ids[k]))
    else []
  }

  /** The concatenation of `f` over `xs`, in order. */
  function Concat<T, U>(f: T -> seq<U>, xs: seq<T>): seq<U> {
    if |xs| == 0 then [] else f(xs[0]) + Concat(f, xs[1..])
  }

  /** Concatenating over two runs concatenates the two results. */
  lemma {:induction false} ConcatAppend<T, U>(f: T -> seq<U>, xs: seq<T>, ys: seq<T>)
    ensures Concat(f, xs + ys) == Concat(f, xs) + Concat(f, ys)
  {
    if |xs| == 0 {
      assert xs + ys == ys;
    } else {
      assert (xs + ys)[0] == xs[0] && (xs + ys)[1..] == xs[1..] + ys;
      ConcatAppend(f, xs[1..], ys);
    }
  }

  /** Every item's entries, in item order. */
  function Documents(items: seq<BookingItem>, loanBookingId: string, folderName: Option<string>): seq<DocInfo> {
    Concat(item => ItemDocuments(item, loanBookingId, folderName), items)
  }

  /** Listing two runs of items lists the first run's entries, then the second's. */
  lemma DocumentsAppend(xs: seq<BookingItem>, ys: seq<BookingItem>, loanBookingId: string, folderName: Option<string>)
    ensures Documents(xs + ys, loanBookingId, folderName)
         == Documents(xs, loanBookingId, folderName) + Documents(ys, loanBookingId, folderName)
  {
    ConcatAppend(item => ItemDocuments(item, loanBookingId, folderName), xs, ys);
  }

  /** A single item lists exactly its own entries. */
  lemma DocumentsOne(item: BookingItem, loanBookingId: string, folderName: Option<string>)
    ensures Documents([item], loanBookingId, folderName) == ItemDocuments(item, loanBookingId, folderName)
  {
    assert [item][1..] == [];
    assert Documents([item], loanBookingId, folderName)
        == ItemDocuments(item, loanBookingId, folderName) + Documents([], loanBookingId, folderName);
  }

  /** How many ids the kept items carry. */
  function KeptIds(items: seq<BookingItem>, folderName: Option<string>): nat {
    if |items| == 0 then 0
    else (if Kept(items[0].dataSourceLocation.GetOr(""), folderName) then |NormalizeIds(items[0].documentIds)| else 0)
         + KeptIds(items[1..], folderName)
  }

  /** There is one entry per id of every kept item, and every entry passes the filter. */
  lemma {:induction false} DocumentsCount(items: seq<BookingItem>, loanBookingId: string, folderName: Option<string>)
    ensures |Documents(items, loanBookingId, folderName)| == KeptIds(items, folderName)
    ensures forall k :: 0 <= k < |Documents(items, loanBookingId, folderName)| ==>
      Kept(Documents(items, loanBookingId, folderName)[k].dataSourceLocation, folderName)
      && Documents(items, loanBookingId, folderName)[k].loanBookingId == loanBookingId
  {
    if |items| > 0 {
      var first := ItemDocuments(items[0], loanBookingId, folderName);
      var rest := Documents(items[1..], loanBookingId, folderName);
      DocumentsCount(items[1..], loanBookingId, folderName);
      var all: seq<DocInfo> := first + rest;
      forall k | 0 <= k < |all|
        ensures Kept(all[k].dataSourceLocation, folderName) && all[k].loanBookingId == loanBookingId
      {
        if k >= |first| {
          assert all[k] == rest[k - |first|];
        }
      }
    }
  }

  /** What the listing returns (its `success` is always true). */
  datatype Listing = Listing(loanBookingId: string, folderName: Option<string>, documents: seq<DocInfo>,
                             totalDocuments: nat, message: string)

  /** `get_documents_by_loan_booking_id`: the entries of every item, in item order and id order
      within an item, with the count and the message. */
  function GetDocumentsByLoanBookingId(loanBookingId: string, folderName: Option<string>,
                                       items: seq<BookingItem>): (l: Listing)
    ensures l.documents == Documents(items, loanBookingId, folderName)
    ensures l.loanBookingId == loanBookingId && l.folderName == folderName
    ensures l.totalDocuments == |l.documents| == KeptIds(items, folderName)
    ensures l.message == "Found " + NatToString(|l.documents|) + " documents for loan booking ID " + loanBookingId
    ensures folderName.Some? && folderName.value != "" ==>
      forall k :: 0 <= k < |l.documents| ==> StartsWith(l.documents[k].dataSourceLocation, folderName.value)
    ensures forall k :: 0 <= k < |l.documents| ==> l.documents[k].loanBookingId == loanBookingId
  {
    var documents := Documents(items, loanBookingId, folderName);
    DocumentsCount(items, loanBookingId, folderName);
    Listing(loanBookingId, folderName, documents, |documents|,
            "Found " + NatToString(|documents|) + " documents for loan booking ID " + loanBookingId)
  }

  /** A comma-joined id text, as the upload service stores it, is listed as one document whose id
      is the whole text: this listing does not split on commas. */
  lemma JoinedIdsStayWhole(loanBookingId: string, item: BookingItem, a: string, b: string)
    requires item.documentIds == Some(IdText(a + "," + b))
    requires item.dataSourceLocation == Some("")
    ensures var l := GetDocumentsByLoanBookingId(loanBookingId, None, [item]);
            |l.documents| == 1 && l.documents[0].documentId == a + "," + b
            && l.documents[0].fileName == "document_" + a + "," + b
  {
    assert [item][1..] == [];
    assert Documents([item], loanBookingId, None) == ItemDocuments(item, loanBookingId, None) + Documents([], loanBookingId, None);
    assert NormalizeIds(item.documentIds) == [a + "," + b];
  }
}
