/**
 * The DynamoDB helpers of utils/aws_utils.py that the booking flow relies on: the record
 * `save_booking_db` writes, the update `update_booking_sync_status` issues, and how
 * `wait_for_direct_ingestion` decides from the ingestion job's reported statuses. The table,
 * the clock and the ingestion client are parameters.
 */
module AwsUtils {
  import opened Wrappers
  import opened Strings
  import opened PyDict

  /** A Python truthiness test on an optional text: present and non-empty. */
  predicate Given(t: Option<string>) {
    t.Some? && t.value != ""
  }

  // ---------------------------------------------------------------------------------------
  // save_booking_db

  /** The item `save_booking_db` puts into the booking table. */
  datatype BookingRecord = BookingRecord(loanBookingId: string, timestamp: int, productName: string,
                                         customerName: string, dataSourceLocation: string,
                                         documentIds: seq<string>, isBookingSheetGenerated: bool,
                                         isSyncCompleted: bool, bookingSheetCreatedDate: Option<string>,
                                         syncError: Option<string>, bookingSheetCreated: bool)

  /** The stored id list: the text split on ',' when it has a comma, otherwise the text alone. */
  function StoredIds(documentId: string): (ids: seq<string>)
    ensures ids == Split(documentId, ',')
    ensures ',' !in documentId ==> ids == [documentId]
    ensures forall k :: 0 <= k < |ids| ==> ',' !in ids[k]
    ensures |ids| == Count(documentId, ',') + 1
  {
    SplitShape(documentId, ',');
    if ',' in documentId then Split(documentId, ',')
    else
      SplitWithout(documentId, ',');
      [documentId]
  }

  /** The record for a new booking: nothing generated, synced or created yet. */
  function NewRecord(productName: string, dataSourceLocation: string, loanBookingId: string,
                     documentId: string, customerName: string, now: int): (r: BookingRecord)
    ensures r.loanBookingId == loanBookingId && r.timestamp == now
    ensures r.productName == productName && r.customerName == customerName
    ensures r.dataSourceLocation == dataSourceLocation
    ensures r.documentIds == StoredIds(documentId)
    ensures Join(r.documentIds, ",") == documentId
    ensures !r.isBookingSheetGenerated && !r.isSyncCompleted && !r.bookingSheetCreated
    ensures r.bookingSheetCreatedDate.None? && r.syncError.None?
  {
    JoinSplit(documentId, ',');
    BookingRecord(loanBookingId, now, productName, customerName, dataSourceLocation, StoredIds(documentId),
                  false, false, None, None, false)
  }

  /** `save_booking_db`: the record written and whether the put went through (a failing put is
      reported as false). */
  function SaveBookingDb(productName: string, dataSourceLocation: string, loanBookingId: string,
                         documentId: string, customerName: string, now: int,
                         put: BookingRecord -> bool): (r: (bool, BookingRecord))
    ensures r.1 == NewRecord(productName, dataSourceLocation, loanBookingId, documentId, customerName, now)
    ensures r.0 <==> put(r.1)
  {
    var record := NewRecord(productName, dataSourceLocation, loanBookingId, documentId, customerName, now);
    (put(record), record)
  }

  /** Saving the comma-join of comma-free ids stores exactly those ids, so the list survives the
      round trip through the id text. */
  lemma SavedIdsRoundTrip(ids: seq<string>)
    requires |ids| > 0
    requires forall k :: 0 <= k < |ids| ==> ',' !in ids[k]
    ensures StoredIds(Join(ids, ",")) == ids
  {
    SplitJoin(ids, ',');
  }

  /** A new record made from the comma-join of comma-free ids holds exactly those ids. */
  lemma NewRecordKeepsIds(ids: seq<string>, productName: string, dataSourceLocation: string,
                          loanBookingId: string, customerName: string, now: int)
    requires |ids| > 0
    requires forall k :: 0 <= k < |ids| ==> ',' !in ids[k]
    ensures NewRecord(productName, dataSourceLocation, loanBookingId, Join(ids, ","), customerName, now).documentIds == ids
  {
    SavedIdsRoundTrip(ids);
  }

  // ---------------------------------------------------------------------------------------
  // update_booking_sync_status

  /** A value bound to an expression placeholder. */
  datatype AttrValue = BoolValue(b: bool) | TextValue(text: string)

  /** One `attribute = :placeholder` assignment with the value the placeholder stands for. */
  datatype Assignment = Assignment(attribute: string, placeholder: string, value: AttrValue)

  /** An update: the assignments of its SET clause and the attributes of its REMOVE clause. */
  datatype SyncUpdate = SyncUpdate(assignments: seq<Assignment>, removes: seq<string>)

  /** The text of one assignment. */
  function AssignText(attribute: string, placeholder: string): string {
    attribute + " = " + placeholder
  }

  /** The texts of a list of assignments. */
  function AssignTexts(a: seq<Assignment>): (texts: seq<string>)
    ensures |texts| == |a|
    ensures forall i :: 0 <= i < |a| ==> texts[i] == AssignText(a[i].attribute, a[i].placeholder)
  {
    seq(|a|, i requires 0 <= i < |a| => AssignText(a[i].attribute, a[i].placeholder))
  }

  /** The update expression an update renders to. */
  function ExpressionText(u: SyncUpdate): string {
    "SET " + Join(AssignTexts(u.assignments), ", ")
    + (if u.removes == [] then "" else " REMOVE " + Join(u.removes, ", "))
  }

  /** The `ExpressionAttributeValues` of an update, in assignment order. */
  function ExpressionValues(u: SyncUpdate): (values: Dict<AttrValue>)
    ensures Keys(values) == seq(|u.assignments|, i requires 0 <= i < |u.assignments| => u.assignments[i].placeholder)
  {
    seq(|u.assignments|, i requires 0 <= i < |u.assignments| => (u.assignments[i].placeholder, u.assignments[i].value))
  }

  /** The first assignment on `attribute`, if there is one. */
  function Assigned(assignments: seq<Assignment>, attribute: string): (r: Option<Assignment>)
    ensures r.Some? ==> r.value in assignments && r.value.attribute == attribute
    ensures r.None? ==> forall i :: 0 <= i < |assignments| ==> assignments[i].attribute != attribute
  {
    if |assignments| == 0 then None
    else if assignments[0].attribute == attribute then Some(assignments[0])
    else Assigned(assignments[1..], attribute)
  }

  /** The update for a sync outcome. The completion time is the given one when truthy, otherwise
      `now`; a truthy error is recorded, and a completed sync without one clears the old error. */
  function SyncUpdateFor(isSyncCompleted: bool, ingestionJobId: Option<string>, syncCompletedAt: Option<string>,
                         syncError: Option<string>, now: string): (u: SyncUpdate)
    ensures |u.assignments| > 0
    ensures u.assignments[0] == Assignment("isSyncCompleted", ":sync_status", BoolValue(isSyncCompleted))
    ensures Assigned(u.assignments, "ingestionJobId").Some? <==> Given(ingestionJobId)
    ensures Given(ingestionJobId) ==> Assigned(u.assignments, "ingestionJobId")
                                      == Some(Assignment("ingestionJobId", ":job_id", TextValue(ingestionJobId.value)))
    ensures Assigned(u.assignments, "syncCompletedAt")
            == Some(Assignment("syncCompletedAt", ":completed_at",
                               TextValue(if Given(syncCompletedAt) then syncCompletedAt.value else now)))
    ensures Assigned(u.assignments, "syncError").Some? <==> Given(syncError)
    ensures Given(syncError) ==> Assigned(u.assignments, "syncError")
                                 == Some(Assignment("syncError", ":error", TextValue(syncError.value)))
    ensures u.removes == (if !Given(syncError) && isSyncCompleted then ["syncError"] else [])
    ensures DistinctKeys(ExpressionValues(u))
  {
    var status := Assignment("isSyncCompleted", ":sync_status", BoolValue(isSyncCompleted));
    var job := if Given(ingestionJobId) then [Assignment("ingestionJobId", ":job_id", TextValue(ingestionJobId.value))] else [];
    var completed := Assignment("syncCompletedAt", ":completed_at",
                                TextValue(if Given(syncCompletedAt) then syncCompletedAt.value else now));
    var error := if Given(syncError) then [Assignment("syncError", ":error", TextValue(syncError.value))] else [];
    AssignmentsFound(status, job, completed, error);
    PlaceholdersDistinct(status, job, completed, error);
    SyncUpdate(SyncAssignments(isSyncCompleted, ingestionJobId, syncCompletedAt, syncError, now), Removes(isSyncCompleted, syncError))
  }

  /** The assignments of the SET clause, in the order the source adds them. */
  function SyncAssignments(isSyncCompleted: bool, ingestionJobId: Option<string>, syncCompletedAt: Option<string>,
                           syncError: Option<string>, now: string): seq<Assignment> {
    [Assignment("isSyncCompleted", ":sync_status", BoolValue(isSyncCompleted))]
    + (if Given(ingestionJobId) then [Assignment("ingestionJobId", ":job_id", TextValue(ingestionJobId.value))] else [])
    + [Assignment("syncCompletedAt", ":completed_at", TextValue(if Given(syncCompletedAt) then syncCompletedAt.value else now))]
    + (if Given(syncError) then [Assignment("syncError", ":error", TextValue(syncError.value))] else [])
  }

  /** The attributes of the REMOVE clause. */
  function Removes(isSyncCompleted: bool, syncError: Option<string>): seq<string> {
    if !Given(syncError) && isSyncCompleted then ["syncError"] else []
  }

  /** The attribute names the update uses differ from one another, and so do the placeholders. */
  lemma NamesDiffer()
    ensures "isSyncCompleted" != "ingestionJobId" && "isSyncCompleted" != "syncCompletedAt"
    ensures "isSyncCompleted" != "syncError" && "ingestionJobId" != "syncCompletedAt"
    ensures "ingestionJobId" != "syncError" && "syncCompletedAt" != "syncError"
    ensures ":sync_status" != ":job_id" && ":sync_status" != ":completed_at" && ":sync_status" != ":error"
    ensures ":job_id" != ":completed_at" && ":job_id" != ":error" && ":completed_at" != ":error"
  {
    assert "isSyncCompleted"[1] == 's' && "ingestionJobId"[1] == 'n' && "syncCompletedAt"[1] == 'y';
    assert "syncError"[4] == 'E' && "syncCompletedAt"[4] == 'C' && "isSyncCompleted"[0] == 'i';
    assert "syncError"[0] == 's' && "syncCompletedAt"[0] == 's';
    assert ":sync_status"[1] == 's' && ":job_id"[1] == 'j' && ":completed_at"[1] == 'c' && ":error"[1] == 'e';
  }

  /** An assignment whose attribute no earlier one has is the one found for that attribute. */
  lemma {:induction false} AssignedAt(a: seq<Assignment>, i: nat)
    requires i < |a|
    requires forall j :: 0 <= j < i ==> a[j].attribute != a[i].attribute
    ensures Assigned(a, a[i].attribute) == Some(a[i])
  {
    if i > 0 {
      assert a[1..][i - 1] == a[i];
      AssignedAt(a[1..], i - 1);
    }
  }

  /** The four assignment groups in order: each attribute appears at most once, so each is found
      exactly when its group is present. */
  lemma AssignmentsFound(status: Assignment, job: seq<Assignment>, completed: Assignment, error: seq<Assignment>)
    requires status.attribute == "isSyncCompleted"
    requires |job| <= 1 && (|job| == 1 ==> job[0].attribute == "ingestionJobId")
    requires completed.attribute == "syncCompletedAt"
    requires |error| <= 1 && (|error| == 1 ==> error[0].attribute == "syncError")
    ensures var a := [status] + job + [completed] + error;
            && (Assigned(a, "ingestionJobId") == if |job| == 1 then Some(job[0]) else None)
            && Assigned(a, "syncCompletedAt") == Some(completed)
            && (Assigned(a, "syncError") == if |error| == 1 then Some(error[0]) else None)
  {
    NamesDiffer();
    GroupsLayout(status, job, completed, error);
    var a := [status] + job + [completed] + error;
    AssignedAt(a, |job| + 1);
    JobFound(status, job, completed, error);
    ErrorFound(status, job, completed, error);
  }

  /** The job-id assignment is found exactly when there is one. */
  lemma JobFound(status: Assignment, job: seq<Assignment>, completed: Assignment, error: seq<Assignment>)
    requires status.attribute == "isSyncCompleted"
    requires |job| <= 1 && (|job| == 1 ==> job[0].attribute == "ingestionJobId")
    requires completed.attribute == "syncCompletedAt"
    requires |error| <= 1 && (|error| == 1 ==> error[0].attribute == "syncError")
    ensures Assigned([status] + job + [completed] + error, "ingestionJobId") == if |job| == 1 then Some(job[0]) else None
  {
    NamesDiffer();
    GroupsLayout(status, job, completed, error);
    var a := [status] + job + [completed] + error;
    if |job| == 1 {
      AssignedAt(a, 1);
    } else {
      forall i | 0 <= i < |a| ensures a[i].attribute != "ingestionJobId" {
        if i > 1 { assert a[i] == error[0]; }
      }
    }
  }

  /** The error assignment is found exactly when there is one. */
  lemma ErrorFound(status: Assignment, job: seq<Assignment>, completed: Assignment, error: seq<Assignment>)
    requires status.attribute == "isSyncCompleted"
    requires |job| <= 1 && (|job| == 1 ==> job[0].attribute == "ingestionJobId")
    requires completed.attribute == "syncCompletedAt"
    requires |error| <= 1 && (|error| == 1 ==> error[0].attribute == "syncError")
    ensures Assigned([status] + job + [completed] + error, "syncError") == if |error| == 1 then Some(error[0]) else None
  {
    NamesDiffer();
    GroupsLayout(status, job, completed, error);
    var a := [status] + job + [completed] + error;
    if |error| == 1 {
      AssignedAt(a, |job| + 2);
    } else {
      forall i | 0 <= i < |a| ensures a[i].attribute != "syncError" {
        if 0 < i < |job| + 1 { assert a[i] == job[0]; }
      }
    }
  }

  /** No placeholder is bound twice. */
  lemma PlaceholdersDistinct(status: Assignment, job: seq<Assignment>, completed: Assignment, error: seq<Assignment>)
    requires status.placeholder == ":sync_status"
    requires |job| <= 1 && (|job| == 1 ==> job[0].placeholder == ":job_id")
    requires completed.placeholder == ":completed_at"
    requires |error| <= 1 && (|error| == 1 ==> error[0].placeholder == ":error")
    ensures DistinctKeys(ExpressionValues(SyncUpdate([status] + job + [completed] + error, [])))
  {
    var a := [status] + job + [completed] + error;
    var values := ExpressionValues(SyncUpdate(a, []));
    forall i, j | 0 <= i < j < |values| ensures values[i].0 != values[j].0 {
      assert values[i].0 == a[i].placeholder && values[j].0 == a[j].placeholder;
      PlaceholderRank(status, job, completed, error, i);
      PlaceholderRank(status, job, completed, error, j);
    }
  }

  /** The rank of a placeholder in the order the source adds them. */
  function Rank(placeholder: string): nat {
    if placeholder == ":sync_status" then 0
    else if placeholder == ":job_id" then 1
    else if placeholder == ":completed_at" then 2
    else 3
  }

  /** Placeholders appear in strictly increasing rank, so no two are equal. */
  lemma PlaceholderRank(status: Assignment, job: seq<Assignment>, completed: Assignment, error: seq<Assignment>, i: nat)
    requires status.placeholder == ":sync_status"
    requires |job| <= 1 && (|job| == 1 ==> job[0].placeholder == ":job_id")
    requires completed.placeholder == ":completed_at"
    requires |error| <= 1 && (|error| == 1 ==> error[0].placeholder == ":error")
    requires i < |job| + 2 + |error|
    ensures var a := [status] + job + [completed] + error;
            && (i == 0 ==> Rank(a[i].placeholder) == 0)
            && (0 < i < |job| + 1 ==> Rank(a[i].placeholder) == 1)
            && (i == |job| + 1 ==> Rank(a[i].placeholder) == 2)
            && (i > |job| + 1 ==> Rank(a[i].placeholder) == 3)
  {
    NamesDiffer();
    GroupsLayout(status, job, completed, error);
  }

  /** Where each group sits in the assignment list. */
  lemma GroupsLayout(status: Assignment, job: seq<Assignment>, completed: Assignment, error: seq<Assignment>)
    requires |job| <= 1 && |error| <= 1
    ensures var a := [status] + job + [completed] + error;
            && |a| == |job| + 2 + |error|
            && a[0] == status && a[|job| + 1] == completed
            && (|job| == 1 ==> a[1] == job[0])
            && (|error| == 1 ==> a[|job| + 2] == error[0])
            && forall i :: 0 <= i < |a| ==> a[i] == status || a[i] == completed || a[i] in job || a[i] in error
  {
  }

  /** The expression text as the source assembles it, one clause appended at a time. */
  function BuildExpression(isSyncCompleted: bool, ingestionJobId: Option<string>, syncError: Option<string>): string {
    var e0 := "SET " + AssignText("isSyncCompleted", ":sync_status");
    var e1 := e0 + (if Given(ingestionJobId) then ", " + AssignText("ingestionJobId", ":job_id") else "");
    var e2 := e1 + ", " + AssignText("syncCompletedAt", ":completed_at");
    e2 + (if Given(syncError) then ", " + AssignText("syncError", ":error")
          else if isSyncCompleted then " REMOVE syncError"
          else "")
  }

  /** The clause-by-clause text is the rendering of the update, whatever the inputs. */
  lemma BuildRendersUpdate(isSyncCompleted: bool, ingestionJobId: Option<string>, syncCompletedAt: Option<string>,
                           syncError: Option<string>, now: string)
    ensures BuildExpression(isSyncCompleted, ingestionJobId, syncError)
         == ExpressionText(SyncUpdateFor(isSyncCompleted, ingestionJobId, syncCompletedAt, syncError, now))
  {
    RenderAssignments(isSyncCompleted, ingestionJobId, syncCompletedAt, syncError, now);
  }

  /** The rendering of the assignments and removals, clause by clause. */
  lemma RenderAssignments(isSyncCompleted: bool, ingestionJobId: Option<string>, syncCompletedAt: Option<string>,
                          syncError: Option<string>, now: string)
    ensures BuildExpression(isSyncCompleted, ingestionJobId, syncError)
         == ExpressionText(SyncUpdate(SyncAssignments(isSyncCompleted, ingestionJobId, syncCompletedAt, syncError, now),
                                      Removes(isSyncCompleted, syncError)))
  {
    var t0 := AssignText("isSyncCompleted", ":sync_status");
    var t1 := AssignText("ingestionJobId", ":job_id");
    var t2 := AssignText("syncCompletedAt", ":completed_at");
    var t3 := AssignText("syncError", ":error");
    var a := SyncAssignments(isSyncCompleted, ingestionJobId, syncCompletedAt, syncError, now);
    var removes := Removes(isSyncCompleted, syncError);
    UpdateTexts(isSyncCompleted, ingestionJobId, syncCompletedAt, syncError, now);
    JoinGroups(t0, t1, t2, t3, Given(ingestionJobId), Given(syncError));
    var e2 := "SET " + t0 + (if Given(ingestionJobId) then ", " + t1 else "") + ", " + t2;
    var removeText := if removes == [] then "" else " REMOVE " + Join(removes, ", ");
    assert "SET " + Join(AssignTexts(a), ", ") == e2 + (if Given(syncError) then ", " + t3 else "");
    if !Given(syncError) && isSyncCompleted {
      RemoveClause();
      assert removeText == " REMOVE syncError";
    }
  }

  /** The REMOVE clause for the error attribute. */
  lemma RemoveClause()
    ensures " REMOVE " + Join(["syncError"], ", ") == " REMOVE syncError"
  {
  }

  /** The assignment texts: the status, the job id when given, the completion time, and the error
      when given. */
  lemma UpdateTexts(isSyncCompleted: bool, ingestionJobId: Option<string>, syncCompletedAt: Option<string>,
                    syncError: Option<string>, now: string)
    ensures AssignTexts(SyncAssignments(isSyncCompleted, ingestionJobId, syncCompletedAt, syncError, now))
         == [AssignText("isSyncCompleted", ":sync_status")]
            + (if Given(ingestionJobId) then [AssignText("ingestionJobId", ":job_id")] else [])
            + [AssignText("syncCompletedAt", ":completed_at")]
            + (if Given(syncError) then [AssignText("syncError", ":error")] else [])
  {
    var a := SyncAssignments(isSyncCompleted, ingestionJobId, syncCompletedAt, syncError, now);
    var n := if Given(ingestionJobId) then 1 else 0;
    assert |a| == n + 2 + (if Given(syncError) then 1 else 0);
  }

  /** Joining the groups with ", " is appending them one at a time. */
  lemma JoinGroups(t0: string, t1: string, t2: string, t3: string, withJob: bool, withError: bool)
    ensures "SET " + Join([t0] + (if withJob then [t1] else []) + [t2] + (if withError then [t3] else []), ", ")
         == "SET " + t0 + (if withJob then ", " + t1 else "") + ", " + t2 + (if withError then ", " + t3 else "")
    ensures !withError ==> [t0] + (if withJob then [t1] else []) + [t2] + (if withError then [t3] else [])
                           == [t0] + (if withJob then [t1] else []) + [t2]
  {
    var front := [t0] + (if withJob then [t1] else []);
    assert Join([t0], ", ") == t0;
    if withJob {
      JoinSnoc([t0], t1, ", ");
    }
    JoinSnoc(front, t2, ", ");
    if withError {
      JoinSnoc(front + [t2], t3, ", ");
    } else {
      assert front + [t2] + [] == front + [t2];
    }
  }

  /** The update issued to the table: the key of the latest record and the expression with its values. */
  datatype UpdateRequest = UpdateRequest(loanBookingId: string, timestamp: int, expression: string,
                                         values: Dict<AttrValue>)

  /** `update_booking_sync_status`: `latest` is the query for the id's newest record timestamp, `update`
      the table update (false when it fails). Without a record nothing is issued and the result is
      false. */
  function UpdateBookingSyncStatus(loanBookingId: string, isSyncCompleted: bool, ingestionJobId: Option<string>,
                                   syncCompletedAt: Option<string>, syncError: Option<string>, now: string,
                                   latest: string -> Option<int>, update: UpdateRequest -> bool)
    : (r: (bool, Option<UpdateRequest>))
    ensures latest(loanBookingId).None? ==> r == (false, None)
    ensures latest(loanBookingId).Some? ==> r.1.Some? && r.0 == update(r.1.value)
    ensures r.1.Some? ==>
      var u := SyncUpdateFor(isSyncCompleted, ingestionJobId, syncCompletedAt, syncError, now);
      && r.1.value.loanBookingId == loanBookingId && r.1.value.timestamp == latest(loanBookingId).value
      && r.1.value.expression == ExpressionText(u) && r.1.value.values == ExpressionValues(u)
      && StartsWith(r.1.value.expression, "SET isSyncCompleted = :sync_status")
  {
    match latest(loanBookingId)
    case None => (false, None)
    case Some(timestamp) =>
      var u := SyncUpdateFor(isSyncCompleted, ingestionJobId, syncCompletedAt, syncError, now);
      BuildRendersUpdate(isSyncCompleted, ingestionJobId, syncCompletedAt, syncError, now);
      BuildStartsWithStatus(isSyncCompleted, ingestionJobId, syncError);
      var request := UpdateRequest(loanBookingId, timestamp, BuildExpression(isSyncCompleted, ingestionJobId, syncError),
                                   ExpressionValues(u));
      (update(request), Some(request))
  }

  /** Every expression opens with the sync-status assignment. */
  lemma BuildStartsWithStatus(isSyncCompleted: bool, ingestionJobId: Option<string>, syncError: Option<string>)
    ensures StartsWith(BuildExpression(isSyncCompleted, ingestionJobId, syncError), "SET isSyncCompleted = :sync_status")
  {
    var head := "SET " + AssignText("isSyncCompleted", ":sync_status");
    var e := BuildExpression(isSyncCompleted, ingestionJobId, syncError);
    var rest := e[|head|..];
    assert e == head + rest by {
      assert e[..|head|] == head;
    }
    StatusHead();
    StartsWithAppend(head, rest);
  }

  /** The text of the opening clause. */
  lemma StatusHead()
    ensures "SET " + AssignText("isSyncCompleted", ":sync_status") == "SET isSyncCompleted = :sync_status"
  {
  }

  /** A failed sync with no error message neither records nor clears an error. */
  lemma FailedSyncKeepsError(ingestionJobId: Option<string>, syncCompletedAt: Option<string>, now: string)
    ensures var u := SyncUpdateFor(false, ingestionJobId, syncCompletedAt, None, now);
            Assigned(u.assignments, "syncError") == None && u.removes == []
  {
  }

  // ---------------------------------------------------------------------------------------
  // wait_for_direct_ingestion

  /** One status check: the job's reported status, its update time and its rendered failure
      reasons, or a check that raised. */
  datatype Poll = Reported(status: Option<string>, updatedAt: Option<string>, failureReasons: string)
                | CheckFailed

  /** What a check tells the waiting loop. */
  datatype Verdict = Complete | Failed(status: string) | KeepWaiting

  /** COMPLETE ends the wait successfully, FAILED and STOPPED end it unsuccessfully, and every other
      status (STARTING, IN_PROGRESS, an unknown one, none) or a raised check keeps it going. */
  function Classify(p: Poll): (v: Verdict)
    ensures v == Complete <==> p.Reported? && p.status == Some("COMPLETE")
    ensures v.Failed? <==> p.Reported? && (p.status == Some("FAILED") || p.status == Some("STOPPED"))
    ensures v.Failed? ==> Some(v.status) == p.status
  {
    match p
    case CheckFailed => KeepWaiting
    case Reported(status, _, _) =>
      if status == Some("COMPLETE") then Complete
      else if status == Some("FAILED") || status == Some("STOPPED") then Failed(status.value)
      else KeepWaiting
  }

  /** A `update_booking_sync_status` call the wait makes. */
  datatype SyncCall = SyncCall(loanBookingId: string, isSyncCompleted: bool, ingestionJobId: Option<string>,
                               syncCompletedAt: Option<string>, syncError: Option<string>)

  /** The outcome of the wait and the status update it made, if any. */
  datatype WaitResult = WaitResult(ok: bool, call: Option<SyncCall>)

  /** The index of the first check that ends the wait. */
  function FirstDecisive(polls: seq<Poll>): (r: Option<nat>)
    ensures r.Some? ==> r.value < |polls| && Classify(polls[r.value]) != KeepWaiting
    ensures r.Some? ==> forall j :: 0 <= j < r.value ==> Classify(polls[j]) == KeepWaiting
    ensures r.None? ==> forall j :: 0 <= j < |polls| ==> Classify(polls[j]) == KeepWaiting
  {
    if |polls| == 0 then None
    else if Classify(polls[0]) != KeepWaiting then Some(0)
    else match FirstDecisive(polls[1..])
         case None => None
         case Some(i) => Some(i + 1)
  }

  /** `wait_for_direct_ingestion` over the checks made before the time limit: the first decisive
      check decides; with none the wait times out. A truthy booking id gets its status updated. */
  function WaitForDirectIngestion(polls: seq<Poll>, ingestionJobId: string, loanBookingId: Option<string>,
                                  maxWaitTime: nat): (r: WaitResult)
    ensures r.ok <==> exists i :: 0 <= i < |polls| && Classify(polls[i]) == Complete
                                  && forall j :: 0 <= j < i ==> Classify(polls[j]) == KeepWaiting
    ensures r.call.Some? <==> Given(loanBookingId)
    ensures r.call.Some? ==> r.call.value.loanBookingId == loanBookingId.value
                             && r.call.value.isSyncCompleted == r.ok
                             && (r.ok <==> r.call.value.syncError.None?)
    ensures FirstDecisive(polls).None? && Given(loanBookingId)
            ==> r.call == Some(SyncCall(loanBookingId.value, false, None, None,
                                        Some("Direct ingestion timeout after " + NatToString(maxWaitTime) + " seconds")))
    ensures FirstDecisive(polls).Some? && Given(loanBookingId)
            && Classify(polls[FirstDecisive(polls).value]) == Complete
            ==> r.call == Some(SyncCall(loanBookingId.value, true, Some(ingestionJobId),
                                        polls[FirstDecisive(polls).value].updatedAt, None))
    ensures FirstDecisive(polls).Some? && Given(loanBookingId)
            && polls[FirstDecisive(polls).value].Reported?
            && polls[FirstDecisive(polls).value].status in {Some("FAILED"), Some("STOPPED")}
            ==> r.call == Some(SyncCall(loanBookingId.value, false, Some(ingestionJobId), None,
                                        Some("Ingestion job " + polls[FirstDecisive(polls).value].status.value + ": "
                                             + polls[FirstDecisive(polls).value].failureReasons)))
  {
    var call := match FirstDecisive(polls)
      case None =>
        SyncCall(loanBookingId.GetOr(""), false, None, None,
                 Some("Direct ingestion timeout after " + NatToString(maxWaitTime) + " seconds"))
      case Some(i) =>
        match Classify(polls[i])
        case Complete => SyncCall(loanBookingId.GetOr(""), true, Some(ingestionJobId), polls[i].updatedAt, None)
        case Failed(status) =>
          SyncCall(loanBookingId.GetOr(""), false, Some(ingestionJobId), None,
                   Some("Ingestion job " + status + ": " + polls[i].failureReasons))
        case KeepWaiting => SyncCall("", false, None, None, None);
    var ok := call.isSyncCompleted;
    assert ok ==> FirstDecisive(polls).Some? && Classify(polls[FirstDecisive(polls).value]) == Complete;
    WaitResult(ok, if Given(loanBookingId) then Some(call) else None)
  }

  /** Checks after the deciding one change nothing: the wait has already returned. */
  lemma LaterPollsIgnored(polls: seq<Poll>, later: seq<Poll>, ingestionJobId: string, loanBookingId: Option<string>,
                          maxWaitTime: nat)
    requires FirstDecisive(polls).Some?
    ensures WaitForDirectIngestion(polls + later, ingestionJobId, loanBookingId, maxWaitTime)
         == WaitForDirectIngestion(polls, ingestionJobId, loanBookingId, maxWaitTime)
  {
    FirstDecisiveExtends(polls, later);
    var i := FirstDecisive(polls).value;
    assert (polls + later)[i] == polls[i];
  }

  /** Extending the checks keeps an existing first decisive one. */
  lemma {:induction false} FirstDecisiveExtends(polls: seq<Poll>, later: seq<Poll>)
    requires FirstDecisive(polls).Some?
    ensures FirstDecisive(polls + later) == FirstDecisive(polls)
  {
    if Classify(polls[0]) == KeepWaiting {
      assert (polls + later)[1..] == polls[1..] + later;
      FirstDecisiveExtends(polls[1..], later);
    }
  }
}
