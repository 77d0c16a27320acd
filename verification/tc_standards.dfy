/**
 * The Texas Capital standards helpers (utils/tc_standards.py): the standard request headers,
 * the log fields drawn from them, the success and error response builders, and the two
 * pagination validators. The clock is a parameter (`now`, an ISO-8601 text).
 */
module TcStandards {
  import opened Wrappers
  import opened Strings
  import opened Json
  import opened PyDict

  /** The standard headers; every one is optional. */
  datatype Headers = Headers(requestId: Option<string>, correlationId: Option<string>,
                             integrationId: Option<string>, utcTimestamp: Option<string>,
                             apiKey: Option<string>, clientId: Option<string>,
                             consumerName: Option<string>)

  /** Python truthiness of an optional text: present and non-empty. */
  predicate Present(v: Option<string>) {
    v.Some? && v.value != ""
  }

  /** `TCStandardHeaders.from_fastapi_headers`: every field copied, the timestamp generated
      from the clock (`now` followed by "Z") only when the incoming one is falsy. */
  function FromFastapiHeaders(requestId: Option<string>, correlationId: Option<string>,
                              integrationId: Option<string>, utcTimestamp: Option<string>,
                              apiKey: Option<string>, clientId: Option<string>,
                              consumerName: Option<string>, now: string): (h: Headers)
    ensures Present(h.utcTimestamp)
    ensures h.requestId == requestId && h.correlationId == correlationId && h.integrationId == integrationId
    ensures h.apiKey == apiKey && h.clientId == clientId && h.consumerName == consumerName
    ensures Present(utcTimestamp) ==> h.utcTimestamp == utcTimestamp
    ensures !Present(utcTimestamp) ==> h.utcTimestamp == Some(now + "Z")
  {
    var stamp := if Present(utcTimestamp) then utcTimestamp else Some(now + "Z");
    Headers(requestId, correlationId, integrationId, stamp, apiKey, clientId, consumerName)
  }

  /** Rebuilding headers from their own fields changes nothing, whatever the clock says:
      a timestamp, once set, is never regenerated. */
  lemma HeadersRebuildStable(requestId: Option<string>, correlationId: Option<string>,
                             integrationId: Option<string>, utcTimestamp: Option<string>,
                             apiKey: Option<string>, clientId: Option<string>,
                             consumerName: Option<string>, now: string, later: string)
    ensures var h := FromFastapiHeaders(requestId, correlationId, integrationId, utcTimestamp,
                                        apiKey, clientId, consumerName, now);
            FromFastapiHeaders(h.requestId, h.correlationId, h.integrationId, h.utcTimestamp,
                               h.apiKey, h.clientId, h.consumerName, later) == h
  {
  }

  /** The header field a log key names, or None for a key that is not a header field. */
  function FieldNamed(h: Headers, key: string): Option<string> {
    if key == "request_id" then h.requestId
    else if key == "correlation_id" then h.correlationId
    else if key == "integration_id" then h.integrationId
    else if key == "client_id" then h.clientId
    else if key == "consumer_name" then h.consumerName
    else None
  }

  /** The log keys, in the order `to_log_extra` writes them. */
  const LogKeys: seq<string> := ["request_id", "correlation_id", "integration_id", "client_id", "consumer_name"]

  /** One log entry when the field is truthy, none otherwise. */
  function Entry(key: string, v: Option<string>): Dict<string> {
    if Present(v) then [(key, v.value)] else []
  }

  /** The entries for `keys`, in order: one for each key whose header field is truthy. */
  function Entries(h: Headers, keys: seq<string>): Dict<string> {
    if |keys| == 0 then [] else Entry(keys[0], FieldNamed(h, keys[0])) + Entries(h, keys[1..])
  }

  /** An entry that carries the truthy header field its key names. */
  predicate Faithful(h: Headers, e: (string, string)) {
    Present(FieldNamed(h, e.0)) && FieldNamed(h, e.0).value == e.1
  }

  /** `Keys` distributes over concatenation. */
  lemma KeysConcat(a: Dict<string>, b: Dict<string>)
    ensures Keys(a + b) == Keys(a) + Keys(b)
  {
    assert forall i :: 0 <= i < |a + b| ==> Keys(a + b)[i] == (a + b)[i].0;
  }

  /** Every entry for `keys` is faithful and has one of `keys`. */
  lemma {:induction false} EntriesFaithful(h: Headers, keys: seq<string>)
    ensures forall i :: 0 <= i < |Entries(h, keys)| ==> Entries(h, keys)[i].0 in keys && Faithful(h, Entries(h, keys)[i])
  {
    if |keys| > 0 {
      EntriesFaithful(h, keys[1..]);
      var rest := Entries(h, keys[1..]);
      assert forall i :: 0 <= i < |rest| ==> rest[i].0 in keys[1..];
    }
  }

  /** Every key whose header field is truthy has an entry. */
  lemma {:induction false} EntriesCover(h: Headers, keys: seq<string>)
    ensures forall i :: 0 <= i < |keys| && Present(FieldNamed(h, keys[i])) ==> keys[i] in Keys(Entries(h, keys))
  {
    if |keys| > 0 {
      var first := Entry(keys[0], FieldNamed(h, keys[0]));
      var rest := Entries(h, keys[1..]);
      EntriesCover(h, keys[1..]);
      KeysConcat(first, rest);
      forall i | 0 <= i < |keys| && Present(FieldNamed(h, keys[i])) ensures keys[i] in Keys(first) + Keys(rest) {
        if i > 0 {
          assert keys[i] == keys[1..][i - 1];
        }
      }
    }
  }

  /** Distinct keys give entries with distinct keys. */
  lemma {:induction false} EntriesDistinct(h: Headers, keys: seq<string>)
    requires forall i, j :: 0 <= i < j < |keys| ==> keys[i] != keys[j]
    ensures DistinctKeys(Entries(h, keys))
  {
    if |keys| > 0 {
      assert forall i, j :: 0 <= i < j < |keys[1..]| ==> keys[1..][i] != keys[1..][j] by {
        forall i, j | 0 <= i < j < |keys[1..]| ensures keys[1..][i] != keys[1..][j] {
          assert keys[1..][i] == keys[i + 1] && keys[1..][j] == keys[j + 1];
        }
      }
      EntriesDistinct(h, keys[1..]);
      EntriesFaithful(h, keys[1..]);
      var rest := Entries(h, keys[1..]);
      assert forall i :: 0 <= i < |rest| ==> rest[i].0 in keys[1..];
    }
  }

  /** `to_log_extra`: the truthy tracking fields, in declaration order, and nothing else. */
  function ToLogExtra(h: Headers): (extra: Dict<string>)
    ensures forall i :: 0 <= i < |extra| ==> extra[i].0 in LogKeys && Faithful(h, extra[i])
    ensures forall i :: 0 <= i < |LogKeys| && Present(FieldNamed(h, LogKeys[i])) ==> LogKeys[i] in Keys(extra)
    ensures "utc_timestamp" !in Keys(extra) && "api_key" !in Keys(extra)
    ensures DistinctKeys(extra)
  {
    EntriesFaithful(h, LogKeys);
    EntriesCover(h, LogKeys);
    EntriesDistinct(h, LogKeys);
    Entries(h, LogKeys)
  }

  /** A log key appears exactly when its header field is truthy, and carries that field's text. */
  lemma LogExtraIff(h: Headers, key: string)
    requires key in LogKeys
    ensures key in Keys(ToLogExtra(h)) <==> Present(FieldNamed(h, key))
    ensures Present(FieldNamed(h, key)) ==> PyDict.Get(ToLogExtra(h), key) == Some(FieldNamed(h, key).value)
  {
    var extra := ToLogExtra(h);
    if key in Keys(extra) {
      var i :| 0 <= i < |extra| && Keys(extra)[i] == key;
      assert extra[i].0 == key;
    }
    if Present(FieldNamed(h, key)) {
      var i :| 0 <= i < |LogKeys| && LogKeys[i] == key;
      GetDistinct(extra, key);
    }
  }

  /** `has_tracking_headers`: a request or correlation id is truthy. */
  predicate HasTrackingHeaders(h: Headers) {
    Present(h.requestId) || Present(h.correlationId)
  }

  /** Tracking headers are present exactly when the log fields carry a request or correlation id. */
  lemma TrackingIffLogged(h: Headers)
    ensures HasTrackingHeaders(h) <==> "request_id" in Keys(ToLogExtra(h)) || "correlation_id" in Keys(ToLogExtra(h))
  {
    LogExtraIff(h, "request_id");
    LogExtraIff(h, "correlation_id");
  }

  /** `TCSuccessModel`. */
  datatype SuccessModel = SuccessModel(code: int, message: string, details: Dict<Json>)

  /** What a success detail key reads: a truthy request id wins, then the data's value, then the
      timestamp; every other key is absent. */
  function DetailValue(data: Option<Dict<Json>>, headers: Option<Headers>, now: string, k: string): Option<Json> {
    if k == "request_id" && headers.Some? && Present(headers.value.requestId) then Some(JStr(headers.value.requestId.value))
    else if data.Some? && k in Keys(data.value) then LastValue(data.value, k)
    else if k == "timestamp" then Some(JStr(now))
    else None
  }

  /** `TCResponse.success`: details start with the timestamp, the data is merged over them when it
      is non-empty, and a truthy request id is written last. */
  function Success(code: int, message: string, data: Option<Dict<Json>>, headers: Option<Headers>,
                   now: string): (m: SuccessModel)
    ensures m.code == code && m.message == message
    ensures |m.details| > 0 && m.details[0].0 == "timestamp"
    ensures forall k :: PyDict.Get(m.details, k) == DetailValue(data, headers, now, k)
    ensures headers.Some? && Present(headers.value.requestId) && (data.None? || "request_id" !in Keys(data.value))
            ==> m.details[|m.details| - 1] == ("request_id", JStr(headers.value.requestId.value))
  {
    var start: Dict<Json> := [("timestamp", JStr(now))];
    var merged := if data.Some? && |data.value| > 0 then Update(start, data.value) else start;
    var details := if headers.Some? && Present(headers.value.requestId)
                   then Set(merged, "request_id", JStr(headers.value.requestId.value))
                   else merged;
    SuccessDetails(start, merged, details, data, headers, now);
    SuccessModel(code, message, details)
  }

  /** The proof of `Success`'s contract, kept apart from its body. */
  lemma SuccessDetails(start: Dict<Json>, merged: Dict<Json>, details: Dict<Json>, data: Option<Dict<Json>>,
                       headers: Option<Headers>, now: string)
    requires start == [("timestamp", JStr(now))]
    requires merged == if data.Some? && |data.value| > 0 then Update(start, data.value) else start
    requires details == if headers.Some? && Present(headers.value.requestId)
                        then Set(merged, "request_id", JStr(headers.value.requestId.value)) else merged
    ensures |details| > 0 && details[0].0 == "timestamp"
    ensures forall k :: PyDict.Get(details, k) == DetailValue(data, headers, now, k)
    ensures headers.Some? && Present(headers.value.requestId) && (data.None? || "request_id" !in Keys(data.value))
            ==> details[|details| - 1] == ("request_id", JStr(headers.value.requestId.value))
  {
    TimestampFirst(start, merged, details, data, headers, now);
    forall k
      ensures PyDict.Get(details, k) == DetailValue(data, headers, now, k)
    {
      DetailLookup(start, merged, details, data, headers, now, k);
    }
    RequestIdLast(start, merged, details, data, headers, now);
  }

  /** The details start with the timestamp whatever is merged or set after it. */
  lemma TimestampFirst(start: Dict<Json>, merged: Dict<Json>, details: Dict<Json>, data: Option<Dict<Json>>,
                       headers: Option<Headers>, now: string)
    requires start == [("timestamp", JStr(now))]
    requires merged == if data.Some? && |data.value| > 0 then Update(start, data.value) else start
    requires details == if headers.Some? && Present(headers.value.requestId)
                        then Set(merged, "request_id", JStr(headers.value.requestId.value)) else merged
    ensures |details| > 0 && details[0].0 == "timestamp"
  {
    assert Keys(start) == ["timestamp"];
    if data.Some? && |data.value| > 0 {
      KeysUpdatePrefix(start, data.value);
    }
    assert |Keys(merged)| > 0 && Keys(merged)[0] == "timestamp";
    if headers.Some? && Present(headers.value.requestId) {
      KeysSet(merged, "request_id", JStr(headers.value.requestId.value));
      assert Keys(details)[0] == "timestamp";
    }
  }

  /** Each key of the details reads as `DetailValue` says. */
  lemma DetailLookup(start: Dict<Json>, merged: Dict<Json>, details: Dict<Json>, data: Option<Dict<Json>>,
                       headers: Option<Headers>, now: string, k: string)
    requires start == [("timestamp", JStr(now))]
    requires merged == if data.Some? && |data.value| > 0 then Update(start, data.value) else start
    requires details == if headers.Some? && Present(headers.value.requestId)
                        then Set(merged, "request_id", JStr(headers.value.requestId.value)) else merged
    ensures PyDict.Get(details, k) == DetailValue(data, headers, now, k)
  {
    if headers.Some? && Present(headers.value.requestId) {
      GetSet(merged, "request_id", JStr(headers.value.requestId.value), k);
    }
    if data.Some? && |data.value| > 0 {
      GetUpdate(start, data.value, k);
    }
    if data.Some? && |data.value| == 0 {
      assert Keys(data.value) == [];
    }
  }

  /** A request id the data does not carry is written last. */
  lemma RequestIdLast(start: Dict<Json>, merged: Dict<Json>, details: Dict<Json>, data: Option<Dict<Json>>,
                       headers: Option<Headers>, now: string)
    requires start == [("timestamp", JStr(now))]
    requires merged == if data.Some? && |data.value| > 0 then Update(start, data.value) else start
    requires details == if headers.Some? && Present(headers.value.requestId)
                        then Set(merged, "request_id", JStr(headers.value.requestId.value)) else merged
    ensures headers.Some? && Present(headers.value.requestId) && (data.None? || "request_id" !in Keys(data.value))
            ==> details[|details| - 1] == ("request_id", JStr(headers.value.requestId.value))
  {
    if headers.Some? && Present(headers.value.requestId) && (data.None? || "request_id" !in Keys(data.value)) {
      if data.Some? && |data.value| > 0 {
        KeysUpdate(start, data.value, "request_id");
      }
      SetAppends(merged, "request_id", JStr(headers.value.requestId.value));
    }
  }

  /** `TCErrorDetail`. */
  datatype ErrorDetail = ErrorDetail(source: string, message: string)

  /** `TCErrorModel`. */
  datatype ErrorModel = ErrorModel(code: int, serviceName: string, majorVersion: string, timestamp: string,
                                   traceId: Option<string>, message: string, details: seq<ErrorDetail>)

  const DefaultServiceName: string := "loan-onboarding-api"
  const DefaultMajorVersion: string := "v1"

  /** `TCResponse.error`: the trace id is the correlation id of the headers when there are
      headers; missing or empty details become the empty list. */
  function Error(code: int, message: string, headers: Option<Headers>, serviceName: string,
                 majorVersion: string, errorDetails: Option<seq<ErrorDetail>>, now: string): (e: ErrorModel)
    ensures e.code == code && e.message == message && e.timestamp == now
    ensures e.serviceName == serviceName && e.majorVersion == majorVersion
    ensures headers.None? ==> e.traceId.None?
    ensures headers.Some? ==> e.traceId == headers.value.correlationId
    ensures errorDetails.Some? ==> e.details == errorDetails.value
    ensures errorDetails.None? ==> e.details == []
  {
    var details := if errorDetails.Some? && |errorDetails.value| > 0 then errorDetails.value else [];
    ErrorModel(code, serviceName, majorVersion, now,
               if headers.Some? then headers.value.correlationId else None, message, details)
  }

  /** `TCResponse.error` called without a service name or version. */
  function ErrorWithDefaults(code: int, message: string, headers: Option<Headers>,
                             errorDetails: Option<seq<ErrorDetail>>, now: string): (e: ErrorModel)
    ensures e.serviceName == "loan-onboarding-api" && e.majorVersion == "v1"
    ensures e == Error(code, message, headers, DefaultServiceName, DefaultMajorVersion, errorDetails, now)
  {
    Error(code, message, headers, DefaultServiceName, DefaultMajorVersion, errorDetails, now)
  }

  /** The error's trace id follows the request's correlation id, so a request that carried
      tracking headers only through its correlation id is still traceable in the error. */
  lemma ErrorTraceFollowsTracking(code: int, message: string, h: Headers, now: string)
    requires HasTrackingHeaders(h) && !Present(h.requestId)
    ensures Present(ErrorWithDefaults(code, message, Some(h), None, now).traceId)
  {
  }

  /** The validated offset page. */
  datatype OffsetPage = OffsetPage(offset: int, limit: int)

  const OffsetMessage: string := "Offset must be non-negative"
  const LimitMessage: string := "Limit must be between 1 and 100"
  const CursorMessage: string := "Cursor is required for cursor-based pagination"

  /** `TCPagination.validate_offset_pagination`: a non-negative offset and a limit from 1 to 100
      are returned unchanged; otherwise `ValueError`, the offset checked first. */
  function ValidateOffsetPagination(offset: int, limit: int): (r: Result<OffsetPage, string>)
    ensures r.Ok? <==> 0 <= offset && 1 <= limit <= 100
    ensures r.Ok? ==> r.value == OffsetPage(offset, limit)
    ensures offset < 0 ==> r == Err(OffsetMessage)
    ensures 0 <= offset && !(1 <= limit <= 100) ==> r == Err(LimitMessage)
  {
    if offset < 0 then Err(OffsetMessage)
    else if limit < 1 || limit > 100 then Err(LimitMessage)
    else Ok(OffsetPage(offset, limit))
  }

  /** A validated page validates again to itself. */
  lemma OffsetPageStable(offset: int, limit: int)
    requires ValidateOffsetPagination(offset, limit).Ok?
    ensures var p := ValidateOffsetPagination(offset, limit).value;
            ValidateOffsetPagination(p.offset, p.limit) == Ok(p)
  {
  }

  /** `TCPagination.validate_cursor_pagination`: an empty or whitespace-only cursor raises;
      any other is returned stripped. */
  function ValidateCursorPagination(cursor: string): (r: Result<string, string>)
    ensures r.Ok? <==> !AllSpace(cursor)
    ensures r.Err? ==> r.error == CursorMessage
    ensures r.Ok? ==> r.value != "" && Trimmed(r.value) && |r.value| <= |cursor|
    ensures r.Ok? ==> r.value == Strip(cursor)
  {
    if cursor == "" || Strip(cursor) == "" then Err(CursorMessage) else Ok(Strip(cursor))
  }

  /** Whitespace around a cursor is dropped: the padded cursor validates to the bare one. */
  lemma CursorIgnoresPadding(lead: string, cursor: string, trail: string)
    requires AllSpace(lead) && AllSpace(trail)
    requires cursor != "" && Trimmed(cursor)
    ensures ValidateCursorPagination(lead + cursor + trail) == Ok(cursor)
  {
    StripSurrounded(lead, cursor, trail);
  }

  /** A validated cursor validates again to itself. */
  lemma CursorStable(cursor: string)
    requires ValidateCursorPagination(cursor).Ok?
    ensures ValidateCursorPagination(ValidateCursorPagination(cursor).value) == ValidateCursorPagination(cursor)
  {
    StripIdempotent(cursor);
  }
}
