/** The booking hook: the spread-plus-display-dates normalisation, the date
    normalisation of the edit payload, and its store. */
module BookingHook {
  import opened Js
  import opened FormatDate
  import Api
  import opened ResourceStore

  const Added: set<string> := {"displayCreatedAt", "displayUpdatedAt", "createdAt", "updatedAt"}

  /** The transform applied to each booking of the list response: every field is
      kept, the raw timestamps stay as they were, and their display texts are
      added beside them. */
  function Normalize(parse: DateParser, b: Row): (r: Row)
    ensures r.Keys == b.Keys + Added
    ensures forall k :: k in b && k !in Added ==> r[k] == b[k]
    ensures r["createdAt"] == Get(b, "createdAt") && r["updatedAt"] == Get(b, "updatedAt")
    ensures r["displayCreatedAt"] == Format(Get(b, "createdAt"), parse)
    ensures r["displayUpdatedAt"] == Format(Get(b, "updatedAt"), parse)
  {
    b["displayCreatedAt" := Format(Get(b, "createdAt"), parse)]
     ["displayUpdatedAt" := Format(Get(b, "updatedAt"), parse)]
     ["createdAt" := Get(b, "createdAt")]
     ["updatedAt" := Get(b, "updatedAt")]
  }

  /** The display fields are derived from raw fields that normalisation keeps,
      so normalising again changes nothing. */
  lemma NormalizeIdempotent(parse: DateParser, b: Row)
    ensures Normalize(parse, Normalize(parse, b)) == Normalize(parse, b)
  {
    var n := Normalize(parse, b);
    assert Normalize(parse, n).Keys == n.Keys;
  }

  /** `new Date(date).toISOString()`, or None for an Invalid Date. */
  type IsoFormatter = JsValue -> Option<string>

  /** `formatApiDate`: `''` for a falsy value, the value itself when it does not
      parse, its ISO text otherwise. */
  function FormatApiDate(date: JsValue, toIso: IsoFormatter): (r: JsValue)
    ensures !Truthy(date) ==> r == Str("")
    ensures Truthy(date) && toIso(date).None? ==> r == date
    ensures Truthy(date) && toIso(date).Some? ==> r == Str(toIso(date).value)
  {
    if !Truthy(date) then Str("")
    else match toIso(date)
      case None => date
      case Some(iso) => Str(iso)
  }

  /** The payload `editBooking` sends: the patch with `createdAt` normalised
      and `updatedAt` set to the ISO text of the current time. */
  function EditPayload(updateData: Row, toIso: IsoFormatter, nowIso: string): (r: Row)
    ensures r.Keys == updateData.Keys + {"createdAt", "updatedAt"}
    ensures forall k :: k in updateData && k !in {"createdAt", "updatedAt"} ==> r[k] == updateData[k]
    ensures r["createdAt"] == FormatApiDate(Get(updateData, "createdAt"), toIso)
    ensures r["updatedAt"] == Str(nowIso)
  {
    updateData["createdAt" := FormatApiDate(Get(updateData, "createdAt"), toIso)]["updatedAt" := Str(nowIso)]
  }

  /** The runtime's `toISOString` of a date parsed from an ISO text it
      produced gives that text back. */
  ghost predicate IsoStable(toIso: IsoFormatter) {
    forall v, iso :: toIso(v) == Some(iso) ==> toIso(Str(iso)) == Some(iso)
  }

  /** `formatApiDate` is idempotent under such a formatter. */
  lemma FormatApiDateIdempotent(date: JsValue, toIso: IsoFormatter)
    requires IsoStable(toIso)
    ensures FormatApiDate(FormatApiDate(date, toIso), toIso) == FormatApiDate(date, toIso)
  {
    if Truthy(date) && toIso(date).Some? {
      var iso := toIso(date).value;
      assert toIso(Str(iso)) == Some(iso);
    }
  }

  /** Sending an edit payload again as the patch, in the same instant, sends
      the same payload: the ISO `createdAt` is kept and `updatedAt` is
      overwritten. */
  lemma EditPayloadIdempotent(updateData: Row, toIso: IsoFormatter, nowIso: string)
    requires IsoStable(toIso)
    ensures EditPayload(EditPayload(updateData, toIso, nowIso), toIso, nowIso) == EditPayload(updateData, toIso, nowIso)
  {
    var r := EditPayload(updateData, toIso, nowIso);
    FormatApiDateIdempotent(Get(updateData, "createdAt"), toIso);
    var s := EditPayload(r, toIso, nowIso);
    assert s.Keys == r.Keys;
    forall k | k in r
      ensures s[k] == r[k]
    {
    }
  }

  const BookingMessages := Messages("Error fetching bookings", "Error updating booking", "Error deleting booking")

  /** The hook on mount: the initial state, then the fetch its effect starts. */
  method UseBooking(apiUrl: string, parse: DateParser, initial: Outcome<seq<Row>>) returns (s: Store, request: Request)
    ensures fresh(s) && s.resource == Api.Booking && s.apiUrl == apiUrl && s.messages == BookingMessages
    ensures forall r :: s.normalize(r) == Normalize(parse, r)
    ensures request == s.ListRequest() && !s.isLoading
    ensures initial.Success? ==> s.items == MapRows(s.normalize, initial.data) && s.error == Str("")
    ensures initial.Failure? ==> s.items == [] && s.error == ErrorText(initial.message, BookingMessages.fetch)
  {
    s := new Store(Api.Booking, apiUrl, BookingMessages, r => Normalize(parse, r));
    var inFlight;
    request, inFlight := s.Fetch(initial);
  }

  /** `editBooking`: the store's edit with the date-normalised payload; the
      current time is a parameter. */
  method EditBooking(s: Store, id: JsValue, updateData: Row, toIso: IsoFormatter, nowIso: string,
                     put: Outcome<JsValue>, refetch: Outcome<seq<Row>>)
    returns (requests: seq<Request>, inFlight: StoreView, result: Settled<JsValue>)
    requires s.resource == Api.Booking && ValidMessages(s.messages)
    modifies s
    ensures inFlight == StoreView(old(s.items), old(s.isLoading), Str(""))
    ensures |requests| >= 1
    ensures requests[0] == Request(HttpPut, Api.Url(s.apiUrl, Api.Update(Api.Booking, id)), Some(EditPayload(updateData, toIso, nowIso)))
    ensures put.Success? ==> s.Refetched(requests, refetch, old(s.items)) && result == Resolved(Bool(true))
    ensures put.Failure? ==> s.FailedWith(requests, put.message, s.messages.update, old(s.items), old(s.isLoading), result)
  {
    var apiData := updateData["createdAt" := FormatApiDate(Get(updateData, "createdAt"), toIso)]["updatedAt" := Str(nowIso)];
    requests, inFlight, result := s.Edit(id, apiData, put, refetch);
  }
}
