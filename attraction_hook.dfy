/** The attraction-booking hook: its record normalisation and its store. */
module AttractionHook {
  import opened Js
  import Api
  import opened ResourceStore

  /** The fields copied as they are. */
  const Copied: set<string> := {"bookingId", "attractionId", "visitDate", "ticketType", "numberOfTickets"}

  /** The transform applied to each record of the list response: the id is
      `id` when truthy, else `attractionBookingId`; five fields are copied. */
  function Normalize(b: Row): (r: Row)
    ensures forall k :: k in r <==> k in Copied || k == "attractionBookingId"
    ensures Truthy(Get(b, "id")) ==> r["attractionBookingId"] == b["id"]
    ensures !Truthy(Get(b, "id")) ==> r["attractionBookingId"] == Get(b, "attractionBookingId")
    ensures forall f :: f in Copied ==> r[f] == Get(b, f)
  {
    map["attractionBookingId" := Or(Get(b, "id"), Get(b, "attractionBookingId")),
        "bookingId" := Get(b, "bookingId"),
        "attractionId" := Get(b, "attractionId"),
        "visitDate" := Get(b, "visitDate"),
        "ticketType" := Get(b, "ticketType"),
        "numberOfTickets" := Get(b, "numberOfTickets")]
  }

  /** A normalised record is a fixed point: normalising it again changes nothing. */
  lemma NormalizeIdempotent(b: Row)
    ensures Normalize(Normalize(b)) == Normalize(b)
  {
    var n := Normalize(b);
    assert "id" !in n;
    assert Normalize(n).Keys == n.Keys;
  }

  const AttractionMessages := Messages(
    "Error fetching attraction bookings",
    "Error updating attraction booking",
    "Error deleting attraction booking")

  /** The hook on mount: the initial state, then the fetch its effect starts. */
  method UseAttraction(apiUrl: string, initial: Outcome<seq<Row>>) returns (s: Store, request: Request)
    ensures fresh(s) && s.resource == Api.Attraction && s.apiUrl == apiUrl && s.messages == AttractionMessages
    ensures forall r :: s.normalize(r) == Normalize(r)
    ensures request == s.ListRequest() && !s.isLoading
    ensures initial.Success? ==> s.items == MapRows(s.normalize, initial.data) && s.error == Str("")
    ensures initial.Failure? ==> s.items == [] && s.error == ErrorText(initial.message, AttractionMessages.fetch)
  {
    s := new Store(Api.Attraction, apiUrl, AttractionMessages, Normalize);
    var inFlight;
    request, inFlight := s.Fetch(initial);
  }
}
