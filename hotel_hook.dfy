/** The hotel-booking hook: its record normalisation and its store. */
module HotelHook {
  import opened Js
  import Api
  import opened ResourceStore

  /** The fields copied as they are. */
  const Copied: set<string> := {"bookingId", "hotelId", "checkInDate", "checkOutDate", "roomType", "location", "guests"}

  /** The transform applied to each record of the list response: the id is
      `id` when truthy, else `hotelBookingId`; seven fields are copied. */
  function Normalize(b: Row): (r: Row)
    ensures forall k :: k in r <==> k in Copied || k == "hotelBookingId"
    ensures Truthy(Get(b, "id")) ==> r["hotelBookingId"] == b["id"]
    ensures !Truthy(Get(b, "id")) ==> r["hotelBookingId"] == Get(b, "hotelBookingId")
    ensures forall f :: f in Copied ==> r[f] == Get(b, f)
  {
    map["hotelBookingId" := Or(Get(b, "id"), Get(b, "hotelBookingId")),
        "bookingId" := Get(b, "bookingId"),
        "hotelId" := Get(b, "hotelId"),
        "checkInDate" := Get(b, "checkInDate"),
        "checkOutDate" := Get(b, "checkOutDate"),
        "roomType" := Get(b, "roomType"),
        "location" := Get(b, "location"),
        "guests" := Get(b, "guests")]
  }

  /** A normalised record is a fixed point: normalising it again changes nothing. */
  lemma NormalizeIdempotent(b: Row)
    ensures Normalize(Normalize(b)) == Normalize(b)
  {
    var n := Normalize(b);
    assert "id" !in n;
    assert Normalize(n).Keys == n.Keys;
  }

  const HotelMessages := Messages(
    "Error fetching hotel bookings",
    "Error updating hotel booking",
    "Error deleting hotel booking")

  /** The hook on mount: the initial state, then the fetch its effect starts. */
  method UseHotel(apiUrl: string, initial: Outcome<seq<Row>>) returns (s: Store, request: Request)
    ensures fresh(s) && s.resource == Api.Hotel && s.apiUrl == apiUrl && s.messages == HotelMessages
    ensures forall r :: s.normalize(r) == Normalize(r)
    ensures request == s.ListRequest() && !s.isLoading
    ensures initial.Success? ==> s.items == MapRows(s.normalize, initial.data) && s.error == Str("")
    ensures initial.Failure? ==> s.items == [] && s.error == ErrorText(initial.message, HotelMessages.fetch)
  {
    s := new Store(Api.Hotel, apiUrl, HotelMessages, Normalize);
    var inFlight;
    request, inFlight := s.Fetch(initial);
  }
}
