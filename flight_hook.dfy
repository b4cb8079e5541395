/** The flight-booking hook: its record normalisation and its store. */
module FlightHook {
  import opened Js
  import Api
  import opened ResourceStore

  const Keys: set<string> := {"flightBookingId", "bookingId", "flightId", "seatClass", "passengerName", "passengerId"}

  /** The transform applied to each record of the list response: the id is
      `id` when truthy, else `flightBookingId`; the seat class falls back to
      `seat` and the passenger name to `name`; three fields are copied. */
  function Normalize(b: Row): (r: Row)
    ensures forall k :: k in r <==> k in Keys
    ensures Truthy(Get(b, "id")) ==> r["flightBookingId"] == b["id"]
    ensures !Truthy(Get(b, "id")) ==> r["flightBookingId"] == Get(b, "flightBookingId")
    ensures Truthy(Get(b, "seatClass")) ==> r["seatClass"] == b["seatClass"]
    ensures !Truthy(Get(b, "seatClass")) ==> r["seatClass"] == Get(b, "seat")
    ensures Truthy(Get(b, "passengerName")) ==> r["passengerName"] == b["passengerName"]
    ensures !Truthy(Get(b, "passengerName")) ==> r["passengerName"] == Get(b, "name")
    ensures r["bookingId"] == Get(b, "bookingId") && r["flightId"] == Get(b, "flightId") && r["passengerId"] == Get(b, "passengerId")
  {
    map["flightBookingId" := Or(Get(b, "id"), Get(b, "flightBookingId")),
        "bookingId" := Get(b, "bookingId"),
        "flightId" := Get(b, "flightId"),
        "seatClass" := Or(Get(b, "seatClass"), Get(b, "seat")),
        "passengerName" := Or(Get(b, "passengerName"), Get(b, "name")),
        "passengerId" := Get(b, "passengerId")]
  }

  /** A value that a second `x || undefined` leaves alone. */
  predicate Settles(v: JsValue) { Truthy(v) || v == Undefined }

  /** Normalising a normalised record changes nothing exactly when its seat
      class and passenger name are each truthy or undefined: a falsy value such
      as `''` or `null` would be replaced by the missing `seat`/`name`. */
  lemma NormalizeStable(b: Row)
    ensures var n := Normalize(b);
      Normalize(n) == n <==> Settles(n["seatClass"]) && Settles(n["passengerName"])
  {
    var n := Normalize(b);
    var m := Normalize(n);
    assert "id" !in n && "seat" !in n && "name" !in n;
    assert m["seatClass"] == Or(n["seatClass"], Undefined);
    assert m["passengerName"] == Or(n["passengerName"], Undefined);
    if Settles(n["seatClass"]) && Settles(n["passengerName"]) {
      assert m.Keys == n.Keys;
    }
  }

  const FlightMessages := Messages(
    "Error fetching flight bookings",
    "Error updating flight booking",
    "Error deleting flight booking")

  /** The hook on mount: the initial state, then the fetch its effect starts. */
  method UseFlight(apiUrl: string, initial: Outcome<seq<Row>>) returns (s: Store, request: Request)
    ensures fresh(s) && s.resource == Api.Flight && s.apiUrl == apiUrl && s.messages == FlightMessages
    ensures forall r :: s.normalize(r) == Normalize(r)
    ensures request == s.ListRequest() && !s.isLoading
    ensures initial.Success? ==> s.items == MapRows(s.normalize, initial.data) && s.error == Str("")
    ensures initial.Failure? ==> s.items == [] && s.error == ErrorText(initial.message, FlightMessages.fetch)
  {
    s := new Store(Api.Flight, apiUrl, FlightMessages, Normalize);
    var inFlight;
    request, inFlight := s.Fetch(initial);
  }
}
