/** The dashboard page: eight reads joined all-or-nothing, the transforms that
    turn their payloads into the page's sections, and what the page shows. */
module DashboardPage {
  import opened Js
  import Api
  import opened ResourceStore
  import opened Sorting

  /** The payloads of the eight reads, in the order they are issued. The three
      list payloads are None when falsy (`data || []` then gives `[]`). */
  datatype Responses = Responses(
    bookings: seq<Row>,
    flights: Option<seq<Row>>,
    hotels: Option<seq<Row>>,
    attractions: Option<seq<Row>>,
    bookingTypes: seq<Row>,
    yearly: seq<Row>,
    satisfaction: Row,
    popular: seq<Row>)

  datatype Series = Series(name: string, data: seq<JsValue>)
  datatype TypeChart = TypeChart(data: seq<Series>, categories: seq<JsValue>)
  datatype YearChart = YearChart(data: seq<JsValue>, categories: seq<JsValue>)
  datatype SatisfactionChart = SatisfactionChart(data: seq<JsValue>, labels: seq<string>)
  datatype DashboardData = DashboardData(latestBookings: seq<Row>, flightBookings: seq<Row>,
                                         hotelBookings: seq<Row>, attractionBookings: seq<Row>)

  /** `rows.map((item) => item[field])`. */
  function Pluck(rows: seq<Row>, field: string): (r: seq<JsValue>)
    ensures |r| == |rows|
  {
    seq(|rows|, i requires 0 <= i < |rows| => Get(rows[i], field))
  }

  /** The endpoints `Promise.all` reads, in order. */
  const ReadEndpoints: seq<Api.Endpoint> :=
    [Api.List(Api.Booking), Api.List(Api.Flight), Api.List(Api.Hotel), Api.List(Api.Attraction),
     Api.BookingsByType, Api.YearlyBookings, Api.ReviewSatisfaction, Api.PopularAttractions]

  /** One read: a bodiless GET of the endpoint, which lies under the API prefix. */
  function Read(apiUrl: string, e: Api.Endpoint): (q: Request)
    ensures q.verb == HttpGet && q.body.None? && apiUrl + "/api/" <= q.url
  {
    Api.UnderApiPrefix(apiUrl, e);
    Request(HttpGet, Api.Url(apiUrl, e), None)
  }

  /** The requests `Promise.all` starts, in order: eight bodiless GETs under
      the API prefix. */
  function Reads(apiUrl: string): (r: seq<Request>)
    ensures |r| == 8
    ensures forall i :: 0 <= i < |r| ==> r[i].verb == HttpGet && r[i].body.None? && apiUrl + "/api/" <= r[i].url
  {
    seq(|ReadEndpoints|, i requires 0 <= i < |ReadEndpoints| => Read(apiUrl, ReadEndpoints[i]))
  }

  /** The sort key of the latest-bookings comparator: the time value of
      `new Date(createdAt)`, which the runtime computes (`time` here). */
  function CreatedKey(time: JsValue -> int): Row -> int {
    r => time(Get(r, "createdAt"))
  }

  /** `latestBookings`: the bookings newest first, cut at four. */
  function LatestBookings(bookings: seq<Row>, time: JsValue -> int): seq<Row> {
    Take(SortDesc(bookings, CreatedKey(time)), 4)
  }

  /** At most four bookings, newest first, taken from the response with their
      multiplicities; a booking left out is no newer than any shown, and then four are shown. */
  lemma LatestSpec(bookings: seq<Row>, time: JsValue -> int)
    ensures var r := LatestBookings(bookings, time);
      && |r| <= 4 && (|bookings| >= 4 ==> |r| == 4)
      && (forall i, j :: 0 <= i < j < |r| ==> time(Get(r[i], "createdAt")) >= time(Get(r[j], "createdAt")))
      && multiset(r) <= multiset(bookings)
      && (forall b :: b in r ==> b in bookings)
      && forall b :: b in bookings && b !in r ==>
           |r| == 4 && forall x :: x in r ==> time(Get(x, "createdAt")) >= time(Get(b, "createdAt"))
  {
    TopSpec(bookings, CreatedKey(time), 4);
  }

  /** The sort key of the popular-attractions comparator: `bookingCount` as a
      number (a count that is not a number ranks as 0). */
  function BookingCount(r: Row): int {
    var v := ToNumber(Get(r, "bookingCount"));
    if v.Num? then v.n else 0
  }

  /** `topAttractions`: the popular attractions by booking count, cut at five. */
  function TopAttractions(popular: seq<Row>): seq<Row> {
    Take(SortDesc(popular, BookingCount), 5)
  }

  /** At most five attractions, by non-increasing booking count, taken from the
      response with their multiplicities; one left out has no greater count than any shown, and then
      five are shown. */
  lemma TopAttractionsSpec(popular: seq<Row>)
    ensures var r := TopAttractions(popular);
      && |r| <= 5 && (|popular| >= 5 ==> |r| == 5)
      && (forall i, j :: 0 <= i < j < |r| ==> BookingCount(r[i]) >= BookingCount(r[j]))
      && multiset(r) <= multiset(popular)
      && (forall a :: a in r ==> a in popular)
      && forall a :: a in popular && a !in r ==>
           |r| == 5 && forall x :: x in r ==> BookingCount(x) >= BookingCount(a)
  {
    TopSpec(popular, BookingCount, 5);
  }

  /** `bookingTypeData`: one series named "Bookings" of the counts, and the
      types as categories, index-aligned: position `i` of both comes from item
      `i` of the response. */
  function TypeChartOf(rows: seq<Row>): (c: TypeChart)
    ensures |c.data| == 1 && c.data[0].name == "Bookings"
    ensures |c.data[0].data| == |c.categories| == |rows|
    ensures forall i :: 0 <= i < |rows| ==> c.data[0].data[i] == Get(rows[i], "count") && c.categories[i] == Get(rows[i], "type")
  {
    TypeChart([Series("Bookings", Pluck(rows, "count"))], Pluck(rows, "type"))
  }

  /** `yearlyBookingsData`: the counts and their months, index-aligned. */
  function YearChartOf(rows: seq<Row>): (c: YearChart)
    ensures |c.data| == |c.categories| == |rows|
    ensures forall i :: 0 <= i < |rows| ==> c.data[i] == Get(rows[i], "count") && c.categories[i] == Get(rows[i], "month")
  {
    YearChart(Pluck(rows, "count"), Pluck(rows, "month"))
  }

  /** `satisfactionTransformed`. */
  function SatisfactionOf(sat: Row): SatisfactionChart {
    SatisfactionChart([Get(sat, "satisfied"), Get(sat, "unsatisfied")], ["Satisfied", "Unsatisfied"])
  }

  /** `x || []` for a list payload. */
  function OrEmpty(rows: Option<seq<Row>>): seq<Row> {
    match rows
    case Some(r) => r
    case None => []
  }

  /** `mostFrequentData`: the names and the counts of the popular attractions. */
  datatype Frequent = Frequent(places: seq<JsValue>, visits: seq<JsValue>)

  function MostFrequent(popular: seq<Row>): Frequent {
    Frequent(Pluck(popular, "attractionName"), Pluck(popular, "bookingCount"))
  }

  /** The places and visits shown are aligned, at most five, and by
      non-increasing count. */
  lemma MostFrequentSpec(popular: seq<Row>)
    ensures var t := TopAttractions(popular); var m := MostFrequent(t);
      && |m.places| == |m.visits| == |t| <= 5
      && (forall i :: 0 <= i < |t| ==> m.places[i] == Get(t[i], "attractionName") && m.visits[i] == Get(t[i], "bookingCount"))
      && forall i, j :: 0 <= i < j < |t| ==> BookingCount(t[i]) >= BookingCount(t[j])
  {
    TopAttractionsSpec(popular);
  }

  /** What the page renders. */
  datatype Screen = Skeleton | Alert(message: string) | Content(mostFrequent: Frequent)

  const FetchError := "Failed to fetch dashboard data"

  /** The page component's state. */
  class Dashboard {
    const apiUrl: string
    var isLoading: bool
    var isMounted: bool
    var error: string
    var dashboardData: DashboardData
    var bookingsByType: TypeChart
    var yearlyBookings: YearChart
    var satisfactionData: SatisfactionChart
    var popularAttractions: seq<Row>

    /** The `useState` initial values. */
    constructor(apiUrl: string)
      ensures this.apiUrl == apiUrl && isLoading && !isMounted && error == ""
      ensures dashboardData == DashboardData([], [], [], [])
      ensures bookingsByType == TypeChart([], []) && yearlyBookings == YearChart([], [])
      ensures satisfactionData == SatisfactionChart([], []) && popularAttractions == []
    {
      this.apiUrl := apiUrl;
      isLoading := true;
      isMounted := false;
      error := "";
      dashboardData := DashboardData([], [], [], []);
      bookingsByType := TypeChart([], []);
      yearlyBookings := YearChart([], []);
      satisfactionData := SatisfactionChart([], []);
      popularAttractions := [];
    }

    /** The early returns of the render, then `mostFrequentData`. */
    function View(): Screen
      reads this
    {
      if isLoading then Skeleton
      else if error != "" then Alert(error)
      else Content(MostFrequent(popularAttractions))
    }

    /** `fetchDashboardData`: the eight reads settle together; when all
        succeed every section is set from its payload, when any fails none is
        and the error text is set; `isLoading` ends false either way. */
    method FetchDashboardData(outcome: Outcome<Responses>, time: JsValue -> int) returns (requests: seq<Request>)
      modifies this
      ensures requests == Reads(apiUrl)
      ensures !isLoading && isMounted == old(isMounted)
      ensures outcome.Success? ==>
        var d := outcome.data;
        && popularAttractions == TopAttractions(d.popular)
        && bookingsByType == TypeChartOf(d.bookingTypes)
        && yearlyBookings == YearChartOf(d.yearly)
        && satisfactionData == SatisfactionOf(d.satisfaction)
        && dashboardData == DashboardData(LatestBookings(d.bookings, time), OrEmpty(d.flights),
                                          OrEmpty(d.hotels), OrEmpty(d.attractions))
        && error == old(error)
      ensures outcome.Failure? ==>
        && error == FetchError
        && popularAttractions == old(popularAttractions) && bookingsByType == old(bookingsByType)
        && yearlyBookings == old(yearlyBookings) && satisfactionData == old(satisfactionData)
        && dashboardData == old(dashboardData)
    {
      requests := Reads(apiUrl);
      match outcome {
        case Success(d) =>
          var latestBookings := LatestBookings(d.bookings, time);
          var bookingTypeData := TypeChartOf(d.bookingTypes);
          var yearlyBookingsData := YearChartOf(d.yearly);
          var satisfactionTransformed := SatisfactionOf(d.satisfaction);
          var topAttractions := TopAttractions(d.popular);
          popularAttractions := topAttractions;
          bookingsByType := bookingTypeData;
          yearlyBookings := yearlyBookingsData;
          satisfactionData := satisfactionTransformed;
          dashboardData := DashboardData(latestBookings, OrEmpty(d.flights), OrEmpty(d.hotels), OrEmpty(d.attractions));
        case Failure(_) =>
          error := FetchError;
      }
      isLoading := false;
    }

    /** The mount effect: mark the page mounted, then fetch. A fetch that fails
        leaves the page on the error alert; one that succeeds on a page without
        an earlier error shows the content built from the top attractions. */
    method Mount(outcome: Outcome<Responses>, time: JsValue -> int) returns (requests: seq<Request>)
      modifies this
      ensures isMounted && requests == Reads(apiUrl)
      ensures outcome.Failure? ==> View() == Alert(FetchError)
      ensures outcome.Success? ==>
        View() == if old(error) == "" then Content(MostFrequent(TopAttractions(outcome.data.popular))) else Alert(old(error))
    {
      isMounted := true;
      requests := FetchDashboardData(outcome, time);
    }
  }
}
