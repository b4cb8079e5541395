/** The REST endpoint table of the console: every URL is a template over
    the deployment's base URL `API_URL`, which is a parameter here. */
module Api {
  import opened Js

  /** The five CRUD resources and their collection path segment. */
  datatype Resource = Flight | Hotel | Attraction | Review | Booking

  function Path(r: Resource): string {
    match r
    case Flight => "flightBookings"
    case Hotel => "hotelBookings"
    case Attraction => "attractionBookings"
    case Review => "reviews"
    case Booking => "bookings"
  }

  /** Every entry of `API_ENDPOINTS`; the per-id builders carry their argument. */
  datatype Endpoint =
    | Login | AdminMe
    | List(r: Resource) | Create(r: Resource)
    | Update(r: Resource, id: JsValue) | Delete(r: Resource, id: JsValue) | GetById(r: Resource, id: JsValue)
    | PopularAttractions | Reply(id: JsValue)
    | StatsMonthly | StatsSummary | StatsTypeDistribution
    | YearlyBookings | BookingsByType | MostFrequentPlaces | ReviewSatisfaction | TrendingPlaces

  /** A template `${API_URL}/api/<rest>`. */
  function Under(apiUrl: string, rest: string): string {
    apiUrl + "/api/" + rest
  }

  /** The URL string of an endpoint. */
  function Url(apiUrl: string, e: Endpoint): string {
    Under(apiUrl, Rest(e))
  }

  /** The part of an endpoint's URL after `API_URL + "/api/"`; `${id}` renders
      the id with `String`. */
  function Rest(e: Endpoint): string {
    match e
    case Login => "auth/admin/login"
    case AdminMe => "auth/admin/me"
    case List(r) => Path(r)
    case Create(r) => Path(r)
    case Update(r, id) => Path(r) + "/" + ToStr(id)
    case Delete(r, id) => Path(r) + "/" + ToStr(id)
    case GetById(r, id) => Path(r) + "/" + ToStr(id)
    case PopularAttractions => "attractionBookings/popular-attractions"
    case Reply(id) => "reviews/" + ToStr(id) + "/reply"
    case StatsMonthly => "bookings/statistics/monthly"
    case StatsSummary => "bookings/statistics/summary"
    case StatsTypeDistribution => "bookings/statistics/type-distribution"
    case YearlyBookings => "dashboard/yearlyBookings"
    case BookingsByType => "dashboard/bookingsByType"
    case MostFrequentPlaces => "dashboard/mostFrequentPlaces"
    case ReviewSatisfaction => "reviews/satisfaction"
    case TrendingPlaces => "attractionBookings/popular-attractions"
  }

  /** Every resource creates at its collection URL, and its three per-record
      builders address the collection URL plus `/id`. */
  lemma ItemUrls(apiUrl: string, r: Resource, id: JsValue)
    ensures Url(apiUrl, Create(r)) == Url(apiUrl, List(r))
    ensures Url(apiUrl, Update(r, id)) == Url(apiUrl, List(r)) + "/" + ToStr(id)
    ensures Url(apiUrl, Delete(r, id)) == Url(apiUrl, Update(r, id))
    ensures Url(apiUrl, GetById(r, id)) == Url(apiUrl, Update(r, id))
  {
    var p, q, x := apiUrl + "/api/", Path(r), ToStr(id);
    assert Rest(Update(r, id)) == q + "/" + x;
    assert p + (q + "/" + x) == p + q + "/" + x;
  }

  /** Replying to a review posts to that review's URL plus `/reply`. */
  lemma ReplyUrl(apiUrl: string, id: JsValue)
    ensures Url(apiUrl, Reply(id)) == Url(apiUrl, Update(Review, id)) + "/reply"
  {
  }

  /** Every endpoint lives under `API_URL + "/api/"`. */
  lemma UnderApiPrefix(apiUrl: string, e: Endpoint)
    ensures apiUrl + "/api/" <= Url(apiUrl, e)
  {
    var p := apiUrl + "/api/";
    assert Url(apiUrl, e) == p + Rest(e);
  }

  /** Different resources have different collection URLs. */
  lemma ListUrlsDistinct(apiUrl: string, r: Resource, q: Resource)
    requires Url(apiUrl, List(r)) == Url(apiUrl, List(q))
    ensures r == q
  {
    var p := apiUrl + "/api/";
    assert Path(r) == Url(apiUrl, List(r))[|p|..];
    assert Path(q) == Url(apiUrl, List(q))[|p|..];
  }
}
