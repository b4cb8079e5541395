/** The review hook: its record normalisation (with display dates), its store,
    and the reply operation only reviews have. */
module ReviewHook {
  import opened Js
  import opened FormatDate
  import Api
  import opened ResourceStore

  /** The fields copied as they are. */
  const Copied: set<string> := {"userId", "itemType", "itemId", "rating", "comment", "reply"}

  /** The transform applied to each review of the list response: the id is
      `id` when truthy, else `reviewId`; both timestamps are replaced by their
      display text; six fields are copied. */
  function Normalize(parse: DateParser, b: Row): (r: Row)
    ensures forall k :: k in r <==> k in Copied || k == "reviewId" || k == "createdAt" || k == "updatedAt"
    ensures Truthy(Get(b, "id")) ==> r["reviewId"] == b["id"]
    ensures !Truthy(Get(b, "id")) ==> r["reviewId"] == Get(b, "reviewId")
  {
    var created := Format(Get(b, "createdAt"), parse);
    var updated := Format(Get(b, "updatedAt"), parse);
    map["reviewId" := Or(Get(b, "id"), Get(b, "reviewId")),
        "userId" := Get(b, "userId"),
        "itemType" := Get(b, "itemType"),
        "itemId" := Get(b, "itemId"),
        "rating" := Get(b, "rating"),
        "comment" := Get(b, "comment"),
        "reply" := Get(b, "reply"),
        "createdAt" := created,
        "updatedAt" := updated]
  }

  /** The six copied fields keep their values and both timestamps hold what
      `formatDate` makes of them. */
  lemma NormalizeFields(parse: DateParser, b: Row)
    ensures forall f :: f in Copied ==> Normalize(parse, b)[f] == Get(b, f)
    ensures Normalize(parse, b)["createdAt"] == Format(Get(b, "createdAt"), parse)
    ensures Normalize(parse, b)["updatedAt"] == Format(Get(b, "updatedAt"), parse)
  {
  }

  /** The parser reads back the display text of every date it produces whose
      year has four digits or more (the runtime reads a two-digit year such as
      "50" as 1950, and the parser never produces a day the month lacks). */
  ghost predicate ReadsBackOwnDates(parse: DateParser) {
    forall v, p :: parse(v) == Some(p) && p.year >= 1000 ==> parse(Str(Display(p))) == Some(p)
  }

  /** A parser of display texts only: the hypothesis above is one a parser can meet. */
  function DisplayParser(v: JsValue): Option<DateParts> {
    if !v.Str? then None
    else match ParseDisplay(v.s)
      case Some((y, m, d)) => if 0 <= m < 12 && 1 <= d <= 31 then Some(DateParts(y, m, d)) else None
      case None => None
  }

  lemma DisplayParserReadsBack()
    ensures ReadsBackOwnDates(DisplayParser)
  {
    forall v, p | DisplayParser(v) == Some(p) && p.year >= 1000
      ensures DisplayParser(Str(Display(p))) == Some(p)
    {
      DisplayRoundTrip(p);
    }
  }

  /** The value is not a date, or a date whose year has at least four digits. */
  predicate FourDigitYear(parse: DateParser, v: JsValue) {
    parse(v).None? || parse(v).value.year >= 1000
  }

  /** When the date parser reads its own display texts back and both
      timestamps have four-digit years, normalising a normalised review
      changes nothing. */
  lemma NormalizeIdempotent(parse: DateParser, b: Row)
    requires ReadsBackOwnDates(parse)
    requires FourDigitYear(parse, Get(b, "createdAt")) && FourDigitYear(parse, Get(b, "updatedAt"))
    ensures Normalize(parse, Normalize(parse, b)) == Normalize(parse, b)
  {
    var n := Normalize(parse, b);
    var m := Normalize(parse, n);
    NormalizeFields(parse, b);
    NormalizeFields(parse, n);
    FormatTwice(parse, Get(b, "createdAt"));
    FormatTwice(parse, Get(b, "updatedAt"));
    assert "id" !in n;
    assert m.Keys == n.Keys;
    forall k | k in n
      ensures m[k] == n[k]
    {
    }
  }

  /** `formatDate` is idempotent under such a parser, on a value that is not
      a date or is a date with a four-digit year. */
  lemma FormatTwice(parse: DateParser, v: JsValue)
    requires ReadsBackOwnDates(parse) && FourDigitYear(parse, v)
    ensures Format(Format(v, parse), parse) == Format(v, parse)
  {
    if !Truthy(v) {
      assert Format(v, parse) == Str("");
    } else if parse(v).None? {
      assert Format(v, parse) == v;
    } else {
      var p := parse(v).value;
      var d := Str(Display(p));
      assert Format(v, parse) == d;
      DisplayShape(p);
      assert Truthy(d);
      assert parse(d) == Some(p);
      assert Format(d, parse) == d;
    }
  }

  const ReviewMessages := Messages("Error fetching reviews", "Error updating review", "Error deleting review")

  const ReplyMessage := "Error adding reply"

  /** The hook on mount: the initial state, then the fetch its effect starts. */
  method UseReview(apiUrl: string, parse: DateParser, initial: Outcome<seq<Row>>) returns (s: Store, request: Request)
    ensures fresh(s) && s.resource == Api.Review && s.apiUrl == apiUrl && s.messages == ReviewMessages
    ensures forall r :: s.normalize(r) == Normalize(parse, r)
    ensures request == s.ListRequest() && !s.isLoading
    ensures initial.Success? ==> s.items == MapRows(s.normalize, initial.data) && s.error == Str("")
    ensures initial.Failure? ==> s.items == [] && s.error == ErrorText(initial.message, ReviewMessages.fetch)
  {
    s := new Store(Api.Review, apiUrl, ReviewMessages, r => Normalize(parse, r));
    var inFlight;
    request, inFlight := s.Fetch(initial);
  }

  /** `addReply`: posts `{ reply }` to the review's reply URL without clearing
      the error first; on success re-fetches and resolves with the response
      payload, on failure records the message and rejects with it. */
  method AddReply(s: Store, reviewId: JsValue, reply: JsValue, post: Outcome<JsValue>, refetch: Outcome<seq<Row>>)
    returns (requests: seq<Request>, inFlight: StoreView, result: Settled<JsValue>)
    requires s.resource == Api.Review && ValidMessages(s.messages)
    modifies s
    ensures inFlight == old(s.View())
    ensures |requests| >= 1
    ensures requests[0] == Request(HttpPost, Api.Url(s.apiUrl, Api.Reply(reviewId)), Some(map["reply" := reply]))
    ensures post.Success? ==> s.Refetched(requests, refetch, old(s.items)) && result == Resolved(post.data)
    ensures post.Failure? ==> s.FailedWith(requests, post.message, ReplyMessage, old(s.items), old(s.isLoading), result)
  {
    inFlight := s.View();
    var req := Request(HttpPost, Api.Url(s.apiUrl, Api.Reply(reviewId)), Some(map["reply" := reply]));
    match post
    case Success(data) =>
      var again, _ := s.Fetch(refetch);
      requests := [req, again];
      result := Resolved(data);
    case Failure(message) =>
      requests := [req];
      result := s.Fail(message, ReplyMessage);
  }
}
