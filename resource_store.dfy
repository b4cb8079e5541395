/** The state machine shared by the five resource hooks: a collection, a
    loading flag and an error text, driven by the outcomes of the HTTP calls.
    The network is abstract: every call's outcome is a parameter, and the
    requests a method issues are returned so that their order can be stated. */
module ResourceStore {
  import opened Js
  import Api

  /** How an HTTP call settles: with the response payload, or with an error
      whose `err.response?.data?.message` is `message` (undefined when there is
      no response or no message). */
  datatype Outcome<T> = Success(data: T) | Failure(message: JsValue)

  datatype Verb = HttpGet | HttpPut | HttpPost | HttpDelete

  /** An HTTP request the hook sends (the auth header aside). */
  datatype Request = Request(verb: Verb, url: string, body: Option<Row>)

  /** How the promise a mutation returns settles; a rejection carries the
      message of the thrown `Error`. */
  datatype Settled<T> = Resolved(value: T) | Rejected(reason: string)

  /** The default error texts of one hook. */
  datatype Messages = Messages(fetch: string, update: string, delete: string)

  /** The three slots as one value. */
  datatype StoreView = StoreView(items: seq<Row>, isLoading: bool, error: JsValue)

  /** `err.response?.data?.message || fallback`: the server's message when it
      is truthy, the default text otherwise; never falsy. */
  function ErrorText(message: JsValue, fallback: string): (e: JsValue)
    requires fallback != ""
    ensures Truthy(e)
    ensures Truthy(message) ==> e == message
    ensures !Truthy(message) ==> e == Str(fallback)
  {
    Or(message, Str(fallback))
  }

  /** `response.data.map(transform)`. */
  function MapRows(f: Row -> Row, rows: seq<Row>): (r: seq<Row>)
    ensures |r| == |rows|
  {
    seq(|rows|, i requires 0 <= i < |rows| => f(rows[i]))
  }

  /** The transform is applied element by element: concatenations map to
      concatenations, so the order of the records is kept. */
  lemma MapRowsAppend(f: Row -> Row, a: seq<Row>, b: seq<Row>)
    ensures MapRows(f, a + b) == MapRows(f, a) + MapRows(f, b)
    ensures forall i :: 0 <= i < |a| ==> MapRows(f, a)[i] == f(a[i])
  {
  }

  predicate ValidMessages(m: Messages) {
    m.fetch != "" && m.update != "" && m.delete != ""
  }

  /** One resource hook's state. */
  class Store {
    const resource: Api.Resource
    const apiUrl: string
    const messages: Messages
    const normalize: Row -> Row
    var items: seq<Row>
    var isLoading: bool
    var error: JsValue

    function View(): StoreView
      reads this
    {
      StoreView(items, isLoading, error)
    }

    /** The `useState` initial values. */
    constructor(resource: Api.Resource, apiUrl: string, messages: Messages, normalize: Row -> Row)
      requires ValidMessages(messages)
      ensures this.resource == resource && this.apiUrl == apiUrl && this.messages == messages
      ensures forall r :: this.normalize(r) == normalize(r)
      ensures View() == StoreView([], false, Str(""))
    {
      this.resource := resource;
      this.apiUrl := apiUrl;
      this.messages := messages;
      this.normalize := normalize;
      items := [];
      isLoading := false;
      error := Str("");
    }

    function ListRequest(): Request {
      Request(HttpGet, Api.Url(apiUrl, Api.List(resource)), None)
    }

    /** The fetch function: raise the loading flag and clear the error, send the
        list request, then on success replace the collection wholesale by the
        normalised payload, or on failure record the message and keep the
        collection; the loading flag always ends false. `inFlight` is the state
        while the request is pending. */
    method Fetch(outcome: Outcome<seq<Row>>) returns (request: Request, inFlight: StoreView)
      requires ValidMessages(messages)
      modifies this
      ensures request == ListRequest()
      ensures inFlight == StoreView(old(items), true, Str(""))
      ensures !isLoading
      ensures outcome.Success? ==> items == MapRows(normalize, outcome.data) && error == Str("")
      ensures outcome.Failure? ==> items == old(items) && error == ErrorText(outcome.message, messages.fetch)
    {
      isLoading := true;
      error := Str("");
      inFlight := View();
      request := ListRequest();
      match outcome {
        case Success(data) =>
          var transformed: seq<Row> := [];
          for i := 0 to |data|
            invariant transformed == MapRows(normalize, data[..i])
          {
            transformed := transformed + [normalize(data[i])];
          }
          assert data[..|data|] == data;
          items := transformed;
        case Failure(message) =>
          error := ErrorText(message, messages.fetch);
      }
      isLoading := false;
    }

    /** Records a failed call's message and builds the rejection. */
    method Fail(message: JsValue, fallback: string) returns (result: Settled<JsValue>)
      requires fallback != ""
      modifies this
      ensures error == ErrorText(message, fallback)
      ensures result == Rejected(ToStr(error))
      ensures items == old(items) && isLoading == old(isLoading)
    {
      var errorMessage := ErrorText(message, fallback);
      error := errorMessage;
      result := Rejected(ToStr(errorMessage));
    }

    /** The edit function: clear the error, send the update; on success re-fetch
        and resolve with true, on failure record the message and reject with it
        without re-fetching. */
    method Edit(id: JsValue, updateData: Row, put: Outcome<JsValue>, refetch: Outcome<seq<Row>>)
      returns (requests: seq<Request>, inFlight: StoreView, result: Settled<JsValue>)
      requires ValidMessages(messages)
      modifies this
      ensures inFlight == StoreView(old(items), old(isLoading), Str(""))
      ensures |requests| >= 1 && requests[0] == Request(HttpPut, Api.Url(apiUrl, Api.Update(resource, id)), Some(updateData))
      ensures put.Success? ==> Refetched(requests, refetch, old(items)) && result == Resolved(Bool(true))
      ensures put.Failure? ==> FailedWith(requests, put.message, messages.update, old(items), old(isLoading), result)
    {
      error := Str("");
      inFlight := View();
      var req := Request(HttpPut, Api.Url(apiUrl, Api.Update(resource, id)), Some(updateData));
      match put
      case Success(_) =>
        var again, _ := Fetch(refetch);
        requests := [req, again];
        result := Resolved(Bool(true));
      case Failure(message) =>
        requests := [req];
        result := Fail(message, messages.update);
    }

    /** The delete function, with the same protocol as `Edit`. */
    method Delete(id: JsValue, del: Outcome<JsValue>, refetch: Outcome<seq<Row>>)
      returns (requests: seq<Request>, inFlight: StoreView, result: Settled<JsValue>)
      requires ValidMessages(messages)
      modifies this
      ensures inFlight == StoreView(old(items), old(isLoading), Str(""))
      ensures |requests| >= 1 && requests[0] == Request(HttpDelete, Api.Url(apiUrl, Api.Delete(resource, id)), None)
      ensures del.Success? ==> Refetched(requests, refetch, old(items)) && result == Resolved(Bool(true))
      ensures del.Failure? ==> FailedWith(requests, del.message, messages.delete, old(items), old(isLoading), result)
    {
      error := Str("");
      inFlight := View();
      var req := Request(HttpDelete, Api.Url(apiUrl, Api.Delete(resource, id)), None);
      match del
      case Success(_) =>
        var again, _ := Fetch(refetch);
        requests := [req, again];
        result := Resolved(Bool(true));
      case Failure(message) =>
        requests := [req];
        result := Fail(message, messages.delete);
    }

    /** After a successful mutation: exactly one more request, the list
        request, and the state a fetch with outcome `refetch` leaves. */
    predicate Refetched(requests: seq<Request>, refetch: Outcome<seq<Row>>, before: seq<Row>)
      reads this
      requires ValidMessages(messages)
    {
      && |requests| == 2 && requests[1] == ListRequest() && !isLoading
      && (refetch.Success? ==> items == MapRows(normalize, refetch.data) && error == Str(""))
      && (refetch.Failure? ==> items == before && error == ErrorText(refetch.message, messages.fetch))
    }

    /** After a failed mutation: no re-fetch, the collection and the loading
        flag untouched, the message recorded and the promise rejected with it. */
    predicate FailedWith(requests: seq<Request>, message: JsValue, fallback: string, before: seq<Row>,
                         wasLoading: bool, result: Settled<JsValue>)
      reads this
      requires fallback != ""
    {
      && |requests| == 1 && items == before && isLoading == wasLoading
      && error == ErrorText(message, fallback) && result == Rejected(ToStr(error))
    }
  }
}
