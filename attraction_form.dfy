/** The attraction-booking edit form: loading a record into the form, the
    validation rules, the per-keystroke error reconciliation and the payload
    handed to `onSave`. `new Date(visitDate)` and the current time are
    parameters: `timeOf` gives a date string's time value (None for an Invalid
    Date, whose comparisons are all false) and `now` the current one. */
module AttractionForm {
  import opened Js
  import opened FormFields

  /** `formatDateForInput`: the part of an ISO text before the first `T`; `''`
      for a falsy value and for a value without `split` (the caught `TypeError`). */
  function FormatDateForInput(v: JsValue): (r: JsValue)
    ensures r.Str? && 'T' !in r.s
    ensures v.Str? && 'T' !in v.s ==> r == v
  {
    if !Truthy(v) then Str("")
    else match v
      case Str(s) => Str(FirstPart(s, 'T'))
      case _ => Str("")
  }

  /** `formatDateForApi`: `null` for a falsy value, else the date at noon UTC. */
  function FormatDateForApi(v: JsValue): (r: JsValue)
    ensures !Truthy(v) ==> r == Null
    ensures Truthy(v) ==> r.Str? && r.s == ToStr(v) + "T12:00:00.000Z"
  {
    if !Truthy(v) then Null else Str(ToStr(v) + "T12:00:00.000Z")
  }

  /** A date picked in the form survives the trip to the API format and back. */
  lemma VisitDateRoundTrip(d: string)
    requires d != "" && 'T' !in d
    ensures FormatDateForInput(FormatDateForApi(Str(d))) == Str(d)
  {
    var s := d + "T12:00:00.000Z";
    assert s == d + ['T'] + "12:00:00.000Z";
    assert FormatDateForApi(Str(d)) == Str(s);
    SplitFirst(d, 'T', "12:00:00.000Z");
    assert FirstPart(s, 'T') == d;
    assert Truthy(Str(s));
  }

  /** The fields the form keeps as strings. */
  const TextFields: set<string> := {"attractionBookingId", "bookingId", "attractionId", "visitDate", "numberOfTickets"}

  /** The form state the component can hold: the text fields are strings. */
  predicate FormOk(form: Row) {
    && "attractionBookingId" in form && form["attractionBookingId"].Str?
    && "bookingId" in form && form["bookingId"].Str?
    && "attractionId" in form && form["attractionId"].Str?
    && "visitDate" in form && form["visitDate"].Str?
    && "numberOfTickets" in form && form["numberOfTickets"].Str?
  }

  /** The form state before any record is loaded. */
  const InitialForm: Row := map["attractionBookingId" := Str(""), "bookingId" := Str(""), "attractionId" := Str(""),
                                "visitDate" := Str(""), "ticketType" := Str(""), "numberOfTickets" := Str("")]

  /** The load effect: the record spread into the form with its ids and ticket
      count as strings and its visit date as `YYYY-MM-DD`. */
  function Loaded(data: Row): (r: Row)
    ensures FormOk(r)
    ensures r.Keys == data.Keys + TextFields
    ensures forall k :: k in data && k !in TextFields ==> r[k] == data[k]
  {
    data["attractionBookingId" := StringOr(Get(data, "attractionBookingId"))]
        ["bookingId" := StringOr(Get(data, "bookingId"))]
        ["attractionId" := StringOr(Get(data, "attractionId"))]
        ["visitDate" := FormatDateForInput(Get(data, "visitDate"))]
        ["numberOfTickets" := StringOr(Get(data, "numberOfTickets"))]
  }

  /** The ticket-count rule: required, a number of at least 1, at most 20. */
  function TicketError(t: string): (e: Option<string>)
    ensures e.None? <==> t != "" && StringToNumber(t).Num? && 1 <= StringToNumber(t).n <= 20
    ensures t == "" ==> e == Some("Number of tickets is required")
    ensures t != "" && (StringToNumber(t).NaN? || StringToNumber(t).n < 1) ==> e == Some("Must be at least 1 ticket")
    ensures t != "" && StringToNumber(t).Num? && StringToNumber(t).n > 20 ==> e == Some("Maximum 20 tickets per booking")
  {
    if t == "" then Some("Number of tickets is required")
    else match StringToNumber(t)
      case Num(n) =>
        if n < 1 then Some("Must be at least 1 ticket")
        else if n > 20 then Some("Maximum 20 tickets per booking")
        else None
      case _ => Some("Must be at least 1 ticket")
  }

  /** The visit-date rule: required, and not before the current time. */
  function VisitDateError(d: string, timeOf: string -> Option<int>, now: int): (e: Option<string>)
    ensures e.None? <==> d != "" && !(timeOf(d).Some? && timeOf(d).value < now)
  {
    if d == "" then Some("Visit date is required")
    else if timeOf(d).Some? && timeOf(d).value < now then Some("Visit date cannot be in the past")
    else None
  }

  /** The fields `validateForm` checks, in the order it checks them. */
  datatype Field = BookingId | AttractionId | VisitDate | TicketType | NumberOfTickets

  function Key(f: Field): string {
    match f
    case BookingId => "bookingId"
    case AttractionId => "attractionId"
    case VisitDate => "visitDate"
    case TicketType => "ticketType"
    case NumberOfTickets => "numberOfTickets"
  }

  const CheckedFields: set<string> := {"bookingId", "attractionId", "visitDate", "ticketType", "numberOfTickets"}

  /** The message a field's rule gives, if it fails. */
  function FieldError(form: Row, f: Field, timeOf: string -> Option<int>, now: int): (e: Option<string>)
    requires FormOk(form)
    ensures e.Some? ==> e.value != ""
  {
    match f
    case BookingId => if Blank(form["bookingId"].s) then Some("Booking ID is required") else None
    case AttractionId => if Blank(form["attractionId"].s) then Some("Attraction ID is required") else None
    case VisitDate => VisitDateError(form["visitDate"].s, timeOf, now)
    case TicketType => if !Truthy(Get(form, "ticketType")) then Some("Ticket type is required") else None
    case NumberOfTickets => TicketError(form["numberOfTickets"].s)
  }

  /** The error map `validateForm` computes: the rules checked in source order,
      each adding its field's message when it fails. */
  function FormErrors(form: Row, timeOf: string -> Option<int>, now: int): (r: map<string, JsValue>)
    requires FormOk(form)
    ensures r.Keys <= CheckedFields
    ensures Messages(r)
  {
    var e1 := PutError(map[], "bookingId", FieldError(form, BookingId, timeOf, now));
    assert Messages(e1) && e1.Keys <= CheckedFields;
    var e2 := PutError(e1, "attractionId", FieldError(form, AttractionId, timeOf, now));
    assert Messages(e2) && e2.Keys <= CheckedFields;
    var e3 := PutError(e2, "visitDate", FieldError(form, VisitDate, timeOf, now));
    assert Messages(e3) && e3.Keys <= CheckedFields;
    var e4 := PutError(e3, "ticketType", FieldError(form, TicketType, timeOf, now));
    assert Messages(e4) && e4.Keys <= CheckedFields;
    PutError(e4, "numberOfTickets", FieldError(form, NumberOfTickets, timeOf, now))
  }

  /** Each checked field carries an error exactly when its rule fails, with
      that rule's message, and no other key is ever set. */
  lemma FormErrorsAt(form: Row, timeOf: string -> Option<int>, now: int)
    requires FormOk(form)
    ensures FormErrors(form, timeOf, now).Keys <= CheckedFields
    ensures forall f :: Key(f) in FormErrors(form, timeOf, now) <==> FieldError(form, f, timeOf, now).Some?
    ensures forall f :: Key(f) in FormErrors(form, timeOf, now) ==>
      FormErrors(form, timeOf, now)[Key(f)] == Str(FieldError(form, f, timeOf, now).value)
  {
    var e1 := PutError(map[], "bookingId", FieldError(form, BookingId, timeOf, now));
    var e2 := PutError(e1, "attractionId", FieldError(form, AttractionId, timeOf, now));
    var e3 := PutError(e2, "visitDate", FieldError(form, VisitDate, timeOf, now));
    var e4 := PutError(e3, "ticketType", FieldError(form, TicketType, timeOf, now));
    var e5 := PutError(e4, "numberOfTickets", FieldError(form, NumberOfTickets, timeOf, now));
    assert e5 == FormErrors(form, timeOf, now);
    forall f
      ensures Key(f) in e5 <==> FieldError(form, f, timeOf, now).Some?
      ensures Key(f) in e5 ==> e5[Key(f)] == Str(FieldError(form, f, timeOf, now).value)
    {
      KeysDistinct();
      match f
      case BookingId =>
        assert Key(f) in e5 <==> Key(f) in e1;
      case AttractionId =>
        assert Key(f) in e5 <==> Key(f) in e2;
      case VisitDate =>
        assert Key(f) in e5 <==> Key(f) in e3;
      case TicketType =>
        assert Key(f) in e5 <==> Key(f) in e4;
      case NumberOfTickets =>
    }
  }

  /** Different fields have different keys. */
  lemma KeysDistinct()
    ensures forall f, g :: Key(f) == Key(g) ==> f == g
  {
  }

  /** Every rule, stated on its own. */
  predicate Acceptable(form: Row, timeOf: string -> Option<int>, now: int)
    requires FormOk(form)
  {
    var tickets := StringToNumber(form["numberOfTickets"].s);
    && !Blank(form["bookingId"].s)
    && !Blank(form["attractionId"].s)
    && form["visitDate"].s != "" && !(timeOf(form["visitDate"].s).Some? && timeOf(form["visitDate"].s).value < now)
    && Truthy(Get(form, "ticketType"))
    && form["numberOfTickets"].s != "" && tickets.Num? && 1 <= tickets.n <= 20
  }

  /** The form validates exactly when every rule holds. */
  lemma ValidIff(form: Row, timeOf: string -> Option<int>, now: int)
    requires FormOk(form)
    ensures FormErrors(form, timeOf, now) == map[] <==> Acceptable(form, timeOf, now)
  {
  }

  /** `formatDataForSubmission`: the form spread, non-empty ids as numbers and
      empty ones undefined, the visit date at noon UTC and the ticket count
      as a number. */
  function Submission(data: Row): (r: Row)
    ensures r.Keys == data.Keys + {"attractionBookingId", "bookingId", "attractionId", "visitDate", "numberOfTickets"}
    ensures forall k :: k in data && k !in TextFields ==> r[k] == data[k]
    ensures r["attractionBookingId"] == SubmitId(Get(data, "attractionBookingId"))
    ensures r["bookingId"] == SubmitId(Get(data, "bookingId"))
    ensures r["attractionId"] == SubmitId(Get(data, "attractionId"))
    ensures r["visitDate"] == FormatDateForApi(Get(data, "visitDate"))
    ensures r["numberOfTickets"] == ToNumber(Get(data, "numberOfTickets"))
  {
    data["attractionBookingId" := SubmitId(Get(data, "attractionBookingId"))]
        ["bookingId" := SubmitId(Get(data, "bookingId"))]
        ["attractionId" := SubmitId(Get(data, "attractionId"))]
        ["visitDate" := FormatDateForApi(Get(data, "visitDate"))]
        ["numberOfTickets" := ToNumber(Get(data, "numberOfTickets"))]
  }

  /** What a valid form submits: numeric ids and a ticket count within 1..20. */
  lemma SubmittedValid(form: Row, timeOf: string -> Option<int>, now: int)
    requires FormOk(form) && FormErrors(form, timeOf, now) == map[]
    ensures var r := Submission(form);
      && r["numberOfTickets"].Num? && 1 <= r["numberOfTickets"].n <= 20
      && r["bookingId"] == StringToNumber(form["bookingId"].s)
      && r["attractionId"] == StringToNumber(form["attractionId"].s)
      && r["visitDate"] == Str(form["visitDate"].s + "T12:00:00.000Z")
  {
    ValidIff(form, timeOf, now);
    assert Acceptable(form, timeOf, now);
    var b := form["bookingId"].s;
    var a := form["attractionId"].s;
    assert !Blank(b) && !Blank(a);
    assert b != "" && a != "";
  }

  /** A numeric id of a loaded record is submitted as the same number (0 as undefined). */
  lemma LoadSubmitId(data: Row, f: string, n: int)
    requires f in {"attractionBookingId", "bookingId", "attractionId"} && Get(data, f) == Num(n)
    ensures Submission(Loaded(data))[f] == if n == 0 then Undefined else Num(n)
  {
    var l := Loaded(data);
    assert l[f] == StringOr(Num(n)) by {
      if f == "attractionBookingId" { assert l[f] == StringOr(Get(data, "attractionBookingId")); }
      else if f == "bookingId" { assert l[f] == StringOr(Get(data, "bookingId")); }
      else { assert l[f] == StringOr(Get(data, "attractionId")); }
    }
    assert Submission(l)[f] == SubmitId(l[f]);
    IdRoundTrip(n);
  }

  /** The form component's state. */
  class EditAttraction {
    var formData: Row
    var errors: map<string, JsValue>

    predicate Valid()
      reads this
    {
      FormOk(formData)
    }

    constructor()
      ensures formData == InitialForm && errors == map[] && Valid()
    {
      formData := InitialForm;
      errors := map[];
    }

    /** The load effect; it does nothing while no record is given. */
    method Load(attractionData: Option<Row>)
      modifies this
      ensures attractionData.Some? ==> formData == Loaded(attractionData.value) && errors == map[]
      ensures attractionData.None? ==> formData == old(formData) && errors == old(errors)
      ensures old(Valid()) ==> Valid()
    {
      if attractionData.Some? {
        var d := attractionData.value;
        formData := d["attractionBookingId" := StringOr(Get(d, "attractionBookingId"))]
                     ["bookingId" := StringOr(Get(d, "bookingId"))]
                     ["attractionId" := StringOr(Get(d, "attractionId"))]
                     ["visitDate" := FormatDateForInput(Get(d, "visitDate"))]
                     ["numberOfTickets" := StringOr(Get(d, "numberOfTickets"))];
        errors := map[];
      }
    }

    /** `validateForm`: the error map is replaced by the messages of the failing
        rules, and the form is valid iff there are none. */
    method ValidateForm(timeOf: string -> Option<int>, now: int) returns (ok: bool)
      requires Valid()
      modifies this
      ensures formData == old(formData) && Valid()
      ensures errors == FormErrors(formData, timeOf, now)
      ensures ok <==> errors == map[]
      ensures ok <==> Acceptable(formData, timeOf, now)
    {
      var newErrors: map<string, JsValue> := map[];
      newErrors := PutError(newErrors, "bookingId", FieldError(formData, BookingId, timeOf, now));
      newErrors := PutError(newErrors, "attractionId", FieldError(formData, AttractionId, timeOf, now));
      newErrors := PutError(newErrors, "visitDate", FieldError(formData, VisitDate, timeOf, now));
      newErrors := PutError(newErrors, "ticketType", FieldError(formData, TicketType, timeOf, now));
      newErrors := PutError(newErrors, "numberOfTickets", FieldError(formData, NumberOfTickets, timeOf, now));
      errors := newErrors;
      ok := newErrors == map[];
      ValidIff(formData, timeOf, now);
    }

    /** `handleChange`: the named field takes the typed text, and only its error is cleared. */
    method HandleChange(name: string, value: string)
      modifies this
      ensures formData == old(formData)[name := Str(value)]
      ensures errors == ErrorsAfterChange(old(errors), name)
      ensures old(Valid()) ==> Valid()
    {
      formData := formData[name := Str(value)];
      if Truthy(Get(errors, name)) {
        errors := errors[name := Undefined];
      }
    }

    /** `handleSubmit`: `onSave` receives the converted form exactly when the
        form validates. */
    method HandleSubmit(timeOf: string -> Option<int>, now: int) returns (saved: Option<Row>)
      requires Valid()
      modifies this
      ensures formData == old(formData) && errors == FormErrors(formData, timeOf, now)
      ensures saved.Some? <==> Acceptable(formData, timeOf, now)
      ensures saved.Some? ==> saved.value == Submission(formData)
    {
      var ok := ValidateForm(timeOf, now);
      saved := None;
      if ok {
        saved := Some(Submission(formData));
      }
    }
  }
}
