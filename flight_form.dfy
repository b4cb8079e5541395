/** The flight-booking edit form: loading a record into the form, the
    validation rules, the per-keystroke error reconciliation and the payload
    handed to `onSave`. Unlike the ids, the passenger name is not converted to
    a string on load, so validating a record whose name is not a string throws. */
module FlightForm {
  import opened Js
  import opened FormFields

  /** The fields the load effect converts to strings. */
  const IdFields: set<string> := {"flightBookingId", "bookingId", "flightId", "passengerId"}

  /** The form state the component can hold: the id fields are strings. */
  predicate FormOk(form: Row) {
    && "flightBookingId" in form && form["flightBookingId"].Str?
    && "bookingId" in form && form["bookingId"].Str?
    && "flightId" in form && form["flightId"].Str?
    && "passengerId" in form && form["passengerId"].Str?
  }

  /** The form state before any record is loaded. */
  const InitialForm: Row := map["flightBookingId" := Str(""), "bookingId" := Str(""), "flightId" := Str(""),
                                "seatClass" := Str(""), "passengerName" := Str(""), "passengerId" := Str("")]

  /** The load effect: the record spread into the form with its four ids as
      strings, falsy ones empty; the seat class and the passenger name are
      taken as they are. */
  function Loaded(data: Row): (r: Row)
    ensures FormOk(r)
    ensures r.Keys == data.Keys + IdFields
    ensures forall k :: k in data && k !in IdFields ==> r[k] == data[k]
    ensures r["flightBookingId"] == StringOr(Get(data, "flightBookingId"))
    ensures r["bookingId"] == StringOr(Get(data, "bookingId"))
    ensures r["flightId"] == StringOr(Get(data, "flightId"))
    ensures r["passengerId"] == StringOr(Get(data, "passengerId"))
  {
    data["flightBookingId" := StringOr(Get(data, "flightBookingId"))]
        ["bookingId" := StringOr(Get(data, "bookingId"))]
        ["flightId" := StringOr(Get(data, "flightId"))]
        ["passengerId" := StringOr(Get(data, "passengerId"))]
  }

  /** `validateForm` runs to its end exactly when `.trim()` can be called on
      every trimmed field; the ids always can, the passenger name only when it
      is a string. */
  predicate Checkable(form: Row) {
    FormOk(form) && Get(form, "passengerName").Str?
  }

  /** The fields `validateForm` checks, in the order it checks them. */
  datatype Field = BookingId | FlightId | SeatClass | PassengerName | PassengerId

  function Key(f: Field): string {
    match f
    case BookingId => "bookingId"
    case FlightId => "flightId"
    case SeatClass => "seatClass"
    case PassengerName => "passengerName"
    case PassengerId => "passengerId"
  }

  const CheckedFields: set<string> := {"bookingId", "flightId", "seatClass", "passengerName", "passengerId"}

  /** The message a field's rule gives, if it fails. */
  function FieldError(form: Row, f: Field): (e: Option<string>)
    requires Checkable(form)
    ensures e.Some? ==> e.value != ""
  {
    match f
    case BookingId => if Blank(form["bookingId"].s) then Some("Booking ID is required") else None
    case FlightId => if Blank(form["flightId"].s) then Some("Flight ID is required") else None
    case SeatClass => if !Truthy(Get(form, "seatClass")) then Some("Seat class is required") else None
    case PassengerName => if Blank(Get(form, "passengerName").s) then Some("Passenger name is required") else None
    case PassengerId => if Blank(form["passengerId"].s) then Some("Passenger ID is required") else None
  }

  /** The error map `validateForm` computes: the rules checked in source order,
      each adding its field's message when it fails. */
  function FormErrors(form: Row): (r: map<string, JsValue>)
    requires Checkable(form)
    ensures r.Keys <= CheckedFields
    ensures Messages(r)
  {
    var e1 := PutError(map[], "bookingId", FieldError(form, BookingId));
    assert Messages(e1) && e1.Keys <= CheckedFields;
    var e2 := PutError(e1, "flightId", FieldError(form, FlightId));
    assert Messages(e2) && e2.Keys <= CheckedFields;
    var e3 := PutError(e2, "seatClass", FieldError(form, SeatClass));
    assert Messages(e3) && e3.Keys <= CheckedFields;
    var e4 := PutError(e3, "passengerName", FieldError(form, PassengerName));
    assert Messages(e4) && e4.Keys <= CheckedFields;
    PutError(e4, "passengerId", FieldError(form, PassengerId))
  }

  /** Each checked field carries an error exactly when its rule fails, with
      that rule's message, and no other key is ever set. */
  lemma FormErrorsAt(form: Row)
    requires Checkable(form)
    ensures FormErrors(form).Keys <= CheckedFields
    ensures forall f :: Key(f) in FormErrors(form) <==> FieldError(form, f).Some?
    ensures forall f :: Key(f) in FormErrors(form) ==> FormErrors(form)[Key(f)] == Str(FieldError(form, f).value)
  {
    var e1 := PutError(map[], "bookingId", FieldError(form, BookingId));
    var e2 := PutError(e1, "flightId", FieldError(form, FlightId));
    var e3 := PutError(e2, "seatClass", FieldError(form, SeatClass));
    var e4 := PutError(e3, "passengerName", FieldError(form, PassengerName));
    var e5 := PutError(e4, "passengerId", FieldError(form, PassengerId));
    assert e5 == FormErrors(form);
    forall f
      ensures Key(f) in e5 <==> FieldError(form, f).Some?
      ensures Key(f) in e5 ==> e5[Key(f)] == Str(FieldError(form, f).value)
    {
      KeysDistinct();
      match f
      case BookingId =>
        assert Key(f) in e5 <==> Key(f) in e1;
      case FlightId =>
        assert Key(f) in e5 <==> Key(f) in e2;
      case SeatClass =>
        assert Key(f) in e5 <==> Key(f) in e3;
      case PassengerName =>
        assert Key(f) in e5 <==> Key(f) in e4;
      case PassengerId =>
    }
  }

  /** Different fields have different keys. */
  lemma KeysDistinct()
    ensures forall f, g :: Key(f) == Key(g) ==> f == g
  {
  }

  /** Every rule, stated on its own. */
  predicate Acceptable(form: Row)
    requires Checkable(form)
  {
    && !Blank(form["bookingId"].s)
    && !Blank(form["flightId"].s)
    && Truthy(Get(form, "seatClass"))
    && !Blank(Get(form, "passengerName").s)
    && !Blank(form["passengerId"].s)
  }

  /** The form validates exactly when every rule holds. */
  lemma ValidIff(form: Row)
    requires Checkable(form)
    ensures FormErrors(form) == map[] <==> Acceptable(form)
  {
  }

  /** `formatDataForSubmission`: the form spread, non-empty ids as numbers and
      empty ones undefined, and the passenger id trimmed but kept a string. */
  function Submission(data: Row): (r: Row)
    requires FormOk(data)
    ensures forall k :: k in r <==> k in data
    ensures forall k :: k in data && k != "flightBookingId" && k != "bookingId" && k != "flightId" && k != "passengerId" ==>
      r[k] == data[k]
    ensures r["flightBookingId"] == SubmitId(data["flightBookingId"])
    ensures r["bookingId"] == SubmitId(data["bookingId"])
    ensures r["flightId"] == SubmitId(data["flightId"])
    ensures r["passengerId"] == Str(Trim(data["passengerId"].s))
  {
    data["flightBookingId" := SubmitId(data["flightBookingId"])]
        ["bookingId" := SubmitId(data["bookingId"])]
        ["flightId" := SubmitId(data["flightId"])]
        ["passengerId" := Str(Trim(data["passengerId"].s))]
  }

  /** What a valid form submits: the booking and flight ids as `Number` of
      their text, and a passenger id that is non-empty with no whitespace at
      either end. */
  lemma SubmittedValid(form: Row)
    requires Checkable(form) && FormErrors(form) == map[]
    ensures var r := Submission(form);
      && r["bookingId"] == StringToNumber(form["bookingId"].s)
      && r["flightId"] == StringToNumber(form["flightId"].s)
      && r["passengerId"].s != ""
      && !IsWhite(r["passengerId"].s[0]) && !IsWhite(r["passengerId"].s[|r["passengerId"].s| - 1])
  {
    ValidIff(form);
    var r := Submission(form);
    var b := form["bookingId"].s;
    var f := form["flightId"].s;
    var p := form["passengerId"].s;
    assert !Blank(b) && !Blank(f) && !Blank(p);
    assert b != "" && f != "";
    BlankIsTrimEmpty(p);
    assert r["passengerId"] == Str(Trim(p));
  }

  /** A numeric id of a loaded record is submitted as the same number (0 as undefined). */
  lemma LoadSubmitId(data: Row, f: string, n: int)
    requires f in {"flightBookingId", "bookingId", "flightId"} && Get(data, f) == Num(n)
    ensures Submission(Loaded(data))[f] == if n == 0 then Undefined else Num(n)
  {
    var l := Loaded(data);
    assert l[f] == StringOr(Num(n));
    assert Submission(l)[f] == SubmitId(l[f]);
    IdRoundTrip(n);
  }

  /** A loaded record whose passenger name is missing or not a string cannot
      be validated: its `.trim()` throws. */
  lemma LoadedNameUnchecked(data: Row)
    ensures Checkable(Loaded(data)) <==> Get(data, "passengerName").Str?
  {
    assert Get(Loaded(data), "passengerName") == Get(data, "passengerName");
  }

  /** The form component's state. */
  class EditFlight {
    var formData: Row
    var errors: map<string, JsValue>

    predicate Valid()
      reads this
    {
      FormOk(formData)
    }

    constructor()
      ensures formData == InitialForm && errors == map[] && Valid()
    {
      formData := InitialForm;
      errors := map[];
    }

    /** The load effect; it does nothing while no record is given. */
    method Load(flightData: Option<Row>)
      modifies this
      ensures flightData.Some? ==> formData == Loaded(flightData.value) && errors == map[]
      ensures flightData.None? ==> formData == old(formData) && errors == old(errors)
      ensures old(Valid()) ==> Valid()
    {
      if flightData.Some? {
        var d := flightData.value;
        formData := d["flightBookingId" := StringOr(Get(d, "flightBookingId"))]
                     ["bookingId" := StringOr(Get(d, "bookingId"))]
                     ["flightId" := StringOr(Get(d, "flightId"))]
                     ["passengerId" := StringOr(Get(d, "passengerId"))];
        errors := map[];
      }
    }

    /** `validateForm`: when it runs to its end, the error map is replaced by
        the messages of the failing rules and the form is valid iff there are
        none; when the passenger name is not a string it throws before the
        error map is replaced. */
    method ValidateForm() returns (v: Validation)
      requires Valid()
      modifies this
      ensures formData == old(formData) && Valid()
      ensures !Checkable(formData) ==> v == Threw && errors == old(errors)
      ensures Checkable(formData) ==> v.Checked? && errors == FormErrors(formData)
      ensures Checkable(formData) ==> (v.ok <==> errors == map[]) && (v.ok <==> Acceptable(formData))
    {
      var newErrors: map<string, JsValue> := map[];
      var name := Get(formData, "passengerName");
      if !name.Str? {
        return Threw;
      }
      newErrors := PutError(newErrors, "bookingId", FieldError(formData, BookingId));
      newErrors := PutError(newErrors, "flightId", FieldError(formData, FlightId));
      newErrors := PutError(newErrors, "seatClass", FieldError(formData, SeatClass));
      newErrors := PutError(newErrors, "passengerName", FieldError(formData, PassengerName));
      newErrors := PutError(newErrors, "passengerId", FieldError(formData, PassengerId));
      errors := newErrors;
      v := Checked(newErrors == map[]);
      ValidIff(formData);
    }

    /** `handleChange`: the named field takes the typed text, and only its error is cleared. */
    method HandleChange(name: string, value: string)
      modifies this
      ensures formData == old(formData)[name := Str(value)]
      ensures errors == ErrorsAfterChange(old(errors), name)
      ensures old(Valid()) ==> Valid()
    {
      formData := formData[name := Str(value)];
      if Truthy(Get(errors, name)) {
        errors := errors[name := Undefined];
      }
    }

    /** `handleSubmit`: `onSave` receives the converted form exactly when the
        form validates; a throwing validation saves nothing. */
    method HandleSubmit() returns (v: Validation, saved: Option<Row>)
      requires Valid()
      modifies this
      ensures formData == old(formData)
      ensures !Checkable(formData) ==> v == Threw && saved.None? && errors == old(errors)
      ensures Checkable(formData) ==> errors == FormErrors(formData)
      ensures saved.Some? <==> Checkable(formData) && Acceptable(formData)
      ensures saved.Some? ==> saved.value == Submission(formData)
    {
      v := ValidateForm();
      saved := None;
      if v == Checked(true) {
        saved := Some(Submission(formData));
      }
    }
  }
}
