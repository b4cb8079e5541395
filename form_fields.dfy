/** What the two edit forms share: the string coercion of loaded ids, the
    numeric coercion of submitted ids, the blank test and the error-map update
    on each keystroke. */
module FormFields {
  import opened Js

  /** `String(x || '')`: loaded ids become strings, falsy ones the empty string. */
  function StringOr(x: JsValue): (r: JsValue)
    ensures r.Str?
    ensures !Truthy(x) ==> r == Str("")
    ensures Truthy(x) ==> r == Str(ToStr(x))
    ensures x.Str? ==> r == x
  {
    Str(if Truthy(x) then ToStr(x) else "")
  }

  /** `x ? Number(x) : undefined`: a non-empty id string is converted to a
      number, an empty one is dropped. */
  function SubmitId(x: JsValue): (r: JsValue)
    ensures !Truthy(x) ==> r == Undefined
    ensures Truthy(x) ==> r == ToNumber(x) && (r.Num? || r.NaN?)
  {
    if Truthy(x) then ToNumber(x) else Undefined
  }

  /** A numeric id loaded into a form and submitted unchanged comes back as
      the same number, except 0, which is falsy and comes back undefined. */
  lemma IdRoundTrip(n: int)
    ensures SubmitId(StringOr(Num(n))) == if n == 0 then Undefined else Num(n)
  {
    if n != 0 {
      NumberOfIntString(n);
    }
  }

  /** `!value.trim()` for a string field: the text is whitespace only. */
  predicate Blank(s: string) {
    forall i :: 0 <= i < |s| ==> IsWhite(s[i])
  }

  /** `Blank` is exactly the emptiness of the trimmed text. */
  lemma BlankIsTrimEmpty(s: string)
    ensures Blank(s) <==> Trim(s) == ""
  {
    TrimBlank(s);
  }

  /** The error map after editing field `name`: its error is replaced by
      undefined when it was set, and nothing else changes. */
  function ErrorsAfterChange(errors: map<string, JsValue>, name: string): (r: map<string, JsValue>)
    ensures !Truthy(Get(r, name))
    ensures forall k :: k != name ==> Get(r, k) == Get(errors, k)
    ensures !Truthy(Get(errors, name)) ==> r == errors
  {
    if Truthy(Get(errors, name)) then errors[name := Undefined] else errors
  }

  /** Every entry of an error map is a message that displays: a non-empty string. */
  predicate Messages(errors: map<string, JsValue>) {
    forall k :: k in errors ==> errors[k].Str? && errors[k].s != ""
  }

  /** One rule of `validateForm`: the field gets the message when the rule
      fails; an error map is never shrunk. */
  function PutError(errors: map<string, JsValue>, f: string, message: Option<string>): (r: map<string, JsValue>)
    ensures r.Keys == errors.Keys + (if message.Some? then {f} else {})
    ensures message.Some? ==> r[f] == Str(message.value)
    ensures forall k :: k in errors && k != f ==> r[k] == errors[k]
    ensures r == map[] <==> errors == map[] && message.None?
    ensures Messages(errors) && (message.Some? ==> message.value != "") ==> Messages(r)
  {
    if message.Some? then errors[f := Str(message.value)] else errors
  }

  /** How `validateForm` ends: with its verdict, or with a thrown `TypeError`
      (a `.trim()` on a value that is not a string), in which case the error
      map is not replaced. */
  datatype Validation = Checked(ok: bool) | Threw
}
