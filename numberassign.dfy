/** The phone-number dialog of
    src/components/adminDashboard/userManagement/helpermodals/NumberAssignModal.jsx: validation of the
    typed number, the choice between assigning and updating, and the close guard. The request itself is
    described, not sent. */
module NumberAssign {
  import opened Wrappers
  import JsText

  const RequiredMessage := "Number is required"
  const DigitsMessage := "Number must be 11 or 12 digits"

  /** The token row the dialog was opened for: its id and the number already assigned, if any. */
  datatype TokenData = TokenData(id: string, number: Option<string>)

  datatype HttpMethod = Put | Post

  datatype Request = Request(httpMethod: HttpMethod, path: string, number: string)

  /** The dialog's own state. */
  datatype Dialog = Dialog(number: string, submitting: bool, open: bool)

  /** `^\d{11,12}$`: eleven or twelve ASCII decimal digits and nothing else. */
  predicate ElevenOrTwelveDigits(s: string) {
    11 <= |s| <= 12 && forall i :: 0 <= i < |s| ==> JsText.IsAsciiDigit(s[i])
  }

  /** A JavaScript string is truthy when it is present and non-empty. */
  predicate Truthy(s: Option<string>) {
    s.Some? && s.value != ""
  }

  /** The checks of `handleSubmit`, in order: blank first, then the digit pattern on the trimmed text. */
  function Validate(number: string): (r: Result<string, string>)
    ensures JsText.Trim(number) == "" ==> r == Err(RequiredMessage)
    ensures JsText.Trim(number) != "" && !ElevenOrTwelveDigits(JsText.Trim(number)) ==> r == Err(DigitsMessage)
    ensures r.Ok? <==> ElevenOrTwelveDigits(JsText.Trim(number))
    ensures r.Ok? ==> r.value == JsText.Trim(number)
  {
    var trimmed := JsText.Trim(number);
    if trimmed == "" then Err(RequiredMessage)
    else if !ElevenOrTwelveDigits(trimmed) then Err(DigitsMessage)
    else Ok(trimmed)
  }

  /** An accepted number is already in final form: validating it again accepts it unchanged. */
  lemma ValidateIdempotent(number: string)
    requires Validate(number).Ok?
    ensures Validate(Validate(number).value) == Validate(number)
  {
    JsText.TrimIdempotent(number);
  }

  /** Surrounding whitespace never changes the verdict. */
  lemma ValidateIgnoresSurroundingSpace(number: string)
    ensures Validate(JsText.Trim(number)) == Validate(number)
  {
    JsText.TrimIdempotent(number);
  }

  /** The request for a valid number: an existing number selects PUT `update-number`, otherwise POST
      `assign-number`, both under `/token/<id>/`; the body carries the trimmed number. */
  function Submit(token: TokenData, number: string): (r: Result<Request, string>)
    ensures Validate(number).Err? ==> r == Err(Validate(number).error)
    ensures Validate(number).Ok? ==> r.Ok? && r.value.number == JsText.Trim(number)
    ensures r.Ok? ==> (r.value.httpMethod == Put <==> Truthy(token.number))
  {
    match Validate(number)
    case Err(message) => Err(message)
    case Ok(trimmed) =>
      var prefix := "/token/" + token.id;
      if Truthy(token.number) then Ok(Request(Put, prefix + "/update-number", trimmed))
      else Ok(Request(Post, prefix + "/assign-number", trimmed))
  }

  /** The method and the endpoint always agree: PUT goes to `update-number` and POST to `assign-number`. */
  lemma SubmitEndpointMatchesMethod(token: TokenData, number: string)
    requires Submit(token, number).Ok?
    ensures var req := Submit(token, number).value;
            var base := "/token/" + token.id;
            (req.httpMethod == Put ==> req.path == base + "/update-number")
            && (req.httpMethod == Post ==> req.path == base + "/assign-number")
  {
  }

  /** Opening the dialog for a token prefills the field with its number, or with "" when it has none;
      a closed dialog or a missing token leaves the field as it is. */
  function Prefill(d: Dialog, token: Option<TokenData>): (r: Dialog)
    ensures r.submitting == d.submitting && r.open == d.open
    ensures d.open && token.Some? ==> r.number == (if Truthy(token.value.number) then token.value.number.value else "")
    ensures !(d.open && token.Some?) ==> r == d
  {
    if d.open && token.Some? then
      d.(number := if Truthy(token.value.number) then token.value.number.value else "")
    else d
  }

  /** `handleClose`: ignored while a submission is running; otherwise the field is cleared and the
      dialog closes. */
  function HandleClose(d: Dialog): (r: Dialog)
    ensures d.submitting ==> r == d
    ensures !d.submitting ==> r == Dialog("", false, false)
  {
    if d.submitting then d else d.(number := "", open := false)
  }
}
