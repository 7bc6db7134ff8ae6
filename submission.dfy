/**
 * The write side of the server: validating a submitted form and building
 * the record it creates.
 */
module Submission {
  import opened Wrappers
  import opened DateTimes
  import opened Reviews

  /** The three ways a submission is refused, each answered with status 400. */
  datatype SubmitError = EmptyBody | InvalidFormat | MissingFields

  /** The `error` text sent back for each refusal. */
  function Message(e: SubmitError): (msg: string)
    ensures msg != []
  {
    match e
    case EmptyBody => "Empty request body."
    case InvalidFormat => "Invalid request format."
    case MissingFields => "Location and ReviewBody are required."
  }

  /**
   * Extracts the first `Location` and `ReviewBody` values of a decoded form.
   * An empty or non-allowed location counts as missing, so does an empty
   * text; either missing field refuses the submission.
   */
  function ValidateFields(form: Params): (r: Result<(string, string), SubmitError>)
    requires WellFormedParams(form)
    ensures r.Success? <==>
              && "Location" in form && form["Location"][0] in Locations
              && "ReviewBody" in form && form["ReviewBody"][0] != ""
    ensures r.Success? ==> r.value == (form["Location"][0], form["ReviewBody"][0])
    ensures r.Failure? ==> r.error == MissingFields
  {
    var location := FirstValue(form, "Location");
    var body := FirstValue(form, "ReviewBody");
    var location := if location == Some("") || location.None? || location.value !in Locations then None else location;
    var body := if body == Some("") then None else body;
    if location.None? || body.None? then Failure(MissingFields)
    else Success((location.value, body.value))
  }

  /**
   * The outcome of submitting the raw body `body`. `decode` stands for
   * decoding the bytes as UTF-8 and splitting them into form fields; `id`
   * and `now` are the fresh identifier and the current time.
   */
  function Submit(body: seq<bv8>, decode: seq<bv8> -> Option<Params>, id: string, now: DateTime)
    : (r: Result<Review, SubmitError>)
    requires decode(body).Some? ==> WellFormedParams(decode(body).value)
    ensures body == [] ==> r == Failure(EmptyBody)
    ensures body != [] && decode(body).None? ==> r == Failure(InvalidFormat)
    ensures body != [] && decode(body).Some? ==>
              (r.Success? <==> ValidateFields(decode(body).value).Success?)
    ensures r.Failure? && body != [] && decode(body).Some? ==> r.error == MissingFields
    ensures r.Success? ==>
              && r.value.id == id && r.value.timestamp == now && r.value.sentiment.None?
              && r.value.location in Locations && r.value.body != ""
              && r.value.location == decode(body).value["Location"][0]
              && r.value.body == decode(body).value["ReviewBody"][0]
  {
    if body == [] then Failure(EmptyBody)
    else match decode(body)
      case None => Failure(InvalidFormat)
      case Some(form) =>
        match ValidateFields(form)
        case Failure(e) => Failure(e)
        case Success((location, text)) => Success(Review(id, text, location, now, None))
  }
}
