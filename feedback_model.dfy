/**
 * The Feedback collection (src/models/Feedback.js): a message with optional
 * contact details, both trimmed when assigned, with length limits and a
 * creation-time default.
 */
module FeedbackModel {
  import opened Wrappers
  import opened JsString

  const MessageMaxLength: nat := 500
  const ContactInfoMaxLength: nat := 100

  datatype Feedback = Feedback(message: string, contactInfo: Option<string>, createdAt: int)

  /** The schema's validators: a non-empty message within 500 characters, contact details within 100. */
  predicate SchemaValid(f: Feedback) {
    && f.message != ""
    && |f.message| <= MessageMaxLength
    && (f.contactInfo.Some? ==> |f.contactInfo.value| <= ContactInfoMaxLength)
  }

  /** Both text fields carry no surrounding whitespace. */
  predicate Trimmed(f: Feedback) {
    && Trim(f.message) == f.message
    && (f.contactInfo.Some? ==> Trim(f.contactInfo.value) == f.contactInfo.value)
  }

  /** `new Feedback({ message, contactInfo })`: the trim setters run on assignment and `createdAt` defaults to now. */
  function NewFeedback(message: string, contactInfo: Option<string>, now: int): (f: Feedback)
    ensures f.message == Trim(message) && f.createdAt == now
    ensures f.contactInfo.None? <==> contactInfo.None?
    ensures contactInfo.Some? ==> f.contactInfo == Some(Trim(contactInfo.value))
    ensures Trimmed(f)
  {
    TrimIdempotent(message);
    TrimIdempotent(if contactInfo.Some? then contactInfo.value else "");
    Feedback(Trim(message), if contactInfo.Some? then Some(Trim(contactInfo.value)) else None, now)
  }

  datatype SaveError = ValidationError | StoreUnavailable

  /**
   * Saving a new feedback entry: the validators run first; `available` stands
   * for whether the database accepts the write.
   */
  function InsertOutcome(stored: seq<Feedback>, f: Feedback, available: bool): (r: (Outcome<SaveError>, seq<Feedback>))
    ensures r.0.Pass? <==> SchemaValid(f) && available
    ensures !SchemaValid(f) ==> r.0 == Fail(ValidationError)
    ensures r.0.Pass? ==> r.1 == stored + [f]
    ensures r.0.Fail? ==> r.1 == stored
  {
    if !SchemaValid(f) then (Fail(ValidationError), stored)
    else if !available then (Fail(StoreUnavailable), stored)
    else (Pass, stored + [f])
  }
}
