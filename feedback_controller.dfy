/**
 * Feedback submission (src/controllers/feedbackController.js): a chain of
 * guards on the raw input, then one insert of the trimmed entry.
 */
module FeedbackController {
  import opened Wrappers
  import opened JsString
  import opened FeedbackModel

  const EmptyMessage := "Feedback message cannot be empty."
  const MessageTooLongMessage := "Feedback message exceeds maximum length of 500 characters."
  const ContactTooLongMessage := "Contact information exceeds maximum length of 100 characters."
  const SubmittedMessage := "Feedback submitted successfully! Thank you for your input."
  const ServerErrorMessage := "Server error during feedback submission."

  datatype Reply = Submitted(message: string) | Error(status: int, message: string) {
    function Status(): int {
      match this
      case Submitted(_) => 201
      case Error(status, _) => status
    }
  }

  /** Whether the raw input passes the three guards. */
  predicate Acceptable(message: Option<string>, contactInfo: Option<string>) {
    && Truthy(message) && Trim(message.value) != []
    && |message.value| <= MessageMaxLength
    && !(Truthy(contactInfo) && |contactInfo.value| > ContactInfoMaxLength)
  }

  /** `contactInfo ? contactInfo.trim() : undefined`, before the setter trims it again. */
  function ContactOf(contactInfo: Option<string>): Option<string> {
    if Truthy(contactInfo) then Some(Trim(contactInfo.value)) else None
  }

  /** The entry an acceptable submission stores: trimmed fields that pass the schema. */
  function EntryFor(message: Option<string>, contactInfo: Option<string>, now: int): (f: Feedback)
    requires Acceptable(message, contactInfo)
    ensures f.message == Trim(message.value) && f.createdAt == now
    ensures f.contactInfo == ContactOf(contactInfo)
    ensures SchemaValid(f) && Trimmed(f)
  {
    var f := NewFeedback(Trim(message.value), ContactOf(contactInfo), now);
    assert f.message == Trim(message.value) by { TrimIdempotent(message.value); }
    assert f.contactInfo == ContactOf(contactInfo) by {
      if Truthy(contactInfo) {
        TrimIdempotent(contactInfo.value);
      }
    }
    assert f.message != [] && |f.message| <= MessageMaxLength;
    assert f.contactInfo.Some? ==> |f.contactInfo.value| <= |contactInfo.value| <= ContactInfoMaxLength;
    f
  }

  /**
   * What a submission answers and stores. The guards run in order on the raw
   * input; whatever passes them also passes the schema, so only the database
   * can still refuse it.
   */
  function SubmitFeedback(stored: seq<Feedback>, message: Option<string>, contactInfo: Option<string>,
                          now: int, available: bool): (out: (Reply, seq<Feedback>))
    ensures !Truthy(message) || AllWhiteSpace(message.value) ==> out == (Error(400, EmptyMessage), stored)
    ensures Truthy(message) && !AllWhiteSpace(message.value) && |message.value| > MessageMaxLength ==>
              out == (Error(400, MessageTooLongMessage), stored)
    ensures Truthy(message) && !AllWhiteSpace(message.value) && |message.value| <= MessageMaxLength
            && Truthy(contactInfo) && |contactInfo.value| > ContactInfoMaxLength ==>
              out == (Error(400, ContactTooLongMessage), stored)
    ensures out.0.Status() == 201 <==> Acceptable(message, contactInfo) && available
    ensures Acceptable(message, contactInfo) && !available ==> out == (Error(500, ServerErrorMessage), stored)
    ensures out.0.Status() != 201 ==> out.1 == stored
    ensures out.0.Status() == 201 ==>
              out == (Submitted(SubmittedMessage), stored + [EntryFor(message, contactInfo, now)])
  {
    if !Truthy(message) || Trim(message.value) == [] then (Error(400, EmptyMessage), stored)
    else if |message.value| > MessageMaxLength then (Error(400, MessageTooLongMessage), stored)
    else if Truthy(contactInfo) && |contactInfo.value| > ContactInfoMaxLength then (Error(400, ContactTooLongMessage), stored)
    else
      var saved := InsertOutcome(stored, EntryFor(message, contactInfo, now), available);
      if saved.0.Fail? then (Error(500, ServerErrorMessage), stored)
      else (Submitted(SubmittedMessage), saved.1)
  }
}
