/** The `POST /api/contact` handler: a stateless chain of early returns
    (spam honeypot, required fields, email shape, accept) inside a
    try/catch that turns any exception into a 500 reply. */
module ContactRoute {
  import opened Wrappers
  import opened Text
  import opened EmailPattern

  /** What `await request.json()` and the destructuring of its result
      produced: the body did not parse, it parsed to `null` (destructuring
      `null` throws), or it parsed to a value whose four properties are
      each a string or missing. */
  datatype Body =
    | Unparsable
    | NullBody
    | Fields(name: Option<string>, email: Option<string>, message: Option<string>, honeypot: Option<string>)

  /** The JSON reply: its HTTP status, `success` flag and `message`. */
  datatype Reply = Reply(status: int, success: bool, message: string)

  /** The content written to the operational log on acceptance. */
  datatype Submission = Submission(name: string, email: string, message: string)

  /** The reply together with what was logged, if anything. */
  datatype Handled = Handled(reply: Reply, logged: Option<Submission>)

  const SpamCoverMessage := "Message sent successfully"
  const MissingFieldsMessage := "All fields are required"
  const InvalidEmailMessage := "Invalid email address"
  const AcceptedMessage := "Message sent successfully!"
  const FailureMessage := "Failed to send message. Please try again."

  /** JavaScript truthiness of a string property: present and non-empty. */
  predicate Truthy(v: Option<string>) {
    v.Some? && v.value != ""
  }

  /** The handler. */
  function Post(body: Body): (h: Handled)
    ensures h.reply.success <==> h.reply.status == 200
    ensures h.reply.status == 500 <==> !body.Fields?
    ensures h.logged.Some? ==> h.reply == Reply(200, true, AcceptedMessage)
    ensures h.logged.Some? ==>
      body.Fields? && Truthy(body.name) && Truthy(body.email) && Truthy(body.message)
      && h.logged.value == Submission(body.name.value, body.email.value, body.message.value)
  {
    match body
    case Unparsable =>
      Handled(Reply(500, false, FailureMessage), None)
    case NullBody =>
      Handled(Reply(500, false, FailureMessage), None)
    case Fields(name, email, message, honeypot) =>
      if Truthy(honeypot) then
        Handled(Reply(200, true, SpamCoverMessage), None)
      else if !Truthy(name) || !Truthy(email) || !Truthy(message) then
        Handled(Reply(400, false, MissingFieldsMessage), None)
      else if !Matches(email.value) then
        Handled(Reply(400, false, InvalidEmailMessage), None)
      else
        Handled(Reply(200, true, AcceptedMessage),
                Some(Submission(name.value, email.value, message.value)))
  }

  /** A filled honeypot is answered with 200 and `success: true` whatever
      the other properties hold, and nothing is logged. */
  lemma HoneypotAlwaysSucceeds(name: Option<string>, email: Option<string>, message: Option<string>, honeypot: Option<string>)
    requires Truthy(honeypot)
    ensures Post(Fields(name, email, message, honeypot)) == Handled(Reply(200, true, SpamCoverMessage), None)
  {
  }

  /** With an empty honeypot, a missing or empty required property is
      rejected with 400 before the email is looked at. */
  lemma MissingFieldRejected(name: Option<string>, email: Option<string>, message: Option<string>, honeypot: Option<string>)
    requires !Truthy(honeypot)
    requires !Truthy(name) || !Truthy(email) || !Truthy(message)
    ensures Post(Fields(name, email, message, honeypot)) == Handled(Reply(400, false, MissingFieldsMessage), None)
  {
  }

  /** With an empty honeypot and all properties present, an email without
      the address shape is rejected with 400. */
  lemma InvalidEmailRejected(name: string, email: string, message: string, honeypot: Option<string>)
    requires !Truthy(honeypot)
    requires name != "" && email != "" && message != ""
    requires !ShapedAsAddress(email)
    ensures Post(Fields(Some(name), Some(email), Some(message), honeypot)) == Handled(Reply(400, false, InvalidEmailMessage), None)
  {
    MatchesIffShaped(email);
  }

  /** A submission is accepted and logged exactly when the honeypot is
      empty, all three properties are non-empty and the email has the
      address shape. No trimming and no minimum message length apply. */
  lemma AcceptedIff(body: Body)
    ensures Post(body).logged.Some? <==>
      body.Fields? && !Truthy(body.honeypot)
      && Truthy(body.name) && Truthy(body.email) && Truthy(body.message)
      && ShapedAsAddress(body.email.value)
    ensures Post(body).logged.Some? <==> Post(body).reply == Reply(200, true, AcceptedMessage)
  {
    if body.Fields? && body.email.Some? {
      MatchesIffShaped(body.email.value);
    }
  }

  /** The reply is one of the five the handler can give. */
  lemma ReplyIsOneOfFive(body: Body)
    ensures Post(body).reply in {
      Reply(200, true, SpamCoverMessage),
      Reply(400, false, MissingFieldsMessage),
      Reply(400, false, InvalidEmailMessage),
      Reply(200, true, AcceptedMessage),
      Reply(500, false, FailureMessage)}
  {
  }

  /** The checks run in a fixed order: a filled honeypot wins over an empty
      name, and an empty name wins over a malformed email. */
  lemma CheckOrderExamples()
    ensures Post(Fields(Some(""), Some("a@b.co"), Some("hello there"), Some("bot"))).reply.status == 200
    ensures Post(Fields(Some(""), Some("not-an-email"), Some("hello there"), Some(""))).reply.message == MissingFieldsMessage
  {
  }

  /** The spam reply has the status and flag of an accepted one; only its
      message text (no trailing `!`) differs. */
  lemma SpamReplyMimicsAcceptance(b: Body, spam: Body)
    requires Post(b).logged.Some?
    requires spam.Fields? && Truthy(spam.honeypot)
    ensures Post(spam).reply.status == Post(b).reply.status
    ensures Post(spam).reply.success == Post(b).reply.success
    ensures Post(spam).reply.message != Post(b).reply.message
  {
  }
}
