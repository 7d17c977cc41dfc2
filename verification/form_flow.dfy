/** The round trip between the form and the endpoint: the form posts all
    four fields as JSON strings, and `fetch` hands the reply's `success`
    and `message` back to it. */
module FormFlow {
  import opened Wrappers
  import opened Text
  import opened EmailPattern
  import opened ContactForm
  import opened ContactRoute

  /** `JSON.stringify(formData)` as the handler reads it back: every
      property present and a string. */
  function Transmit(d: FormData): Body {
    Fields(Some(d.name), Some(d.email), Some(d.message), Some(d.honeypot))
  }

  /** `await response.json()` on the handler's reply: `fetch` does not
      throw on a 400 or 500 status, so every reply reaches the form. */
  function Deliver(reply: Reply): FetchOutcome {
    Responded(reply.success, Some(reply.message))
  }

  /** Whatever passes the form's own validation with an empty honeypot is
      accepted and logged by the endpoint. */
  lemma ClientValidServerAccepts(d: FormData)
    requires FieldErrors(d) == map[]
    requires d.honeypot == ""
    ensures Post(Transmit(d)) ==
      Handled(Reply(200, true, AcceptedMessage), Some(Submission(d.name, d.email, d.message)))
  {
    ValidIff(d);
    assert d.name != "";
    assert d.email != "" by {
      var at := IndexOf(d.email, '@');
      assert d.email[at] == '@';
    }
    assert d.message != "" by {
      TrimSpec(d.message);
    }
    AcceptedIff(Transmit(d));
  }

  /** Whatever passes the form's validation gets status 200 and
      `success: true`, whether or not the honeypot was filled. */
  lemma ClientValidServerOk(d: FormData)
    requires FieldErrors(d) == map[]
    ensures Post(Transmit(d)).reply.status == 200 && Post(Transmit(d)).reply.success
  {
    if d.honeypot == "" {
      ClientValidServerAccepts(d);
    }
  }

  /** The endpoint is weaker than the form: it neither trims nor asks for
      a minimum message length, so it accepts every non-empty name and
      message. */
  lemma ServerSkipsTrimAndLength(d: FormData)
    requires d.honeypot == "" && d.name != "" && d.message != ""
    requires ShapedAsAddress(d.email)
    ensures Post(Transmit(d)).reply == Reply(200, true, AcceptedMessage)
  {
    var at := IndexOf(d.email, '@');
    assert d.email[at] == '@';
    AcceptedIff(Transmit(d));
  }

  /** A non-empty, whitespace-only name: the form reports it missing, the
      endpoint accepts it. */
  lemma BlankNameOnlyServerAccepts(d: FormData)
    requires d.honeypot == "" && d.message != "" && ShapedAsAddress(d.email)
    requires d.name != "" && AllSpace(d.name)
    ensures Name in FieldErrors(d) && FieldErrors(d)[Name] == NameRequired
    ensures Post(Transmit(d)).reply == Reply(200, true, AcceptedMessage)
  {
    FieldErrorsUnion(d);
    NameErrorIff(d.name);
    ServerSkipsTrimAndLength(d);
  }

  /** A message that is non-empty but shorter than ten units once trimmed:
      the form reports it too short (or missing, if it is all whitespace),
      the endpoint accepts it. */
  lemma ShortMessageOnlyServerAccepts(d: FormData)
    requires d.honeypot == "" && d.name != "" && ShapedAsAddress(d.email)
    requires d.message != "" && Utf16Length(Trim(d.message)) < MinMessageLength
    ensures Message in FieldErrors(d)
      && FieldErrors(d)[Message] in {MessageRequired, MessageMinLength}
    ensures Post(Transmit(d)).reply == Reply(200, true, AcceptedMessage)
  {
    FieldErrorsUnion(d);
    MessageErrorCases(d.message);
    ServerSkipsTrimAndLength(d);
  }

  /** A submit whose request reaches the endpoint: a form that validates
      ends up cleared, with no errors, not submitting, after showing the
      success toast; the request carried the fields as they were. */
  lemma RoundTripClearsForm(s: FormState)
    requires FieldErrors(s.data) == map[]
    ensures Submit(s, Deliver(Post(Transmit(s.data)).reply)) ==
      SubmitResult(InitialState, Some(s.data), SuccessToast)
  {
    ClientValidServerOk(s.data);
  }
}
