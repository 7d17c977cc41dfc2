/** The client side of the contact form: the four form fields, the per-field
    error map, the `isSubmitting` flag, and the three handlers that change
    them (validate, edit one field, submit). Translation keys are kept as
    opaque tags; toast notifications are returned as values; the network
    round trip is an input outcome. */
module ContactForm {
  import opened Wrappers
  import opened Text
  import opened EmailPattern

  datatype Field = Name | Email | Message | Honeypot

  /** The translation keys the form shows under a field. */
  datatype ErrorTag = NameRequired | EmailRequired | EmailInvalid | MessageRequired | MessageMinLength

  /** The form record; `honeypot` is a hidden input a person leaves empty. */
  datatype FormData = FormData(name: string, email: string, message: string, honeypot: string) {
    function Get(f: Field): string {
      match f
      case Name => name
      case Email => email
      case Message => message
      case Honeypot => honeypot
    }

    /** `{ ...prev, [f]: v }` */
    function With(f: Field, v: string): (d: FormData)
      ensures d.Get(f) == v
      ensures forall g :: g != f ==> d.Get(g) == Get(g)
    {
      match f
      case Name => this.(name := v)
      case Email => this.(email := v)
      case Message => this.(message := v)
      case Honeypot => this.(honeypot := v)
    }
  }

  const EmptyForm := FormData("", "", "", "")

  /** `Partial<FormData>` holding an error text per field; a field without
      an entry shows no error. */
  type Errors = map<Field, ErrorTag>

  const MinMessageLength := 10

  /** The name check (`!formData.name.trim()`). */
  function NameError(name: string): Option<ErrorTag> {
    if Trim(name) == [] then Some(NameRequired) else None
  }

  /** The email check: emptiness is judged on the trimmed value, the
      pattern on the raw one. */
  function EmailError(email: string): Option<ErrorTag> {
    if Trim(email) == [] then Some(EmailRequired)
    else if !Matches(email) then Some(EmailInvalid)
    else None
  }

  /** The message check: both emptiness and length are judged on the
      trimmed value. */
  function MessageError(message: string): Option<ErrorTag> {
    if Trim(message) == [] then Some(MessageRequired)
    else if Utf16Length(Trim(message)) < MinMessageLength then Some(MessageMinLength)
    else None
  }

  /** A name error is present exactly when the name is all whitespace,
      and it is always "name required". */
  lemma NameErrorIff(name: string)
    ensures NameError(name).Some? <==> AllSpace(name)
    ensures NameError(name).Some? ==> NameError(name).value == NameRequired
  {
    TrimSpec(name);
  }

  /** The email gets at most one error: "required" for an all-whitespace
      value, otherwise "invalid" exactly when the RAW value lacks the
      address shape. */
  lemma EmailErrorCases(email: string)
    ensures EmailError(email) == Some(EmailRequired) <==> AllSpace(email)
    ensures EmailError(email) == Some(EmailInvalid) <==>
      !AllSpace(email) && !ShapedAsAddress(email)
    ensures EmailError(email) == None <==> ShapedAsAddress(email)
  {
    TrimSpec(email);
    MatchesIffShaped(email);
    if ShapedAsAddress(email) {
      var at := IndexOf(email, '@');
      assert !IsSpace(email[at]);
    }
  }

  /** The message gets at most one error: "required" for an all-whitespace
      value, otherwise "too short" exactly when the trimmed text is under
      ten UTF-16 code units. */
  lemma MessageErrorCases(message: string)
    ensures MessageError(message) == Some(MessageRequired) <==> AllSpace(message)
    ensures MessageError(message) == Some(MessageMinLength) <==>
      !AllSpace(message) && Utf16Length(Trim(message)) < MinMessageLength
    ensures MessageError(message) == None <==>
      Utf16Length(Trim(message)) >= MinMessageLength
  {
    TrimSpec(message);
  }

  /** The check that applies to one field; the honeypot has none. */
  function FieldCheck(d: FormData, f: Field): Option<ErrorTag> {
    match f
    case Name => NameError(d.name)
    case Email => EmailError(d.email)
    case Message => MessageError(d.message)
    case Honeypot => None
  }

  /** Adds the outcome of one field's check to an error map. */
  function Note(m: Errors, f: Field, e: Option<ErrorTag>): Errors {
    if e.Some? then m[f := e.value] else m
  }

  /** The error map a validation pass produces, starting from an empty map:
      one entry for every field whose own check fails, each check made
      independently of the others. */
  function FieldErrors(d: FormData): Errors
  {
    Note(Note(Note(map[], Name, NameError(d.name)),
              Email, EmailError(d.email)),
         Message, MessageError(d.message))
  }

  /** The error set is the union of the per-field failures: a field has
      an entry exactly when its own check fails, with that check's tag, and
      the honeypot never has one. */
  lemma FieldErrorsUnion(d: FormData)
    ensures Honeypot !in FieldErrors(d)
    ensures Name in FieldErrors(d) <==> AllSpace(d.name)
    ensures Email in FieldErrors(d) <==> !ShapedAsAddress(d.email)
    ensures Message in FieldErrors(d) <==> Utf16Length(Trim(d.message)) < MinMessageLength
    ensures forall f | f in FieldErrors(d) :: Some(FieldErrors(d)[f]) == FieldCheck(d, f)
  {
    NameErrorIff(d.name);
    EmailErrorCases(d.email);
    MessageErrorCases(d.message);
  }

  /** A form passes validation exactly when the name is not all whitespace,
      the raw email has the address shape and the trimmed message is at
      least ten units long. */
  lemma ValidIff(d: FormData)
    ensures FieldErrors(d) == map[] <==>
      !AllSpace(d.name) && ShapedAsAddress(d.email)
      && Utf16Length(Trim(d.message)) >= MinMessageLength
  {
    FieldErrorsUnion(d);
    if FieldErrors(d) != map[] {
      var f :| f in FieldErrors(d);
    }
  }

  /** The length rule in characters: ten characters after trimming always
      suffice, and for text inside the Basic Multilingual Plane the
      threshold is exactly ten characters. */
  lemma MessageLengthInCharacters(message: string)
    ensures |Trim(message)| >= MinMessageLength ==> MessageError(message) == None
    ensures (forall k | 0 <= k < |Trim(message)| :: Trim(message)[k] as int < 0x1_0000) ==>
      (MessageError(message) == None <==> |Trim(message)| >= MinMessageLength)
  {
    MessageErrorCases(message);
    Utf16LengthBounds(Trim(message));
  }

  /** Padding a well-shaped address with whitespace turns it into an
      invalid one, not a missing one. */
  lemma PaddedEmailIsInvalid(address: string, pad: string)
    requires ShapedAsAddress(address)
    requires pad != [] && AllSpace(pad)
    ensures EmailError(pad + address) == Some(EmailInvalid)
    ensures EmailError(address + pad) == Some(EmailInvalid)
  {
    EmailErrorCases(pad + address);
    EmailErrorCases(address + pad);
    assert (pad + address)[0] == pad[0];
    assert (address + pad)[|address|] == pad[0];
    var at := IndexOf(address, '@');
    assert (pad + address)[|pad| + at] == '@';
    assert (address + pad)[at] == '@';
  }

  /** An address without `@` is reported invalid. */
  lemma NoAtSignExample()
    ensures EmailError("not-an-email") == Some(EmailInvalid)
  {
  }

  /** A minimal address with a one-letter local part and domain is accepted. */
  lemma ShortAddressExample()
    ensures EmailError("a@b.co") == None
  {
    var good := "a@b.co";
    assert MatchesAt(good, 1, 3);
  }

  /** Five characters are too few for a message, eleven are enough. */
  lemma MessageLengthExamples()
    ensures MessageError("short") == Some(MessageMinLength)
    ensures MessageError("exactly ten") == None
  {
  }

  /** The whole observable state of the form. */
  datatype FormState = FormState(data: FormData, errors: Errors, submitting: bool)

  const InitialState := FormState(EmptyForm, map[], false)

  /** Editing field `f` to `v`: only that field changes, and only its own
      error is dropped, if it had one. No validation runs. */
  function Change(s: FormState, f: Field, v: string): (r: FormState)
    ensures r.data.Get(f) == v
    ensures forall g :: g != f ==> r.data.Get(g) == s.data.Get(g)
    ensures f !in r.errors
    ensures forall g | g != f :: (g in r.errors <==> g in s.errors)
    ensures forall g | g in r.errors :: g in s.errors && r.errors[g] == s.errors[g]
    ensures r.submitting == s.submitting
  {
    FormState(s.data.With(f, v),
              if f in s.errors then s.errors - {f} else s.errors,
              s.submitting)
  }

  /** Repeating the same edit changes nothing further and brings no error
      back. */
  lemma ChangeIdempotent(s: FormState, f: Field, v: string)
    ensures Change(Change(s, f, v), f, v) == Change(s, f, v)
  {
  }

  /** What the awaited `fetch` and `response.json()` produced: a parsed
      body with its `success` flag and optional `message`, or an exception
      (network failure or unparsable body). */
  datatype FetchOutcome = Responded(success: bool, message: Option<string>) | Failed

  /** The notification shown: `t('success')`, `t('error')`, or the
      server's own message. */
  datatype Toast = SuccessToast | GenericErrorToast | ServerErrorToast(text: string)

  /** The state after a submit, the request body sent (if any) and the
      notification shown. */
  datatype SubmitResult = SubmitResult(state: FormState, request: Option<FormData>, toast: Toast)

  /** A submit: validate; if invalid, show the generic error and stop;
      otherwise send the current fields, react to the outcome and clear
      the submitting flag whatever happened. */
  function Submit(s: FormState, outcome: FetchOutcome): (r: SubmitResult)
    ensures r.request.None? <==> FieldErrors(s.data) != map[]
    ensures r.request.None? ==>
      r.state == s.(errors := FieldErrors(s.data)) && r.toast == GenericErrorToast
    ensures r.request.Some? ==>
      r.request.value == s.data && r.state.errors == map[] && !r.state.submitting
    ensures r.request.Some? && outcome.Responded? && outcome.success ==>
      r.state.data == EmptyForm && r.toast == SuccessToast
    ensures r.request.Some? && !(outcome.Responded? && outcome.success) ==>
      r.state.data == s.data
    ensures r.toast == SuccessToast <==>
      r.request.Some? && outcome.Responded? && outcome.success
    ensures r.toast.ServerErrorToast? <==>
      r.request.Some? && outcome.Responded? && !outcome.success
      && outcome.message.Some? && outcome.message.value != ""
    ensures r.toast.ServerErrorToast? ==>
      outcome.Responded? && outcome.message.Some? && r.toast.text == outcome.message.value
  {
    var errors := FieldErrors(s.data);
    if errors != map[] then
      SubmitResult(s.(errors := errors), None, GenericErrorToast)
    else
      var sent := FormState(s.data, errors, false);
      match outcome
      case Responded(success, message) =>
        if success then
          SubmitResult(FormState(EmptyForm, map[], false), Some(s.data), SuccessToast)
        else if message.Some? && message.value != "" then
          SubmitResult(sent, Some(s.data), ServerErrorToast(message.value))
        else
          SubmitResult(sent, Some(s.data), GenericErrorToast)
      case Failed =>
        SubmitResult(sent, Some(s.data), GenericErrorToast)
  }

  /** The form component's state and handlers. */
  class Controller {
    var formData: FormData
    var errors: Errors
    var isSubmitting: bool

    function State(): FormState
      reads this
    {
      FormState(formData, errors, isSubmitting)
    }

    constructor ()
      ensures State() == InitialState
    {
      formData := EmptyForm;
      errors := map[];
      isSubmitting := false;
    }

    /** `validateForm`: builds a fresh error map field by field, replaces
        the old one with it, and reports whether it is empty. */
    method ValidateForm() returns (valid: bool)
      modifies this`errors
      ensures errors == FieldErrors(formData)
      ensures valid <==> errors == map[]
    {
      var newErrors: Errors := map[];
      var nameError := NameError(formData.name);
      if nameError.Some? {
        newErrors := newErrors[Name := nameError.value];
      }
      var emailError := EmailError(formData.email);
      if emailError.Some? {
        newErrors := newErrors[Email := emailError.value];
      }
      var messageError := MessageError(formData.message);
      if messageError.Some? {
        newErrors := newErrors[Message := messageError.value];
      }
      errors := newErrors;
      valid := |newErrors.Keys| == 0;
    }

    /** `handleChange`: stores the new value of one field and drops that
        field's error if it was showing. */
    method HandleChange(f: Field, v: string)
      modifies this`formData, this`errors
      ensures State() == Change(old(State()), f, v)
    {
      formData := formData.With(f, v);
      if f in errors {
        errors := errors - {f};
      }
    }

    /** `handleSubmit`, with the awaited round trip supplied as `outcome`.
        Returns the request body it sent, if any, and the toast shown. */
    method HandleSubmit(outcome: FetchOutcome) returns (request: Option<FormData>, toast: Toast)
      modifies this
      ensures SubmitResult(State(), request, toast) == Submit(old(State()), outcome)
    {
      var valid := ValidateForm();
      if !valid {
        toast := GenericErrorToast;
        request := None;
        return;
      }
      isSubmitting := true;
      request := Some(formData);
      match outcome {
        case Responded(success, message) =>
          if success {
            toast := SuccessToast;
            formData := EmptyForm;
            errors := map[];
          } else if message.Some? && message.value != "" {
            toast := ServerErrorToast(message.value);
          } else {
            toast := GenericErrorToast;
          }
        case Failed =>
          toast := GenericErrorToast;
      }
      isSubmitting := false;
    }
  }
}
