# Contact form submission path, modelled in Dafny

This project models the one part of the portfolio site that has inputs,
outputs and failure rules: the contact form. It has two layers.

* The **form controller** in `components/Contact.tsx` holds four string
  fields (`name`, `email`, `message` and the hidden `honeypot`), an error
  map and an `isSubmitting` flag. `validateForm` builds a fresh error map
  by checking each visible field on its own. `handleChange` stores one
  field and clears only that field's error. `handleSubmit` validates,
  posts the fields, reacts to the reply and always clears `isSubmitting`.
* The **endpoint** `POST /api/contact` in `app/api/contact/route.ts` is
  stateless. It runs a fixed chain of checks: the honeypot (a filled one
  gets a silent 200), then the required fields (400), then the email shape
  (400), then acceptance (200, and the content is logged). A body that
  cannot be read gives 500.

Files, one module each:

* `text.dfy` (`Text`): JavaScript whitespace, `trim()` and `String.length`
  in UTF-16 code units.
* `email_pattern.dfy` (`EmailPattern`): the pattern
  `^[^\s@]+@[^\s@]+\.[^\s@]+$` as a match predicate, and a field-by-field
  description proved to accept the same strings. The description: no
  whitespace, exactly one `@`, something before it, and a `.` after it
  that is neither the first nor the last character of the domain. It is a
  loose shape test, not the addr-spec grammar of section 3.4.1 of
  RFC 5322.
* `contact_form.dfy` (`ContactForm`): the form record and the field
  checks. `FormState` with the pure transitions `Change` and `Submit`
  specifies the class `Controller`, whose methods `ValidateForm`,
  `HandleChange` and `HandleSubmit` update its fields in place.
* `contact_route.dfy` (`ContactRoute`): the handler `Post`, from a parsed
  body to a reply (status, `success`, `message`) and what it logged.
* `form_flow.dfy` (`FormFlow`): the two layers together. `Transmit` is
  `JSON.stringify` of the form as the handler reads it back. `Deliver` is
  the reply as `fetch` hands it to the form. Neither throws on a 400 or
  500 status.

Translation keys (`nameRequired`, `emailInvalid`, ...) are opaque tags.
Toasts are returned as values. The awaited network round trip is a
parameter of `HandleSubmit`: a parsed reply, or a failure.

The email pattern is tested on the raw, untrimmed value, in the form as
in the endpoint. So an address with a space around it is reported invalid
by the form, not missing. The endpoint neither trims nor checks message
length. So it accepts a whitespace-only name or a one-character message
that the form rejects. The converse holds: everything the form accepts
gets status 200 from the endpoint. The form requires a trimmed message of
at least ten UTF-16 code units. A null JSON body makes the endpoint's
destructuring throw, which the model reports as the 500 reply.

## Model

| member | source | states |
|---|---|---|
| Text.TrimStartSpec | components/Contact.tsx:77 | the start of `trim()` drops exactly the leading whitespace: the result is a suffix of the input, everything cut is whitespace, and the result starts with a non-space character |
| Text.TrimEndSpec | components/Contact.tsx:77 | the end of `trim()` drops exactly the trailing whitespace: the result is a prefix, everything cut is whitespace, and the result ends with a non-space character |
| Text.TrimSpec | components/Contact.tsx:77 | `trim()` returns the infix between leading and trailing whitespace; it is empty iff the string is all whitespace, and otherwise begins and ends with a non-space character |
| Text.Utf16LengthBounds | components/Contact.tsx:89 | `.length` counts each character once or twice, between the character count and twice it, and equals the character count when all characters are in the Basic Multilingual Plane |
| EmailPattern.IndexOf | components/Contact.tsx:83 | gives the first position of a character: that position holds it and no earlier one does; the string length when it is absent |
| EmailPattern.MatchesIffShaped | components/Contact.tsx:83 | the regular expression accepts a string iff it has no whitespace, exactly one `@` with a non-empty part before it, and a `.` after it that is neither the first nor the last character of the domain (both directions) |
| ContactForm.FormData.With | components/Contact.tsx:101 | `{ ...prev, [name]: value }` sets the named field to the value and leaves the other three as they were |
| ContactForm.NameErrorIff | components/Contact.tsx:77-79 | a name error is present iff the name is all whitespace (empty after trim), and it is always the `nameRequired` tag |
| ContactForm.EmailErrorCases | components/Contact.tsx:81-85 | the email gets at most one error: `emailRequired` iff it is all whitespace; `emailInvalid` iff it is not, yet the raw string lacks the address shape; no error iff the raw string has the address shape |
| ContactForm.MessageErrorCases | components/Contact.tsx:87-91 | the message gets at most one error: `messageRequired` iff it is all whitespace; `messageMinLength` iff not, yet the trimmed text is under ten code units; no error iff the trimmed text has at least ten |
| ContactForm.FieldErrorsUnion | components/Contact.tsx:75-91 | the fresh error map is the union of independent per-field failures: each visible field has an entry iff its own check fails, with that check's tag; the honeypot never has one |
| ContactForm.ValidIff | components/Contact.tsx:74-94 | validation passes iff the name is not all whitespace, the raw email has the address shape, and the trimmed message has at least ten code units |
| ContactForm.MessageLengthInCharacters | components/Contact.tsx:89 | a trimmed message of at least ten characters never gets a message error; for text inside the Basic Multilingual Plane, it has no message error iff it has at least ten characters once trimmed |
| ContactForm.PaddedEmailIsInvalid | components/Contact.tsx:81-85 | a well-shaped address with whitespace added before or after it is reported `emailInvalid`, not `emailRequired` |
| ContactForm.NoAtSignExample | components/Contact.tsx:83 | `not-an-email` is reported invalid |
| ContactForm.ShortAddressExample | components/Contact.tsx:83 | `a@b.co` gets no email error |
| ContactForm.MessageLengthExamples | components/Contact.tsx:87-91 | `short` is too short, `exactly ten` has no message error |
| ContactForm.Change | components/Contact.tsx:97-106 | an edit sets only field `f` to `v`; it removes only `f`'s error, keeps every other error and its tag, adds no error, and leaves `isSubmitting` alone |
| ContactForm.ChangeIdempotent | components/Contact.tsx:100-105 | repeating the same edit changes nothing further and does not bring a cleared error back |
| ContactForm.Submit | components/Contact.tsx:108-142 | the request is sent iff validation passes. If it fails: fields and `isSubmitting` stay, the errors become the fresh map, the generic error toast shows. If it passes: the body is the current fields and `isSubmitting` ends false. Success empties all four fields and shows the success toast. Failure or exception keeps the fields. The server's text is shown, verbatim, iff present and non-empty |
| ContactForm.Controller.constructor | components/Contact.tsx:65-72 | the form starts with four empty fields, no errors and `isSubmitting` false |
| ContactForm.Controller.ValidateForm | components/Contact.tsx:74-95 | the error map is replaced wholesale by the fresh per-field map, whatever it held before, and the result is true iff that map is empty |
| ContactForm.Controller.HandleChange | components/Contact.tsx:97-106 | the object's new state is `Change` of its old state |
| ContactForm.Controller.HandleSubmit | components/Contact.tsx:108-142 | the object's new state, the request sent and the toast shown are those `Submit` gives for the old state and the round-trip outcome |
| ContactRoute.Post | app/api/contact/route.ts:16-90 | `success` is true iff the status is 200, on every path including 500; the status is 500 iff the body did not parse, or parsed to `null` (whose destructuring throws); something is logged only on acceptance, and it is exactly the submitted name, email and message |
| ContactRoute.HoneypotAlwaysSucceeds | app/api/contact/route.ts:22-28 | a non-empty honeypot gives 200, `success: true`, "Message sent successfully", whatever the other properties are, and nothing is logged |
| ContactRoute.MissingFieldRejected | app/api/contact/route.ts:31-36 | with an empty honeypot, a missing or empty name, email or message gives 400, `success: false`, "All fields are required" |
| ContactRoute.InvalidEmailRejected | app/api/contact/route.ts:39-45 | with an empty honeypot and all properties present, an email without the address shape gives 400, "Invalid email address" |
| ContactRoute.AcceptedIff | app/api/contact/route.ts:22-82 | a body is accepted and logged iff the honeypot is empty, all three properties are non-empty, and the email has the address shape; acceptance is exactly the reply 200 "Message sent successfully!" |
| ContactRoute.ReplyIsOneOfFive | app/api/contact/route.ts:16-90 | every reply is one of the five the handler writes out |
| ContactRoute.CheckOrderExamples | app/api/contact/route.ts:22-45 | a filled honeypot with an empty name still gets 200; an empty name with a malformed email gets the missing-fields reply, not the invalid-email one |
| ContactRoute.SpamReplyMimicsAcceptance | app/api/contact/route.ts:22-82 | a filled honeypot gets the status and `success` flag of an accepted submission; only the message text differs, by the missing `!` |
| FormFlow.ClientValidServerAccepts | app/api/contact/route.ts:31-45 | whatever passes the form's validation with an empty honeypot is accepted by the endpoint and logged as sent |
| FormFlow.ClientValidServerOk | app/api/contact/route.ts:22-45 | whatever passes the form's validation gets 200 and `success: true`, whether or not the honeypot is filled |
| FormFlow.ServerSkipsTrimAndLength | app/api/contact/route.ts:31-45 | the endpoint accepts any non-empty name and message with a well-shaped email and an empty honeypot; it does not trim and has no minimum length |
| FormFlow.BlankNameOnlyServerAccepts | app/api/contact/route.ts:31-36 | a non-empty whitespace-only name is reported `nameRequired` by the form yet accepted by the endpoint |
| FormFlow.ShortMessageOnlyServerAccepts | app/api/contact/route.ts:31-36 | a non-empty message under ten code units once trimmed gets a message error from the form yet is accepted by the endpoint |
| FormFlow.RoundTripClearsForm | components/Contact.tsx:129-141 | a submit of a valid form whose reply comes from the endpoint sends the fields as they were, then leaves the form in its initial state (empty fields, no errors, not submitting) with the success toast |

## Left out

- The `fetch` and `response.json()` calls and the handler's `request.json()` are inputs here, not I/O. `HandleSubmit` takes the round-trip outcome as a parameter, and `Post` takes the body as it was parsed.
- Property values in the JSON body that are not strings (numbers, booleans, arrays, objects) are not modelled. A body property is a string or missing. The form only ever sends strings.
- Unpaired UTF-16 surrogates are not modelled. A Dafny character is a Unicode scalar value. The whitespace set and the UTF-16 length are exact for every string without them.
- React state updates are modelled as immediate assignments. `handleChange` sets the cleared error to `undefined`; the model removes the key. The form only ever tests an error for truthiness, so both read the same.
- `ContactForm.Controller.HandleSubmit` runs in one step, so the state while the request is outstanding (`isSubmitting` true) is not observable. Preventing a second submit by disabling the button is not modelled.
- Toast rendering, `useTranslations` lookups and `console.error` are left out. The `console.log` of an accepted submission is the `logged` part of the handler's result.
- The email-service integration is left out: it exists only as a TODO comment in the handler.
- Animation, layout and the other components of the site are left out: they have no behaviour to state.
