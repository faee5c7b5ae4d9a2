/** The contact form: per-field errors, clearing on edit, reset on success. */
module ContactPage {
  import Email

  datatype Field = Name | EmailAddress | Message

  /** A record with one string per field; used both for `formData` and for `errors`. */
  datatype ContactFields = ContactFields(name: string, email: string, message: string) {
    function Get(f: Field): string {
      match f
      case Name => name
      case EmailAddress => email
      case Message => message
    }

    /** `{ ...prev, [f]: v }`. */
    function Set(f: Field, v: string): (r: ContactFields)
      ensures r.Get(f) == v
      ensures forall g :: g != f ==> r.Get(g) == Get(g)
    {
      match f
      case Name => this.(name := v)
      case EmailAddress => this.(email := v)
      case Message => this.(message := v)
    }
  }

  const EMPTY_FIELDS := ContactFields("", "", "")

  /** `newErrors`: nothing is trimmed, so white space alone counts as present. */
  function Validate(data: ContactFields): (errors: ContactFields)
    ensures errors.name == if data.name == "" then "Name is required" else ""
    ensures errors.message == if data.message == "" then "Message is required" else ""
    ensures data.email == "" ==> errors.email == "Email is required"
    ensures data.email != "" ==>
      errors.email == if Email.MatchesEmailPattern(data.email) then "" else "Please enter a valid email"
  {
    Email.EmailCheckMatchesPattern(data.email);
    ContactFields(
      if data.name != "" then "" else "Name is required",
      if data.email != "" then (if Email.IsValidEmail(data.email) then "" else "Please enter a valid email")
      else "Email is required",
      if data.message != "" then "" else "Message is required")
  }

  /** No field carries an error. */
  predicate NoErrors(errors: ContactFields) {
    errors.name == "" && errors.email == "" && errors.message == ""
  }

  /** The form is accepted exactly when every field is present and the e-mail matches the pattern. */
  lemma AcceptedIff(data: ContactFields)
    ensures NoErrors(Validate(data)) <==>
      data.name != "" && data.message != "" && Email.MatchesEmailPattern(data.email)
  {
    if Email.MatchesEmailPattern(data.email) {
      var i, j :| Email.MatchesAt(data.email, i, j);
    }
  }

  /** The page's state: `formData`, `errors` and `submitted`. */
  class ContactForm {
    var formData: ContactFields
    var errors: ContactFields
    var submitted: bool

    constructor ()
      ensures formData == EMPTY_FIELDS && errors == EMPTY_FIELDS && !submitted
    {
      formData := EMPTY_FIELDS;
      errors := EMPTY_FIELDS;
      submitted := false;
    }

    /** `handleChange`: set the field and clear only that field's error. */
    method HandleChange(f: Field, value: string)
      modifies this
      ensures formData == old(formData).Set(f, value)
      ensures errors.Get(f) == ""
      ensures forall g :: g != f ==> errors.Get(g) == old(errors).Get(g)
      ensures submitted == old(submitted)
    {
      formData := formData.Set(f, value);
      if errors.Get(f) != "" {
        errors := errors.Set(f, "");
      }
    }

    /** `handleSubmit`: replace the errors wholesale; on success mark submitted and reset the fields. */
    method HandleSubmit() returns (accepted: bool)
      modifies this
      ensures errors == Validate(old(formData))
      ensures accepted <==> NoErrors(errors)
      ensures accepted ==> submitted && formData == EMPTY_FIELDS
      ensures !accepted ==> submitted == old(submitted) && formData == old(formData)
    {
      var newErrors := Validate(formData);
      errors := newErrors;
      accepted := NoErrors(newErrors);
      if accepted {
        submitted := true;
        formData := EMPTY_FIELDS;
      }
    }

    /** The five-second timer after a successful submit. */
    method ExpireSubmitted()
      modifies this
      ensures !submitted && formData == old(formData) && errors == old(errors)
    {
      submitted := false;
    }
  }
}
