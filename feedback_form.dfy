/** The feedback form's state and its three event handlers. Each handler is
    one atomic step: the asynchronous request in the submit handler is an
    outcome passed in by the caller. */
module FeedbackForm {
  import opened JsText
  import opened Validators

  datatype Field = CustomerName | City | ContactNumber | Email | Feedback

  /** The outcome of posting the form: the relay answered with success, it
      answered with failure (and perhaps a message), or the request or the
      parsing of the answer threw. */
  datatype SubmitOutcome = Success | Rejected(message: string) | Exception

  datatype Option<T> = None | Some(value: T)

  /** The validator each handler's `switch` picks for a field. */
  function Validate(f: Field, value: JsString): (r: string)
    ensures r == RequiredMessage(f) <==> AllWs(value)
  {
    match f
    case CustomerName => ValidateCustomerName(value)
    case City => ValidateCity(value)
    case ContactNumber => ValidateContactNumber(value)
    case Email => ValidateEmail(value)
    case Feedback => ValidateFeedback(value)
  }

  function RequiredMessage(f: Field): string {
    match f
    case CustomerName => NameRequired
    case City => CityRequired
    case ContactNumber => ContactRequired
    case Email => EmailRequired
    case Feedback => FeedbackRequired
  }

  /** One value per field: the shape of `formData`, `errors` and `touched`. */
  datatype Fields<T> = Fields(customerName: T, city: T, contactNumber: T, email: T, feedback: T)
  {
    /** `record[name]` */
    function Get(f: Field): T {
      match f
      case CustomerName => customerName
      case City => city
      case ContactNumber => contactNumber
      case Email => email
      case Feedback => feedback
    }

    /** `{ ...record, [name]: v }`: field f becomes v, every other field keeps its value. */
    function With(f: Field, v: T): (r: Fields<T>)
      ensures r.Get(f) == v
      ensures forall g: Field :: g != f ==> r.Get(g) == Get(g)
    {
      match f
      case CustomerName => this.(customerName := v)
      case City => this.(city := v)
      case ContactNumber => this.(contactNumber := v)
      case Email => this.(email := v)
      case Feedback => this.(feedback := v)
    }

    /** `Object.values(record)` */
    function Values(): (vs: seq<T>)
      ensures forall f: Field :: Get(f) in vs
      ensures forall i :: 0 <= i < |vs| ==> exists f: Field :: vs[i] == Get(f)
    {
      assert Get(CustomerName) == customerName && Get(City) == city && Get(ContactNumber) == contactNumber;
      assert Get(Email) == email && Get(Feedback) == feedback;
      [customerName, city, contactNumber, email, feedback]
    }
  }

  /** The same value for every field. */
  function Uniform<T>(v: T): (r: Fields<T>)
    ensures forall f: Field :: r.Get(f) == v
  {
    Fields(v, v, v, v, v)
  }

  const EmptyData: Fields<JsString> := Uniform([])
  const NoErrors: Fields<string> := Uniform("")
  const NoneTouched: Fields<bool> := Uniform(false)
  const AllTouched: Fields<bool> := Uniform(true)

  /** The error of every field for the given values, as the submit handler computes them. */
  function ValidateAll(data: Fields<JsString>): (errs: Fields<string>)
    ensures forall f: Field :: errs.Get(f) == Validate(f, data.Get(f))
  {
    Fields(ValidateCustomerName(data.customerName),
           ValidateCity(data.city),
           ValidateContactNumber(data.contactNumber),
           ValidateEmail(data.email),
           ValidateFeedback(data.feedback))
  }

  class Form {
    var formData: Fields<JsString>
    var errors: Fields<string>
    var touched: Fields<bool>
    var isSubmitting: bool

    /** No submission is in flight between two handler steps. */
    ghost predicate NotSubmitting()
      reads this
    {
      !isSubmitting
    }

    /** The inductive invariant: a field's error is "" until it is touched,
        and from then on it is the validator's verdict on its current value. */
    ghost predicate ErrorsAgree()
      reads this
    {
      forall f: Field :: errors.Get(f) == (if touched.Get(f) then Validate(f, formData.Get(f)) else "")
    }

    /** Whether the page shows the error message under field f. */
    predicate ErrorShown(f: Field)
      reads this
    {
      errors.Get(f) != "" && touched.Get(f)
    }

    constructor ()
      ensures NotSubmitting() && ErrorsAgree()
      ensures formData == EmptyData && errors == NoErrors && touched == NoneTouched
    {
      formData := EmptyData;
      errors := NoErrors;
      touched := NoneTouched;
      isSubmitting := false;
    }

    /** Typing `value` into field f. */
    method HandleChange(f: Field, value: JsString)
      requires NotSubmitting()
      modifies this
      ensures NotSubmitting()
      ensures formData == old(formData).With(f, value)
      ensures touched == old(touched)
      ensures old(touched).Get(f) ==> errors == old(errors).With(f, Validate(f, value))
      ensures !old(touched).Get(f) ==> errors == old(errors)
      ensures old(ErrorsAgree()) ==> ErrorsAgree()
    {
      formData := formData.With(f, value);
      if touched.Get(f) {
        errors := errors.With(f, Validate(f, value));
      }
    }

    /** Field f, whose input holds `value`, losing focus. */
    method HandleBlur(f: Field, value: JsString)
      requires NotSubmitting()
      modifies this
      ensures NotSubmitting()
      ensures formData == old(formData)
      ensures touched == old(touched).With(f, true)
      ensures errors == old(errors).With(f, Validate(f, value))
      ensures old(ErrorsAgree()) && value == formData.Get(f) ==> ErrorsAgree()
    {
      touched := touched.With(f, true);
      errors := errors.With(f, Validate(f, value));
    }

    /** Submitting the form. `request` is the body posted to the relay, if
        any; `outcome` stands for what that request produces and is used only
        when a request is made. */
    method HandleSubmit(outcome: SubmitOutcome) returns (request: Option<Fields<JsString>>)
      requires NotSubmitting()
      modifies this
      ensures NotSubmitting() && ErrorsAgree()
      ensures request.Some? <==> forall f: Field :: Validate(f, old(formData).Get(f)) == ""
      ensures request.Some? ==> request.value == old(formData)
      ensures request.Some? && outcome.Success? ==>
        formData == EmptyData && errors == NoErrors && touched == NoneTouched
      ensures !(request.Some? && outcome.Success?) ==>
        formData == old(formData) && errors == ValidateAll(old(formData)) && touched == AllTouched
    {
      touched := AllTouched;
      var newErrors := ValidateAll(formData);
      errors := newErrors;
      var hasErrors := exists e :: e in newErrors.Values() && e != "";
      request := None;
      if !hasErrors {
        isSubmitting := true;
        request := Some(formData);
        match outcome {
          case Success =>
            formData := EmptyData;
            errors := NoErrors;
            touched := NoneTouched;
          case Rejected(_) =>
          case Exception =>
        }
        isSubmitting := false;
      }
    }
  }

  /** A validator's verdict depends only on the trimmed value. */
  lemma ValidateDependsOnTrim(f: Field, value: JsString)
    ensures Validate(f, value) == Validate(f, Trim(value))
  {
    var t := Trim(value);
    TrimIdempotent(value);
    match f
    case CustomerName => assert ValidateCustomerName(t) == ValidateCustomerName(value);
    case City => assert ValidateCity(t) == ValidateCity(value);
    case ContactNumber => assert ValidateContactNumber(t) == ValidateContactNumber(value);
    case Email => assert ValidateEmail(t) == ValidateEmail(value);
    case Feedback => assert ValidateFeedback(t) == ValidateFeedback(value);
  }

  /** Under the invariant, a field's error is on screen exactly when the field
      has been touched and its current value fails its validator. */
  lemma ErrorShownIff(form: Form, f: Field)
    requires form.ErrorsAgree()
    ensures form.ErrorShown(f) <==> form.touched.Get(f) && Validate(f, form.formData.Get(f)) != ""
  {
  }

  /** Every field of an empty form fails with its "is required" message. */
  lemma EmptyFormErrors()
    ensures ValidateAll(EmptyData) ==
      Fields(NameRequired, CityRequired, ContactRequired, EmailRequired, FeedbackRequired)
    ensures forall f: Field :: ValidateAll(EmptyData).Get(f) == RequiredMessage(f) != ""
  {
    assert forall f: Field :: AllWs(EmptyData.Get(f));
  }

  /** Submitting a freshly loaded form makes no request, touches every field
      and shows all five "is required" messages, whatever the relay would say. */
  method SubmitEmptyForm(outcome: SubmitOutcome) returns (form: Form, request: Option<Fields<JsString>>)
    ensures request == None
    ensures form.NotSubmitting() && form.formData == EmptyData && form.touched == AllTouched
    ensures form.errors == Fields(NameRequired, CityRequired, ContactRequired, EmailRequired, FeedbackRequired)
    ensures forall f: Field :: form.ErrorShown(f)
  {
    form := new Form();
    EmptyFormErrors();
    assert Validate(CustomerName, EmptyData.Get(CustomerName)) != "";
    request := form.HandleSubmit(outcome);
  }
}
