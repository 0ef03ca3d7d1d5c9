/** The sign-up page of src/app/register/page.tsx: the form's fields, the
    confirmation field, an error text and a loading flag. A submit first clears
    the error, refuses mismatched or short passwords without sending anything,
    then posts the form and reports the server's error, or moves on to the
    login page. The asynchronous submit is split at the `await` into
    `SubmitStart` and `SubmitSettle`; navigation is recorded as a field. */
module RegisterPage {
  import opened Common
  import opened Types

  const MsgMismatch := "Passwords do not match"
  const MsgTooShort := "Password must be at least 8 characters long"
  const MsgFailed := "Registration failed"
  const MsgNetwork := "An error occurred. Please try again."
  const AfterSignUp := "/login?registered=true"
  const MinPasswordLength := 8

  /** The form's fields, all text (the gender select holds its value). */
  datatype RegisterForm = RegisterForm(
    email: string, password: string, firstName: string, lastName: string, gender: string,
    phoneNumber: string, dateOfBirth: string, country: string, city: string, address: string,
    postalCode: string)

  /** The `name` attributes of the inputs bound to `handleChange`. */
  datatype Field = Email | Password | FirstName | LastName | GenderField | PhoneNumber
                 | DateOfBirth | Country | City | Address | PostalCode

  /** The initial form: all fields empty except the gender, "MALE". */
  const InitialForm := RegisterForm("", "", "", "", "MALE", "", "", "", "", "", "")

  /** `{ ...formData, [name]: value }`. */
  function WithField(f: RegisterForm, name: Field, value: string): (r: RegisterForm)
    ensures name == Email ==> r == f.(email := value)
    ensures name == Password ==> r == f.(password := value)
    ensures name == FirstName ==> r == f.(firstName := value)
    ensures name == LastName ==> r == f.(lastName := value)
    ensures name == GenderField ==> r == f.(gender := value)
    ensures name == PhoneNumber ==> r == f.(phoneNumber := value)
    ensures name == DateOfBirth ==> r == f.(dateOfBirth := value)
    ensures name == Country ==> r == f.(country := value)
    ensures name == City ==> r == f.(city := value)
    ensures name == Address ==> r == f.(address := value)
    ensures name == PostalCode ==> r == f.(postalCode := value)
  {
    match name
    case Email => f.(email := value)
    case Password => f.(password := value)
    case FirstName => f.(firstName := value)
    case LastName => f.(lastName := value)
    case GenderField => f.(gender := value)
    case PhoneNumber => f.(phoneNumber := value)
    case DateOfBirth => f.(dateOfBirth := value)
    case Country => f.(country := value)
    case City => f.(city := value)
    case Address => f.(address := value)
    case PostalCode => f.(postalCode := value)
  }

  /** The client-side checks, in order: the confirmation must match, then the
      password must have at least 8 characters. `None` lets the form through. */
  function ClientError(password: string, confirmPassword: string): (e: Option<string>)
    ensures e == Some(MsgMismatch) <==> password != confirmPassword
    ensures e == Some(MsgTooShort) <==> password == confirmPassword && |password| < MinPasswordLength
    ensures e.None? <==> password == confirmPassword && |password| >= MinPasswordLength
  {
    if password != confirmPassword then Some(MsgMismatch)
    else if |password| < MinPasswordLength then Some(MsgTooShort)
    else None
  }

  /** Exactly eight characters pass; seven do not; a mismatch is reported
      even for a short password. */
  lemma PasswordLengthBoundary()
    ensures ClientError("abcdefgh", "abcdefgh") == None
    ensures ClientError("abcdefg", "abcdefg") == Some(MsgTooShort)
    ensures ClientError("abc", "abd") == Some(MsgMismatch)
  {
  }

  /** The JSON body sent: every field present, as typed. */
  function RequestBody(f: RegisterForm): (b: UserRegistration)
    ensures b.email == Some(f.email) && b.password == Some(f.password) && b.gender == Some(f.gender)
    ensures b.firstName == Some(f.firstName) && b.lastName == Some(f.lastName)
    ensures b.phoneNumber == Some(f.phoneNumber) && b.postalCode == Some(f.postalCode)
    ensures b.dateOfBirth == Some(f.dateOfBirth) && b.country == Some(f.country)
    ensures b.city == Some(f.city) && b.address == Some(f.address)
  {
    UserRegistration(Some(f.email), Some(f.password), Some(f.firstName), Some(f.lastName), Some(f.gender),
      Some(f.phoneNumber), Some(f.dateOfBirth), Some(f.country), Some(f.city), Some(f.address),
      Some(f.postalCode))
  }

  /** What the `fetch` produced: a response, whose JSON may carry an
      `error`, or an exception. */
  datatype FetchOutcome = Responded(ok: bool, error: Option<string>) | Threw

  /** `data.error || 'Registration failed'`. */
  function FailureText(error: Option<string>): (t: string)
    ensures Truthy(error) ==> t == error.value
    ensures !Truthy(error) ==> t == MsgFailed
  {
    if Truthy(error) then error.value else MsgFailed
  }

  class RegisterPage {
    var formData: RegisterForm
    var confirmPassword: string
    var error: string
    var loading: bool
    /** Where `router.push` sent the browser, if anywhere. */
    var navigatedTo: Option<string>

    constructor ()
      ensures formData == InitialForm && confirmPassword == "" && error == "" && !loading && navigatedTo == None
    {
      formData := InitialForm;
      confirmPassword := "";
      error := "";
      loading := false;
      navigatedTo := None;
    }

    method HandleChange(name: Field, value: string)
      modifies this
      ensures formData == WithField(old(formData), name, value)
      ensures confirmPassword == old(confirmPassword) && error == old(error) && loading == old(loading)
      ensures navigatedTo == old(navigatedTo)
    {
      formData := WithField(formData, name, value);
    }

    /** The confirmation input's own handler. */
    method SetConfirmPassword(value: string)
      modifies this
      ensures confirmPassword == value
      ensures formData == old(formData) && error == old(error) && loading == old(loading)
      ensures navigatedTo == old(navigatedTo)
    {
      confirmPassword := value;
    }

    /** `handleSubmit` up to the `await`: the body posted, or nothing when a
        client check fails, in which case its message is shown. */
    method SubmitStart() returns (sent: Option<UserRegistration>)
      modifies this
      ensures formData == old(formData) && confirmPassword == old(confirmPassword)
      ensures navigatedTo == old(navigatedTo)
      ensures ClientError(old(formData).password, old(confirmPassword)).Some? ==>
        sent == None && error == ClientError(old(formData).password, old(confirmPassword)).value
        && loading == old(loading)
      ensures ClientError(old(formData).password, old(confirmPassword)).None? ==>
        sent == Some(RequestBody(old(formData))) && error == "" && loading
    {
      error := "";
      if formData.password != confirmPassword {
        error := MsgMismatch;
        return None;
      }
      if |formData.password| < MinPasswordLength {
        error := MsgTooShort;
        return None;
      }
      loading := true;
      sent := Some(RequestBody(formData));
    }

    /** `handleSubmit` after the `await`: an error response shows the
        server's message or the fallback, an exception shows the generic
        message (both end loading), and success goes to the login page. */
    method SubmitSettle(outcome: FetchOutcome)
      modifies this
      ensures formData == old(formData) && confirmPassword == old(confirmPassword)
      ensures outcome.Responded? && !outcome.ok ==>
        error == FailureText(outcome.error) && !loading && navigatedTo == old(navigatedTo)
      ensures outcome.Threw? ==> error == MsgNetwork && !loading && navigatedTo == old(navigatedTo)
      ensures outcome.Responded? && outcome.ok ==>
        navigatedTo == Some(AfterSignUp) && error == old(error) && loading == old(loading)
    {
      match outcome
      case Threw =>
        error := MsgNetwork;
        loading := false;
      case Responded(ok, e) =>
        if !ok {
          error := FailureText(e);
          loading := false;
          return;
        }
        navigatedTo := Some(AfterSignUp);
    }
  }

  /** The default gender is one the registration handler accepts, so a form
      left at its default never fails the gender check. */
  lemma DefaultGenderAccepted()
    ensures ParseGender(RequestBody(InitialForm).gender.value) == Some(MALE)
  {
  }
}
