/** The registration form: the ordered checks before sign-up and where a
    successful sign-up leads (src/components/auth/registration-form.tsx). */
module RegistrationForm {
  import opened Wrappers

  datatype Role = Student | Teacher

  /** What `signUp` came back with: a result with a session, one without,
      or a thrown error with or without a message. */
  datatype SignupOutcome = WithSession | WithoutSession | Thrown(message: Option<string>)

  /** A call of `signUp(email, password, role, name)`. */
  datatype SignupCall = SignupCall(email: string, password: string, role: Role, name: string)

  const FillAllError: string := "Please fill all required fields."
  const MismatchError: string := "Passwords do not match."
  const SignupFailed: string := "Signup failed."
  const TutorHome: string := "/tutor-dashboard"
  const LearnerHome: string := "/learner-dashboard"
  const LoginPage: string := "/login"

  /** The checks in their order: a missing email, password or
      confirmation first, then a mismatch. The name is not checked. */
  function Validate(email: string, password: string, confirmPassword: string): (err: Option<string>)
    ensures err == Some(FillAllError) <==> email == "" || password == "" || confirmPassword == ""
    ensures err == Some(MismatchError) <==>
      email != "" && password != "" && confirmPassword != "" && password != confirmPassword
    ensures err.None? <==> email != "" && password != "" && password == confirmPassword
  {
    if email == "" || password == "" || confirmPassword == "" then Some(FillAllError)
    else if password != confirmPassword then Some(MismatchError)
    else None
  }

  /** Where a sign-up that did not throw leads: with a session, the home of
      the role; without one, the login page. */
  function Destination(role: Role, signedIn: bool): (path: string)
    ensures signedIn && role == Teacher ==> path == TutorHome
    ensures signedIn && role != Teacher ==> path == LearnerHome
    ensures !signedIn ==> path == LoginPage
  {
    if signedIn then (if role == Teacher then TutorHome else LearnerHome) else LoginPage
  }

  /** The calls made to the sign-up service. */
  class SignupLog {
    var calls: seq<SignupCall>

    constructor ()
      ensures calls == []
    {
      calls := [];
    }
  }

  class RegisterForm {
    var name: string
    var email: string
    var password: string
    var confirmPassword: string
    var role: Role
    var loading: bool
    var error: Option<string>

    /** All fields empty, the role a student. */
    constructor ()
      ensures name == "" && email == "" && password == "" && confirmPassword == ""
      ensures role == Student && !loading && error.None?
    {
      name := "";
      email := "";
      password := "";
      confirmPassword := "";
      role := Student;
      loading := false;
      error := None;
    }

    /** The inputs and the role select. */
    method SetFields(name0: string, email0: string, password0: string, confirm0: string, role0: Role)
      modifies this
      ensures name == name0 && email == email0 && password == password0
      ensures confirmPassword == confirm0 && role == role0
      ensures loading == old(loading) && error == old(error)
    {
      name := name0;
      email := email0;
      password := password0;
      confirmPassword := confirm0;
      role := role0;
    }

    /** `handleSubmit`: a failed check sets its message and calls nothing;
        otherwise one sign-up call, then a route or the thrown message
        (`"Signup failed."` when it has none). `outcome` is what the call
        came back with. */
    method HandleSubmit(outcome: SignupOutcome, log: SignupLog) returns (navigateTo: Option<string>)
      modifies this, log
      ensures name == old(name) && email == old(email) && password == old(password)
      ensures confirmPassword == old(confirmPassword) && role == old(role)
      ensures Validate(email, password, confirmPassword).Some? ==>
        error == Validate(email, password, confirmPassword) && navigateTo.None?
        && log.calls == old(log.calls) && loading == old(loading)
      ensures Validate(email, password, confirmPassword).None? ==>
        log.calls == old(log.calls) + [SignupCall(email, password, role, name)] && !loading
      ensures Validate(email, password, confirmPassword).None? && !outcome.Thrown? ==>
        error.None? && navigateTo == Some(Destination(role, outcome.WithSession?))
      ensures Validate(email, password, confirmPassword).None? && outcome.Thrown? ==>
        error == Some(outcome.message.GetOr(SignupFailed)) && navigateTo.None?
    {
      error := None;
      var invalid := Validate(email, password, confirmPassword);
      if invalid.Some? {
        error := invalid;
        return None;
      }
      loading := true;
      log.calls := log.calls + [SignupCall(email, password, role, name)];
      match outcome {
        case WithSession =>
          navigateTo := Some(if role == Teacher then TutorHome else LearnerHome);
        case WithoutSession =>
          navigateTo := Some(LoginPage);
        case Thrown(message) =>
          error := Some(message.GetOr(SignupFailed));
          navigateTo := None;
      }
      loading := false;
    }
  }
}
