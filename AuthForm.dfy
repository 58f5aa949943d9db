/**
 * The authentication form (src/components/AuthForm.tsx): a login/signup mode, the form
 * fields, and a submission that hands a user record to the `onLogin` callback when the
 * mode's required fields are filled in. A string field counts as filled in when it is
 * non-empty (JavaScript truthiness); the form does not trim.
 */
module AuthForm {
  import opened Wrappers

  /** The form's state; `hostRating` has no input and keeps its initial value. */
  datatype FormData = FormData(
    name: string,
    email: string,
    age: string,
    university: string,
    profilePicture: string,
    hostRating: real)

  const InitialForm := FormData("", "", "", "", "", 5.0)

  /** The inputs wired to `handleInputChange`, by their `name` attribute. */
  datatype Field = Name | Email | Age | University | ProfilePicture

  function FieldValue(f: FormData, field: Field): string {
    match field
    case Name => f.name
    case Email => f.email
    case Age => f.age
    case University => f.university
    case ProfilePicture => f.profilePicture
  }

  /** The record passed to `onLogin`. `totalRatings` is present on signup records only. */
  datatype User = User(
    id: int,
    name: string,
    email: string,
    age: string,
    university: string,
    profilePicture: string,
    hostRating: real,
    totalRatings: Option<nat>,
    joinedAt: string)

  /** The transient notice a submission raises; a failed login raises none. */
  datatype Notice = NoNotice | WelcomeBack | AccountCreated | MissingInformation

  /** Login needs an email and a name. */
  predicate LoginComplete(f: FormData) {
    f.email != "" && f.name != ""
  }

  /** Signup needs a name, an email, an age and a university. */
  predicate SignupComplete(f: FormData) {
    f.name != "" && f.email != "" && f.age != "" && f.university != ""
  }

  /** `{...formData, id, joinedAt}`: the login record. */
  function LoginRecord(f: FormData, id: int, joinedAt: string): User {
    User(id, f.name, f.email, f.age, f.university, f.profilePicture, f.hostRating, None, joinedAt)
  }

  /** `{...formData, id, joinedAt, hostRating: 5.0, totalRatings: 0}`: the signup record. */
  function SignupRecord(f: FormData, id: int, joinedAt: string): User {
    User(id, f.name, f.email, f.age, f.university, f.profilePicture, 5.0, Some(0), joinedAt)
  }

  class AuthFormState {
    var isLogin: bool
    var form: FormData

    /** No input writes `hostRating`, so it keeps the initial 5.0. */
    ghost predicate Valid()
      reads this
    {
      form.hostRating == 5.0
    }

    /** The form opens in login mode with every field empty. */
    constructor ()
      ensures Valid()
      ensures isLogin && form == InitialForm
    {
      isLogin := true;
      form := InitialForm;
    }

    /** `handleInputChange`: the named field takes the value; every other field is unchanged. */
    method InputChange(field: Field, value: string)
      requires Valid()
      modifies this
      ensures Valid()
      ensures FieldValue(form, field) == value
      ensures forall g :: g != field ==> FieldValue(form, g) == FieldValue(old(form), g)
      ensures form.hostRating == old(form.hostRating) && isLogin == old(isLogin)
    {
      match field
      case Name => form := form.(name := value);
      case Email => form := form.(email := value);
      case Age => form := form.(age := value);
      case University => form := form.(university := value);
      case ProfilePicture => form := form.(profilePicture := value);
    }

    /** The login/signup tab switch: login mode exactly when the tab value is "login". */
    method SwitchTab(value: string)
      requires Valid()
      modifies this
      ensures Valid()
      ensures isLogin == (value == "login") && form == old(form)
    {
      isLogin := value == "login";
    }

    /**
     * `handleSubmit`. `onLogin` receives a record exactly when the current mode's required
     * fields are filled in; a signup record is stamped with rating 5.0 and no ratings yet.
     * A failed login is silent; a failed signup raises "Missing information". The clock
     * readings for `id` and `joinedAt` are parameters.
     */
    method HandleSubmit(id: int, joinedAt: string) returns (onLogin: Option<User>, notice: Notice)
      ensures onLogin.Some? <==> (if isLogin then LoginComplete(form) else SignupComplete(form))
      ensures onLogin.Some? ==>
        var u := onLogin.value;
        u.id == id && u.joinedAt == joinedAt && u.name == form.name && u.email == form.email
        && u.age == form.age && u.university == form.university
        && u.profilePicture == form.profilePicture
      ensures onLogin.Some? && isLogin ==>
        onLogin.value.hostRating == form.hostRating && onLogin.value.totalRatings == None
      ensures onLogin.Some? && !isLogin ==>
        onLogin.value.hostRating == 5.0 && onLogin.value.totalRatings == Some(0)
      ensures Valid() && onLogin.Some? ==> onLogin.value.hostRating == 5.0
      ensures isLogin ==> notice == (if onLogin.Some? then WelcomeBack else NoNotice)
      ensures !isLogin ==> notice == (if onLogin.Some? then AccountCreated else MissingInformation)
    {
      onLogin, notice := None, NoNotice;
      if isLogin {
        if LoginComplete(form) {
          onLogin := Some(LoginRecord(form, id, joinedAt));
          notice := WelcomeBack;
        }
      } else {
        if SignupComplete(form) {
          onLogin := Some(SignupRecord(form, id, joinedAt));
          notice := AccountCreated;
        } else {
          notice := MissingInformation;
        }
      }
    }
  }
}
