/**
 * The login and registration form: first-failure validation, the fabricated
 * session user, the session write and the dashboard route.
 */
module Auth {
  import opened Wrappers
  import opened Text
  import opened Storage
  import Email

  /** The login tab the form was submitted from. */
  datatype Role = Patient | Doctor

  function RoleName(r: Role): string {
    if r == Patient then PATIENT_ROLE else DOCTOR_ROLE
  }

  /** Where a successful login of the given tab navigates. */
  function LoginRoute(r: Role): (route: string)
    ensures route == PATIENT_DASHBOARD_ROUTE <==> r == Patient
    ensures route == PATIENT_DASHBOARD_ROUTE || route == DOCTOR_DASHBOARD_ROUTE
  {
    if r == Patient then PATIENT_DASHBOARD_ROUTE else DOCTOR_DASHBOARD_ROUTE
  }

  /** The validation failures, each reported by its own error toast. */
  datatype AuthError = MissingCredentials | MissingFields | NameTooShort | InvalidEmail | PasswordTooShort

  const MIN_PASSWORD_LENGTH := 6
  const MIN_NAME_LENGTH := 2

  /** Login validation: presence first, then the e-mail pattern, then the password length. */
  function CheckLogin(email: string, password: string): (r: Option<AuthError>)
    ensures r == Some(MissingCredentials) <==> email == "" || password == ""
    ensures r == Some(InvalidEmail) <==>
      email != "" && password != "" && !Email.MatchesEmailPattern(email)
    ensures r == Some(PasswordTooShort) <==>
      email != "" && password != "" && Email.MatchesEmailPattern(email) && |password| < MIN_PASSWORD_LENGTH
    ensures r == None <==> Email.MatchesEmailPattern(email) && |password| >= MIN_PASSWORD_LENGTH
  {
    Email.EmailCheckMatchesPattern(email);
    if email == "" || password == "" then Some(MissingCredentials)
    else if !Email.IsValidEmail(email) then Some(InvalidEmail)
    else if |password| < MIN_PASSWORD_LENGTH then Some(PasswordTooShort)
    else None
  }

  /** Registration validation: presence, then name length, then e-mail, then password length. */
  function CheckRegister(name: string, email: string, password: string): (r: Option<AuthError>)
    ensures r == Some(MissingFields) <==> name == "" || email == "" || password == ""
    ensures r == Some(NameTooShort) <==>
      name != "" && email != "" && password != "" && |name| < MIN_NAME_LENGTH
    ensures r == Some(InvalidEmail) <==>
      email != "" && password != "" && |name| >= MIN_NAME_LENGTH && !Email.MatchesEmailPattern(email)
    ensures r == Some(PasswordTooShort) <==>
      password != "" && |name| >= MIN_NAME_LENGTH && Email.MatchesEmailPattern(email)
      && |password| < MIN_PASSWORD_LENGTH
    ensures r == None <==>
      |name| >= MIN_NAME_LENGTH && Email.MatchesEmailPattern(email) && |password| >= MIN_PASSWORD_LENGTH
  {
    Email.EmailCheckMatchesPattern(email);
    if name == "" || email == "" || password == "" then Some(MissingFields)
    else if |name| < MIN_NAME_LENGTH then Some(NameTooShort)
    else if !Email.IsValidEmail(email) then Some(InvalidEmail)
    else if |password| < MIN_PASSWORD_LENGTH then Some(PasswordTooShort)
    else None
  }

  predicate IsDigit(c: char) {
    '0' <= c <= '9'
  }

  ghost predicate AllDigits(s: string) {
    forall k :: 0 <= k < |s| ==> IsDigit(s[k])
  }

  function DigitChar(d: nat): char
    requires d < 10
  {
    ('0' as int + d) as char
  }

  /** The decimal text JavaScript prints for a non-negative integer. */
  function DecimalString(n: nat): (r: string)
    ensures |r| > 0 && AllDigits(r)
  {
    if n < 10 then [DigitChar(n)] else DecimalString(n / 10) + [DigitChar(n % 10)]
  }

  /** The number a string of decimal digits denotes. */
  function DecimalValue(s: string): int
    requires AllDigits(s)
  {
    if s == [] then 0 else 10 * DecimalValue(s[..|s| - 1]) + (s[|s| - 1] as int - '0' as int)
  }

  function Pow10(k: nat): nat {
    if k == 0 then 1 else 10 * Pow10(k - 1)
  }

  lemma {:induction false} DecimalRoundTrip(n: nat)
    ensures DecimalValue(DecimalString(n)) == n
  {
    if n >= 10 {
      DecimalRoundTrip(n / 10);
      var r := DecimalString(n);
      assert r[..|r| - 1] == DecimalString(n / 10);
    }
  }

  /** A number with k+1 decimal digits prints as k+1 characters without a leading zero. */
  lemma {:induction false} DecimalLength(n: nat, k: nat)
    requires Pow10(k) <= n < Pow10(k + 1)
    ensures |DecimalString(n)| == k + 1 && DecimalString(n)[0] != '0'
  {
    if k > 0 {
      assert Pow10(k) == 10 * Pow10(k - 1);
      DecimalLength(n / 10, k - 1);
    }
  }

  /** `PID-` followed by five digits denoting a number in [10000, 99999]. */
  ghost predicate IsGeneratedPatientId(s: string) {
    && |s| == 9 && StartsWith(s, "PID-") && AllDigits(s[4..])
    && 10000 <= DecimalValue(s[4..]) <= 99999
  }

  /** `` `PID-${n}` `` for the random draw `n = Math.floor(10000 + Math.random() * 90000)`. */
  function PatientIdFor(n: int): (r: string)
    requires 10000 <= n <= 99999
    ensures IsGeneratedPatientId(r) && AllDigits(r[4..]) && DecimalValue(r[4..]) == n
  {
    var digits := DecimalString(n);
    DecimalRoundTrip(n);
    DecimalLength(n, 4);
    var r := "PID-" + digits;
    assert r[4..] == digits;
    r
  }

  /** `email.split('@')[0]`: everything before the first `@`. */
  function EmailName(email: string): (name: string)
    ensures StartsWith(email, name) && '@' !in name
    ensures |name| < |email| ==> email[|name|] == '@'
  {
    email[..IndexOf(email, '@')]
  }

  /** The user a successful login fabricates; `id` and `n` are the random oracles. */
  function LoginUser(id: string, email: string, role: Role, n: int): (u: User)
    requires 10000 <= n <= 99999
    ensures u.id == id && u.email == email && u.role == RoleName(role)
    ensures u.name == EmailName(email)
    ensures u.patientId.Some? <==> role == Patient
    ensures u.patientId.Some? ==> IsGeneratedPatientId(u.patientId.value)
  {
    User(id, email, EmailName(email), RoleName(role), if role == Patient then Some(PatientIdFor(n)) else None)
  }

  /** The user a successful registration fabricates: always a patient with a fresh patient id. */
  function RegisteredUser(id: string, name: string, email: string, n: int): (u: User)
    requires 10000 <= n <= 99999
    ensures u.id == id && u.email == email && u.name == name && u.role == PATIENT_ROLE
    ensures u.patientId.Some? && IsGeneratedPatientId(u.patientId.value)
  {
    User(id, email, name, PATIENT_ROLE, Some(PatientIdFor(n)))
  }

  /** A submit that passed validation and waits for its one-second timer. */
  datatype PendingAuth = PendingLogin(email: string, role: Role) | PendingRegister(name: string, email: string)

  function PendingUser(p: PendingAuth, id: string, n: int): User
    requires 10000 <= n <= 99999
  {
    match p
    case PendingLogin(email, role) => LoginUser(id, email, role, n)
    case PendingRegister(name, email) => RegisteredUser(id, name, email, n)
  }

  /** Where the completed submit navigates: registration always lands on the patient dashboard. */
  function PendingRoute(p: PendingAuth): (route: string)
    ensures route == PATIENT_DASHBOARD_ROUTE <==> p.PendingRegister? || p.role == Patient
    ensures route == PATIENT_DASHBOARD_ROUTE || route == DOCTOR_DASHBOARD_ROUTE
  {
    match p
    case PendingLogin(_, role) => LoginRoute(role)
    case PendingRegister(_, _) => PATIENT_DASHBOARD_ROUTE
  }

  /** The form's state: `isLoading`, and the timer a successful submit scheduled. */
  class AuthForm {
    var isLoading: bool
    var pending: Option<PendingAuth>

    ghost predicate Valid()
      reads this
    {
      isLoading <==> pending.Some?
    }

    constructor ()
      ensures Valid() && !isLoading
    {
      isLoading := false;
      pending := None;
    }

    /** `handleLogin`; the submit button is disabled while loading. A failure writes nothing. */
    method HandleLogin(email: string, password: string, role: Role) returns (error: Option<AuthError>)
      requires Valid() && !isLoading
      modifies this
      ensures Valid()
      ensures error == CheckLogin(email, password)
      ensures pending == if error.None? then Some(PendingLogin(email, role)) else None
    {
      isLoading := true;
      error := CheckLogin(email, password);
      if error.Some? {
        isLoading := false;
        return;
      }
      pending := Some(PendingLogin(email, role));
    }

    /** `handleRegister`; as for login, a failure writes nothing. */
    method HandleRegister(name: string, email: string, password: string) returns (error: Option<AuthError>)
      requires Valid() && !isLoading
      modifies this
      ensures Valid()
      ensures error == CheckRegister(name, email, password)
      ensures pending == if error.None? then Some(PendingRegister(name, email)) else None
    {
      isLoading := true;
      error := CheckRegister(name, email, password);
      if error.Some? {
        isLoading := false;
        return;
      }
      pending := Some(PendingRegister(name, email));
    }

    /** The timer fires: fabricate the user, store it under `verolix-user`, navigate. */
    method CompleteSubmit(id: string, n: int, store: LocalStorage) returns (user: User, route: string)
      requires Valid() && pending.Some? && 10000 <= n <= 99999
      modifies this, store
      ensures Valid() && !isLoading
      ensures user == PendingUser(old(pending).value, id, n)
      ensures route == PendingRoute(old(pending).value)
      ensures store.items == old(store.items)[USER_KEY := UserItem(user)]
    {
      isLoading := false;
      user := PendingUser(pending.value, id, n);
      store.SetItem(USER_KEY, UserItem(user));
      route := PendingRoute(pending.value);
      pending := None;
    }
  }
}
