/** The navigation bar: role-dependent links, logout and the mobile menu. */
module Nav {
  import opened Wrappers
  import opened Storage
  import Auth
  import PatientHome
  import Doctor
  import Landing

  /** The Dashboard link: the patient dashboard for role patient, the doctor dashboard otherwise. */
  function DashboardLink(u: User): (route: string)
    ensures route == PATIENT_DASHBOARD_ROUTE <==> u.role == PATIENT_ROLE
    ensures route == PATIENT_DASHBOARD_ROUTE || route == DOCTOR_DASHBOARD_ROUTE
  {
    if u.role == PATIENT_ROLE then PATIENT_DASHBOARD_ROUTE else DOCTOR_DASHBOARD_ROUTE
  }

  /** The My Records link is shown to patients only. */
  predicate ShowsMyRecords(u: User)
    ensures ShowsMyRecords(u) <==> DashboardLink(u) == PATIENT_DASHBOARD_ROUTE
    ensures ShownPatientId(u).Some? ==> ShowsMyRecords(u)
  {
    u.role == PATIENT_ROLE
  }

  /** `user.role === "patient" && user.patientId`: a present but empty id is not shown. */
  function ShownPatientId(u: User): (shown: Option<string>)
    ensures shown.Some? <==> u.role == PATIENT_ROLE && u.patientId.Some? && u.patientId.value != ""
    ensures shown.Some? ==> shown == u.patientId
  {
    if u.role == PATIENT_ROLE && u.patientId.Some? && u.patientId.value != "" then u.patientId else None
  }

  /** A freshly logged-in user sees the dashboard the login navigated to, and patient extras by tab. */
  lemma LoginAgreesWithNavbar(id: string, email: string, role: Auth.Role, n: int)
    requires 10000 <= n <= 99999
    ensures var u := Auth.LoginUser(id, email, role, n);
      && DashboardLink(u) == Auth.LoginRoute(role)
      && (ShowsMyRecords(u) <==> role == Auth.Patient)
      && (ShownPatientId(u).Some? <==> role == Auth.Patient)
  {
  }

  /** A freshly registered user is a patient whose id the navbar shows. */
  lemma RegistrationAgreesWithNavbar(id: string, name: string, email: string, n: int)
    requires 10000 <= n <= 99999
    ensures var u := Auth.RegisteredUser(id, name, email, n);
      DashboardLink(u) == PATIENT_DASHBOARD_ROUTE && ShowsMyRecords(u) && ShownPatientId(u) == u.patientId
  {
  }

  /** After logout both dashboards send the visitor home, the landing page stays, and the other stores are intact. */
  lemma LogoutEndsSession(items: Items)
    ensures var after := items - {USER_KEY};
      && GetUser(after) == None
      && PatientHome.PatientGuard(after) == Some(HOME_ROUTE)
      && Doctor.DoctorGuard(after) == Some(HOME_ROUTE)
      && Landing.RedirectTarget(after) == None
      && GetRecords(after) == GetRecords(items)
      && GetProfile(after) == GetProfile(items)
      && GetRecentPatients(after) == GetRecentPatients(items)
  {
  }

  class Navbar {
    var user: Option<User>
    var isMenuOpen: bool

    /** The mount effect reads the session. */
    constructor (store: LocalStorage)
      ensures user == GetUser(store.items) && !isMenuOpen
    {
      user := GetUser(store.items);
      isMenuOpen := false;
    }

    /** `handleLogout`: remove only the session key, forget the user, go home. */
    method HandleLogout(store: LocalStorage) returns (route: string)
      modifies this`user, store
      ensures store.items == old(store.items) - {USER_KEY}
      ensures user == None && route == HOME_ROUTE && isMenuOpen == old(isMenuOpen)
    {
      store.RemoveItem(USER_KEY);
      user := None;
      route := HOME_ROUTE;
    }

    method ToggleMenu()
      modifies this`isMenuOpen
      ensures isMenuOpen == !old(isMenuOpen)
    {
      isMenuOpen := !isMenuOpen;
    }

    method CloseMenu()
      modifies this`isMenuOpen
      ensures !isMenuOpen
    {
      isMenuOpen := false;
    }

    /** The mobile menu's logout button: log out, then close the menu. */
    method HandleMobileLogout(store: LocalStorage) returns (route: string)
      modifies this, store
      ensures store.items == old(store.items) - {USER_KEY}
      ensures user == None && route == HOME_ROUTE && !isMenuOpen
    {
      route := HandleLogout(store);
      CloseMenu();
    }
  }
}
