/**
 * The entities the pages share and the browser's local storage that holds
 * them. Storage is a map from key strings to typed items; JSON encoding is
 * not modelled, so what a page writes is exactly what a later read returns.
 */
module Storage {
  import opened Wrappers

  const USER_KEY := "verolix-user"
  const RECORDS_KEY := "verolix-records"
  const PROFILE_KEY := "verolix-profile"
  const RECENT_PATIENTS_KEY := "verolix-recent-patients"

  /** Client-side routes the pages navigate to. */
  const HOME_ROUTE := "/"
  const PATIENT_DASHBOARD_ROUTE := "/patient-dashboard"
  const DOCTOR_DASHBOARD_ROUTE := "/doctor-dashboard"
  const MY_RECORDS_ROUTE := "/my-records"

  /** Role names as stored in the session; a stored role is any string. */
  const PATIENT_ROLE := "patient"
  const DOCTOR_ROLE := "doctor"

  /** The session user: `{ id, email, name, role, patientId? }`. */
  datatype User = User(id: string, email: string, name: string, role: string, patientId: Option<string>)

  datatype RecordType = Prescription | LabResult | DoctorNote | PersonalInfo

  /** One medical-record entry; `fileName`, `doctor` and `details` are optional. */
  datatype MedicalRecord = MedicalRecord(
    id: string,
    kind: RecordType,
    title: string,
    fileName: Option<string>,
    date: string,
    doctor: Option<string>,
    details: Option<string>)

  /** The singleton patient profile. */
  datatype Profile = Profile(
    fullName: string,
    email: string,
    phone: string,
    dateOfBirth: string,
    gender: string,
    address: string,
    emergencyContact: string,
    medicalConditions: string,
    allergies: string)

  /** The four profile fields a doctor's patient snapshot carries. */
  datatype PatientSummary = PatientSummary(dateOfBirth: string, gender: string, medicalConditions: string, allergies: string)

  /** A doctor-side patient snapshot (`PatientData`). */
  datatype PatientData = PatientData(id: string, patientId: string, name: string, records: seq<MedicalRecord>, profile: PatientSummary)

  /** The value stored under one key. */
  datatype Item =
    | UserItem(user: User)
    | RecordsItem(records: seq<MedicalRecord>)
    | ProfileItem(profile: Profile)
    | RecentPatientsItem(patients: seq<PatientData>)

  type Items = map<string, Item>

  /** `localStorage.getItem("verolix-user")`, parsed; an item of another kind reads as absent. */
  function GetUser(items: Items): Option<User> {
    if USER_KEY in items && items[USER_KEY].UserItem? then Some(items[USER_KEY].user) else None
  }

  function GetRecords(items: Items): Option<seq<MedicalRecord>> {
    if RECORDS_KEY in items && items[RECORDS_KEY].RecordsItem? then Some(items[RECORDS_KEY].records) else None
  }

  function GetProfile(items: Items): Option<Profile> {
    if PROFILE_KEY in items && items[PROFILE_KEY].ProfileItem? then Some(items[PROFILE_KEY].profile) else None
  }

  function GetRecentPatients(items: Items): Option<seq<PatientData>> {
    if RECENT_PATIENTS_KEY in items && items[RECENT_PATIENTS_KEY].RecentPatientsItem? then
      Some(items[RECENT_PATIENTS_KEY].patients)
    else None
  }

  /** The browser's `localStorage`, one object shared by every page. */
  class LocalStorage {
    var items: Items

    constructor (initial: Items)
      ensures items == initial
    {
      items := initial;
    }

    /** `localStorage.setItem(key, value)`. */
    method SetItem(key: string, value: Item)
      modifies this
      ensures items == old(items)[key := value]
    {
      items := items[key := value];
    }

    /** `localStorage.removeItem(key)`. */
    method RemoveItem(key: string)
      modifies this
      ensures items == old(items) - {key}
    {
      items := items - {key};
    }
  }
}
